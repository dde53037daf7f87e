# A verified model of the Top University Territian link site

The site is a small search-style landing page backed by browser storage and two database tables:

- **Landing page.** It shows search buttons in `order`. With nothing stored, it shows five default buttons and stores them. A click opens the button's external link, or navigates to the results page `/wr=<page>`.
- **Results page** (`/wr=<page>`). It reads the page key from the path and lists the stored web results of that page. The results are split into a sponsored and a regular section. Each result shows a short link carrying its public numeric id, the `lid`.
- **Redirect page.** It reads a `lid` from the path and finds the first stored result with that lid. It then sends the browser to that result's link, or to the site root.
- **Admin panel.** It adds and deletes buttons, which are re-sorted by `order` on every add. It also adds, deletes and patches web results. An added result gets the next lid: one past the largest lid in the current list. Every change is written back to storage.
- **Client tracking.** It keeps a per-tab session id (get-or-create in session storage). It keeps one `sessions` row per session, counting page views and clicks, and one `click_logs` row per click, with the time spent since the session started.
- **The `get-user-info` edge function.** It classifies a request:
  - client IP from the forwarding headers;
  - user agent;
  - device class by mobile tokens;
  - traffic source by referer substrings, in a fixed priority;
  - country from one geolocation answer.

Modules:

| module | file | models |
|---|---|---|
| `JsText` | JsText.dfy | The JavaScript built-ins the pages rely on: truthiness, `a \|\| b`, `split` on one character, `includes`, ASCII `toLowerCase`, `substring(start)`, `String(n)` and `parseInt` (NaN as `None`), with their round-trip lemmas |
| `Seqs` | Seqs.dfy | `filter` and the stable `sort` by a numeric key, with membership, multiplicity, order and stability lemmas |
| `Records` | Records.dfy | The `SearchButton` and `WebResultData` records, the sort by `order`, and `LocalStore`, the decoded `localStorage` entries |
| `Admin` | Admin.dfy | The admin panel: pure list operations and the `AdminPanel` class whose handlers replace its lists and write them to the store |
| `WebResult` | WebResult.dfy | The results page: page key, listing, sections, defaults and the short link |
| `Landing` | Landing.dfy | The landing page: button loading, defaults and the click target |
| `LinkRedirect` | LinkRedirect.dfy | The redirect decision |
| `GetUserInfo` | GetUserInfo.dfy | The edge function's classification of a request |
| `Tracking` | Tracking.dfy | The session id, and the `sessions` and `click_logs` tables, as pure steps and as the `Tracker` class |

The clock (`Date.now()`, `new Date()`), `Math.random()`, the geolocation request and the request headers are parameters.

## Model

| member | source | states |
|---|---|---|
| Admin.NewButton | src/pages/Admin.tsx:97-103 | The id is the clock reading. Title, link and page are copied from the form. A non-zero parsed number is the order; a text that parses to NaN or to 0 gives count + 1 |
| Admin.WithButton | src/pages/Admin.tsx:105 | The list after an add is sorted by `order` and is a permutation of the old list plus the new button |
| Admin.WithoutButtonKeepsOthers | src/pages/Admin.tsx:117 | Deleting a button keeps exactly the buttons with another id, each as often as before, in their old order |
| Admin.MaxLid | src/pages/Admin.tsx:130 | For a non-empty list, the result bounds every lid and is the lid of some record |
| Admin.NextLid | src/pages/Admin.tsx:130-131 | The next lid is 1 for an empty list; otherwise it is greater than every lid and exactly one past some lid |
| Admin.NewResultKeepsLidsDistinct | src/pages/Admin.tsx:130-145 | Appending the new record keeps the lids pairwise distinct |
| Admin.WithoutResultKeepsOthers | src/pages/Admin.tsx:160 | Deleting a result keeps exactly the results with another id, each as often as before, in their old order |
| Admin.WithoutResultDistinct | src/pages/Admin.tsx:160 | Deleting results keeps distinct lids distinct |
| Admin.DeletedLidIsReissued | src/pages/Admin.tsx:130-160 | Add a result, delete it, add again: the second add hands out the same lid. Lids are fresh only with respect to the current list |
| Admin.DeleteLastAdded | src/pages/Admin.tsx:145-160 | Deleting the id of the record just appended, when no other record had it, restores the previous list |
| Admin.ApplyPatchFacts | src/pages/Admin.tsx:167 | Title-only and link-only patches change that field alone (these are the edit form's patches, Admin.tsx:430-434). The empty patch changes nothing. Patching twice is patching once |
| Admin.PatchById | src/pages/Admin.tsx:167 | The length is preserved. Records with another id are unchanged. Each record with the id becomes `{ ...r, ...patch }`: the supplied fields replace its own, and every other field is kept |
| Admin.PatchByIdKeepsLids | src/pages/Admin.tsx:166-167 | A patch without a lid keeps every lid, and so keeps lids distinct. Matching records carry the supplied title or link |
| Admin.AdminPanel.constructor | src/pages/Admin.tsx:69-84 | Mounting loads both lists from storage; a missing key gives an empty list |
| Admin.AdminPanel.AddSearchButton | src/pages/Admin.tsx:91-114 | An empty title is rejected and changes nothing. Otherwise the new list is `WithButton` of the old list and `NewButton`, and it is stored. Results are untouched |
| Admin.AdminPanel.DeleteSearchButton | src/pages/Admin.tsx:116-121 | The new list is the old one without that id, and it is stored |
| Admin.AdminPanel.AddWebResult | src/pages/Admin.tsx:123-157 | Accepted iff name, title and link are all non-empty. It appends exactly one record, with lid `NextLid`, and returns that lid. It stores the list and keeps lids distinct. A rejected form changes nothing |
| Admin.AdminPanel.DeleteWebResult | src/pages/Admin.tsx:159-164 | The new list is the old one without that id, and it is stored. Lids stay distinct |
| Admin.AdminPanel.UpdateWebResult | src/pages/Admin.tsx:166-172 | The new list is `PatchById` of the old one, and it is stored. Lids stay distinct when the patch carries none |
| Records.SortByOrder | src/pages/Landing.tsx:35 | `sort` by `order` gives a list in non-decreasing order that is a permutation of its input |
| Records.SortByOrderStable | src/pages/Landing.tsx:35 | Buttons with equal `order` keep their stored relative order |
| Seqs.SortByStable | src/pages/Admin.tsx:105 | A stable insertion sort keeps, for each key value, the subsequence of elements with that key |
| Seqs.FilterPartition | src/pages/WebResult.tsx:32-33 | Filtering by a predicate and by its negation splits a list: the multiset union is the list, and no element is in both |
| JsText.NumberOrElse | src/pages/Admin.tsx:101 | `parseInt(x) \|\| d` falls through to `d` on NaN and on 0, and is the parsed number otherwise |
| JsText.ParseIntToString | src/pages/LinkRedirect.tsx:14 | `parseInt` reads back every integer rendered by `String(n)` |
| JsText.SplitPartOne | src/pages/WebResult.tsx:24 | `split("=")[1]` is the text between the first and the second `=` |
| WebResult.PageKey | src/pages/WebResult.tsx:24 | The page key is never empty and contains no `=` |
| WebResult.PageKeySegment | src/pages/WebResult.tsx:24 | The key is the segment after the first `=` (up to the next `=`), or "1" when that segment is empty |
| WebResult.PageKeyWithoutEquals | src/pages/WebResult.tsx:24 | A path without `=` has key "1" |
| WebResult.StoredListingIsPageFilter | src/pages/WebResult.tsx:27-31 | With stored results, the page lists exactly the stored results of that page, each as often as stored, in stored order |
| WebResult.NoResultsIffNoneOnPage | src/pages/WebResult.tsx:154-156 | "No results found" shows iff no stored result belongs to the page |
| WebResult.SectionsPartitionListing | src/pages/WebResult.tsx:30-33 | The sponsored and regular sections are disjoint, each keeps page order, and together they hold every listed result exactly once |
| WebResult.DefaultListing | src/pages/WebResult.tsx:36-62 | With nothing stored, page "1" lists MIT (lid 1, sponsored) then Stanford (lid 2, regular), and every other page is empty |
| WebResult.ShortLink | src/pages/WebResult.tsx:93 | The link as written starts with `/lid/`, the lid reads back after that prefix, and the link contains no `=` |
| WebResult.RedirectLink | src/pages/WebResult.tsx:96 | The corrected form `/lid=<lid>`: the lid reads back after the `=`, and there is no further `=` |
| WebResult.PrefixedNumber | src/pages/WebResult.tsx:93-96 | A number rendered after a fixed prefix reads back from just after the prefix |
| Landing.LoadedButtonsOrdered | src/pages/Landing.tsx:32-35 | Stored buttons are shown in non-decreasing order, as a permutation of what was stored, with equal orders in stored order, and nothing is written |
| Landing.DefaultButtonsShape | src/pages/Landing.tsx:36-46 | With nothing stored: five buttons with orders 1 to 5, pages "1" to "5" and no links, and that list is written back |
| Landing.ButtonTargetReachesItsPage | src/pages/Landing.tsx:49-55 | A button with a link opens it in a new window. Otherwise the page navigates to a path whose page key is the button's page ("1" if empty) |
| Landing.DefaultButtonsReachTheirPages | src/pages/Landing.tsx:37-53 | Each default button leads to the results page with its own number |
| LinkRedirect.FirstWithLid | src/pages/LinkRedirect.tsx:19 | `find` by strict equality: the first index whose lid equals the parsed number. NaN matches nothing |
| LinkRedirect.RedirectTarget | src/pages/LinkRedirect.tsx:7-29 | The target is "/" or the non-empty link of a stored result |
| LinkRedirect.NoLidGoesHome | src/pages/LinkRedirect.tsx:8-12 | A path with no `=`, or with nothing after it, redirects to "/" |
| LinkRedirect.NothingStoredGoesHome | src/pages/LinkRedirect.tsx:26-28 | With no stored results, every path redirects to "/" |
| LinkRedirect.FirstMatchDecides | src/pages/LinkRedirect.tsx:14-25 | For `<before>=<id>`, the first result with the parsed lid decides: its link if non-empty, else "/", whatever later results hold. No match, or NaN, gives "/" |
| LinkRedirect.RedirectToFirst | src/pages/LinkRedirect.tsx:8-25 | A path `<before>=<id>` whose id parses to a lid goes to the first result with that lid: its link when non-empty, else "/" |
| LinkRedirect.RedirectLinkTarget | src/pages/LinkRedirect.tsx:8-25 | `/lid=<lid>` goes where the first stored result with that lid says |
| LinkRedirect.FirstWithLidIs | src/pages/LinkRedirect.tsx:19 | The first record with a lid is the one `find` returns |
| LinkRedirect.ShortLinkGoesHome | src/pages/WebResult.tsx:93 | The link the results page writes always redirects to "/", whatever is stored |
| LinkRedirect.RedirectLinkReachesRecord | src/pages/LinkRedirect.tsx:8-22 | `/lid=<lid>` reaches the first stored result with that lid whenever its link is non-empty |
| GetUserInfo.ClientIp | supabase/functions/get-user-info/index.ts:17-19 | The IP is never empty |
| GetUserInfo.ClientIpFirstHop | supabase/functions/get-user-info/index.ts:17 | With a forwarding chain, the IP is the untrimmed text before its first comma |
| GetUserInfo.ClientIpSingleHop | supabase/functions/get-user-info/index.ts:17 | A chain without a comma is the IP as it is |
| GetUserInfo.ClientIpFallback | supabase/functions/get-user-info/index.ts:17-19 | With no chain, or a chain whose first entry is empty (an empty header or a leading comma, by `EmptyFirstHop`), the IP is the real-ip header, or "unknown" when that is missing or empty |
| GetUserInfo.EmptyFirstHop | supabase/functions/get-user-info/index.ts:17 | An empty header and one that starts with a comma both have an empty first entry, so both fall back |
| GetUserInfo.UserAgent | supabase/functions/get-user-info/index.ts:21 | The user agent is the header when it is present and non-empty. A missing or empty header gives "unknown" |
| GetUserInfo.DeviceOf | supabase/functions/get-user-info/index.ts:24-25 | Mobile iff the lower-cased user agent contains mobile, android, iphone, ipad or ipod |
| GetUserInfo.DeviceIgnoresCase | supabase/functions/get-user-info/index.ts:24 | The device class ignores letter case |
| GetUserInfo.IPhoneIsMobile | supabase/functions/get-user-info/index.ts:24 | Any user agent that contains "iPhone" is Mobile |
| GetUserInfo.SourceOf | supabase/functions/get-user-info/index.ts:43-50 | First matching rule wins, each stated as an iff. Direct iff the referer is empty. Google iff it contains "google". Facebook iff "facebook" and not "google". Twitter iff "twitter" or "t.co", and neither earlier token. LinkedIn iff "linkedin" and no earlier token. Referral iff the referer is non-empty and contains none of the tokens |
| GetUserInfo.SourcePriority | supabase/functions/get-user-info/index.ts:44-49 | The rules go in order: google, then facebook, then "twitter" or "t.co", then linkedin. A referer naming several tokens gets the earliest rule |
| GetUserInfo.LabelsAreFixed | supabase/functions/get-user-info/index.ts:25-49 | Device and source labels come from fixed sets |
| GetUserInfo.CountryOf | supabase/functions/get-user-info/index.ts:28-40 | The country is never empty. It is "Unknown" when the lookup fails or is not OK. On an OK answer it is the country name when that is non-empty, else the country code when that is non-empty, else "Unknown" |
| GetUserInfo.Resolve | supabase/functions/get-user-info/index.ts:52-59 | IP, country and user agent are non-empty, and labels come from the fixed sets. The source is "direct" iff the referer is missing or empty |
| Tracking.StoredSessionId | src/lib/tracking.ts:13-14 | A stored id counts only when it is present and non-empty |
| Tracking.NewSessionId | src/lib/tracking.ts:15 | A new id starts with `session_`. Its `_`-separated fields are the word, the clock and the random tail |
| Tracking.SessionIdFields | src/lib/tracking.ts:15 | The id's three fields read back by `split("_")` |
| Tracking.LookupSessionId | src/lib/tracking.ts:12-20 | A stored id is returned and nothing is written. Otherwise a `session_` id is returned, the start time is stored, and other keys are untouched. Afterwards the stored id is the returned one |
| Tracking.LookupSessionIdIdempotent | src/lib/tracking.ts:12-20 | A second call returns the same id and writes nothing |
| Tracking.NewSessionMeasuresFromStart | src/lib/tracking.ts:17-95 | The start time written with a new id gives time spent `now - start` at a later click |
| Tracking.TimeSpent | src/lib/tracking.ts:94-95 | Time spent is `now - start` for a non-zero parsed start, else 0 (missing, empty, NaN or 0) |
| Tracking.ZeroStartIsNoStart | src/lib/tracking.ts:94 | The default text "0" parses to 0 |
| Tracking.TimeSpentCanBeNegative | src/lib/tracking.ts:95 | Time spent is not clamped: a start later than the clock gives a negative value |
| Tracking.RecordPageView | src/lib/tracking.ts:48-84 | Without user info nothing changes. An existing row gets one more page view and a fresh activity time, with clicks and context kept. A new row gets 1 view, 0 clicks and the given context. Other rows are unchanged |
| Tracking.PageViewsCount | src/lib/tracking.ts:59-79 | N page views with user info leave the row with N more views (N in all when new), its clicks and context kept. Other rows are unchanged |
| Tracking.RecordClick | src/lib/tracking.ts:98-125 | One click row is appended. The session's clicks go up by 1, with a fresh activity time, only when its row exists. No row is created, and other rows are unchanged |
| Tracking.ClicksCount | src/lib/tracking.ts:98-125 | N clicks append N rows, in order, with the earlier rows kept. The session count grows by N when its row exists; otherwise no session row changes |
| Tracking.ViewThenClickIsCounted | src/lib/tracking.ts:59-125 | After a page view with user info, a click is counted on that session |
| Tracking.Tracker.constructor | src/lib/tracking.ts:12-13 | The tracker starts from the given storage and tables |
| Tracking.Tracker.GetSessionId | src/lib/tracking.ts:12-20 | Returns and stores what `LookupSessionId` gives. The tables are untouched |
| Tracking.Tracker.TrackSession | src/lib/tracking.ts:48-84 | The sessions table becomes `RecordPageView` of the old one. Storage and click log are untouched |
| Tracking.Tracker.TrackClick | src/lib/tracking.ts:87-129 | The tables become `RecordClick` of the old ones, with the time spent measured from the stored start. Storage is untouched |
| Tracking.Tracker.LogClick | src/lib/tracking.ts:98-125 | The tables become `RecordClick` of the old ones |

## Left out

- Rendering is not modelled: JSX, hooks, toasts, form resets after an add, and the edit toggle. This includes the in-place `sort` of the button list while rendering the admin page (src/pages/Admin.tsx:301).
- `saveLandingContent` and the landing title/description are not modelled. They store and show text without any logic.
- JSON encoding and decoding of storage entries is not modelled. Storage holds already-decoded lists, and a missing key is `None`. A malformed entry, which makes `JSON.parse` throw, is not modelled.
- JavaScript numbers are unbounded integers here. Double precision, `lid`s that are not integers, and numbers too large to be exact are not modelled.
- `toLowerCase` is ASCII-only. Other letters are left unchanged.
- Paths are taken as already decoded. Percent-encoding is not modelled.
- The `getUserInfo` fetch, the geolocation request and the CORS preflight are not modelled. The 500 error response is not modelled either. The geolocation answer is an input.
- There is no country allow-list or fallback geolocation service in the source's code, and none is modelled.
- The database calls are modelled as in-memory tables: `sessions` is a map keyed by session id, so it cannot hold two rows with one id. Network failures, which the source catches and logs, are not modelled, so every write succeeds. Concurrent or interleaved `trackSession`/`trackClick` calls are not modelled.
- Tracking.RecordPageView: a new row leaves `last_active` unset, because the table's column defaults are not shown.
- Tracking.Tracker.TrackClick: the click time and the activity time are one clock reading.
- Timestamps: `last_active` and the clock reads share one integer clock. The ISO text that `new Date().toISOString()` gives is not modelled.
- Repeated header lines are not modelled: each header name has one value, with names in lower case.

## Findings

| source | as written | input that shows it | evidently intended | confidence | as-written member | corrected member |
|---|---|---|---|---|---|---|
| src/pages/WebResult.tsx:93 | The short link is `/lid/<lid>`, but the redirect page reads the lid after the first `=` (src/pages/LinkRedirect.tsx:8) | lid 1: the link `/lid/1` has no `=`, so the redirect goes to "/" whatever is stored | `/lid=<lid>`, the form the link's own text shows (src/pages/WebResult.tsx:96) | medium (the route table is not part of this model); not executed | LinkRedirect.ShortLinkGoesHome | LinkRedirect.RedirectLinkReachesRecord |
