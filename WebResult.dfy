/** The results page `/wr=<page>`: it reads the page key from the path, lists the
    stored results of that page, and splits them into a sponsored and a regular
    section. Each result shows a short link carrying its `lid`. */
module WebResult {
  import opened JsText
  import opened Seqs
  import opened Records

  /** `location.pathname.split("=")[1] || "1"`. */
  function PageKey(path: string): (key: string)
    ensures key != "" && '=' !in key
  {
    match SplitPart(path, '=', 1)
    case Some(segment) => OrElse(segment, "1")
    case None => "1"
  }

  /** The key is the text between the first and the second `=`, or "1" when that text
      is empty or there is no `=` at all. */
  lemma PageKeySegment(before: string, segment: string, rest: string)
    requires '=' !in before && '=' !in segment
    ensures PageKey(before + "=" + segment) == OrElse(segment, "1")
    ensures PageKey(before + "=" + segment + "=" + rest) == OrElse(segment, "1")
  {
    SplitPartOne(before, '=', segment, rest);
  }

  lemma PageKeyWithoutEquals(path: string)
    requires '=' !in path
    ensures PageKey(path) == "1"
  {
    SplitPartNone(path, '=');
  }

  /** What the page shows: all results of the page, and the two sections. */
  datatype Listing = Listing(
    results: seq<WebResultData>,
    sponsored: seq<WebResultData>,
    regular: seq<WebResultData>)

  /** The two results shown while nothing has been stored. */
  const DefaultResults: seq<WebResultData> := [
    WebResultData("1", 1, "MIT Official", "https://mit.edu",
      "Massachusetts Institute of Technology",
      "Leading research university with top engineering and technology programs",
      "", true, "1"),
    WebResultData("2", 2, "Stanford", "https://stanford.edu",
      "Stanford University",
      "Premier institution for innovation and entrepreneurship",
      "", false, "1")
  ]

  /** The effect that fills the page from storage, or from the defaults. */
  function ListPage(saved: Option<seq<WebResultData>>, path: string): Listing {
    var key := PageKey(path);
    match saved
    case Some(parsed) =>
      var filtered := Filter((r: WebResultData) => r.webResultPage == key, parsed);
      Listing(
        filtered,
        Filter((r: WebResultData) => r.isSponsored, filtered),
        Filter((r: WebResultData) => !r.isSponsored, filtered))
    case None =>
      Listing(
        Filter((r: WebResultData) => r.webResultPage == key, DefaultResults),
        Filter((r: WebResultData) => r.isSponsored && r.webResultPage == key, DefaultResults),
        Filter((r: WebResultData) => !r.isSponsored && r.webResultPage == key, DefaultResults))
  }

  /** "No results found for this page." is shown exactly when the page list is empty. */
  predicate ShowsNoResults(l: Listing) {
    |l.results| == 0
  }

  /** With stored results, the page lists exactly the stored results whose page is the
      key, each as often as stored, in stored order. */
  lemma StoredListingIsPageFilter(parsed: seq<WebResultData>, path: string)
    ensures var l := ListPage(Some(parsed), path);
            (forall r :: r in l.results <==> r in parsed && r.webResultPage == PageKey(path))
            && (forall r: WebResultData :: r.webResultPage == PageKey(path) ==>
                  multiset(l.results)[r] == multiset(parsed)[r])
            && IsSubsequence(l.results, parsed)
  {
    var key := PageKey(path);
    var p := (r: WebResultData) => r.webResultPage == key;
    forall r ensures r in Filter(p, parsed) <==> r in parsed && r.webResultPage == key {
      FilterMember(p, parsed, r);
    }
    forall r: WebResultData | r.webResultPage == key
      ensures multiset(Filter(p, parsed))[r] == multiset(parsed)[r]
    {
      FilterCount(p, parsed, r);
    }
    FilterIsSubsequence(p, parsed);
  }

  /** The message shows exactly when no stored result belongs to the page. */
  lemma NoResultsIffNoneOnPage(parsed: seq<WebResultData>, path: string)
    ensures ShowsNoResults(ListPage(Some(parsed), path)) <==>
            forall r :: r in parsed ==> r.webResultPage != PageKey(path)
  {
    var key := PageKey(path);
    FilterEmpty((r: WebResultData) => r.webResultPage == key, parsed);
  }

  /** The sections split the page list: no result is in both, each keeps the page
      order, and together they hold every listed result exactly once. */
  lemma SectionsPartitionListing(saved: Option<seq<WebResultData>>, path: string)
    ensures var l := ListPage(saved, path);
            (forall r :: r in l.sponsored ==> r.isSponsored && r !in l.regular)
            && (forall r :: r in l.regular ==> !r.isSponsored)
            && IsSubsequence(l.sponsored, l.results)
            && IsSubsequence(l.regular, l.results)
            && multiset(l.sponsored) + multiset(l.regular) == multiset(l.results)
  {
    var l := ListPage(saved, path);
    var key := PageKey(path);
    if saved.Some? {
      var sp := (r: WebResultData) => r.isSponsored;
      var rg := (r: WebResultData) => !r.isSponsored;
      FilterPartition(sp, rg, l.results);
      FilterIsSubsequence(sp, l.results);
      FilterIsSubsequence(rg, l.results);
      forall r | r in l.sponsored ensures r.isSponsored {
        FilterMember(sp, l.results, r);
      }
      forall r | r in l.regular ensures !r.isSponsored {
        FilterMember(rg, l.results, r);
      }
    } else {
      DefaultListing(path);
    }
  }

  /** With nothing stored, page "1" shows MIT as sponsored and Stanford as regular,
      and every other page is empty. */
  lemma DefaultListing(path: string)
    ensures PageKey(path) == "1" ==>
              ListPage(None, path) == Listing(DefaultResults, [DefaultResults[0]], [DefaultResults[1]])
    ensures PageKey(path) != "1" ==> ListPage(None, path) == Listing([], [], [])
    ensures DefaultResults[0].lid == 1 && DefaultResults[0].isSponsored
    ensures DefaultResults[1].lid == 2 && !DefaultResults[1].isSponsored
  {
    var key := PageKey(path);
    var d := DefaultResults;
    assert d[1..][1..] == [];
  }

  /** The short link under each result, `/lid/<lid>`, as the page writes it. */
  function ShortLink(lid: int): (link: string)
    ensures StartsWith(link, "/lid/")
    ensures ParseInt(link[5..]) == Some(lid)
    ensures '=' !in link
  {
    assert |"/lid/"| == 5 && '=' !in "/lid/";
    PrefixedNumber("/lid/", lid);
    "/lid/" + IntToString(lid)
  }

  /** The short link in the form the redirect page can read, `/lid=<lid>`. */
  function RedirectLink(lid: int): (link: string)
    ensures StartsWith(link, "/lid=")
    ensures ParseInt(link[5..]) == Some(lid)
    ensures '=' !in link[5..]
  {
    assert |"/lid="| == 5;
    PrefixedNumber("/lid=", lid);
    "/lid=" + IntToString(lid)
  }

  /** A number rendered after a fixed prefix reads back from just after the prefix. */
  lemma PrefixedNumber(prefix: string, n: int)
    ensures StartsWith(prefix + IntToString(n), prefix)
    ensures (prefix + IntToString(n))[|prefix|..] == IntToString(n)
    ensures ParseInt((prefix + IntToString(n))[|prefix|..]) == Some(n)
    ensures '=' !in IntToString(n)
    ensures '=' !in prefix ==> '=' !in prefix + IntToString(n)
  {
    var digits := IntToString(n);
    var link := prefix + digits;
    assert link[..|prefix|] == prefix;
    assert link[|prefix|..] == digits;
    ParseIntToString(n);
  }
}
