/** The `get-user-info` edge function: from the request headers and one optional
    geolocation answer it derives the visitor's IP address, country, traffic source,
    device class and user agent. The `Referer` and `User-Agent` fields are those of
    RFC 9110, sections 10.1.3 and 10.1.5; field names are case-insensitive (RFC 9110,
    section 5.1), so the header map here is keyed by lower-case names. */
module GetUserInfo {
  import opened JsText

  /** The JSON body the function returns and the client passes to its trackers. */
  datatype UserInfo = UserInfo(
    ipAddress: string,
    country: string,
    source: string,
    device: string,
    userAgent: string)

  /** Request header fields, by lower-case name; an absent key is a missing header. */
  type Headers = map<string, string>

  function Header(h: Headers, name: string): Option<string> {
    if name in h then Some(h[name]) else None
  }

  // ---------------------------------------------------------------------------
  // Client IP

  /** `h.get('x-forwarded-for')?.split(',')[0] || h.get('x-real-ip') || 'unknown'`:
      the first hop of the forwarding chain, untrimmed; else the real-ip header;
      else "unknown". */
  function ClientIp(h: Headers): (ip: string)
    ensures ip != ""
  {
    var firstHop := match Header(h, "x-forwarded-for")
      case Some(chain) => Split(chain, ',')[0]
      case None => "";
    if firstHop != "" then firstHop
    else match Header(h, "x-real-ip")
      case Some(realIp) => OrElse(realIp, "unknown")
      case None => "unknown"
  }

  /** With a forwarding chain whose first entry is non-empty, that entry is the IP. */
  lemma ClientIpFirstHop(h: Headers, first: string, rest: string)
    requires Header(h, "x-forwarded-for") == Some(first + "," + rest)
    requires first != "" && ',' !in first
    ensures ClientIp(h) == first
  {
    SplitAfter(first, ',', rest);
  }

  /** With a single-entry chain, the whole header is the IP, spaces included. */
  lemma ClientIpSingleHop(h: Headers, chain: string)
    requires Header(h, "x-forwarded-for") == Some(chain)
    requires chain != "" && ',' !in chain
    ensures ClientIp(h) == chain
  {
    SplitFree(chain, ',');
  }

  /** A missing chain, or one that starts with a comma, falls back to the real-ip
      header, and to "unknown" when that is missing or empty. */
  lemma ClientIpFallback(h: Headers)
    requires Header(h, "x-forwarded-for").None? || Split(Header(h, "x-forwarded-for").value, ',')[0] == ""
    ensures Header(h, "x-real-ip").Some? && Header(h, "x-real-ip").value != "" ==>
              ClientIp(h) == Header(h, "x-real-ip").value
    ensures (Header(h, "x-real-ip").None? || Header(h, "x-real-ip").value == "") ==>
              ClientIp(h) == "unknown"
  {
  }

  /** The fallback covers a present but empty chain and one that starts with a comma:
      both have an empty first entry. */
  lemma EmptyFirstHop(chain: string)
    requires chain == "" || StartsWith(chain, ",")
    ensures Split(chain, ',')[0] == ""
  {
    if chain != "" {
      assert chain == "" + [','] + chain[1..];
      SplitAfter("", ',', chain[1..]);
    }
  }

  // ---------------------------------------------------------------------------
  // User agent and device

  function UserAgent(h: Headers): (ua: string)
    ensures ua != ""
    ensures Header(h, "user-agent").Some? && Header(h, "user-agent").value != "" ==>
              ua == Header(h, "user-agent").value
    ensures Header(h, "user-agent").None? || Header(h, "user-agent").value == "" ==> ua == "unknown"
  {
    match Header(h, "user-agent")
    case Some(v) => OrElse(v, "unknown")
    case None => "unknown"
  }

  datatype Device = Mobile | Desktop

  function DeviceLabel(d: Device): string {
    match d
    case Mobile => "Mobile"
    case Desktop => "Desktop"
  }

  const MobileTokens: seq<string> := ["mobile", "android", "iphone", "ipad", "ipod"]

  /** `/mobile|android|iphone|ipad|ipod/i.test(ua.toLowerCase())`: some alternative
      occurs in the lower-cased user agent. */
  predicate LooksMobile(ua: string) {
    exists k :: 0 <= k < |MobileTokens| && Includes(ToLower(ua), MobileTokens[k])
  }

  function DeviceOf(ua: string): (d: Device)
    ensures d == Mobile <==>
              Includes(ToLower(ua), "mobile") || Includes(ToLower(ua), "android") ||
              Includes(ToLower(ua), "iphone") || Includes(ToLower(ua), "ipad") ||
              Includes(ToLower(ua), "ipod")
  {
    assert MobileTokens[0] == "mobile" && MobileTokens[1] == "android" &&
           MobileTokens[2] == "iphone" && MobileTokens[3] == "ipad" && MobileTokens[4] == "ipod";
    if LooksMobile(ua) then Mobile else Desktop
  }

  /** The classification ignores the letter case of the user agent. */
  lemma DeviceIgnoresCase(ua: string)
    ensures DeviceOf(ToLower(ua)) == DeviceOf(ua)
  {
    ToLowerIdempotent(ua);
  }

  /** Any user agent that mentions an iPhone, in any letter case, is a mobile one. */
  lemma IPhoneIsMobile(before: string, after: string)
    ensures DeviceOf(before + "iPhone" + after) == Mobile
  {
    ToLowerAppend(before, "iPhone");
    ToLowerAppend(before + "iPhone", after);
    assert ToLower("iPhone") == "iphone";
    IncludesInfix(ToLower(before), "iphone", ToLower(after));
  }

  /** Lower-casing works character by character, so it distributes over `+`. */
  lemma {:induction false} ToLowerAppend(a: string, b: string)
    ensures ToLower(a + b) == ToLower(a) + ToLower(b)
    decreases |a|
  {
    if a == [] {
      assert a + b == b;
    } else {
      assert (a + b)[0] == a[0] && (a + b)[1..] == a[1..] + b;
      ToLowerAppend(a[1..], b);
    }
  }

  // ---------------------------------------------------------------------------
  // Traffic source

  datatype Source = Google | Facebook | Twitter | LinkedIn | Referral | Direct

  /** The value written to the JSON body and to the ledger; note the lower-case "direct". */
  function SourceLabel(s: Source): string {
    match s
    case Google => "Google"
    case Facebook => "Facebook"
    case Twitter => "Twitter"
    case LinkedIn => "LinkedIn"
    case Referral => "Referral"
    case Direct => "direct"
  }

  /** Case-sensitive substring rules on the referer, first match wins. */
  function SourceOf(referer: string): (s: Source)
    ensures s == Direct <==> referer == ""
    ensures s == Google <==> referer != "" && Includes(referer, "google")
    ensures s == Facebook <==>
              referer != "" && !Includes(referer, "google") && Includes(referer, "facebook")
    ensures s == Twitter <==>
              referer != "" && !Includes(referer, "google") && !Includes(referer, "facebook") &&
              (Includes(referer, "twitter") || Includes(referer, "t.co"))
    ensures s == LinkedIn <==>
              referer != "" && !Includes(referer, "google") && !Includes(referer, "facebook") &&
              !Includes(referer, "twitter") && !Includes(referer, "t.co") && Includes(referer, "linkedin")
    ensures s == Referral <==>
              referer != "" &&
              !Includes(referer, "google") && !Includes(referer, "facebook") &&
              !Includes(referer, "twitter") && !Includes(referer, "t.co") && !Includes(referer, "linkedin")
  {
    if referer == "" then Direct
    else if Includes(referer, "google") then Google
    else if Includes(referer, "facebook") then Facebook
    else if Includes(referer, "twitter") || Includes(referer, "t.co") then Twitter
    else if Includes(referer, "linkedin") then LinkedIn
    else Referral
  }

  /** The rules are tried in order: "google" beats "facebook" beats "twitter"/"t.co"
      beats "linkedin"; a referer naming several gets the earliest. */
  lemma SourcePriority(referer: string)
    requires referer != ""
    ensures Includes(referer, "facebook") && !Includes(referer, "google") ==> SourceOf(referer) == Facebook
    ensures Includes(referer, "twitter") && !Includes(referer, "google") && !Includes(referer, "facebook") ==>
              SourceOf(referer) == Twitter
    ensures Includes(referer, "t.co") && !Includes(referer, "google") && !Includes(referer, "facebook") ==>
              SourceOf(referer) == Twitter
    ensures Includes(referer, "linkedin") && SourceOf(referer) != LinkedIn ==>
              Includes(referer, "google") || Includes(referer, "facebook") ||
              Includes(referer, "twitter") || Includes(referer, "t.co")
  {
  }

  /** Device and source always come from their fixed sets of labels. */
  lemma LabelsAreFixed(d: Device, s: Source)
    ensures DeviceLabel(d) in {"Mobile", "Desktop"}
    ensures SourceLabel(s) in {"Google", "Facebook", "Twitter", "LinkedIn", "Referral", "direct"}
  {
  }

  // ---------------------------------------------------------------------------
  // Country

  /** The one geolocation lookup: it failed (network or JSON error), or it answered
      with a status and possibly the two name fields. */
  datatype GeoLookup =
    | LookupFailed
    | LookupAnswered(ok: bool, countryName: Option<string>, countryCode: Option<string>)

  /** `geoData.country_name || geoData.country || 'Unknown'` on an OK answer, else "Unknown". */
  function CountryOf(geo: GeoLookup): (country: string)
    ensures country != ""
    ensures geo.LookupFailed? || (geo.LookupAnswered? && !geo.ok) ==> country == "Unknown"
    ensures geo.LookupAnswered? && geo.ok && geo.countryName.Some? && geo.countryName.value != "" ==>
              country == geo.countryName.value
    ensures geo.LookupAnswered? && geo.ok && (geo.countryName.None? || geo.countryName.value == "") &&
            geo.countryCode.Some? && geo.countryCode.value != "" ==>
              country == geo.countryCode.value
    ensures geo.LookupAnswered? && geo.ok && (geo.countryName.None? || geo.countryName.value == "") &&
            (geo.countryCode.None? || geo.countryCode.value == "") ==>
              country == "Unknown"
  {
    match geo
    case LookupFailed => "Unknown"
    case LookupAnswered(ok, name, code) =>
      if !ok then "Unknown"
      else
        var fromName := if name.Some? then name.value else "";
        var fromCode := if code.Some? then code.value else "";
        OrElse(fromName, OrElse(fromCode, "Unknown"))
  }

  /** The response body for a request. */
  function Resolve(h: Headers, geo: GeoLookup): (info: UserInfo)
    ensures info.ipAddress != "" && info.country != "" && info.userAgent != ""
    ensures info.device in {"Mobile", "Desktop"}
    ensures info.source in {"Google", "Facebook", "Twitter", "LinkedIn", "Referral", "direct"}
    ensures info.source == "direct" <==> Header(h, "referer").None? || Header(h, "referer").value == ""
  {
    var ua := UserAgent(h);
    var referer := match Header(h, "referer") case Some(r) => r case None => "";
    LabelsAreFixed(DeviceOf(ua), SourceOf(referer));
    UserInfo(ClientIp(h), CountryOf(geo), SourceLabel(SourceOf(referer)), DeviceLabel(DeviceOf(ua)), ua)
  }
}
