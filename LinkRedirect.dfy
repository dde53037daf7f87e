/** The redirect page: it reads a lid from the path, looks up the first stored result
    with that lid, and sends the browser to its link, or to the site root. */
module LinkRedirect {
  import opened JsText
  import opened Records
  import WebResult

  /** `results.find(r => r.lid === lid)`, as a position: the first result whose lid
      equals the parsed number. NaN (None) equals nothing. */
  function FirstWithLid(results: seq<WebResultData>, lid: Option<int>): (i: Option<nat>)
    ensures i.Some? ==> i.value < |results| && lid == Some(results[i.value].lid)
    ensures i.Some? ==> forall j :: 0 <= j < i.value ==> lid != Some(results[j].lid)
    ensures i.None? ==> forall j :: 0 <= j < |results| ==> lid != Some(results[j].lid)
    decreases |results|
  {
    if results == [] then None
    else if lid == Some(results[0].lid) then Some(0)
    else match FirstWithLid(results[1..], lid)
      case Some(k) => Some(k + 1)
      case None => None
  }

  /** The redirect effect: the address the browser is sent to. */
  function RedirectTarget(path: string, saved: Option<seq<WebResultData>>): (target: string)
    ensures target == "/" ||
            (saved.Some? && target != "" && exists r :: r in saved.value && r.link == target)
  {
    match SplitPart(path, '=', 1)
    case None => "/"
    case Some(lidParam) =>
      if lidParam == "" then "/"
      else
        var lid := ParseInt(lidParam);
        match saved
        case None => "/"
        case Some(results) =>
          match FirstWithLid(results, lid)
          case None => "/"
          case Some(i) => if results[i].link != "" then results[i].link else "/"
  }

  /** A path without `=`, or with nothing after it, goes to the root. */
  lemma NoLidGoesHome(path: string, saved: Option<seq<WebResultData>>, before: string, rest: string)
    requires '=' !in before
    ensures '=' !in path ==> RedirectTarget(path, saved) == "/"
    ensures RedirectTarget(before + "=", saved) == "/"
    ensures RedirectTarget(before + "=" + "=" + rest, saved) == "/"
  {
    if '=' !in path {
      SplitPartNone(path, '=');
    }
    JsText.SplitPartOne(before, '=', "", rest);
    assert before + "=" == before + ['='] + "";
    assert before + "=" + "=" + rest == before + ['='] + "" + ['='] + rest;
  }

  /** Nothing stored sends every path to the root. */
  lemma NothingStoredGoesHome(path: string)
    ensures RedirectTarget(path, None) == "/"
  {
  }

  /** For `<before>=<id>`: the first stored result with the parsed lid decides. Its
      link is used when it is non-empty; otherwise, or when there is no such result
      (a NaN id included), the root, whatever later results hold. */
  lemma FirstMatchDecides(before: string, id: string, results: seq<WebResultData>)
    requires '=' !in before && '=' !in id && id != ""
    ensures var target := RedirectTarget(before + "=" + id, Some(results));
            match FirstWithLid(results, ParseInt(id))
            case Some(i) => target == (if results[i].link != "" then results[i].link else "/")
            case None => target == "/"
    ensures ParseInt(id).None? ==> RedirectTarget(before + "=" + id, Some(results)) == "/"
  {
    JsText.SplitPartOne(before, '=', id, "");
    assert before + "=" + id == before + ['='] + id;
  }

  /** The link the results page prints, `/lid/<lid>`, never reaches its record: it has
      no `=`, so the redirect always goes to the root. */
  lemma ShortLinkGoesHome(lid: int, saved: Option<seq<WebResultData>>)
    ensures RedirectTarget(WebResult.ShortLink(lid), saved) == "/"
  {
    SplitPartNone(WebResult.ShortLink(lid), '=');
  }

  /** The first result with a lid is the one `FirstWithLid` finds. */
  lemma FirstWithLidIs(results: seq<WebResultData>, lid: int, i: nat)
    requires i < |results| && results[i].lid == lid
    requires forall j :: 0 <= j < i ==> results[j].lid != lid
    ensures FirstWithLid(results, Some(lid)) == Some(i)
  {
    assert Some(results[i].lid) == Some(lid);
  }

  /** The `/lid=<lid>` form reaches the first stored result with that lid whenever its
      link is non-empty. */
  lemma RedirectLinkReachesRecord(lid: int, results: seq<WebResultData>, i: nat)
    requires i < |results| && results[i].lid == lid
    requires forall j :: 0 <= j < i ==> results[j].lid != lid
    requires results[i].link != ""
    ensures RedirectTarget(WebResult.RedirectLink(lid), Some(results)) == results[i].link
  {
    FirstWithLidIs(results, lid, i);
    RedirectLinkTarget(lid, results, i);
  }

  /** `/lid=<lid>` goes where the first result with that lid says. */
  lemma RedirectLinkTarget(lid: int, results: seq<WebResultData>, i: nat)
    requires FirstWithLid(results, Some(lid)) == Some(i)
    ensures RedirectTarget(WebResult.RedirectLink(lid), Some(results)) ==
            (if results[i].link != "" then results[i].link else "/")
  {
    assert '=' !in "/lid";
    RedirectLinkShape(lid);
    RedirectToFirst(WebResult.RedirectLink(lid), "/lid", IntToString(lid), results, lid, i);
  }

  /** A path whose id parses to a lid goes where the first result with that lid says. */
  lemma RedirectToFirst(path: string, before: string, id: string, results: seq<WebResultData>, lid: int, i: nat)
    requires path == before + "=" + id
    requires '=' !in before && '=' !in id && id != ""
    requires ParseInt(id) == Some(lid)
    requires FirstWithLid(results, Some(lid)) == Some(i)
    ensures RedirectTarget(path, Some(results)) ==
            (if results[i].link != "" then results[i].link else "/")
  {
    FirstMatchDecides(before, id, results);
  }

  /** `/lid=<lid>` is `/lid`, one `=`, and digits that read back as the lid. */
  lemma RedirectLinkShape(lid: int)
    ensures WebResult.RedirectLink(lid) == "/lid" + "=" + IntToString(lid)
    ensures '=' !in IntToString(lid) && IntToString(lid) != ""
    ensures ParseInt(IntToString(lid)) == Some(lid)
  {
    NumberHasNoEquals(lid);
    ParseIntToString(lid);
  }

  /** A rendered integer is a sign and digits, so it never contains `=`. */
  lemma NumberHasNoEquals(n: int)
    ensures '=' !in IntToString(n)
  {
    var digits := IntToString(n);
    forall k | 0 <= k < |digits| ensures digits[k] != '=' { }
  }
}
