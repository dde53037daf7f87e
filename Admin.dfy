/** The admin panel's list maintenance: adding and deleting landing-page buttons,
    and adding, deleting and patching web results with automatically allocated
    `lid`s. Each handler replaces the panel's list and writes it to storage. */
module Admin {
  import opened JsText
  import opened Seqs
  import opened Records

  /** The "add search button" form. */
  datatype ButtonForm = ButtonForm(
    title: string,
    link: string,
    orderText: string,
    webResultPage: string)

  /** The "add web result" form. */
  datatype ResultForm = ResultForm(
    name: string,
    link: string,
    title: string,
    description: string,
    logoUrl: string,
    isSponsored: bool,
    webResultPage: string)

  /** `Partial<WebResultData>`: None marks a field the patch does not carry. */
  datatype ResultPatch = ResultPatch(
    id: Option<string>,
    lid: Option<int>,
    name: Option<string>,
    link: Option<string>,
    title: Option<string>,
    description: Option<string>,
    logoUrl: Option<string>,
    isSponsored: Option<bool>,
    webResultPage: Option<string>)

  const NoChange := ResultPatch(None, None, None, None, None, None, None, None, None)

  // ---------------------------------------------------------------------------
  // Buttons

  /** The button the form describes: its id is the clock reading, its order the
      number typed, or the position after the last button when that reads as 0 or NaN. */
  function NewButton(form: ButtonForm, buttons: seq<SearchButton>, now: int): (b: SearchButton)
    ensures b.id == IntToString(now)
    ensures b.title == form.title && b.link == form.link && b.webResultPage == form.webResultPage
    ensures ParseInt(form.orderText).Some? && ParseInt(form.orderText).value != 0 ==>
              b.order == ParseInt(form.orderText).value
    ensures ParseInt(form.orderText).None? ==> b.order == |buttons| + 1
    ensures ParseInt(form.orderText) == Some(0) ==> b.order == |buttons| + 1
  {
    SearchButton(
      IntToString(now), form.title, form.link,
      NumberOrElse(ParseInt(form.orderText), |buttons| + 1),
      form.webResultPage)
  }

  /** The button list after an accepted add: sorted by order, and a permutation of the
      old list plus the new button. */
  function WithButton(buttons: seq<SearchButton>, b: SearchButton): (r: seq<SearchButton>)
    ensures SortedBy(ButtonOrder, r)
    ensures multiset(r) == multiset(buttons) + multiset{b}
  {
    SortByOrder(buttons + [b])
  }

  function WithoutButton(buttons: seq<SearchButton>, id: string): seq<SearchButton> {
    Filter((b: SearchButton) => b.id != id, buttons)
  }

  /** Deleting a button keeps exactly the buttons with another id, as often as they
      occurred and in their old order. */
  lemma WithoutButtonKeepsOthers(buttons: seq<SearchButton>, id: string)
    ensures forall b :: b in WithoutButton(buttons, id) <==> b in buttons && b.id != id
    ensures forall b: SearchButton :: b.id != id ==> multiset(WithoutButton(buttons, id))[b] == multiset(buttons)[b]
    ensures IsSubsequence(WithoutButton(buttons, id), buttons)
  {
    var p := (b: SearchButton) => b.id != id;
    forall b ensures b in Filter(p, buttons) <==> b in buttons && b.id != id {
      FilterMember(p, buttons, b);
    }
    forall b: SearchButton | b.id != id ensures multiset(Filter(p, buttons))[b] == multiset(buttons)[b] {
      FilterCount(p, buttons, b);
    }
    FilterIsSubsequence(p, buttons);
  }

  // ---------------------------------------------------------------------------
  // Web results and lid allocation

  /** `Math.max(...results.map(r => r.lid))`. */
  function MaxLid(results: seq<WebResultData>): (m: int)
    requires results != []
    ensures forall i :: 0 <= i < |results| ==> results[i].lid <= m
    ensures exists i :: 0 <= i < |results| && results[i].lid == m
  {
    if |results| == 1 then results[0].lid
    else
      var rest := MaxLid(results[1..]);
      if results[0].lid >= rest then results[0].lid else rest
  }

  /** The lid for the next result: 1 for an empty registry, else one past the largest. */
  function NextLid(results: seq<WebResultData>): (lid: int)
    ensures results == [] ==> lid == 1
    ensures forall i :: 0 <= i < |results| ==> results[i].lid < lid
    ensures results != [] ==> exists i :: 0 <= i < |results| && results[i].lid == lid - 1
  {
    (if results != [] then MaxLid(results) else 0) + 1
  }

  /** The form is accepted only when name, title and link are all non-empty. */
  predicate ResultFormComplete(form: ResultForm) {
    form.name != "" && form.title != "" && form.link != ""
  }

  function NewResult(form: ResultForm, results: seq<WebResultData>, now: int): WebResultData {
    WebResultData(
      IntToString(now), NextLid(results), form.name, form.link, form.title,
      form.description, form.logoUrl, form.isSponsored, form.webResultPage)
  }

  /** Appending a result with the next lid keeps the lids pairwise distinct. */
  lemma NewResultKeepsLidsDistinct(results: seq<WebResultData>, form: ResultForm, now: int)
    requires DistinctLids(results)
    ensures DistinctLids(results + [NewResult(form, results, now)])
  {
    var r := results + [NewResult(form, results, now)];
    forall i, j | 0 <= i < j < |r| ensures r[i].lid != r[j].lid {
      if j == |results| {
        assert r[i] == results[i];
      } else {
        assert r[i] == results[i] && r[j] == results[j];
      }
    }
  }

  function WithoutResult(results: seq<WebResultData>, id: string): seq<WebResultData> {
    Filter((r: WebResultData) => r.id != id, results)
  }

  /** Deleting a result keeps exactly the results with another id, as often as they
      occurred and in their old order; lids that were distinct stay distinct. */
  lemma WithoutResultKeepsOthers(results: seq<WebResultData>, id: string)
    ensures forall r :: r in WithoutResult(results, id) <==> r in results && r.id != id
    ensures forall r: WebResultData :: r.id != id ==> multiset(WithoutResult(results, id))[r] == multiset(results)[r]
    ensures IsSubsequence(WithoutResult(results, id), results)
  {
    var p := (r: WebResultData) => r.id != id;
    forall r ensures r in Filter(p, results) <==> r in results && r.id != id {
      FilterMember(p, results, r);
    }
    forall r: WebResultData | r.id != id ensures multiset(Filter(p, results))[r] == multiset(results)[r] {
      FilterCount(p, results, r);
    }
    FilterIsSubsequence(p, results);
  }

  /** The lid is fresh only with respect to the current list: add a result, delete
      it again, and the next add hands out the same lid. */
  lemma DeletedLidIsReissued(results: seq<WebResultData>, form: ResultForm, now: int, later: int)
    requires forall i :: 0 <= i < |results| ==> results[i].id != IntToString(now)
    ensures var added := NewResult(form, results, now);
            NewResult(form, WithoutResult(results + [added], added.id), later).lid == added.lid
  {
    var added := NewResult(form, results, now);
    DeleteLastAdded(results, added);
  }

  /** Deleting the id of a record just appended, when no other record had that id,
      gives back the list from before the append. */
  lemma DeleteLastAdded(results: seq<WebResultData>, added: WebResultData)
    requires forall i :: 0 <= i < |results| ==> results[i].id != added.id
    ensures WithoutResult(results + [added], added.id) == results
  {
    var p := (r: WebResultData) => r.id != added.id;
    FilterAppend(p, results, [added]);
    forall x | x in results ensures p(x) {
      var i :| 0 <= i < |results| && results[i] == x;
    }
    FilterAll(p, results);
    assert Filter(p, [added]) == [];
  }

  /** `{ ...r, ...patch }`: every field the patch carries replaces the record's. */
  function ApplyPatch(r: WebResultData, patch: ResultPatch): WebResultData {
    WebResultData(
      if patch.id.Some? then patch.id.value else r.id,
      if patch.lid.Some? then patch.lid.value else r.lid,
      if patch.name.Some? then patch.name.value else r.name,
      if patch.link.Some? then patch.link.value else r.link,
      if patch.title.Some? then patch.title.value else r.title,
      if patch.description.Some? then patch.description.value else r.description,
      if patch.logoUrl.Some? then patch.logoUrl.value else r.logoUrl,
      if patch.isSponsored.Some? then patch.isSponsored.value else r.isSponsored,
      if patch.webResultPage.Some? then patch.webResultPage.value else r.webResultPage)
  }

  /** The edit form's patches: a title-only or link-only patch changes that field alone,
      an empty patch changes nothing, and applying a patch twice is applying it once. */
  lemma ApplyPatchFacts(r: WebResultData, patch: ResultPatch, text: string)
    ensures ApplyPatch(r, NoChange.(title := Some(text))) == r.(title := text)
    ensures ApplyPatch(r, NoChange.(link := Some(text))) == r.(link := text)
    ensures ApplyPatch(r, NoChange) == r
    ensures ApplyPatch(ApplyPatch(r, patch), patch) == ApplyPatch(r, patch)
  {
  }

  /** `results.map(r => r.id === id ? { ...r, ...patch } : r)`. */
  function PatchById(results: seq<WebResultData>, id: string, patch: ResultPatch): (r: seq<WebResultData>)
    ensures |r| == |results|
    ensures forall i :: 0 <= i < |results| && results[i].id != id ==> r[i] == results[i]
    ensures forall i :: 0 <= i < |results| && results[i].id == id ==> r[i] == ApplyPatch(results[i], patch)
  {
    seq(|results|, i requires 0 <= i < |results| =>
      if results[i].id == id then ApplyPatch(results[i], patch) else results[i])
  }

  /** A patch that does not carry a lid leaves every lid where it was, so distinct lids
      stay distinct; records with the id carry every supplied field afterwards. */
  lemma PatchByIdKeepsLids(results: seq<WebResultData>, id: string, patch: ResultPatch)
    requires patch.lid.None?
    ensures forall i :: 0 <= i < |results| ==> PatchById(results, id, patch)[i].lid == results[i].lid
    ensures DistinctLids(results) ==> DistinctLids(PatchById(results, id, patch))
    ensures forall i :: 0 <= i < |results| && results[i].id == id && patch.title.Some? ==>
              PatchById(results, id, patch)[i].title == patch.title.value
    ensures forall i :: 0 <= i < |results| && results[i].id == id && patch.link.Some? ==>
              PatchById(results, id, patch)[i].link == patch.link.value
  {
    var r := PatchById(results, id, patch);
    assert forall i :: 0 <= i < |results| ==> r[i].lid == results[i].lid;
  }

  // ---------------------------------------------------------------------------
  // The panel

  /** The admin page's state: the two lists it edits, mirrored to storage by every
      handler that changes them. */
  class AdminPanel {
    var searchButtons: seq<SearchButton>
    var webResults: seq<WebResultData>
    const store: LocalStore

    /** Mounting the page reads both lists from storage; an absent key gives []. */
    constructor (store: LocalStore)
      ensures this.store == store
      ensures searchButtons == (if store.searchButtons.Some? then store.searchButtons.value else [])
      ensures webResults == (if store.webResults.Some? then store.webResults.value else [])
    {
      this.store := store;
      searchButtons := if store.searchButtons.Some? then store.searchButtons.value else [];
      webResults := if store.webResults.Some? then store.webResults.value else [];
    }

    /** Rejects an empty title; otherwise adds the new button, re-sorts by order and saves. */
    method AddSearchButton(form: ButtonForm, now: int) returns (added: bool)
      modifies this, store
      ensures added <==> form.title != ""
      ensures added ==> searchButtons == WithButton(old(searchButtons), NewButton(form, old(searchButtons), now))
      ensures added ==> store.searchButtons == Some(searchButtons)
      ensures !added ==> searchButtons == old(searchButtons) && store.searchButtons == old(store.searchButtons)
      ensures webResults == old(webResults) && store.webResults == old(store.webResults)
    {
      if form.title == "" {
        return false;
      }
      var b := NewButton(form, searchButtons, now);
      var updated := SortByOrder(searchButtons + [b]);
      searchButtons := updated;
      store.searchButtons := Some(updated);
      added := true;
    }

    method DeleteSearchButton(id: string)
      modifies this, store
      ensures searchButtons == WithoutButton(old(searchButtons), id)
      ensures store.searchButtons == Some(searchButtons)
      ensures webResults == old(webResults) && store.webResults == old(store.webResults)
    {
      var updated := Filter((b: SearchButton) => b.id != id, searchButtons);
      searchButtons := updated;
      store.searchButtons := Some(updated);
    }

    /** Rejects an incomplete form; otherwise appends one result with the next lid
        (returned) and saves. Lids that were distinct stay distinct. */
    method AddWebResult(form: ResultForm, now: int) returns (lid: Option<int>)
      modifies this, store
      ensures lid.Some? <==> ResultFormComplete(form)
      ensures lid.Some? ==> webResults == old(webResults) + [NewResult(form, old(webResults), now)]
      ensures lid.Some? ==> lid.value == NextLid(old(webResults)) && webResults[|webResults| - 1].lid == lid.value
      ensures lid.Some? ==> store.webResults == Some(webResults)
      ensures lid.None? ==> webResults == old(webResults) && store.webResults == old(store.webResults)
      ensures DistinctLids(old(webResults)) ==> DistinctLids(webResults)
      ensures searchButtons == old(searchButtons) && store.searchButtons == old(store.searchButtons)
    {
      if form.name == "" || form.title == "" || form.link == "" {
        return None;
      }
      var maxLid := if |webResults| > 0 then MaxLid(webResults) else 0;
      var nextLid := maxLid + 1;
      var result := WebResultData(
        IntToString(now), nextLid, form.name, form.link, form.title,
        form.description, form.logoUrl, form.isSponsored, form.webResultPage);
      if DistinctLids(webResults) {
        NewResultKeepsLidsDistinct(webResults, form, now);
      }
      var updated := webResults + [result];
      webResults := updated;
      store.webResults := Some(updated);
      lid := Some(nextLid);
    }

    method DeleteWebResult(id: string)
      modifies this, store
      ensures webResults == WithoutResult(old(webResults), id)
      ensures store.webResults == Some(webResults)
      ensures DistinctLids(old(webResults)) ==> DistinctLids(webResults)
      ensures searchButtons == old(searchButtons) && store.searchButtons == old(store.searchButtons)
    {
      var updated := Filter((r: WebResultData) => r.id != id, webResults);
      WithoutResultDistinct(webResults, id);
      webResults := updated;
      store.webResults := Some(updated);
    }

    method UpdateWebResult(id: string, patch: ResultPatch)
      modifies this, store
      ensures webResults == PatchById(old(webResults), id, patch)
      ensures store.webResults == Some(webResults)
      ensures patch.lid.None? && DistinctLids(old(webResults)) ==> DistinctLids(webResults)
      ensures searchButtons == old(searchButtons) && store.searchButtons == old(store.searchButtons)
    {
      var updated := PatchById(webResults, id, patch);
      if patch.lid.None? {
        PatchByIdKeepsLids(webResults, id, patch);
      }
      webResults := updated;
      store.webResults := Some(updated);
    }
  }

  /** Removing records from a list with distinct lids leaves them distinct. */
  lemma {:induction false} WithoutResultDistinct(results: seq<WebResultData>, id: string)
    ensures DistinctLids(results) ==> DistinctLids(WithoutResult(results, id))
    decreases |results|
  {
    if results != [] && DistinctLids(results) {
      var p := (r: WebResultData) => r.id != id;
      var rest := WithoutResult(results[1..], id);
      assert DistinctLids(results[1..]) by {
        forall i, j | 0 <= i < j < |results[1..]| ensures results[1..][i].lid != results[1..][j].lid {
          assert results[1..][i] == results[i + 1] && results[1..][j] == results[j + 1];
        }
      }
      WithoutResultDistinct(results[1..], id);
      if p(results[0]) {
        var r := [results[0]] + rest;
        forall i, j | 0 <= i < j < |r| ensures r[i].lid != r[j].lid {
          if i == 0 {
            assert r[j] in rest;
            FilterMember(p, results[1..], r[j]);
            var k :| 0 <= k < |results[1..]| && results[1..][k] == r[j];
            assert results[k + 1] == r[j];
          } else {
            assert r[i] == rest[i - 1] && r[j] == rest[j - 1];
          }
        }
      }
    }
  }
}
