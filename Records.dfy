/** The two kinds of record the site keeps in browser storage: the landing page's
    search buttons and the web results (the link registry), and the one ordering the
    pages apply to buttons. */
module Records {
  import opened JsText
  import opened Seqs

  /** A landing-page button: it opens `link` when that is set, else a results page. */
  datatype SearchButton = SearchButton(
    id: string,
    title: string,
    link: string,
    order: int,
    webResultPage: string)

  /** A web result; `lid` is the public numeric link id. */
  datatype WebResultData = WebResultData(
    id: string,
    lid: int,
    name: string,
    link: string,
    title: string,
    description: string,
    logoUrl: string,
    isSponsored: bool,
    webResultPage: string)

  function ButtonOrder(b: SearchButton): int {
    b.order
  }

  /** `buttons.sort((a, b) => a.order - b.order)`: a stable sort by `order`. */
  function SortByOrder(buttons: seq<SearchButton>): (sorted: seq<SearchButton>)
    ensures SortedBy(ButtonOrder, sorted)
    ensures multiset(sorted) == multiset(buttons)
  {
    SortByFacts(ButtonOrder, buttons);
    SortBy(ButtonOrder, buttons)
  }

  /** Buttons that share an `order` value keep their relative order when sorted. */
  lemma SortByOrderStable(buttons: seq<SearchButton>, k: int)
    ensures Filter((b: SearchButton) => b.order == k, SortByOrder(buttons))
         == Filter((b: SearchButton) => b.order == k, buttons)
  {
    SortByStable(ButtonOrder, (b: SearchButton) => b.order == k, k, buttons);
  }

  /** No two records share a `lid`. */
  predicate DistinctLids(results: seq<WebResultData>) {
    forall i, j :: 0 <= i < j < |results| ==> results[i].lid != results[j].lid
  }

  /** The `localStorage` entries the pages share, already decoded from JSON:
      None is a key that was never written. */
  class LocalStore {
    var searchButtons: Option<seq<SearchButton>>
    var webResults: Option<seq<WebResultData>>

    constructor (buttons: Option<seq<SearchButton>>, results: Option<seq<WebResultData>>)
      ensures searchButtons == buttons && webResults == results
    {
      searchButtons := buttons;
      webResults := results;
    }
  }
}
