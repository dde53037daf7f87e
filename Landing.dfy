/** The landing page: it shows the stored search buttons in `order`, or five default
    buttons that it also stores, and sends a click to the button's link or to the
    button's results page. */
module Landing {
  import opened JsText
  import opened Seqs
  import opened Records
  import WebResult

  /** The buttons used, and saved, while nothing has been stored. */
  const DefaultButtons: seq<SearchButton> := [
    SearchButton("1", "Top Engineering Universities", "", 1, "1"),
    SearchButton("2", "Medical School Rankings", "", 2, "2"),
    SearchButton("3", "Business Schools Worldwide", "", 3, "3"),
    SearchButton("4", "Liberal Arts Colleges", "", 4, "4"),
    SearchButton("5", "Research Universities", "", 5, "5")
  ]

  /** What mounting the page produces: the buttons shown, and the list it writes to
      storage (None when it writes nothing). */
  datatype LoadedButtons = LoadedButtons(shown: seq<SearchButton>, written: Option<seq<SearchButton>>)

  function LoadButtons(saved: Option<seq<SearchButton>>): LoadedButtons {
    match saved
    case Some(parsed) => LoadedButtons(SortByOrder(parsed), None)
    case None => LoadedButtons(DefaultButtons, Some(DefaultButtons))
  }

  /** The buttons are shown in non-decreasing order; stored buttons are shown as a
      permutation of what was stored, those with equal order in stored order, and
      storage is left alone. */
  lemma LoadedButtonsOrdered(saved: Option<seq<SearchButton>>, k: int)
    ensures SortedBy(ButtonOrder, LoadButtons(saved).shown)
    ensures saved.Some? ==> multiset(LoadButtons(saved).shown) == multiset(saved.value)
    ensures saved.Some? ==>
              Filter((b: SearchButton) => b.order == k, LoadButtons(saved).shown)
              == Filter((b: SearchButton) => b.order == k, saved.value)
    ensures saved.Some? ==> LoadButtons(saved).written.None?
  {
    if saved.Some? {
      SortByOrderStable(saved.value, k);
    }
  }

  /** With nothing stored: five buttons, orders 1 to 5, pages "1" to "5", no links,
      and that list is written back. */
  lemma DefaultButtonsShape()
    ensures LoadButtons(None).shown == DefaultButtons
    ensures LoadButtons(None).written == Some(DefaultButtons)
    ensures |DefaultButtons| == 5
    ensures forall i :: 0 <= i < 5 ==>
              DefaultButtons[i].order == i + 1 &&
              DefaultButtons[i].webResultPage == IntToString(i + 1) &&
              DefaultButtons[i].link == ""
  {
    forall i | 0 <= i < 5
      ensures DefaultButtons[i].webResultPage == IntToString(i + 1)
    {
      assert IntToString(i + 1) == [DigitChar(i + 1)];
    }
  }

  /** Where a click goes: a new browsing context for an external link, or a
      navigation inside the site. */
  datatype Target = OpenInNewWindow(url: string) | Navigate(path: string)

  function ButtonTarget(b: SearchButton): Target {
    if b.link != "" then OpenInNewWindow(b.link)
    else Navigate("/wr=" + b.webResultPage)
  }

  /** A button with a link opens it; a button without one lands on the results page
      of its own page key (page "1" when the key is empty). */
  lemma ButtonTargetReachesItsPage(b: SearchButton)
    requires '=' !in b.webResultPage
    ensures b.link != "" ==> ButtonTarget(b) == OpenInNewWindow(b.link)
    ensures b.link == "" ==>
              ButtonTarget(b).Navigate? &&
              WebResult.PageKey(ButtonTarget(b).path) == OrElse(b.webResultPage, "1")
  {
    if b.link == "" {
      WebResult.PageKeySegment("/wr", b.webResultPage, "");
      assert "/wr" + "=" + b.webResultPage == "/wr=" + b.webResultPage;
    }
  }

  /** Every default button leads to the results page with its own number. */
  lemma DefaultButtonsReachTheirPages(i: int)
    requires 0 <= i < |DefaultButtons|
    ensures ButtonTarget(DefaultButtons[i]).Navigate?
    ensures WebResult.PageKey(ButtonTarget(DefaultButtons[i]).path) == DefaultButtons[i].webResultPage
  {
    ButtonTargetReachesItsPage(DefaultButtons[i]);
  }
}
