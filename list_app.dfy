/**
 * The list page: a list of facilities and, after a click on one, a detail screen with
 * previous/next buttons, a back button and a `gid=` caption. The model covers the index and
 * button state machine, the saved scroll position and the one-time construction of the
 * detail screen; rendering is recorded as the list of item numbers rendered.
 */
module ListApp {
  import opened JsText
  import opened Facility

  datatype Screen = ListScreen | DetailScreen

  /**
   * The page state: the loaded facilities, the shown item number, the list's saved and
   * current scroll positions, whether (and how often) the detail screen was built, the
   * `disabled` flags of the left and right buttons, the caption text, the screen on display,
   * and the items rendered into the detail view so far.
   */
  datatype ListState = ListState(
    data: seq<Facility>,
    itemNr: int,
    scrollPos: int,
    listScroll: int,
    detailBuilds: nat,
    leftDisabled: bool,
    rightDisabled: bool,
    caption: string,
    screen: Screen,
    rendered: seq<int>)

  /** The caption of the detail screen for item `i`. */
  function GidLabel(data: seq<Facility>, i: int): string
    requires 0 <= i < |data|
  {
    "gid=" + IntToString(data[i].id)
  }

  /** The page after loading the data, before any click. */
  function Initial(data: seq<Facility>): (s: ListState)
    ensures Inv(s) && s.detailBuilds == 0
  {
    ListState(data, 0, 0, 0, 0, false, false, "", ListScreen, [])
  }

  /**
   * Once the detail screen exists: the item number is a valid index, the left button is
   * disabled exactly on the first item, the right exactly on the last, and the caption names
   * the shown item. The detail screen is built at most once.
   */
  predicate Inv(s: ListState) {
    && s.detailBuilds <= 1
    && (s.detailBuilds == 1 ==>
          && 0 <= s.itemNr < |s.data|
          && (s.leftDisabled <==> s.itemNr == 0)
          && (s.rightDisabled <==> s.itemNr == |s.data| - 1)
          && s.caption == GidLabel(s.data, s.itemNr))
  }

  /**
   * itemClicked: save the list's scroll position, build the detail screen on the first click
   * (else re-render the item into it), show item `i` and set both buttons from `i`.
   */
  function AfterItemClicked(s: ListState, i: int): (r: ListState)
    requires 0 <= i < |s.data|
    ensures r.data == s.data && r.screen == DetailScreen
  {
    s.(scrollPos := s.listScroll,
       detailBuilds := if s.detailBuilds == 0 then 1 else s.detailBuilds,
       rendered := s.rendered + [i],
       caption := GidLabel(s.data, i),
       itemNr := i,
       leftDisabled := i == 0,
       rightDisabled := i == |s.data| - 1,
       screen := DetailScreen)
  }

  /** goBack: show the list again and restore its scroll position. */
  function AfterGoBack(s: ListState): (r: ListState)
    requires s.detailBuilds > 0
    ensures r.screen == ListScreen
  {
    s.(screen := ListScreen, listScroll := s.scrollPos)
  }

  /** goPrev: show the previous item, enable the right button, disable the left on item 0. */
  function AfterGoPrev(s: ListState): (r: ListState)
    requires s.detailBuilds > 0 && 0 <= s.itemNr - 1 < |s.data|
    ensures r.itemNr == s.itemNr - 1 && r.rendered == s.rendered + [r.itemNr]
    ensures r.caption == GidLabel(s.data, r.itemNr)
    ensures !r.rightDisabled && (r.itemNr == 0 ==> r.leftDisabled)
    ensures r.itemNr != 0 ==> r.leftDisabled == s.leftDisabled
    ensures r.data == s.data && r.scrollPos == s.scrollPos && r.listScroll == s.listScroll
    ensures r.detailBuilds == s.detailBuilds && r.screen == s.screen
  {
    var n := s.itemNr - 1;
    s.(itemNr := n,
       rendered := s.rendered + [n],
       caption := GidLabel(s.data, n),
       rightDisabled := false,
       leftDisabled := if n == 0 then true else s.leftDisabled)
  }

  /** goNext: show the next item, enable the left button, disable the right on the last item. */
  function AfterGoNext(s: ListState): (r: ListState)
    requires s.detailBuilds > 0 && 0 <= s.itemNr + 1 < |s.data|
    ensures r.itemNr == s.itemNr + 1 && r.rendered == s.rendered + [r.itemNr]
    ensures r.caption == GidLabel(s.data, r.itemNr)
    ensures !r.leftDisabled && (r.itemNr == |s.data| - 1 ==> r.rightDisabled)
    ensures r.itemNr != |s.data| - 1 ==> r.rightDisabled == s.rightDisabled
    ensures r.data == s.data && r.scrollPos == s.scrollPos && r.listScroll == s.listScroll
    ensures r.detailBuilds == s.detailBuilds && r.screen == s.screen
  {
    var n := s.itemNr + 1;
    s.(itemNr := n,
       rendered := s.rendered + [n],
       caption := GidLabel(s.data, n),
       leftDisabled := false,
       rightDisabled := if n == |s.data| - 1 then true else s.rightDisabled)
  }

  /** The user scrolls the list. */
  function AfterScroll(s: ListState, top: int): ListState {
    s.(listScroll := top)
  }

  // ---------------------------------------------------------------------------
  // Properties
  // ---------------------------------------------------------------------------

  /** A click shows the clicked item, with the buttons set from its position. */
  lemma ClickSetsButtons(s: ListState, i: int)
    requires Inv(s) && 0 <= i < |s.data|
    ensures Inv(AfterItemClicked(s, i))
    ensures AfterItemClicked(s, i).itemNr == i && AfterItemClicked(s, i).caption == "gid=" + IntToString(s.data[i].id)
    ensures AfterItemClicked(s, i).leftDisabled <==> i == 0
    ensures AfterItemClicked(s, i).rightDisabled <==> i == |s.data| - 1
  {
  }

  /**
   * A click on an enabled left button is a valid step back by one item; the invariant is
   * kept, so the left button ends disabled exactly on item 0 and the right one is enabled.
   */
  lemma PrevKeepsInv(s: ListState)
    requires Inv(s) && s.detailBuilds == 1 && !s.leftDisabled
    ensures 0 <= s.itemNr - 1 < |s.data|
    ensures Inv(AfterGoPrev(s)) && AfterGoPrev(s).itemNr == s.itemNr - 1 && !AfterGoPrev(s).rightDisabled
  {
  }

  /** The same for an enabled right button, one item forward. */
  lemma NextKeepsInv(s: ListState)
    requires Inv(s) && s.detailBuilds == 1 && !s.rightDisabled
    ensures 0 <= s.itemNr + 1 < |s.data|
    ensures Inv(AfterGoNext(s)) && AfterGoNext(s).itemNr == s.itemNr + 1 && !AfterGoNext(s).leftDisabled
  {
  }

  /** What the user can do on the detail screen between a click and going back. */
  datatype Step = Scroll(top: int) | Prev | Next

  /** One step: a click on a disabled button does nothing. */
  function StepOnce(s: ListState, step: Step): (r: ListState)
    requires Inv(s) && s.detailBuilds == 1
    ensures Inv(r) && r.detailBuilds == 1 && r.data == s.data && r.scrollPos == s.scrollPos
  {
    match step
    case Scroll(top) => AfterScroll(s, top)
    case Prev => if s.leftDisabled then s else PrevKeepsInv(s); AfterGoPrev(s)
    case Next => if s.rightDisabled then s else NextKeepsInv(s); AfterGoNext(s)
  }

  /**
   * A sequence of steps, taken in order: none of them touches the scroll position saved by
   * the click, and each keeps the invariant.
   */
  function Run(s: ListState, steps: seq<Step>): (r: ListState)
    requires Inv(s) && s.detailBuilds == 1
    ensures Inv(r) && r.detailBuilds == 1 && r.data == s.data && r.scrollPos == s.scrollPos
    decreases |steps|
  {
    if steps == [] then s else Run(StepOnce(s, steps[0]), steps[1..])
  }

  /**
   * Going back restores the scroll position saved by the last click, whatever scrolling and
   * stepping through items came between.
   */
  lemma BackRestoresScroll(s: ListState, i: int, steps: seq<Step>)
    requires Inv(s) && 0 <= i < |s.data|
    ensures AfterGoBack(Run(AfterItemClicked(s, i), steps)).listScroll == s.listScroll
  {
  }

  /** The detail screen is built on the first click only: later clicks reuse it. */
  lemma DetailBuiltOnce(s: ListState, i: int, j: int)
    requires s.detailBuilds == 0 && 0 <= i < |s.data| && 0 <= j < |s.data|
    ensures AfterItemClicked(s, i).detailBuilds == 1
    ensures AfterItemClicked(AfterItemClicked(s, i), j).detailBuilds == 1
  {
  }

  /** Next then previous comes back to the same item, caption and rendered history aside. */
  lemma NextThenPrev(s: ListState)
    requires Inv(s) && s.detailBuilds == 1 && !s.rightDisabled
    ensures AfterGoPrev(AfterGoNext(s)).itemNr == s.itemNr && AfterGoPrev(AfterGoNext(s)).caption == s.caption
    ensures AfterGoPrev(AfterGoNext(s)).leftDisabled == s.leftDisabled
    ensures !AfterGoPrev(AfterGoNext(s)).rightDisabled
  {
  }

  // ---------------------------------------------------------------------------
  // The page object
  // ---------------------------------------------------------------------------

  class ListApp {
    var data: seq<Facility>
    var itemNr: int
    var scrollPos: int
    var listScrollTop: int
    var detailBuilds: nat
    var leftDisabled: bool
    var rightDisabled: bool
    var textArea: string
    var screen: Screen
    var rendered: seq<int>

    function State(): ListState
      reads this
    {
      ListState(data, itemNr, scrollPos, listScrollTop, detailBuilds, leftDisabled, rightDisabled, textArea, screen, rendered)
    }

    /** The page once _loadData has stored the data and shown the list. */
    constructor (data: seq<Facility>)
      ensures State() == Initial(data)
    {
      this.data := data;
      itemNr := 0;
      scrollPos := 0;
      listScrollTop := 0;
      detailBuilds := 0;
      leftDisabled := false;
      rightDisabled := false;
      textArea := "";
      screen := ListScreen;
      rendered := [];
    }

    method ItemClicked(i: int)
      requires 0 <= i < |data|
      modifies this
      ensures State() == AfterItemClicked(old(State()), i)
    {
      scrollPos := listScrollTop;
      if detailBuilds == 0 {
        detailBuilds := 1;
        rendered := rendered + [i];
        textArea := "gid=" + IntToString(data[i].id);
      } else {
        rendered := rendered + [i];
        textArea := "gid=" + IntToString(data[i].id);
      }
      itemNr := i;
      leftDisabled := i == 0;
      rightDisabled := i == |data| - 1;
      screen := DetailScreen;
    }

    method GoBack()
      requires detailBuilds > 0
      modifies this
      ensures State() == AfterGoBack(old(State()))
    {
      screen := ListScreen;
      listScrollTop := scrollPos;
    }

    method GoPrev()
      requires detailBuilds > 0 && 0 <= itemNr - 1 < |data|
      modifies this
      ensures State() == AfterGoPrev(old(State()))
    {
      itemNr := itemNr - 1;
      rendered := rendered + [itemNr];
      textArea := "gid=" + IntToString(data[itemNr].id);
      rightDisabled := false;
      if itemNr == 0 {
        leftDisabled := true;
      }
    }

    method GoNext()
      requires detailBuilds > 0 && 0 <= itemNr + 1 < |data|
      modifies this
      ensures State() == AfterGoNext(old(State()))
    {
      itemNr := itemNr + 1;
      rendered := rendered + [itemNr];
      textArea := "gid=" + IntToString(data[itemNr].id);
      leftDisabled := false;
      if itemNr == |data| - 1 {
        rightDisabled := true;
      }
    }
  }
}
