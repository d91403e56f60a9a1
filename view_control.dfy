/**
 * The side panel that shows one view at a time and keeps a history of the views pushed
 * onto it. The back/close anchor of its navigation area pops the history. Every view's
 * lifecycle callbacks and every view-change event are recorded in a trace.
 */
module ViewControl {
  import opened JsText

  /**
   * A view, identified by `id`; whether it defines the optional `onAdd` and `onRemove`
   * callbacks. Its dom is the one `getDom` returns, which the views of the portal cache.
   */
  datatype View = View(id: nat, hasOnAdd: bool, hasOnRemove: bool)

  datatype ChangeKind = Added | Removed

  /** The observable effects: the views' callbacks and the dispatched view-change events. */
  datatype ViewEvent = OnAdd(view: View) | OnRemove(view: View) | Dispatched(view: View, kind: ChangeKind)

  /** The class on the back anchor: `close` (one view left) or `back`. */
  datatype AnchorClass = Close | Back

  /**
   * The control's state: the history stack (top last), the dom-id counter, the view whose
   * dom is in the content area, whether the navigation area is shown, the anchor's class and
   * title, the id each view's dom was last tagged with, and the trace of effects.
   */
  datatype ViewState = ViewState(
    history: seq<View>,
    counter: nat,
    displayed: Option<nat>,
    navShown: bool,
    anchor: AnchorClass,
    title: string,
    domIds: map<nat, string>,
    trace: seq<ViewEvent>)

  /** A fresh control: empty history, nothing displayed, anchor `close`. */
  function Initial(): (s: ViewState)
    ensures Consistent(s) && s.history == [] && s.counter == 0 && s.trace == []
  {
    ViewState([], 0, None, false, Close, "", map[], [])
  }

  /**
   * What the control keeps true: something is displayed exactly when the history is not
   * empty, and then it is the top of the history; the navigation area is shown exactly
   * then; with views in the history the anchor reads `close` exactly when there is one.
   */
  predicate Consistent(s: ViewState) {
    && (s.displayed.Some? <==> |s.history| > 0)
    && (|s.history| > 0 ==> s.displayed.value == s.history[|s.history| - 1].id)
    && (s.navShown <==> |s.history| > 0)
    && (|s.history| > 0 ==> (s.anchor == Close <==> |s.history| == 1))
  }

  /** The anchor's class for a history of the given length. */
  function AnchorFor(n: nat): (a: AnchorClass)
    ensures a == Close <==> n == 1
  {
    if n == 1 then Close else Back
  }

  /** _setContent: tag the view's dom, push the view, show it, fix the anchor, dispatch `added`. */
  function AfterSetContent(s: ViewState, v: View): (r: ViewState)
    ensures r.history == s.history + [v] && r.counter == s.counter + 1
    ensures r.domIds == s.domIds[v.id := "view_" + NatToString(s.counter)]
    ensures r.trace == s.trace + [Dispatched(v, Added)]
  {
    var h := s.history + [v];
    ViewState(h, s.counter + 1, Some(v.id), s.displayed.Some? ==> s.navShown, AnchorFor(|h|),
              if |h| == 1 then "schließen" else "zurück",
              s.domIds[v.id := "view_" + NatToString(s.counter)],
              s.trace + [Dispatched(v, Added)])
  }

  /** setContentView: _setContent, then the view's `onAdd` if it has one. */
  function AfterSetContentView(s: ViewState, v: View): (r: ViewState)
    ensures r.history == s.history + [v]
    ensures r.trace == s.trace + [Dispatched(v, Added)] + (if v.hasOnAdd then [OnAdd(v)] else [])
  {
    var r := AfterSetContent(s, v);
    r.(trace := r.trace + if v.hasOnAdd then [OnAdd(v)] else [])
  }

  /**
   * goBack: with something displayed, pop the top view, show the new top (without its
   * `onAdd`) or remove the navigation area, call the popped view's `onRemove`, dispatch
   * `removed`; in every case set the anchor from the new history length.
   */
  function AfterGoBack(s: ViewState): (r: ViewState)
    ensures r.counter == s.counter && r.domIds == s.domIds && r.title == s.title
  {
    var s' :=
      if s.displayed.Some? && |s.history| > 0 then
        var cur := s.history[|s.history| - 1];
        var h := s.history[..|s.history| - 1];
        s.(history := h,
           displayed := if |h| > 0 then Some(h[|h| - 1].id) else None,
           navShown := if |h| > 0 then s.navShown else false,
           trace := s.trace + (if cur.hasOnRemove then [OnRemove(cur)] else []) + [Dispatched(cur, Removed)])
      else s;
    s'.(anchor := AnchorFor(|s'.history|))
  }

  /** The number of history entries that define `onRemove`. */
  function CountRemovers(h: seq<View>): (n: nat)
    ensures n <= |h|
  {
    if h == [] then 0 else CountRemovers(h[..|h| - 1]) + (if h[|h| - 1].hasOnRemove then 1 else 0)
  }

  /** The `onRemove` calls of popping every view of `h`, most recent first. */
  function ClearEvents(h: seq<View>): (es: seq<ViewEvent>)
    ensures |es| == CountRemovers(h)
  {
    if h == [] then []
    else
      var top := h[|h| - 1];
      (if top.hasOnRemove then [OnRemove(top)] else []) + ClearEvents(h[..|h| - 1])
  }

  /**
   * clear: pop every view, calling `onRemove` most recent first; empty the content area and
   * remove the navigation area. No event is dispatched and the anchor is left as it is.
   */
  function AfterClear(s: ViewState): (r: ViewState)
    ensures r.history == [] && r.displayed.None? && !r.navShown
    ensures r.anchor == s.anchor && r.counter == s.counter
  {
    s.(history := [], displayed := None, navShown := false, trace := s.trace + ClearEvents(s.history))
  }

  // ---------------------------------------------------------------------------
  // Properties of the transitions
  // ---------------------------------------------------------------------------

  /** Every operation keeps the control consistent; after a push the anchor follows the history. */
  lemma OperationsKeepConsistent(s: ViewState, v: View)
    requires Consistent(s)
    ensures Consistent(AfterSetContentView(s, v)) && Consistent(AfterGoBack(s)) && Consistent(AfterClear(s))
    ensures AfterSetContentView(s, v).anchor == AnchorFor(|s.history| + 1)
    ensures AfterGoBack(s).anchor == AnchorFor(|AfterGoBack(s).history|)
  {
  }

  /** The displayed view is always the top of the history. */
  lemma DisplayedIsTop(s: ViewState, v: View)
    requires Consistent(s)
    ensures AfterSetContentView(s, v).displayed == Some(v.id)
    ensures |s.history| >= 2 ==> AfterGoBack(s).displayed == Some(s.history[|s.history| - 2].id)
    ensures |s.history| == 1 ==> AfterGoBack(s).displayed.None? && !AfterGoBack(s).navShown
  {
  }

  /** goBack with nothing displayed changes neither the history nor the trace. */
  lemma GoBackWhenEmpty(s: ViewState)
    requires Consistent(s) && s.displayed.None?
    ensures AfterGoBack(s).history == s.history == [] && AfterGoBack(s).trace == s.trace
  {
  }

  /**
   * goBack pops exactly the top view: the rest of the history stays, the popped view's
   * `onRemove` is called once and one `removed` event is dispatched for it.
   */
  lemma GoBackPopsTop(s: ViewState)
    requires Consistent(s) && |s.history| > 0
    ensures AfterGoBack(s).history + [s.history[|s.history| - 1]] == s.history
    ensures var top := s.history[|s.history| - 1];
            AfterGoBack(s).trace == s.trace + (if top.hasOnRemove then [OnRemove(top)] else []) + [Dispatched(top, Removed)]
  {
  }

  /**
   * Pushing a view and going back restores the history and what is displayed; the view's
   * lifecycle runs in order: `added`, `onAdd`, `onRemove`, `removed`.
   */
  lemma PushThenBack(s: ViewState, v: View)
    requires Consistent(s)
    ensures AfterGoBack(AfterSetContentView(s, v)).history == s.history
    ensures AfterGoBack(AfterSetContentView(s, v)).displayed == s.displayed
    ensures AfterGoBack(AfterSetContentView(s, v)).navShown == s.navShown
    ensures AfterGoBack(AfterSetContentView(s, v)).counter == s.counter + 1
    ensures AfterGoBack(AfterSetContentView(s, v)).trace ==
              s.trace + [Dispatched(v, Added)] + (if v.hasOnAdd then [OnAdd(v)] else []) +
              (if v.hasOnRemove then [OnRemove(v)] else []) + [Dispatched(v, Removed)]
  {
    var h := s.history + [v];
    assert h[..|h| - 1] == s.history;
  }

  /** clear calls `onRemove` exactly for the views that have it, from the top of the history down. */
  lemma {:induction false} ClearEventsExact(h: seq<View>, k: nat)
    requires k < |ClearEvents(h)|
    ensures ClearEvents(h)[k].OnRemove? && ClearEvents(h)[k].view in h && ClearEvents(h)[k].view.hasOnRemove
  {
    if h != [] {
      var top := h[|h| - 1];
      var pre := if top.hasOnRemove then [OnRemove(top)] else [];
      if k >= |pre| {
        ClearEventsExact(h[..|h| - 1], k - |pre|);
      }
    }
  }

  /** Every view in the history that defines `onRemove` has it called by clear. */
  lemma {:induction false} ClearEventsComplete(h: seq<View>, i: nat)
    requires i < |h| && h[i].hasOnRemove
    ensures OnRemove(h[i]) in ClearEvents(h)
  {
    if i < |h| - 1 {
      var init := h[..|h| - 1];
      assert init[i] == h[i];
      ClearEventsComplete(init, i);
    }
  }

  /** Clearing a history with one more view on top calls that view's `onRemove` first, then clears the rest. */
  lemma ClearEventsPush(h: seq<View>, v: View)
    ensures ClearEvents(h + [v]) == (if v.hasOnRemove then [OnRemove(v)] else []) + ClearEvents(h)
  {
    assert (h + [v])[..|h + [v]| - 1] == h;
  }

  /** Counting over a concatenation adds the counts. */
  lemma {:induction false} CountRemoversConcat(a: seq<View>, b: seq<View>)
    ensures CountRemovers(a + b) == CountRemovers(a) + CountRemovers(b)
    decreases |b|
  {
    if b == [] {
      assert a + b == a;
    } else {
      assert (a + b)[..|a + b| - 1] == a + b[..|b| - 1];
      CountRemoversConcat(a, b[..|b| - 1]);
    }
  }

  /**
   * The `onRemove` of history entry j (when it defines one) is called at position
   * `CountRemovers(h[j + 1..])` of clear's calls: after exactly the entries above it that
   * define `onRemove`.
   */
  lemma {:induction false} ClearEventAt(h: seq<View>, j: nat)
    requires j < |h| && h[j].hasOnRemove
    ensures CountRemovers(h[j + 1..]) < |ClearEvents(h)|
    ensures ClearEvents(h)[CountRemovers(h[j + 1..])] == OnRemove(h[j])
  {
    var init := h[..|h| - 1];
    var top := h[|h| - 1];
    if j == |h| - 1 {
      assert h[j + 1..] == [];
    } else {
      ClearEventAt(init, j);
      assert h[j + 1..] == init[j + 1..] + [top];
      CountRemoversConcat(init[j + 1..], [top]);
      assert [top][..0] == [];
    }
  }

  /**
   * clear calls `onRemove` once per history entry that defines it, most recent first: for
   * entries i < j, the call for h[j] comes before the call for h[i].
   */
  lemma ClearOrder(h: seq<View>, i: nat, j: nat)
    requires i < j < |h| && h[i].hasOnRemove && h[j].hasOnRemove
    ensures CountRemovers(h[j + 1..]) < CountRemovers(h[i + 1..]) < |ClearEvents(h)|
    ensures ClearEvents(h)[CountRemovers(h[j + 1..])] == OnRemove(h[j])
    ensures ClearEvents(h)[CountRemovers(h[i + 1..])] == OnRemove(h[i])
  {
    ClearEventAt(h, i);
    ClearEventAt(h, j);
    assert h[i + 1..] == h[i + 1..j] + [h[j]] + h[j + 1..];
    CountRemoversConcat(h[i + 1..j] + [h[j]], h[j + 1..]);
    CountRemoversConcat(h[i + 1..j], [h[j]]);
    assert [h[j]][..0] == [];
  }

  /** Two pushes of views with callbacks, then clear: `onRemove` runs for the later view first. */
  lemma ClearOrderExample(a: View, b: View)
    requires a.hasOnRemove && b.hasOnRemove
    ensures AfterClear(AfterSetContentView(AfterSetContentView(Initial(), a), b)).trace ==
              [Dispatched(a, Added)] + (if a.hasOnAdd then [OnAdd(a)] else []) +
              [Dispatched(b, Added)] + (if b.hasOnAdd then [OnAdd(b)] else []) +
              [OnRemove(b), OnRemove(a)]
  {
    var s1 := AfterSetContentView(Initial(), a);
    var s2 := AfterSetContentView(s1, b);
    assert s2.history == [a, b];
    assert [a, b][..1] == [a] && [a][..0] == [];
    assert ClearEvents([a, b]) == [OnRemove(b)] + ClearEvents([a]);
    assert ClearEvents([a]) == [OnRemove(a)] + ClearEvents([]);
  }

  /**
   * The anchor after pushing two views and going back once reads `close`, and the dom ids
   * are `view_0` and `view_1`.
   */
  lemma TwoPushesOneBack(a: View, b: View)
    requires a.id != b.id
    ensures var s := AfterGoBack(AfterSetContentView(AfterSetContentView(Initial(), a), b));
            && s.history == [a] && s.anchor == Close && s.counter == 2
            && s.domIds[a.id] == "view_0" && s.domIds[b.id] == "view_1"
  {
    var s1 := AfterSetContentView(Initial(), a);
    var s2 := AfterSetContentView(s1, b);
    assert s2.history == [a, b];
    assert s2.history[..1] == [a];
  }

  // ---------------------------------------------------------------------------
  // The control
  // ---------------------------------------------------------------------------

  class ViewControl {
    var contentHistory: seq<View>
    var counter: nat
    /** The view whose dom is the content area's child, if any. */
    var displayed: Option<nat>
    /** Whether the navigation area is in the control's dom. */
    var navShown: bool
    var anchorBack: AnchorClass
    var anchorTitle: string
    var domIds: map<nat, string>
    var trace: seq<ViewEvent>

    function State(): ViewState
      reads this
    {
      ViewState(contentHistory, counter, displayed, navShown, anchorBack, anchorTitle, domIds, trace)
    }

    constructor ()
      ensures State() == Initial()
    {
      contentHistory := [];
      counter := 0;
      displayed := None;
      navShown := false;
      anchorBack := Close;
      anchorTitle := "";
      domIds := map[];
      trace := [];
    }

    method SetContent(view: View)
      modifies this
      ensures State() == AfterSetContent(old(State()), view)
    {
      domIds := domIds[view.id := "view_" + NatToString(counter)];
      counter := counter + 1;
      if displayed.Some? {
        displayed := Some(view.id);
        contentHistory := contentHistory + [view];
      } else {
        navShown := true;
        displayed := Some(view.id);
        contentHistory := contentHistory + [view];
      }
      if |contentHistory| == 1 {
        anchorBack := Close;
        anchorTitle := "schließen";
      } else {
        anchorBack := Back;
        anchorTitle := "zurück";
      }
      trace := trace + [Dispatched(view, Added)];
    }

    method SetContentView(v: View)
      modifies this
      ensures State() == AfterSetContentView(old(State()), v)
    {
      SetContent(v);
      if v.hasOnAdd {
        trace := trace + [OnAdd(v)];
      }
    }

    method GoBack()
      modifies this
      ensures State() == AfterGoBack(old(State()))
    {
      if displayed.Some? {
        if |contentHistory| > 0 {
          var currentContent := contentHistory[|contentHistory| - 1];
          contentHistory := contentHistory[..|contentHistory| - 1];
          if |contentHistory| > 0 {
            var lastContent := contentHistory[|contentHistory| - 1];
            displayed := Some(lastContent.id);
          } else {
            displayed := None;
            navShown := false;
          }
          if currentContent.hasOnRemove {
            trace := trace + [OnRemove(currentContent)];
          }
          trace := trace + [Dispatched(currentContent, Removed)];
        }
      }
      if |contentHistory| == 1 {
        anchorBack := Close;
      } else {
        anchorBack := Back;
      }
    }

    /** The pop loop of clear: pop every view, calling its `onRemove`, most recent first. */
    method PopAll()
      modifies this
      ensures contentHistory == [] && trace == old(trace) + ClearEvents(old(contentHistory))
      ensures counter == old(counter) && displayed == old(displayed) && navShown == old(navShown)
      ensures anchorBack == old(anchorBack) && anchorTitle == old(anchorTitle) && domIds == old(domIds)
    {
      ghost var h0 := contentHistory;
      ghost var t0 := trace;
      while |contentHistory| > 0
        invariant contentHistory == h0[..|contentHistory|]
        invariant t0 + ClearEvents(h0) == trace + ClearEvents(contentHistory)
        invariant counter == old(counter) && displayed == old(displayed) && navShown == old(navShown)
        invariant anchorBack == old(anchorBack) && anchorTitle == old(anchorTitle) && domIds == old(domIds)
        decreases |contentHistory|
      {
        var view := contentHistory[|contentHistory| - 1];
        ghost var before, ch := trace, contentHistory;
        contentHistory := contentHistory[..|contentHistory| - 1];
        assert contentHistory == h0[..|contentHistory|];
        assert ClearEvents(ch) == (if view.hasOnRemove then [OnRemove(view)] else []) + ClearEvents(contentHistory);
        if view.hasOnRemove {
          trace := trace + [OnRemove(view)];
        }
        AppendAssoc(before, if view.hasOnRemove then [OnRemove(view)] else [], ClearEvents(contentHistory));
      }
      assert ClearEvents([]) == [];
    }

    /** clear: the pop loop, then empty the content area and remove the navigation area. */
    method Clear()
      modifies this
      ensures State() == AfterClear(old(State()))
    {
      PopAll();
      if displayed.Some? {
        displayed := None;
      }
      if navShown {
        navShown := false;
      }
    }
  }
}
