/**
 * The category-filtered marker layer: one marker per facility, each with a
 * `visible` flag, and a marker-cluster group that holds the markers shown on
 * the map. The cluster group is modelled as the set of marker indices it
 * contains; every call the layer makes on it (add, remove, zoom) is logged.
 */
module CategorieLayer {
  import opened JsText
  import opened Facility

  /** A value compared with `===` by `_findMarker`. */
  datatype JsValue = JsUndefined | JsNumber(n: int) | JsString(s: string)

  /** `data[prop]` of a facility: its numeric id, a string attribute, or undefined. */
  function Prop(f: Facility, prop: string): (v: JsValue)
    ensures prop == "id" ==> v == JsNumber(f.id)
    ensures prop != "id" && prop !in f.attributes ==> v == JsUndefined
  {
    if prop == "id" then JsNumber(f.id)
    else if prop in f.attributes then JsString(f.attributes[prop])
    else JsUndefined
  }

  /** Calls the layer makes on its marker-cluster group and on the map. */
  datatype LayerCall = AddLayer(marker: nat) | RemoveLayer(marker: nat) | ZoomAround(marker: nat)

  /** The effect of one call on the set of markers in the cluster group. */
  function ApplyCall(members: set<nat>, c: LayerCall): set<nat> {
    match c
    case AddLayer(i) => members + {i}
    case RemoveLayer(i) => members - {i}
    case ZoomAround(_) => members
  }

  /** The effect of a sequence of calls, applied in order. */
  function Apply(members: set<nat>, cs: seq<LayerCall>): set<nat>
    decreases |cs|
  {
    if cs == [] then members else Apply(ApplyCall(members, cs[0]), cs[1..])
  }

  lemma {:induction false} ApplyConcat(members: set<nat>, a: seq<LayerCall>, b: seq<LayerCall>)
    ensures Apply(members, a + b) == Apply(Apply(members, a), b)
    decreases |a|
  {
    if a == [] {
      assert a + b == b;
    } else {
      assert (a + b)[0] == a[0] && (a + b)[1..] == a[1..] + b;
      ApplyConcat(ApplyCall(members, a[0]), a[1..], b);
    }
  }

  /** The selector's verdict for a marker's data: with no selection nothing is shown. */
  predicate Verdict(d: Facility, selected: Option<seq<Path>>) {
    selected.Some? && MatchesAny(d, selected.value)
  }

  /** The call for marker i, if its flag must flip from `shown` to `wanted`. */
  function FlipCall(shown: bool, wanted: bool, i: nat): seq<LayerCall> {
    if shown == wanted then [] else if wanted then [AddLayer(i)] else [RemoveLayer(i)]
  }

  /**
   * The add/remove calls that bring markers 0..n-1 from visibility `vis` to `want`:
   * an add for each false-to-true flip, a remove for each true-to-false flip, in index order.
   */
  function FlipCalls(vis: seq<bool>, want: seq<bool>, n: nat): seq<LayerCall>
    requires |vis| == |want| && n <= |vis|
  {
    if n == 0 then [] else FlipCalls(vis, want, n - 1) + FlipCall(vis[n - 1], want[n - 1], n - 1)
  }

  /** When the markers already show what is wanted, no call is made: a repeated update is silent. */
  lemma {:induction false} FlipCallsSilentWhenAgreeing(vis: seq<bool>, n: nat)
    requires n <= |vis|
    ensures FlipCalls(vis, vis, n) == []
  {
    if n > 0 {
      FlipCallsSilentWhenAgreeing(vis, n - 1);
    }
  }

  /**
   * Every add is for a marker that flips from hidden to shown, every remove for one that
   * flips from shown to hidden, and every flipping marker gets its call.
   */
  lemma {:induction false} FlipCallsExactlyTheFlips(vis: seq<bool>, want: seq<bool>, n: nat)
    requires |vis| == |want| && n <= |vis|
    ensures forall j :: 0 <= j < n && !vis[j] && want[j] <==> 0 <= j && AddLayer(j) in FlipCalls(vis, want, n)
    ensures forall j :: 0 <= j < n && vis[j] && !want[j] <==> 0 <= j && RemoveLayer(j) in FlipCalls(vis, want, n)
    ensures forall j :: ZoomAround(j) !in FlipCalls(vis, want, n)
  {
    if n > 0 {
      FlipCallsExactlyTheFlips(vis, want, n - 1);
    }
  }

  /**
   * When nothing is wanted (no selection), the update adds nothing and removes exactly the
   * markers that were shown.
   */
  lemma UnwantedOnlyRemoves(vis: seq<bool>, want: seq<bool>)
    requires |vis| == |want|
    requires forall j :: 0 <= j < |want| ==> !want[j]
    ensures forall j :: AddLayer(j) !in FlipCalls(vis, want, |vis|)
    ensures forall j :: 0 <= j < |vis| ==> (RemoveLayer(j) in FlipCalls(vis, want, |vis|) <==> vis[j])
  {
    FlipCallsExactlyTheFlips(vis, want, |vis|);
  }

  /** Applying the flip calls leaves a marker in the group exactly when it was wanted, if it flipped. */
  lemma {:induction false} FlipMembership(members: set<nat>, vis: seq<bool>, want: seq<bool>, n: nat)
    requires |vis| == |want| && n <= |vis|
    ensures forall j :: 0 <= j < n ==>
      (j in Apply(members, FlipCalls(vis, want, n)) <==> if vis[j] != want[j] then want[j] else j in members)
    ensures forall j :: j >= n ==> (j in Apply(members, FlipCalls(vis, want, n)) <==> j in members)
  {
    if n > 0 {
      FlipMembership(members, vis, want, n - 1);
      ApplyConcat(members, FlipCalls(vis, want, n - 1), FlipCall(vis[n - 1], want[n - 1], n - 1));
    }
  }

  /** If the group mirrored `vis` before the flip calls, it mirrors `want` after them. */
  lemma MirrorAfterFlips(members: set<nat>, vis: seq<bool>, want: seq<bool>)
    requires |vis| == |want|
    requires forall k :: 0 <= k < |vis| ==> (k in members <==> vis[k])
    ensures forall k :: 0 <= k < |vis| ==> (k in Apply(members, FlipCalls(vis, want, |vis|)) <==> want[k])
  {
    FlipMembership(members, vis, want, |vis|);
  }

  /** One marker per facility; only its `visible` flag ever changes. */
  class CategoryMarker {
    var visible: bool
    const data: Facility

    constructor (data: Facility)
      ensures this.data == data && !visible
    {
      this.data := data;
      visible := false;
    }
  }

  /** The visibility flags of a sequence of markers. */
  ghost function Flags(ms: seq<CategoryMarker>): (r: seq<bool>)
    reads set m | m in ms
    ensures |r| == |ms|
    ensures forall i :: 0 <= i < |ms| ==> r[i] == ms[i].visible
  {
    if ms == [] then [] else Flags(ms[..|ms| - 1]) + [ms[|ms| - 1].visible]
  }

  /** The selector's verdict for each marker. */
  function Wanted(ms: seq<CategoryMarker>, selected: Option<seq<Path>>): (r: seq<bool>)
    ensures |r| == |ms|
    ensures forall i :: 0 <= i < |ms| ==> r[i] == Verdict(ms[i].data, selected)
  {
    seq(|ms|, i requires 0 <= i < |ms| => Verdict(ms[i].data, selected))
  }

  /** With the selection unset every marker is wanted hidden. */
  lemma NoSelectionHidesAll(ms: seq<CategoryMarker>)
    ensures forall i :: 0 <= i < |ms| ==> !Wanted(ms, None)[i]
  {
  }

  /** The flags of n hidden markers. */
  function AllHidden(n: nat): (r: seq<bool>)
    ensures |r| == n && forall i :: 0 <= i < n ==> !r[i]
  {
    seq(n, _ => false)
  }

  /** Markers appended hidden extend the flags with `false`s. */
  lemma FlagsOfAppended(ms: seq<CategoryMarker>, vis0: seq<bool>, d: nat)
    requires |ms| == |vis0| + d
    requires forall k :: 0 <= k < |vis0| ==> ms[k].visible == vis0[k]
    requires forall j :: |vis0| <= j < |ms| ==> !ms[j].visible
    ensures Flags(ms) == vis0 + AllHidden(d)
  {
    assert forall k :: 0 <= k < |ms| ==> Flags(ms)[k] == (vis0 + AllHidden(d))[k];
  }

  /** A group that mirrored the first n0 markers mirrors them all once hidden markers are appended. */
  lemma MirrorsOfAppended(ms: seq<CategoryMarker>, members: set<nat>, n0: nat)
    requires n0 <= |ms|
    requires forall k :: 0 <= k < n0 ==> (k in members <==> ms[k].visible)
    requires forall j :: n0 <= j < |ms| ==> !ms[j].visible
    requires forall j :: j in members ==> j < n0
    ensures forall k :: 0 <= k < |ms| ==> (k in members <==> ms[k].visible)
  {
  }

  /** The data of each marker, in order. */
  function DataOf(ms: seq<CategoryMarker>): (r: seq<Facility>)
    ensures |r| == |ms| && forall i :: 0 <= i < |ms| ==> r[i] == ms[i].data
  {
    seq(|ms|, i requires 0 <= i < |ms| => ms[i].data)
  }

  predicate Distinct(ms: seq<CategoryMarker>) {
    forall i, j :: 0 <= i < j < |ms| ==> ms[i] != ms[j]
  }

  class CategorieLayer {
    var markers: seq<CategoryMarker>
    var selectedCategories: Option<seq<Path>>
    /** The markers (by index) currently in the cluster group. */
    var members: set<nat>
    var calls: seq<LayerCall>

    ghost predicate Valid()
      reads this
    {
      && Distinct(markers)
      && forall i :: i in members ==> i < |markers|
    }

    /** The cluster group holds exactly the markers whose `visible` flag is set. */
    ghost predicate Mirrors()
      reads this, set m | m in markers
    {
      forall i :: 0 <= i < |markers| ==> (i in members <==> markers[i].visible)
    }

    constructor ()
      ensures Valid() && Mirrors()
      ensures markers == [] && selectedCategories.None? && members == {} && calls == []
    {
      markers := [];
      selectedCategories := None;
      members := {};
      calls := [];
    }

    /**
     * The loop invariant of _update after marker i has been visited: markers before i show
     * what is wanted, the rest still show `vis`, and the calls made so far are the flips of
     * markers 0..i-1.
     */
    ghost predicate UpdatedUpTo(i: nat, vis: seq<bool>, want: seq<bool>, members0: set<nat>, calls0: seq<LayerCall>)
      reads this, set m | m in markers
    {
      && i <= |markers| && |vis| == |markers| && |want| == |markers|
      && (forall k :: 0 <= k < i ==> markers[k].visible == want[k])
      && (forall k :: i <= k < |markers| ==> markers[k].visible == vis[k])
      && calls == calls0 + FlipCalls(vis, want, i)
      && members == Apply(members0, FlipCalls(vis, want, i))
    }

    /** One step of _update: bring marker i to the wanted visibility, calling the group only on a flip. */
    method Refresh(i: nat, show: bool, ghost vis: seq<bool>, ghost want: seq<bool>, ghost members0: set<nat>, ghost calls0: seq<LayerCall>)
      requires Valid() && i < |markers|
      requires UpdatedUpTo(i, vis, want, members0, calls0) && show == want[i]
      modifies this, markers[i]
      ensures Valid()
      ensures markers == old(markers) && selectedCategories == old(selectedCategories)
      ensures UpdatedUpTo(i + 1, vis, want, members0, calls0)
    {
      ApplyConcat(members0, FlipCalls(vis, want, i), FlipCall(vis[i], want[i], i));
      AppendAssoc(calls0, FlipCalls(vis, want, i), FlipCall(vis[i], want[i], i));
      var marker := markers[i];
      if show {
        if !marker.visible {
          members := members + {i};
          calls := calls + [AddLayer(i)];
          marker.visible := true;
        }
      } else {
        if marker.visible {
          members := members - {i};
          calls := calls + [RemoveLayer(i)];
          marker.visible := false;
        }
      }
    }

    /** The loop of _update: visit the markers in index order, refreshing each one. */
    method RefreshAll(ghost vis: seq<bool>, ghost want: seq<bool>, ghost members0: set<nat>, ghost calls0: seq<LayerCall>)
      requires Valid() && UpdatedUpTo(0, vis, want, members0, calls0)
      requires want == Wanted(markers, selectedCategories)
      modifies this, set m | m in markers
      ensures Valid() && markers == old(markers) && selectedCategories == old(selectedCategories)
      ensures UpdatedUpTo(|markers|, vis, want, members0, calls0)
    {
      var i := 0;
      while i < |markers|
        invariant 0 <= i <= |markers|
        invariant Valid()
        invariant markers == old(markers) && selectedCategories == old(selectedCategories)
        invariant UpdatedUpTo(i, vis, want, members0, calls0)
      {
        var show := false;
        if selectedCategories.Some? {
          show := IsOfCategory(markers[i].data, selectedCategories.value);
        }
        Refresh(i, show, vis, want, members0, calls0);
        i := i + 1;
      }
    }

    /**
     * _update: visit every marker once; add it to the cluster group and set `visible` when
     * it matches but is hidden, remove it and clear `visible` when it is shown but does
     * not match. With no selection, every shown marker is removed.
     */
    method Update()
      requires Valid()
      modifies this, set m | m in markers
      ensures Valid()
      ensures markers == old(markers) && selectedCategories == old(selectedCategories)
      ensures Flags(markers) == Wanted(markers, selectedCategories)
      ensures calls == old(calls) + FlipCalls(old(Flags(markers)), Wanted(markers, selectedCategories), |markers|)
      ensures members == Apply(old(members), FlipCalls(old(Flags(markers)), Wanted(markers, selectedCategories), |markers|))
      ensures old(Mirrors()) ==> Mirrors()
    {
      ghost var vis := Flags(markers);
      ghost var want := Wanted(markers, selectedCategories);
      ghost var members0, calls0 := members, calls;
      assert calls0 + [] == calls0;
      assert UpdatedUpTo(0, vis, want, members0, calls0);
      RefreshAll(vis, want, members0, calls0);
      assert forall k :: 0 <= k < |markers| ==> Flags(markers)[k] == want[k];
      assert Flags(markers) == want;
      if old(Mirrors()) {
        assert forall k :: 0 <= k < |vis| ==> (k in members0 <==> vis[k]);
        MirrorAfterFlips(members0, vis, want);
      }
    }

    /** setKategories: replace the selection, then recompute every marker's visibility. */
    method SetKategories(ids: seq<Path>)
      requires Valid()
      modifies this, set m | m in markers
      ensures Valid()
      ensures markers == old(markers) && selectedCategories == Some(ids)
      ensures forall i :: 0 <= i < |markers| ==> markers[i].visible == MatchesAny(markers[i].data, ids)
      ensures calls == old(calls) + FlipCalls(old(Flags(markers)), Wanted(markers, Some(ids)), |markers|)
      ensures members == Apply(old(members), FlipCalls(old(Flags(markers)), Wanted(markers, Some(ids)), |markers|))
      ensures old(Mirrors()) ==> Mirrors()
    {
      selectedCategories := Some(ids);
      Update();
    }

    /** The loop of _loadData: append one fresh, hidden marker per item, in data order. */
    method AppendMarkers(data: seq<Facility>)
      requires Valid()
      modifies this
      ensures Valid()
      ensures |markers| == old(|markers|) + |data| && markers[..old(|markers|)] == old(markers)
      ensures DataOf(markers[old(|markers|)..]) == data && forall m :: m in markers[old(|markers|)..] ==> fresh(m)
      ensures forall m :: m in markers ==> m in old(markers) || fresh(m)
      ensures members == old(members) && calls == old(calls) && selectedCategories == old(selectedCategories)
      ensures Flags(markers) == old(Flags(markers)) + AllHidden(|data|)
      ensures old(Mirrors()) ==> Mirrors()
    {
      ghost var n0 := |markers|;
      ghost var vis0 := Flags(markers);
      ghost var mirrored := Mirrors();
      var i := 0;
      while i < |data|
        invariant 0 <= i <= |data|
        invariant Valid() && forall j :: j in members ==> j < n0
        invariant |markers| == n0 + i && markers[..n0] == old(markers)
        invariant forall k :: 0 <= k < n0 ==> markers[k].visible == vis0[k]
        invariant forall j :: n0 <= j < |markers| ==> fresh(markers[j]) && !markers[j].visible && markers[j].data == data[j - n0]
        invariant forall m :: m in markers ==> m in old(markers) || fresh(m)
        invariant members == old(members) && calls == old(calls) && selectedCategories == old(selectedCategories)
      {
        var m := new CategoryMarker(data[i]);
        markers := markers + [m];
        i := i + 1;
      }
      assert DataOf(markers[n0..]) == data;
      FlagsOfAppended(markers, vis0, |data|);
      if mirrored {
        MirrorsOfAppended(markers, members, n0);
      }
    }

    /**
     * The step of _loadData that turns the delivered data into markers: append one fresh,
     * hidden marker per item, in data order, then recompute visibility.
     */
    method LoadData(data: seq<Facility>)
      requires Valid()
      modifies this, set m | m in markers
      ensures Valid()
      ensures |markers| == old(|markers|) + |data| && markers[..old(|markers|)] == old(markers)
      ensures DataOf(markers[old(|markers|)..]) == data && forall m :: m in markers[old(|markers|)..] ==> fresh(m)
      ensures selectedCategories == old(selectedCategories)
      ensures Flags(markers) == Wanted(markers, selectedCategories)
      ensures calls == old(calls) + FlipCalls(old(Flags(markers)) + AllHidden(|data|), Wanted(markers, selectedCategories), |markers|)
      ensures members == Apply(old(members), FlipCalls(old(Flags(markers)) + AllHidden(|data|), Wanted(markers, selectedCategories), |markers|))
      ensures old(Mirrors()) ==> Mirrors()
    {
      AppendMarkers(data);
      ghost var appended, members1, calls1, flags1 := markers, members, calls, Flags(markers);
      ghost var mirrored1 := Mirrors();
      assert flags1 == old(Flags(markers)) + AllHidden(|data|);
      assert old(Mirrors()) ==> mirrored1;
      Update();
      assert markers == appended;
      ghost var flips := FlipCalls(flags1, Wanted(markers, selectedCategories), |markers|);
      assert calls == calls1 + flips && members == Apply(members1, flips);
      assert mirrored1 ==> Mirrors();
    }

    /** The `i`-th marker is the first whose `data[prop] === value`. */
    ghost predicate IsFirstMatch(value: JsValue, prop: string, i: nat)
      reads this
    {
      && i < |markers|
      && Prop(markers[i].data, prop) == value
      && forall j :: 0 <= j < i ==> Prop(markers[j].data, prop) != value
    }

    /** _findMarker: the index of the first marker whose `data[prop] === value`, or none. */
    method FindMarker(value: JsValue, prop: string) returns (r: Option<nat>)
      ensures r.Some? ==> r.value < |markers| && Prop(markers[r.value].data, prop) == value
      ensures r.Some? ==> forall j :: 0 <= j < r.value ==> Prop(markers[j].data, prop) != value
      ensures r.None? <==> forall j :: 0 <= j < |markers| ==> Prop(markers[j].data, prop) != value
    {
      var i := 0;
      while i < |markers|
        invariant 0 <= i <= |markers|
        invariant forall j :: 0 <= j < i ==> Prop(markers[j].data, prop) != value
      {
        if Prop(markers[i].data, prop) == value {
          return Some(i);
        }
        i := i + 1;
      }
      return None;
    }

    /**
     * showMarker: put the first marker with `data[prop] === value` into the cluster group if
     * its flag says hidden (the flag itself is left as it is), then zoom the map around it.
     * Nothing happens when no marker has that value.
     */
    method ShowMarker(value: JsValue, prop: string)
      requires Valid()
      modifies this
      ensures Valid()
      ensures markers == old(markers) && selectedCategories == old(selectedCategories)
      ensures (forall j :: 0 <= j < |markers| ==> Prop(markers[j].data, prop) != value) ==>
                members == old(members) && calls == old(calls)
      ensures forall i: nat :: IsFirstMatch(value, prop, i) ==>
                && members == old(members) + (if markers[i].visible then {} else {i})
                && calls == old(calls) + (if markers[i].visible then [] else [AddLayer(i)]) + [ZoomAround(i)]
    {
      var found := FindMarker(value, prop);
      if found.Some? {
        var i := found.value;
        assert forall j: nat :: IsFirstMatch(value, prop, j) ==> j == i;
        if !markers[i].visible {
          members := members + {i};
          calls := calls + [AddLayer(i)];
        }
        calls := calls + [ZoomAround(i)];
      }
    }
  }
}
