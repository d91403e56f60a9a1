/**
 * The two views the side panel shows for markers: the detail view of one marker and the
 * list of markers found at a place. Both build their dom lazily and keep it; the list view
 * tracks the selected list entry and dispatches the selected marker.
 */
module MarkerListView {
  import opened JsText
  import opened CategorieLayer

  /** The lazily built dom: the cached one if there is one, else the freshly built one. */
  function Cached<T>(cache: Option<T>, built: T): (d: T)
    ensures cache.Some? ==> d == cache.value
    ensures cache.None? ==> d == built
  {
    if cache.Some? then cache.value else built
  }

  /** Once built, the dom is returned again whatever a later build would produce. */
  lemma CachedIsStable<T>(cache: Option<T>, f1: T, f2: T)
    ensures Cached(Some(Cached(cache, f1)), f2) == Cached(cache, f1)
  {
  }

  /** What the detail view asks of its layer and map. */
  datatype MarkerViewCall = Highlight(marker: CategoryMarker, on: bool) | PanTo(marker: CategoryMarker)

  /** The calls of onAdd: highlight the marker, then pan to it when the layer is on a map. */
  function OnAddCalls(m: CategoryMarker, layerOnMap: bool): (cs: seq<MarkerViewCall>)
    ensures |cs| >= 1 && cs[0] == Highlight(m, true)
    ensures PanTo(m) in cs <==> layerOnMap
  {
    [Highlight(m, true)] + if layerOnMap then [PanTo(m)] else []
  }

  /** MarkerView: the detail view of one marker. */
  class MarkerView {
    const marker: CategoryMarker
    /** The dom built by the layer's popup factory, once built. */
    var dom: Option<nat>
    var calls: seq<MarkerViewCall>

    constructor (marker: CategoryMarker)
      ensures this.marker == marker && dom.None? && calls == []
    {
      this.marker := marker;
      dom := None;
      calls := [];
    }

    /** getDom: build the dom on the first call (`rendered` is what the factory returns), then reuse it. */
    method GetDom(rendered: nat) returns (d: nat)
      modifies this
      ensures d == Cached(old(dom), rendered) && dom == Some(d)
      ensures calls == old(calls)
    {
      if dom.None? {
        dom := Some(rendered);
      }
      d := dom.value;
    }

    /** onAdd: highlight the marker; pan the map to it only when the layer has a map. */
    method OnAdd(layerOnMap: bool)
      modifies this
      ensures calls == old(calls) + OnAddCalls(marker, layerOnMap) && dom == old(dom)
    {
      calls := calls + [Highlight(marker, true)];
      if layerOnMap {
        calls := calls + [PanTo(marker)];
      }
    }

    /** onRemove: remove the highlight. */
    method OnRemove()
      modifies this
      ensures calls == old(calls) + [Highlight(marker, false)] && dom == old(dom)
    {
      calls := calls + [Highlight(marker, false)];
    }
  }

  /** An add followed by a remove leaves the marker unhighlighted as the last call. */
  lemma AddThenRemoveUnhighlights(m: CategoryMarker, layerOnMap: bool, before: seq<MarkerViewCall>)
    ensures var cs := before + OnAddCalls(m, layerOnMap) + [Highlight(m, false)];
            cs[|cs| - 1] == Highlight(m, false) && Highlight(m, true) in cs[|before|..]
  {
    var cs := before + OnAddCalls(m, layerOnMap) + [Highlight(m, false)];
    assert cs[|before|] == Highlight(m, true);
  }

  /** The content of the list dom: one item per marker, in order, or the "nothing found" note. */
  datatype ListContent = Items(markers: seq<CategoryMarker>) | NothingFound

  /** What the list renders for its markers (absent or empty: the note). */
  function RenderList(markers: Option<seq<CategoryMarker>>): (c: ListContent)
    ensures c.Items? <==> markers.Some? && |markers.value| > 0
    ensures c.Items? ==> c.markers == markers.value
  {
    if markers.Some? && |markers.value| > 0 then Items(markers.value) else NothingFound
  }

  /** A list entry: the clicked item's dom and its marker; compared by identity. */
  class ListEntry {
    const dom: nat
    const item: CategoryMarker

    constructor (dom: nat, item: CategoryMarker)
      ensures this.dom == dom && this.item == item
    {
      this.dom := dom;
      this.item := item;
    }
  }

  /** MarkerListView: the list of markers found, with a selectable entry. */
  class MarkerListView {
    const markers: Option<seq<CategoryMarker>>
    const geoJson: Option<nat>
    var dom: Option<(nat, ListContent)>
    var selectedListEntry: Option<ListEntry>
    /** The values dispatched as the list-view selection, in order (None is `undefined`). */
    var dispatched: seq<Option<CategoryMarker>>
    /** The doms whose `selected` class was removed, in order. */
    var unselectedDoms: seq<nat>
    /** The GeoJSON layers removed from the map. */
    var removedGeoJson: seq<nat>

    constructor (geoJ: Option<nat>, markers: Option<seq<CategoryMarker>>)
      ensures this.markers == markers && geoJson == geoJ
      ensures dom.None? && selectedListEntry.None? && dispatched == [] && unselectedDoms == [] && removedGeoJson == []
    {
      this.markers := markers;
      geoJson := geoJ;
      dom := None;
      selectedListEntry := None;
      dispatched := [];
      unselectedDoms := [];
      removedGeoJson := [];
    }

    /** getDom: on the first call render the list (`built` is the new div), then reuse it. */
    method GetDom(built: nat) returns (d: (nat, ListContent))
      modifies this
      ensures d == Cached(old(dom), (built, RenderList(markers))) && dom == Some(d)
      ensures selectedListEntry == old(selectedListEntry) && dispatched == old(dispatched)
      ensures unselectedDoms == old(unselectedDoms) && removedGeoJson == old(removedGeoJson)
    {
      if dom.None? {
        var content: ListContent;
        if markers.Some? && |markers.value| > 0 {
          content := Items(markers.value);
        } else {
          content := NothingFound;
        }
        dom := Some((built, content));
      }
      d := dom.value;
    }

    /**
     * listEntryClicked: clear `selected` on the previously selected entry; if that is this very
     * entry, deselect and dispatch `undefined`; then select the entry and dispatch its marker.
     */
    method ListEntryClicked(entry: ListEntry)
      modifies this
      ensures selectedListEntry == Some(entry)
      ensures old(selectedListEntry).None? ==>
                dispatched == old(dispatched) + [Some(entry.item)] && unselectedDoms == old(unselectedDoms)
      ensures old(selectedListEntry).Some? ==>
                unselectedDoms == old(unselectedDoms) + [old(selectedListEntry).value.dom]
      ensures old(selectedListEntry) == Some(entry) ==>
                dispatched == old(dispatched) + [None, Some(entry.item)]
      ensures old(selectedListEntry).Some? && old(selectedListEntry) != Some(entry) ==>
                dispatched == old(dispatched) + [Some(entry.item)]
      ensures dom == old(dom) && removedGeoJson == old(removedGeoJson)
    {
      if selectedListEntry.Some? {
        unselectedDoms := unselectedDoms + [selectedListEntry.value.dom];
        if selectedListEntry.value == entry {
          selectedListEntry := None;
          dispatched := dispatched + [None];
        }
      }
      selectedListEntry := Some(entry);
      dispatched := dispatched + [Some(entry.item)];
    }

    /**
     * The click listener of a list item: it builds a new entry object for every click, so the
     * entry never is the selected one and exactly one value, the marker, is dispatched.
     */
    method ItemClicked(target: nat, marker: CategoryMarker)
      modifies this
      ensures selectedListEntry.Some? && fresh(selectedListEntry.value)
      ensures selectedListEntry.value.item == marker && selectedListEntry.value.dom == target
      ensures dispatched == old(dispatched) + [Some(marker)]
      ensures old(selectedListEntry).Some? ==> unselectedDoms == old(unselectedDoms) + [old(selectedListEntry).value.dom]
      ensures old(selectedListEntry).None? ==> unselectedDoms == old(unselectedDoms)
      ensures dom == old(dom) && removedGeoJson == old(removedGeoJson)
    {
      var entry := new ListEntry(target, marker);
      ListEntryClicked(entry);
    }

    /** onRemove: remove the GeoJSON layer from the map if there is one. */
    method OnRemove()
      modifies this
      ensures removedGeoJson == old(removedGeoJson) + (if geoJson.Some? then [geoJson.value] else [])
      ensures dom == old(dom) && selectedListEntry == old(selectedListEntry) && dispatched == old(dispatched)
      ensures unselectedDoms == old(unselectedDoms)
    {
      if geoJson.Some? {
        removedGeoJson := removedGeoJson + [geoJson.value];
      }
    }
  }
}
