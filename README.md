# lkee-pflegeportal map logic in Dafny

A model of the client-side logic of the care-facility portal: a Leaflet map whose
facilities are shown as category-filtered markers, a layer control with the base-layer
radio group and a tri-state category tree, a menu that opens and closes the controls and
routes search results, a side panel with a history of views, the list page with its
previous/next navigation, and the query-string helper.

The model is one Dafny module per source file, plus `JsText` for the JavaScript
behaviour the code relies on:
- `undefined` and `null` against numbers;
- the truthiness of strings and numbers;
- `'kat01_' + undefined`;
- number-to-string conversion;
- ASCII case mapping.

Code that changes objects in place is modelled as classes whose fields the methods
update: `CategorieLayer`, `LayerControl`, `ViewControl`, `ListApp`, `MarkerListView`
and `MenuControl`. Calls on Leaflet, the map or the DOM are recorded in a log field, as a
sequence of call values. Where the source keeps a state machine (the view history, the
list page), a pure transition function (`After…`) states the new state, the method
ensures `State() == After…(old(State()))`, and the lemmas about the transition functions
carry the properties.

Facilities, layers and markers:
- Facilities are values (`Facility.Facility`).
- Markers (`CategorieLayer.CategoryMarker`), layer controls and list entries are
  objects compared by identity, as `===` compares them.
- Tile layers are numbers compared by equality.
- Category ids are strings, both in selected paths and in tree nodes, although the source
  declares them as numbers. `isOfCategory` compares each path element with `===` against
  the strings `'kat01_'+kat1_id`, `'kat02_'+kat2_id` and `'kat03_'+kat3_id`, so only
  string ids can ever match.

## Model

| member | source | states |
|---|---|---|
| JsText.NatToStringInjective | src/ts/data/Facility.ts:56 | distinct numbers print differently, so `'kat01_'+id` comparisons compare the ids |
| JsText.IntToStringInjective | src/ts/data/Facility.ts:56 | the same for signed ids |
| JsText.OptNumToStringInjective | src/ts/data/Facility.ts:60 | `'kat02_'+v` for undefined, null or a number determines v |
| JsText.LowerOfUpper | src/ts/maputil/LayerControl.ts:208 | lower-casing an upper-cased key gives the lower-cased key |
| Facility.IsOfCategory | src/ts/data/Facility.ts:48-75 | the nested loops with early return yield true exactly when some selected path matches some offer (`MatchesAny`) |
| Facility.NoOffersOrNoPathsNeverMatch | src/ts/data/Facility.ts:49-75 | no offers or no paths gives false |
| Facility.EmptyPathNeverMatches | src/ts/data/Facility.ts:56 | an empty path matches nothing |
| Facility.SingleLevelPath | src/ts/data/Facility.ts:56-58 | `[kat01_a]` matches iff an offer has level-1 id a |
| Facility.TwoLevelPath | src/ts/data/Facility.ts:56-62 | `[kat01_a, kat02_b]` matches iff one offer has level-1 id a and level-2 id b; an offer with undefined level-2 id never matches |
| Facility.ElementsAfterThirdIgnored | src/ts/data/Facility.ts:59-66 | path elements after the third are never compared |
| Facility.OrderIndependent | src/ts/data/Facility.ts:50-52 | the verdict depends only on the sets of paths and offers |
| Facility.Monotone | src/ts/data/Facility.ts:48-75 | more paths or more offers never turn a match into a non-match |
| Facility.TwoFacilityScenario | src/ts/data/Facility.ts:48-75 | two concrete facilities against a one-level and a two-level path |
| Facility.OfferPathShape | src/ts/data/Facility.ts:255-258 | an offer's path has 1 to 3 ids, starts with kat1, skips falsy kat2 and kat3 independently |
| Facility.GetKategories | src/ts/data/Facility.ts:251-264 | one path per offer in offer order (the `includes` test never removes one); no offers throws |
| Facility.TelNumber | src/ts/data/Facility.ts:33 | the filtered number is no longer than the input and holds only digits, `+` and `^` |
| Facility.TelNumberAppend | src/ts/data/Facility.ts:33 | the filter works piecewise over concatenation |
| Facility.TelNumberKeepsDialable | src/ts/data/Facility.ts:33 | a dialable string is left unchanged |
| Facility.TelNumberIdempotent | src/ts/data/Facility.ts:33 | filtering twice equals filtering once |
| Facility.TelNumberCounts | src/ts/data/Facility.ts:33 | each dialable character is kept as often as it occurs, every other one dropped |
| Facility.CreateTelLink | src/ts/data/Facility.ts:31-37 | the href is `tel:` then the dialable characters; the label is the number as given |
| Facility.GetHeader | src/ts/data/Facility.ts:206-221 | carrier and name joined by `<br>` when both are truthy, the carrier alone, or the name as it is (undefined prints "undefined") |
| Facility.PlzOrt | src/ts/data/Facility.ts:273-283 | `plz ort`, either one alone when the other is falsy, undefined when both are |
| Facility.StreetLine | src/ts/data/Facility.ts:284-290 | `strasse hausnummer`, the street alone, or undefined without a street |
| Facility.GetAdress | src/ts/data/Facility.ts:266-293 | as written: both parts joined by `<br>`, and a missing part prints as "undefined" |
| Facility.AdressOfFacilityWithoutAddress | src/ts/data/Facility.ts:291 | a facility without address fields gets "undefined<br>undefined" |
| Facility.GetAddressText | src/ts/data/Facility.ts:266-293 | corrected: the text uses only the characters of the address fields and the separators |
| CategorieLayer.Prop | src/ts/maputil/CategorieLayer.ts:157 | `data[prop]`: the id for "id", undefined for an absent attribute |
| CategorieLayer.ApplyConcat | src/ts/maputil/CategorieLayer.ts:177-220 | applying calls in two batches equals applying them at once |
| CategorieLayer.FlipCallsSilentWhenAgreeing | src/ts/maputil/CategorieLayer.ts:197-208 | when every marker already shows what is wanted, _update makes no call |
| CategorieLayer.FlipCallsExactlyTheFlips | src/ts/maputil/CategorieLayer.ts:193-210 | an add exactly for each hidden marker that must show, a remove exactly for each shown marker that must hide, never a zoom |
| CategorieLayer.UnwantedOnlyRemoves | src/ts/maputil/CategorieLayer.ts:211-218 | with nothing wanted, nothing is added and exactly the shown markers are removed |
| CategorieLayer.FlipMembership | src/ts/maputil/CategorieLayer.ts:193-210 | after the calls a flipped marker is in the cluster group iff it is wanted; the others keep their membership |
| CategorieLayer.Flags | src/ts/maputil/CategorieLayer.ts:85-91 | the visibility flags, index by index |
| CategorieLayer.Wanted | src/ts/maputil/CategorieLayer.ts:184-196 | a marker is wanted iff a selection is set and it matches |
| CategorieLayer.NoSelectionHidesAll | src/ts/maputil/CategorieLayer.ts:211-218 | without a selection no marker is wanted |
| CategorieLayer.CategoryMarker.constructor | src/ts/maputil/CategorieLayer.ts:52-66 | a new marker holds its data and is not visible |
| CategorieLayer.CategorieLayer.constructor | src/ts/maputil/CategorieLayer.ts:108-130 | no markers, no selection, empty cluster group |
| CategorieLayer.CategorieLayer.Refresh | src/ts/maputil/CategorieLayer.ts:194-209 | one loop step: marker i gets its wanted flag and its flip call, the invariant moves to i+1 |
| CategorieLayer.CategorieLayer.RefreshAll | src/ts/maputil/CategorieLayer.ts:194-209 | the loop over all markers leaves markers and selection unchanged and brings every marker up to date: flag set to the selector's verdict, one add or remove call per flipped marker, in index order |
| CategorieLayer.CategorieLayer.Update | src/ts/maputil/CategorieLayer.ts:177-220 | every flag becomes the selector's verdict; the calls are exactly the flips in index order; the cluster group mirrors the flags if it did before |
| CategorieLayer.CategorieLayer.SetKategories | src/ts/maputil/CategorieLayer.ts:222-226 | the selection becomes `ids` and each marker is visible iff it matches `ids` |
| CategorieLayer.CategorieLayer.AppendMarkers | src/ts/maputil/CategorieLayer.ts:145-147 | one fresh marker per datum, appended in data order and hidden; the earlier markers, their flags, the cluster group and the calls are kept |
| CategorieLayer.CategorieLayer.LoadData | src/ts/maputil/CategorieLayer.ts:141-151 | one new hidden marker per datum, appended in data order, then visibility recomputed: the calls are the flips from the old flags plus hidden new markers, and the cluster group is those flips applied to the old group, whether or not it mirrored the flags |
| CategorieLayer.CategorieLayer.FindMarker | src/ts/maputil/CategorieLayer.ts:153-161 | the index of the first marker whose `data[prop] === value`; none iff no marker has that value |
| CategorieLayer.CategorieLayer.ShowMarker | src/ts/maputil/CategorieLayer.ts:167-175 | the first match is added to the group if its flag says hidden, then zoomed around; no match changes nothing |
| LayerControl.Prefixed | src/ts/maputil/LayerControl.ts:262-264 | `[id, ...p]` for each child path, in order |
| LayerControl.FindSelected | src/ts/maputil/LayerControl.ts:254-269 | the recursive loop returns exactly `SelectedPaths(nodes)` |
| LayerControl.SelectedPathsConcat | src/ts/maputil/LayerControl.ts:256-267 | the paths of two sibling lists are the paths of each, in order |
| LayerControl.InSelectedPaths | src/ts/maputil/LayerControl.ts:256-267 | a path is found iff some sibling contributes it |
| LayerControl.NodePathsMembership | src/ts/maputil/LayerControl.ts:257-265 | what a selected, indeterminate or unselected node contributes |
| LayerControl.SelectedPathsAreChains | src/ts/maputil/LayerControl.ts:254-269 | a path is returned iff it names a chain of indeterminate nodes ending in a selected node |
| LayerControl.SelectedPathsBounded | src/ts/maputil/LayerControl.ts:254-269 | every returned path is non-empty and no longer than the tree is deep |
| LayerControl.DepthBelow | src/ts/maputil/LayerControl.ts:260-262 | a child forest is shallower than its parent forest |
| LayerControl.SelectedHidesChildren | src/ts/maputil/LayerControl.ts:257-258 | a selected node yields `[id]` whatever its children |
| LayerControl.UnselectedYieldsNothing | src/ts/maputil/LayerControl.ts:254-269 | nothing selected or indeterminate gives no path |
| LayerControl.LookupFrom | src/ts/maputil/LayerControl.ts:206-213 | the first definition whose id equals the key ignoring case; a definition without an id met first throws; not found iff every id differs |
| LayerControl.LookupDefinition | src/ts/maputil/LayerControl.ts:206-213 | a missing definition list throws |
| LayerControl.FindBaseLayerDefinition | src/ts/maputil/LayerControl.ts:206-213 | the loop with early return computes `LookupDefinition` |
| LayerControl.LookupIgnoresCase | src/ts/maputil/LayerControl.ts:208 | an upper-cased key finds the same definition |
| LayerControl.PickBaseLayerDefinition | src/ts/maputil/LayerControl.ts:115-123 | the last definition whose layer is the base layer; none iff there is no base layer, no definitions or no match |
| LayerControl.BaseLayerChanged | src/ts/maputil/LayerControl.ts:96-111 | the switch never changes whether a map is attached |
| LayerControl.SameBaseLayerIsNoop | src/ts/maputil/LayerControl.ts:100-103 | re-choosing the current base layer changes and calls nothing |
| LayerControl.SwitchWithMap | src/ts/maputil/LayerControl.ts:96-111 | with a map: old layer removed, new one added and recorded; choosing it again is silent |
| LayerControl.SwitchWithoutMap | src/ts/maputil/LayerControl.ts:96-111 | without a map: the old layer is removed but stays recorded, the new one is not added |
| LayerControl.LayerControl.constructor | src/ts/maputil/LayerControl.ts:63-123 | options copied, no map; the picked base definition is the last one whose layer is the base layer, and none exactly when there is no base layer, no definition list or no match; it is selected in the tree |
| LayerControl.LayerControl.OnAdd | src/ts/maputil/LayerControl.ts:153-200 | the map is attached; nothing else changes, the base-layer definitions and the picked definition included |
| LayerControl.LayerControl.OnRemove | src/ts/maputil/LayerControl.ts:201-204 | the map is detached; nothing else changes, the base-layer definitions and the picked definition included |
| LayerControl.LayerControl.BaseLayerChangedTo | src/ts/maputil/LayerControl.ts:96-111 | the new base layer and the calls are those of `BaseLayerChanged` |
| LayerControl.LayerControl.AddCategorieLayer | src/ts/maputil/LayerControl.ts:232-244 | the layer is registered under its title, a tree node is appended and recorded for the title; the map, the base layer and the definitions are kept |
| LayerControl.LayerControl.CategorieSelected | src/ts/maputil/LayerControl.ts:245-252 | the title's layer gets the selected paths and each of its markers becomes visible iff it matches them; its calls are exactly the flips, its cluster group is the flips applied to the old group, and a group that mirrored the flags still does |
| LayerControl.LayerControl.ShowMarker | src/ts/maputil/LayerControl.ts:224-230 | for a registered title: the first matching marker joins the cluster group if its flag says hidden and is zoomed around; an unknown value changes neither the group nor the calls; the markers and selection stay; nothing for an unregistered title |
| LayerControl.LayerControl.ShowCategorie | src/ts/maputil/LayerControl.ts:216-222 | asks the title's tree node to select the item id; nothing without a node; the registry, the map, the base layer and the definitions are kept |
| ViewControl.Initial | src/ts/maputil/ViewControl.ts:17-18 | a new control is consistent, with empty history and counter 0 |
| ViewControl.AnchorFor | src/ts/maputil/ViewControl.ts:114-120 | the anchor reads `close` iff exactly one view is in the history |
| ViewControl.AfterSetContent | src/ts/maputil/ViewControl.ts:99-122 | the view is pushed, its dom tagged `view_<counter>`, the counter incremented, `added` dispatched |
| ViewControl.AfterSetContentView | src/ts/maputil/ViewControl.ts:91-97 | _setContent, then the view's onAdd if it has one |
| ViewControl.AfterGoBack | src/ts/maputil/ViewControl.ts:124-153 | counter, dom ids and title are kept |
| ViewControl.ClearEvents | src/ts/maputil/ViewControl.ts:77-81 | exactly one onRemove call per history entry that defines it (a view pushed twice is counted twice) |
| ViewControl.ClearEventsPush | src/ts/maputil/ViewControl.ts:77-81 | clearing a history with one more view on top calls that view's onRemove first, then clears the rest |
| ViewControl.ClearEventAt | src/ts/maputil/ViewControl.ts:77-81 | the onRemove of entry j comes right after those of the entries above it that define one |
| ViewControl.ClearOrder | src/ts/maputil/ViewControl.ts:77-81 | for entries i < j, the onRemove of the later entry j is called before that of i: top first |
| ViewControl.AfterClear | src/ts/maputil/ViewControl.ts:74-89 | empty history, nothing displayed, no navigation area, anchor and counter kept |
| ViewControl.OperationsKeepConsistent | src/ts/maputil/ViewControl.ts:91-153 | push, back and clear keep the displayed view on top of the history and the anchor in step with it |
| ViewControl.DisplayedIsTop | src/ts/maputil/ViewControl.ts:99-153 | after a push the new view is displayed; after a back the view below it, or nothing and no navigation area |
| ViewControl.GoBackWhenEmpty | src/ts/maputil/ViewControl.ts:126 | back with nothing displayed changes neither history nor trace |
| ViewControl.GoBackPopsTop | src/ts/maputil/ViewControl.ts:128-146 | back pops exactly the top view, calls its onRemove once and dispatches `removed` |
| ViewControl.PushThenBack | src/ts/maputil/ViewControl.ts:91-153 | push then back restores the history and display; the lifecycle runs added, onAdd, onRemove, removed |
| ViewControl.ClearEventsExact | src/ts/maputil/ViewControl.ts:77-81 | clear calls only onRemove, only for views in the history that define it |
| ViewControl.ClearEventsComplete | src/ts/maputil/ViewControl.ts:77-81 | every history view defining onRemove has it called |
| ViewControl.ClearOrderExample | src/ts/maputil/ViewControl.ts:77-81 | two pushed views are removed later-first |
| ViewControl.TwoPushesOneBack | src/ts/maputil/ViewControl.ts:99-153 | two pushes and a back leave one view, anchor `close`, dom ids `view_0` and `view_1` |
| ViewControl.ViewControl.constructor | src/ts/maputil/ViewControl.ts:17-53 | the initial state |
| ViewControl.ViewControl.SetContent | src/ts/maputil/ViewControl.ts:99-122 | the new state is `AfterSetContent` |
| ViewControl.ViewControl.SetContentView | src/ts/maputil/ViewControl.ts:91-97 | the new state is `AfterSetContentView` |
| ViewControl.ViewControl.GoBack | src/ts/maputil/ViewControl.ts:124-153 | the new state is `AfterGoBack` |
| ViewControl.ViewControl.PopAll | src/ts/maputil/ViewControl.ts:77-81 | the pop loop empties the history and calls `ClearEvents` of it: one onRemove per entry that defines it, top first |
| ViewControl.ViewControl.Clear | src/ts/maputil/ViewControl.ts:74-89 | the new state is `AfterClear` |
| HtmlUtil.EntryPairs | src/ts/util/HtmlUtil.ts:48-56 | one pair for a single value, one per element of an array |
| HtmlUtil.EntryPairsElements | src/ts/util/HtmlUtil.ts:48-56 | each pair is the encoded key, `=`, and one encoded value, in element order |
| HtmlUtil.Separator | src/ts/util/HtmlUtil.ts:58 | `?` iff there is no URL, an empty one, or one without `?`; `&` otherwise |
| HtmlUtil.PushEntryPairs | src/ts/util/HtmlUtil.ts:48-56 | appends the pairs of one property (its single value, or one per array element) after the earlier pairs |
| HtmlUtil.CollectPairs | src/ts/util/HtmlUtil.ts:47-57 | the loop over the properties collects exactly `Pairs`: every property's pairs, in property order |
| HtmlUtil.PushArrayPairs | src/ts/util/HtmlUtil.ts:53-55 | appends one pair per array element with the same key, keeping the earlier pairs |
| HtmlUtil.GetParamString | src/ts/util/HtmlUtil.ts:42-59 | the loops compute `ParamString`: the separator, then all pairs joined by `&` |
| HtmlUtil.PairsCount | src/ts/util/HtmlUtil.ts:47-57 | the number of pairs is the number of single values plus the array lengths |
| HtmlUtil.PairsConcat | src/ts/util/HtmlUtil.ts:47-57 | pairs come out property by property, in property order |
| HtmlUtil.UpperKeys | src/ts/util/HtmlUtil.ts:48 | keys upper-cased, values unchanged |
| HtmlUtil.UppercaseOnlyKeys | src/ts/util/HtmlUtil.ts:48 | the uppercase flag changes only the keys |
| HtmlUtil.ParamStringShape | src/ts/util/HtmlUtil.ts:42-59 | a falsy object gives ""; any other starts with the right separator; an empty one gives only the separator |
| HtmlUtil.ArrayProperty | src/ts/util/HtmlUtil.ts:53-58 | an array property gives `?k=a&k=b` |
| ListApp.Initial | src/ts/ListApp.ts:42-58 | the loaded page satisfies the invariant, with no detail screen |
| ListApp.AfterItemClicked | src/ts/ListApp.ts:59-96 | the clicked item's detail screen is shown |
| ListApp.AfterGoBack | src/ts/ListApp.ts:97-100 | the list is shown again |
| ListApp.AfterGoPrev | src/ts/ListApp.ts:101-113 | one item back, rendered and captioned `gid=<id>`; the right button enabled, the left disabled on item 0 and otherwise left as it was; data, saved scroll position and screen unchanged |
| ListApp.AfterGoNext | src/ts/ListApp.ts:114-125 | one item forward, rendered and captioned `gid=<id>`; the left button enabled, the right disabled on the last item and otherwise left as it was; data, saved scroll position and screen unchanged |
| ListApp.ClickSetsButtons | src/ts/ListApp.ts:59-96 | a click keeps the invariant, shows item i with caption `gid=<id>`, left disabled iff first, right iff last |
| ListApp.PrevKeepsInv | src/ts/ListApp.ts:101-113 | an enabled left button steps back one valid item and keeps the invariant |
| ListApp.NextKeepsInv | src/ts/ListApp.ts:114-125 | an enabled right button steps forward one valid item and keeps the invariant |
| ListApp.StepOnce | src/ts/ListApp.ts:101-125 | a scroll, or a click on the left or right button (nothing when disabled), keeps the invariant and the saved scroll position |
| ListApp.Run | src/ts/ListApp.ts:101-125 | any sequence of such steps keeps the invariant and the saved scroll position |
| ListApp.BackRestoresScroll | src/ts/ListApp.ts:59-100 | back restores the scroll position saved at the click, whatever scrolling or stepping came between |
| ListApp.DetailBuiltOnce | src/ts/ListApp.ts:61-90 | the detail screen is built on the first click only |
| ListApp.NextThenPrev | src/ts/ListApp.ts:101-125 | next then prev returns to the same item, caption and left button |
| ListApp.ListApp.constructor | src/ts/ListApp.ts:42-58 | the loaded page |
| ListApp.ListApp.ItemClicked | src/ts/ListApp.ts:59-96 | the new state is `AfterItemClicked` |
| ListApp.ListApp.GoBack | src/ts/ListApp.ts:97-100 | the new state is `AfterGoBack` |
| ListApp.ListApp.GoPrev | src/ts/ListApp.ts:101-113 | the new state is `AfterGoPrev` |
| ListApp.ListApp.GoNext | src/ts/ListApp.ts:114-125 | the new state is `AfterGoNext` |
| MarkerListView.Cached | src/ts/maputil/MarkerListView.ts:23-28 | the cached dom if there is one, else the built one |
| MarkerListView.CachedIsStable | src/ts/maputil/MarkerListView.ts:56-79 | once built, the dom is returned again whatever a later build would give |
| MarkerListView.OnAddCalls | src/ts/maputil/MarkerListView.ts:30-36 | highlight first; pan only when the layer has a map |
| MarkerListView.AddThenRemoveUnhighlights | src/ts/maputil/MarkerListView.ts:30-40 | add then remove ends with the marker unhighlighted |
| MarkerListView.RenderList | src/ts/maputil/MarkerListView.ts:63-75 | one item per marker in order, or the "nothing found" note for absent or empty markers |
| MarkerListView.MarkerView.GetDom | src/ts/maputil/MarkerListView.ts:23-28 | the dom is built once and then reused |
| MarkerListView.MarkerView.OnAdd | src/ts/maputil/MarkerListView.ts:30-36 | the calls are `OnAddCalls` |
| MarkerListView.MarkerView.OnRemove | src/ts/maputil/MarkerListView.ts:37-40 | the highlight is removed |
| MarkerListView.MarkerListView.constructor | src/ts/maputil/MarkerListView.ts:50-54 | markers and GeoJSON layer kept, nothing selected |
| MarkerListView.MarkerListView.GetDom | src/ts/maputil/MarkerListView.ts:56-79 | the list is rendered once and then reused |
| MarkerListView.MarkerListView.ListEntryClicked | src/ts/maputil/MarkerListView.ts:89-100 | the previous entry is unselected; re-clicking the same entry dispatches undefined and then its marker again; the entry ends selected |
| MarkerListView.MarkerListView.ItemClicked | src/ts/maputil/MarkerListView.ts:68 | a click builds a new entry, which ends selected; exactly the marker is dispatched; the previously selected entry, if any, loses `selected`; the dom and removed GeoJSON layers stay |
| MarkerListView.MarkerListView.OnRemove | src/ts/maputil/MarkerListView.ts:106-111 | the GeoJSON layer is removed if there is one |
| MenuControl.Toggle | src/ts/maputil/MenuControl.ts:85-101 | a click flips the flag and adds both controls when closed, removes both when open |
| MenuControl.TwoClicksRestore | src/ts/maputil/MenuControl.ts:85-101 | two clicks restore the flag and the control set |
| MenuControl.ToggleKeepsMirror | src/ts/maputil/MenuControl.ts:85-101 | closed iff neither control is on the map, before and after a click |
| MenuControl.RouteOf | src/ts/maputil/MenuControl.ts:62-72 | "Kategorie" shows a category, "Einrichtung" a marker, anything else nothing |
| MenuControl.MenuControl.constructor | src/ts/maputil/MenuControl.ts:25-32 | the menu starts closed with no control on the map |
| MenuControl.MenuControl.MenuClicked | src/ts/maputil/MenuControl.ts:85-101 | the new flag and control set are `Toggle`'s, with the add or remove calls in order |
| MenuControl.MenuControl.Found | src/ts/maputil/MenuControl.ts:62-72 | a category result selects the node of "Kategories" and leaves its layer and the control's registry, map flag, base layer and definitions unchanged; a facility result adds the first marker with that id to the group if hidden and zooms to it, and an unknown id changes nothing; other results change nothing |

## Left out

- Leaflet, the DOM, `fetch` and `XMLHttpRequest` (`getJSON`) are not modelled. Their
  effects are recorded as call values or as fields; popup and list-item rendering
  (`popupFactory`, `getContact` and the other popup builders) is an opaque result.
- Coordinates, zoom levels and panning distances (floating point) are not modelled.
  `setZoomAround` and `panTo` are calls with the marker as argument.
- The tree widget (`Tree`, `TreeNode`, its rendering and its selection propagation) is
  external. Its nodes are given with the tri-state status it reports, and selecting a
  node by id is a logged call.
- `LayerControl.addCategories`, `_addCategorieLayerToTree`'s node construction and the
  class name are not modelled. A category node is recorded by title and position only.
- `CategorieLayer.loadCategories` and the fetch inside `_loadData` are not modelled;
  `LoadData` starts from the delivered data.
- `MarkerListView` pointer-enter and pointer-leave handlers, the DISPATCHER and
  `highlightMarker` are recorded as call values. The `selected` class is never added in
  the source, only removed, so only its removal is recorded.
- `HtmlUtil.GetParamString`: the object's own key-iteration order is abstracted as the
  order of the given entries, and `encodeURIComponent` is a parameter. Values are given as
  strings already converted by JavaScript's `String()` (a number to its digits, `undefined`
  to "undefined", `null` to "null"); that conversion is not modelled.
- `Facility.GetHeader`: attribute values are strings or absent. A JSON `null` value is not
  modelled. Assigned to `innerHTML`, null prints as the empty string, whereas an absent
  value prints as "undefined", which the model does keep.
- `MenuControl.MenuClicked`: adding and removing a layer control is a logged call. Leaflet's
  `addControl` and `removeControl` also run that control's `onAdd` and `onRemove`, which
  attach and detach its map and so decide whether `baseLayerChanged` adds the new layer.
  The model does not chain these; `LayerControl.OnAdd` and `OnRemove` model them separately.
- `CategorieLayer.ShowMarker`: it always logs the zoom around the found marker.
  `setZoomAround` on `this._map` throws when the layer is not on a map; the page adds the
  layer to the map before any search can call it (src/ts/App.ts:126-127).
- `JsText.IntToString`: prints every integer in plain decimal. JavaScript's `String(n)`
  switches to exponent notation from 1e21 and loses precision above 2^53; ids of that size
  are not modelled.
- `JsText.ToUpper` and `ToLower` map ASCII letters only; the Unicode case mappings of
  `toUpperCase` and `toLowerCase` are not modelled.
- `ViewControl`: each view's `getDom` is assumed to return the same cached element, as
  `MarkerView` and `MarkerListView` do; the dom itself is represented by the view's id.
- `ListApp`: the list rendering, scrolling and category loading are not modelled. The
  scroll offset is an integer field, and `AfterScroll` stands for the user scrolling.
- `MenuControl`: the search box and its result list are not modelled; `Found` receives
  the chosen result.

Behaviours of the source that the model keeps as they are:
- `CategorieLayer.ShowMarker` puts a hidden marker into the cluster group without
  setting its `visible` flag. After it, the group no longer mirrors the flags, and a
  later `_update` may add that marker a second time.
- `MarkerListView.ListEntryClicked` can deselect an entry only when the same entry object
  is clicked again. The click listener builds a new entry object for every click, so
  from the page this branch never runs. Even when it runs, the entry is selected again
  and its marker dispatched again right after `undefined`.
- `getKategories` compares a freshly built array with `includes`, which never finds it,
  so duplicate paths are kept. When `kat2_id` is falsy and `kat3_id` is not, the path is
  `[kat1, kat3]`.
- `baseLayerChanged` without a map removes the old base layer but keeps it recorded as the
  base layer, and the new one is neither added nor recorded.

## Findings

| source | as written | input that shows it | evidently intended | confidence | as-written member | corrected member |
|---|---|---|---|---|---|---|
| src/ts/data/Facility.ts:291 | `plzOrt+'<br>'+str` joins the two parts even when a part was never assigned, so a missing part is printed as the word "undefined" | a facility without `plz`, `ort`, `strasse` and `hausnummer` gets the address text "undefined<br>undefined" | a missing part contributes no text, so the address shows only characters of the address fields and the separators | not executed | Facility.AdressOfFacilityWithoutAddress | Facility.GetAddressText |
