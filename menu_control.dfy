/**
 * The menu button of the map: it opens and closes the menu by putting the two layer
 * controls on the map or taking them off, and routes a chosen search result to the
 * category layer control.
 */
module MenuControl {
  import opened JsText
  import opened CategorieLayer
  import opened LayerControl

  /** The control set of the map after one click, given whether the menu was closed. */
  function Toggle<T>(closed: bool, onMap: set<T>, a: T, b: T): (r: (bool, set<T>))
    ensures r.0 == !closed
    ensures closed ==> r.1 == onMap + {a, b}
    ensures !closed ==> r.1 == onMap - {a, b}
  {
    if closed then (false, onMap + {a, b}) else (true, onMap - {a, b})
  }

  /**
   * Two clicks restore the flag, and the control set too when it held both controls while
   * open and neither while closed.
   */
  lemma TwoClicksRestore<T>(closed: bool, onMap: set<T>, a: T, b: T)
    requires closed <==> a !in onMap && b !in onMap
    requires !closed <==> a in onMap && b in onMap
    ensures var once := Toggle(closed, onMap, a, b);
            Toggle(once.0, once.1, a, b) == (closed, onMap)
  {
    var once := Toggle(closed, onMap, a, b);
    if closed {
      assert once.1 - {a, b} == onMap;
    } else {
      assert once.1 + {a, b} == onMap;
    }
  }

  /** A toggle keeps "closed exactly when neither control is on the map". */
  lemma ToggleKeepsMirror<T>(closed: bool, onMap: set<T>, a: T, b: T)
    requires closed <==> a !in onMap && b !in onMap
    requires !closed <==> a in onMap && b in onMap
    ensures var r := Toggle(closed, onMap, a, b);
            (r.0 <==> a !in r.1 && b !in r.1) && (!r.0 <==> a in r.1 && b in r.1)
  {
  }

  /** Where a chosen search result goes, by its group. */
  datatype Route = ShowCategorieRoute | ShowMarkerRoute | NoRoute

  function RouteOf(group: string): (r: Route)
    ensures r == ShowCategorieRoute <==> group == "Kategorie"
    ensures r == ShowMarkerRoute <==> group == "Einrichtung"
    ensures r == NoRoute <==> group != "Kategorie" && group != "Einrichtung"
  {
    if group == "Kategorie" then ShowCategorieRoute
    else if group == "Ort" then NoRoute
    else if group == "Einrichtung" then ShowMarkerRoute
    else NoRoute
  }

  /** A search result: its group and its id. */
  datatype SearchItem = SearchItem(group: string, id: JsValue)

  /** The calls the menu makes on the map's control set. */
  datatype MenuCall = AddControl(ctrl: LayerControl) | RemoveControl(ctrl: LayerControl)

  /** The title under which the category layer is registered. */
  const KATEGORIES: string := "Kategories"

  class MenuControl {
    const baseLayerCtrl: LayerControl
    const categorieLayerCtrl: LayerControl
    var closed: bool
    /** The class on the menu's dom: `closed` or `opened`. */
    var menuClass: string
    /** The layer controls currently on the map. */
    var onMap: set<LayerControl>
    var calls: seq<MenuCall>

    /** The menu is closed exactly when neither layer control is on the map, open when both are. */
    ghost predicate Valid()
      reads this
    {
      && baseLayerCtrl != categorieLayerCtrl
      && (closed <==> baseLayerCtrl !in onMap && categorieLayerCtrl !in onMap)
      && (!closed <==> baseLayerCtrl in onMap && categorieLayerCtrl in onMap)
      && menuClass == (if closed then "closed" else "opened")
    }

    /** A new menu starts closed, with no layer control on the map. */
    constructor (baseLayerCtrl: LayerControl, categorieLayerCtrl: LayerControl)
      requires baseLayerCtrl != categorieLayerCtrl
      ensures Valid() && closed && onMap == {} && calls == []
      ensures this.baseLayerCtrl == baseLayerCtrl && this.categorieLayerCtrl == categorieLayerCtrl
    {
      this.baseLayerCtrl := baseLayerCtrl;
      this.categorieLayerCtrl := categorieLayerCtrl;
      closed := true;
      menuClass := "closed";
      onMap := {};
      calls := [];
    }

    /**
     * _menuClicked: when closed, open and add both layer controls to the map; when open,
     * close and remove both.
     */
    method MenuClicked()
      requires Valid()
      modifies this
      ensures Valid()
      ensures (closed, onMap) == Toggle(old(closed), old(onMap), baseLayerCtrl, categorieLayerCtrl)
      ensures old(closed) ==> calls == old(calls) + [AddControl(baseLayerCtrl), AddControl(categorieLayerCtrl)]
      ensures !old(closed) ==> calls == old(calls) + [RemoveControl(baseLayerCtrl), RemoveControl(categorieLayerCtrl)]
    {
      if closed {
        closed := false;
        menuClass := "opened";
        onMap := onMap + {baseLayerCtrl};
        calls := calls + [AddControl(baseLayerCtrl)];
        onMap := onMap + {categorieLayerCtrl};
        calls := calls + [AddControl(categorieLayerCtrl)];
        assert onMap == old(onMap) + {baseLayerCtrl, categorieLayerCtrl};
      } else {
        closed := true;
        menuClass := "closed";
        onMap := onMap - {baseLayerCtrl};
        calls := calls + [RemoveControl(baseLayerCtrl)];
        onMap := onMap - {categorieLayerCtrl};
        calls := calls + [RemoveControl(categorieLayerCtrl)];
        assert onMap == old(onMap) - {baseLayerCtrl, categorieLayerCtrl};
      }
    }

    /**
     * _found: a category result selects the category in the category tree, a facility result
     * shows its marker; a place or any other result does nothing.
     */
    method Found(item: SearchItem)
      requires categorieLayerCtrl.Valid()
      requires KATEGORIES in categorieLayerCtrl.categorieLayers ==> categorieLayerCtrl.categorieLayers[KATEGORIES].Valid()
      modifies categorieLayerCtrl
      modifies if KATEGORIES in categorieLayerCtrl.categorieLayers then {categorieLayerCtrl.categorieLayers[KATEGORIES]} else {}
      ensures RouteOf(item.group) == ShowCategorieRoute ==>
                categorieLayerCtrl.log == old(categorieLayerCtrl.log) +
                  (if KATEGORIES in old(categorieLayerCtrl.categorieLayerNodes)
                   then [SelectCategoryNode(old(categorieLayerCtrl.categorieLayerNodes)[KATEGORIES], item.id)] else [])
      ensures RouteOf(item.group) == ShowCategorieRoute ==>
                var c := categorieLayerCtrl;
                && c.treeNodes == old(c.treeNodes) && c.categorieLayers == old(c.categorieLayers)
                && c.categorieLayerNodes == old(c.categorieLayerNodes) && c.baseLayer == old(c.baseLayer)
                && c.mapAttached == old(c.mapAttached)
                && c.baseLayerDefinitions == old(c.baseLayerDefinitions)
                && c.baseLayerDefinition == old(c.baseLayerDefinition)
      ensures RouteOf(item.group) == ShowCategorieRoute && KATEGORIES in old(categorieLayerCtrl.categorieLayers) ==>
                unchanged(old(categorieLayerCtrl.categorieLayers)[KATEGORIES])
      ensures RouteOf(item.group) == ShowMarkerRoute ==> unchanged(categorieLayerCtrl)
      ensures RouteOf(item.group) == ShowMarkerRoute && KATEGORIES in old(categorieLayerCtrl.categorieLayers) ==>
                var layer := old(categorieLayerCtrl.categorieLayers)[KATEGORIES];
                && layer.markers == old(layer.markers)
                && layer.selectedCategories == old(layer.selectedCategories)
                && ((forall j :: 0 <= j < |layer.markers| ==> Prop(layer.markers[j].data, "id") != item.id) ==>
                      layer.members == old(layer.members) && layer.calls == old(layer.calls))
                && forall i: nat :: layer.IsFirstMatch(item.id, "id", i) ==>
                     && layer.members == old(layer.members) + (if layer.markers[i].visible then {} else {i})
                     && layer.calls == old(layer.calls) + (if layer.markers[i].visible then [] else [AddLayer(i)]) + [ZoomAround(i)]
      ensures RouteOf(item.group) == NoRoute ==> unchanged(categorieLayerCtrl)
      ensures RouteOf(item.group) == NoRoute && KATEGORIES in old(categorieLayerCtrl.categorieLayers) ==>
                unchanged(old(categorieLayerCtrl.categorieLayers)[KATEGORIES])
    {
      if item.group == "Kategorie" {
        categorieLayerCtrl.ShowCategorie(KATEGORIES, item.id);
      } else if item.group == "Ort" {
      } else if item.group == "Einrichtung" {
        categorieLayerCtrl.ShowMarker(KATEGORIES, item.id, "id");
      }
    }
  }
}
