/**
 * The map's layer control: a selection tree holding the base-layer radio group and one
 * category tree per registered category layer. The model covers the extraction of the
 * selected category paths from a tri-state tree, the base-layer lookup and pick, the
 * base-layer switch, and the registry of category layers keyed by title.
 */
module LayerControl {
  import opened JsText
  import opened Facility
  import opened CategorieLayer

  // ---------------------------------------------------------------------------
  // Selected-path extraction (_findSelected)
  // ---------------------------------------------------------------------------

  /** The tri-state selection status the tree widget reports for a node. */
  datatype SelectionStatus = Selected | Indeterminate | Unselected

  /** A category node of the tree: its category id, its status, its children. */
  datatype TreeNode = TreeNode(id: string, status: SelectionStatus, childs: seq<TreeNode>)

  /** `[id, ...p]` for each path `p`, in order. */
  function Prefixed(id: string, ps: seq<Path>): (r: seq<Path>)
    ensures |r| == |ps|
    ensures forall j :: 0 <= j < |ps| ==> r[j] == [id] + ps[j]
  {
    seq(|ps|, j requires 0 <= j < |ps| => [id] + ps[j])
  }

  /**
   * The paths one node contributes: a selected node contributes its own id and its
   * children are not looked at; an indeterminate node contributes its id before every
   * path found among its children; an unselected node contributes nothing.
   */
  function NodePaths(n: TreeNode): seq<Path>
    decreases n, 1
  {
    match n.status
    case Selected => [[n.id]]
    case Indeterminate => Prefixed(n.id, SelectedPaths(n.childs))
    case Unselected => []
  }

  /** The paths of a list of sibling nodes: the contributions of each node, left to right. */
  function SelectedPaths(nodes: seq<TreeNode>): seq<Path>
    decreases nodes, 0
  {
    if nodes == [] then []
    else SelectedPaths(nodes[..|nodes| - 1]) + NodePaths(nodes[|nodes| - 1])
  }

  /**
   * _findSelected: walk the siblings in order, push `[id]` for a selected node, and for an
   * indeterminate node recurse into its children and push `[id, ...p]` for each result.
   */
  method FindSelected(nodes: seq<TreeNode>) returns (ids: seq<Path>)
    ensures ids == SelectedPaths(nodes)
    decreases nodes
  {
    ids := [];
    var i := 0;
    while i < |nodes|
      invariant 0 <= i <= |nodes|
      invariant ids == SelectedPaths(nodes[..i])
    {
      var node := nodes[i];
      assert nodes[..i + 1][..i] == nodes[..i];
      if node.status == Selected {
        ids := ids + [[node.id]];
      } else {
        if node.status == Indeterminate {
          var chIds := FindSelected(node.childs);
          ghost var before := ids;
          var j := 0;
          while j < |chIds|
            invariant 0 <= j <= |chIds|
            invariant ids == before + Prefixed(node.id, chIds[..j])
          {
            ids := ids + [[node.id] + chIds[j]];
            j := j + 1;
          }
          assert chIds[..j] == chIds;
        }
      }
      i := i + 1;
    }
    assert nodes[..i] == nodes;
  }

  /** The depth of a forest: 0 for no nodes, else one more than the deepest child forest. */
  function Depth(nodes: seq<TreeNode>): nat
    decreases nodes
  {
    if nodes == [] then 0
    else
      var last := nodes[|nodes| - 1];
      var d := 1 + Depth(last.childs);
      var rest := Depth(nodes[..|nodes| - 1]);
      if d > rest then d else rest
  }

  /** Sibling lists compose: the paths of `a + b` are those of `a` followed by those of `b`. */
  lemma {:induction false} SelectedPathsConcat(a: seq<TreeNode>, b: seq<TreeNode>)
    ensures SelectedPaths(a + b) == SelectedPaths(a) + SelectedPaths(b)
    decreases |b|
  {
    if b == [] {
      assert a + b == a;
    } else {
      var b' := b[..|b| - 1];
      assert (a + b)[..|a + b| - 1] == a + b';
      assert (a + b)[|a + b| - 1] == b[|b| - 1];
      SelectedPathsConcat(a, b');
    }
  }

  /** A path is found among siblings exactly when one of them contributes it. */
  lemma {:induction false} InSelectedPaths(nodes: seq<TreeNode>, p: Path)
    ensures p in SelectedPaths(nodes) <==> exists k :: 0 <= k < |nodes| && p in NodePaths(nodes[k])
    decreases |nodes|
  {
    if nodes != [] {
      var init := nodes[..|nodes| - 1];
      InSelectedPaths(init, p);
      if p in SelectedPaths(nodes) && p !in NodePaths(nodes[|nodes| - 1]) {
        var k :| 0 <= k < |init| && p in NodePaths(init[k]);
        assert nodes[k] == init[k];
      }
      if exists k :: 0 <= k < |nodes| && p in NodePaths(nodes[k]) {
        var k :| 0 <= k < |nodes| && p in NodePaths(nodes[k]);
        if k < |init| {
          assert init[k] == nodes[k];
        }
      }
    }
  }

  /**
   * `p` leads, through the given siblings, from an indeterminate node down a chain of
   * indeterminate nodes to a selected node, naming each node's id on the way.
   */
  ghost predicate SelectedChain(nodes: seq<TreeNode>, p: Path)
    decreases |p|
  {
    && |p| >= 1
    && exists k :: 0 <= k < |nodes| && nodes[k].id == p[0] &&
         ((|p| == 1 && nodes[k].status == Selected) ||
          (nodes[k].status == Indeterminate && SelectedChain(nodes[k].childs, p[1..])))
  }

  /** What one node contributes, in terms of its status, id and children. */
  lemma NodePathsMembership(n: TreeNode, p: Path)
    ensures p in NodePaths(n) <==>
      (n.status == Selected && p == [n.id]) ||
      (n.status == Indeterminate && |p| >= 1 && p[0] == n.id && p[1..] in SelectedPaths(n.childs))
  {
    if n.status == Indeterminate && |p| >= 1 && p[0] == n.id && p[1..] in SelectedPaths(n.childs) {
      var ps := SelectedPaths(n.childs);
      var j :| 0 <= j < |ps| && ps[j] == p[1..];
      assert NodePaths(n)[j] == [n.id] + p[1..] == p;
    }
  }

  /**
   * Soundness and completeness of _findSelected: a path is returned exactly when it names a
   * chain of indeterminate nodes ending in a selected node.
   */
  lemma {:induction false} SelectedPathsAreChains(nodes: seq<TreeNode>, p: Path)
    ensures p in SelectedPaths(nodes) <==> SelectedChain(nodes, p)
    decreases |p|
  {
    InSelectedPaths(nodes, p);
    if p in SelectedPaths(nodes) {
      var k :| 0 <= k < |nodes| && p in NodePaths(nodes[k]);
      NodePathsMembership(nodes[k], p);
      if nodes[k].status == Indeterminate {
        SelectedPathsAreChains(nodes[k].childs, p[1..]);
      }
    }
    if SelectedChain(nodes, p) {
      var k :| 0 <= k < |nodes| && nodes[k].id == p[0] &&
         ((|p| == 1 && nodes[k].status == Selected) ||
          (nodes[k].status == Indeterminate && SelectedChain(nodes[k].childs, p[1..])));
      if nodes[k].status == Indeterminate {
        SelectedPathsAreChains(nodes[k].childs, p[1..]);
        assert [p[0]] + p[1..] == p;
      }
      NodePathsMembership(nodes[k], p);
    }
  }

  /** Every returned path is non-empty and no longer than the depth of the tree. */
  lemma {:induction false} SelectedPathsBounded(nodes: seq<TreeNode>, p: Path)
    requires p in SelectedPaths(nodes)
    ensures 1 <= |p| <= Depth(nodes)
    decreases |p|
  {
    InSelectedPaths(nodes, p);
    var k :| 0 <= k < |nodes| && p in NodePaths(nodes[k]);
    NodePathsMembership(nodes[k], p);
    DepthBelow(nodes, k);
    if nodes[k].status == Indeterminate {
      SelectedPathsBounded(nodes[k].childs, p[1..]);
    }
  }

  /** Each node of a forest is at most as deep as the forest. */
  lemma {:induction false} DepthBelow(nodes: seq<TreeNode>, k: nat)
    requires k < |nodes|
    ensures 1 + Depth(nodes[k].childs) <= Depth(nodes)
    decreases |nodes|
  {
    if k < |nodes| - 1 {
      var init := nodes[..|nodes| - 1];
      assert init[k] == nodes[k];
      DepthBelow(init, k);
    }
  }

  /** A selected node's children are never explored: changing them changes nothing. */
  lemma SelectedHidesChildren(id: string, c1: seq<TreeNode>, c2: seq<TreeNode>)
    ensures NodePaths(TreeNode(id, Selected, c1)) == NodePaths(TreeNode(id, Selected, c2)) == [[id]]
  {
  }

  /** A tree with nothing selected or indeterminate yields no path. */
  lemma {:induction false} UnselectedYieldsNothing(nodes: seq<TreeNode>)
    requires forall k :: 0 <= k < |nodes| ==> nodes[k].status == Unselected
    ensures SelectedPaths(nodes) == []
    decreases |nodes|
  {
    if nodes != [] {
      UnselectedYieldsNothing(nodes[..|nodes| - 1]);
    }
  }

  // ---------------------------------------------------------------------------
  // Base-layer definitions
  // ---------------------------------------------------------------------------

  /** A tile layer, compared by identity (`===`). */
  type LayerRef = nat

  /** A base-layer definition; its `id` is optional. */
  datatype BaseLayerDefinition = BaseLayerDefinition(id: Option<string>, name: string, layer: LayerRef)

  /** Outcome of _findBaseLayerDefinition: the index found, undefined, or a thrown TypeError. */
  datatype Lookup = Found(index: nat) | NotFound | Throws

  /** The definition's id equals the key, ignoring case. */
  predicate IdMatches(d: BaseLayerDefinition, key: string) {
    d.id.Some? && ToLower(d.id.value) == ToLower(key)
  }

  /** The loop passes over the definition: it has an id, and the id is not the key. */
  predicate PassedOver(d: BaseLayerDefinition, key: string) {
    d.id.Some? && ToLower(d.id.value) != ToLower(key)
  }

  /**
   * The lookup from definition `i` on: the first definition whose id equals the key ignoring
   * case; reading the id of a definition without one throws, as does a missing list.
   */
  function LookupFrom(defs: seq<BaseLayerDefinition>, key: string, i: nat): (r: Lookup)
    requires i <= |defs|
    ensures r.Found? ==> i <= r.index < |defs| && IdMatches(defs[r.index], key)
    ensures r.Found? ==> forall k :: i <= k < r.index ==> PassedOver(defs[k], key)
    ensures r.Throws? ==>
              exists t :: i <= t < |defs| && defs[t].id.None? && forall k :: i <= k < t ==> PassedOver(defs[k], key)
    ensures r.NotFound? <==> forall k :: i <= k < |defs| ==> PassedOver(defs[k], key)
    decreases |defs| - i
  {
    if i == |defs| then NotFound
    else if defs[i].id.None? then Throws
    else if ToLower(defs[i].id.value) == ToLower(key) then Found(i)
    else LookupFrom(defs, key, i + 1)
  }

  /** _findBaseLayerDefinition as a function of the definitions and the key. */
  function LookupDefinition(defs: Option<seq<BaseLayerDefinition>>, key: string): (r: Lookup)
    ensures defs.None? ==> r.Throws?
  {
    if defs.None? then Throws else LookupFrom(defs.value, key, 0)
  }

  /** The loop of _findBaseLayerDefinition: the first definition whose id matches ignoring case. */
  method FindBaseLayerDefinition(defs: Option<seq<BaseLayerDefinition>>, baseLayerId: string) returns (r: Lookup)
    ensures r == LookupDefinition(defs, baseLayerId)
  {
    if defs.None? {
      return Throws;
    }
    var d := defs.value;
    var i := 0;
    while i < |d|
      invariant 0 <= i <= |d|
      invariant LookupFrom(d, baseLayerId, 0) == LookupFrom(d, baseLayerId, i)
    {
      if d[i].id.None? {
        return Throws;
      }
      if ToLower(d[i].id.value) == ToLower(baseLayerId) {
        return Found(i);
      }
      i := i + 1;
    }
    return NotFound;
  }

  /** The key's spelling does not matter: upper- and lower-case keys find the same definition. */
  lemma {:induction false} LookupIgnoresCase(defs: seq<BaseLayerDefinition>, key: string, i: nat)
    requires i <= |defs|
    ensures LookupFrom(defs, ToUpper(key), i) == LookupFrom(defs, key, i)
    decreases |defs| - i
  {
    LowerOfUpper(key);
    var upper := ToUpper(key);
    if i < |defs| && defs[i].id.Some? {
      var lowered := ToLower(defs[i].id.value);
      assert (lowered == ToLower(upper)) == (lowered == ToLower(key));
      if lowered != ToLower(key) {
        assert LookupFrom(defs, upper, i) == LookupFrom(defs, upper, i + 1);
        assert LookupFrom(defs, key, i) == LookupFrom(defs, key, i + 1);
        LookupIgnoresCase(defs, key, i + 1);
      }
    }
  }

  /**
   * The base-definition pick of _createTree: the last definition whose layer is the
   * configured base layer; with no base layer or no definitions nothing is picked.
   */
  method PickBaseLayerDefinition(defs: Option<seq<BaseLayerDefinition>>, baseLayer: Option<LayerRef>)
    returns (pick: Option<nat>)
    ensures pick.Some? ==> defs.Some? && baseLayer.Some? && pick.value < |defs.value| &&
                           defs.value[pick.value].layer == baseLayer.value &&
                           forall k :: pick.value < k < |defs.value| ==> defs.value[k].layer != baseLayer.value
    ensures pick.None? <==> defs.None? || baseLayer.None? ||
                            forall k :: 0 <= k < |defs.value| ==> defs.value[k].layer != baseLayer.value
  {
    pick := None;
    var count := if defs.Some? then |defs.value| else 0;
    var i := 0;
    while i < count
      invariant 0 <= i <= count
      invariant pick.Some? ==> defs.Some? && baseLayer.Some? && pick.value < i &&
                               defs.value[pick.value].layer == baseLayer.value &&
                               forall k :: pick.value < k < i ==> defs.value[k].layer != baseLayer.value
      invariant pick.None? ==> count == 0 || baseLayer.None? ||
                               forall k :: 0 <= k < i ==> defs.value[k].layer != baseLayer.value
    {
      if baseLayer.Some? && defs.value[i].layer == baseLayer.value {
        pick := Some(i);
      }
      i := i + 1;
    }
  }

  // ---------------------------------------------------------------------------
  // Base-layer switch (baseLayerChanged)
  // ---------------------------------------------------------------------------

  /** Calls the control makes on layers, the map and the tree widget. */
  datatype ControlCall =
    | RemoveBaseLayer(layer: LayerRef)
    | MapAddLayer(layer: LayerRef)
    | SelectBaseNode(definition: Option<nat>)
    | SelectCategoryNode(node: nat, itemId: JsValue)

  /** The part of the control's state that baseLayerChanged reads and writes. */
  datatype BaseState = BaseState(baseLayer: Option<LayerRef>, mapAttached: bool)

  /**
   * baseLayerChanged: choosing the current base layer again does nothing; otherwise the old
   * layer is removed, and the new one is added and recorded only when a map is attached.
   */
  function BaseLayerChanged(s: BaseState, n: LayerRef): (r: (BaseState, seq<ControlCall>))
    ensures r.0.mapAttached == s.mapAttached
  {
    if s.baseLayer == Some(n) then (s, [])
    else
      var removed := if s.baseLayer.Some? then [RemoveBaseLayer(s.baseLayer.value)] else [];
      if s.mapAttached then (BaseState(Some(n), true), removed + [MapAddLayer(n)])
      else (s, removed)
  }

  /** Re-selecting the current base layer changes nothing and calls nothing. */
  lemma SameBaseLayerIsNoop(s: BaseState, n: LayerRef)
    requires s.baseLayer == Some(n)
    ensures BaseLayerChanged(s, n) == (s, [])
  {
  }

  /**
   * With a map attached, a new base layer replaces the old one (removed first, then added),
   * and choosing it a second time is silent.
   */
  lemma SwitchWithMap(s: BaseState, n: LayerRef)
    requires s.mapAttached && s.baseLayer != Some(n)
    ensures BaseLayerChanged(s, n).0.baseLayer == Some(n)
    ensures BaseLayerChanged(s, n).1 ==
              (if s.baseLayer.Some? then [RemoveBaseLayer(s.baseLayer.value)] else []) + [MapAddLayer(n)]
    ensures BaseLayerChanged(BaseLayerChanged(s, n).0, n) == (BaseLayerChanged(s, n).0, [])
  {
  }

  /**
   * Without a map, the old layer is still removed but stays recorded as the base layer, and
   * the new one is neither added nor recorded.
   */
  lemma SwitchWithoutMap(s: BaseState, n: LayerRef)
    requires !s.mapAttached && s.baseLayer != Some(n)
    ensures BaseLayerChanged(s, n).0 == s
    ensures MapAddLayer(n) !in BaseLayerChanged(s, n).1
    ensures BaseLayerChanged(s, n).1 == (if s.baseLayer.Some? then [RemoveBaseLayer(s.baseLayer.value)] else [])
  {
  }

  // ---------------------------------------------------------------------------
  // The control
  // ---------------------------------------------------------------------------

  class LayerControl {
    var baseLayerDefinitions: Option<seq<BaseLayerDefinition>>
    /** The picked base-layer definition, by index. */
    var baseLayerDefinition: Option<nat>
    var baseLayer: Option<LayerRef>
    var mapAttached: bool
    /** Titles of the category nodes added to the tree, in order. */
    var treeNodes: seq<string>
    var categorieLayers: map<string, CategorieLayer>
    /** The tree node of each registered title, by position in `treeNodes`. */
    var categorieLayerNodes: map<string, nat>
    var log: seq<ControlCall>

    /** Every title with a node points at a tree node of that title. */
    ghost predicate Valid()
      reads this
    {
      forall t :: t in categorieLayerNodes ==>
        categorieLayerNodes[t] < |treeNodes| && treeNodes[categorieLayerNodes[t]] == t
    }

    /**
     * The constructor: take the definitions and base layer from the options and build the
     * tree, picking the base-layer definition and selecting it in the tree.
     */
    constructor (baseLayers: Option<seq<BaseLayerDefinition>>, initialBaseLayer: Option<LayerRef>)
      ensures Valid()
      ensures baseLayerDefinitions == baseLayers && baseLayer == initialBaseLayer && !mapAttached
      ensures treeNodes == [] && categorieLayers == map[] && categorieLayerNodes == map[]
      ensures baseLayerDefinition.Some? ==> baseLayers.Some? && baseLayerDefinition.value < |baseLayers.value| &&
                                            Some(baseLayers.value[baseLayerDefinition.value].layer) == initialBaseLayer &&
                                            forall k :: baseLayerDefinition.value < k < |baseLayers.value| ==>
                                              Some(baseLayers.value[k].layer) != initialBaseLayer
      ensures baseLayerDefinition.None? <==> baseLayers.None? || initialBaseLayer.None? ||
                                             forall k :: 0 <= k < |baseLayers.value| ==>
                                               baseLayers.value[k].layer != initialBaseLayer.value
      ensures log == [SelectBaseNode(baseLayerDefinition)]
    {
      baseLayerDefinitions := baseLayers;
      baseLayer := initialBaseLayer;
      mapAttached := false;
      treeNodes := [];
      categorieLayers := map[];
      categorieLayerNodes := map[];
      var pick := PickBaseLayerDefinition(baseLayers, initialBaseLayer);
      baseLayerDefinition := pick;
      log := [SelectBaseNode(pick)];
    }

    /** onAdd: remember the map (the tree already exists). */
    method OnAdd()
      modifies this
      ensures mapAttached
      ensures baseLayer == old(baseLayer) && log == old(log) && treeNodes == old(treeNodes)
      ensures categorieLayers == old(categorieLayers) && categorieLayerNodes == old(categorieLayerNodes)
      ensures baseLayerDefinitions == old(baseLayerDefinitions) && baseLayerDefinition == old(baseLayerDefinition)
    {
      mapAttached := true;
    }

    /** onRemove: forget the map. */
    method OnRemove()
      modifies this
      ensures !mapAttached
      ensures baseLayer == old(baseLayer) && log == old(log) && treeNodes == old(treeNodes)
      ensures categorieLayers == old(categorieLayers) && categorieLayerNodes == old(categorieLayerNodes)
      ensures baseLayerDefinitions == old(baseLayerDefinitions) && baseLayerDefinition == old(baseLayerDefinition)
    {
      mapAttached := false;
    }

    /** baseLayerChanged for the layer of the chosen node. */
    method BaseLayerChangedTo(nBaseLayer: LayerRef)
      modifies this
      ensures baseLayer == BaseLayerChanged(BaseState(old(baseLayer), old(mapAttached)), nBaseLayer).0.baseLayer
      ensures log == old(log) + BaseLayerChanged(BaseState(old(baseLayer), old(mapAttached)), nBaseLayer).1
      ensures mapAttached == old(mapAttached)
      ensures treeNodes == old(treeNodes) && categorieLayers == old(categorieLayers)
      ensures categorieLayerNodes == old(categorieLayerNodes)
      ensures baseLayerDefinitions == old(baseLayerDefinitions) && baseLayerDefinition == old(baseLayerDefinition)
    {
      if baseLayer.Some? {
        if baseLayer.value == nBaseLayer {
          return;
        }
        log := log + [RemoveBaseLayer(baseLayer.value)];
      }
      if mapAttached {
        log := log + [MapAddLayer(nBaseLayer)];
        baseLayer := Some(nBaseLayer);
      }
    }

    /**
     * addCategorieLayer: register the layer under its title and, since the tree exists, add a
     * category node for it; a later registration under the same title replaces the earlier.
     */
    method AddCategorieLayer(title: string, layer: CategorieLayer)
      requires Valid()
      modifies this
      ensures Valid()
      ensures categorieLayers == old(categorieLayers)[title := layer]
      ensures treeNodes == old(treeNodes) + [title]
      ensures categorieLayerNodes == old(categorieLayerNodes)[title := |old(treeNodes)|]
      ensures baseLayer == old(baseLayer) && log == old(log) && mapAttached == old(mapAttached)
      ensures baseLayerDefinitions == old(baseLayerDefinitions) && baseLayerDefinition == old(baseLayerDefinition)
    {
      categorieLayers := categorieLayers[title := layer];
      categorieLayerNodes := categorieLayerNodes[title := |treeNodes|];
      treeNodes := treeNodes + [title];
    }

    /**
     * _categorieSelected: extract the selected paths below the title's node and hand them to
     * the layer registered under that title; nothing happens for an unregistered title.
     */
    method CategorieSelected(title: string, childs: seq<TreeNode>)
      requires title in categorieLayers ==> categorieLayers[title].Valid()
      modifies if title in categorieLayers then {categorieLayers[title]} else {}
      modifies if title in categorieLayers then set m | m in categorieLayers[title].markers else {}
      ensures title in categorieLayers ==>
                && categorieLayers[title].Valid()
                && categorieLayers[title].selectedCategories == Some(SelectedPaths(childs))
                && categorieLayers[title].markers == old(categorieLayers[title].markers)
                && (forall i :: 0 <= i < |categorieLayers[title].markers| ==>
                      categorieLayers[title].markers[i].visible ==
                      MatchesAny(categorieLayers[title].markers[i].data, SelectedPaths(childs)))
      ensures title in categorieLayers ==>
                var layer := categorieLayers[title];
                var flips := FlipCalls(old(Flags(layer.markers)), Wanted(layer.markers, Some(SelectedPaths(childs))), |layer.markers|);
                && layer.calls == old(layer.calls) + flips
                && layer.members == Apply(old(layer.members), flips)
                && (old(layer.Mirrors()) ==> layer.Mirrors())
    {
      var selectedCats := FindSelected(childs);
      if title in categorieLayers {
        var categoryLayer := categorieLayers[title];
        categoryLayer.SetKategories(selectedCats);
      }
    }

    /** showMarker: forward to the layer registered under the title, if any. */
    method ShowMarker(title: string, id: JsValue, prop: string)
      requires title in categorieLayers ==> categorieLayers[title].Valid()
      modifies if title in categorieLayers then {categorieLayers[title]} else {}
      ensures title in categorieLayers ==>
                var layer := categorieLayers[title];
                && layer.Valid()
                && layer.markers == old(layer.markers)
                && layer.selectedCategories == old(layer.selectedCategories)
                && ((forall j :: 0 <= j < |layer.markers| ==> Prop(layer.markers[j].data, prop) != id) ==>
                      layer.members == old(layer.members) && layer.calls == old(layer.calls))
                && forall i: nat :: layer.IsFirstMatch(id, prop, i) ==>
                     && layer.members == old(layer.members) + (if layer.markers[i].visible then {} else {i})
                     && layer.calls == old(layer.calls) +
                          (if layer.markers[i].visible then [] else [AddLayer(i)]) + [ZoomAround(i)]
    {
      if title in categorieLayers {
        var layer := categorieLayers[title];
        layer.ShowMarker(id, prop);
      }
    }

    /** showCategorie: ask the title's tree node to select the item's id; else nothing. */
    method ShowCategorie(title: string, itemId: JsValue)
      requires Valid()
      modifies this
      ensures Valid()
      ensures title in categorieLayerNodes ==> log == old(log) + [SelectCategoryNode(categorieLayerNodes[title], itemId)]
      ensures title !in categorieLayerNodes ==> log == old(log)
      ensures treeNodes == old(treeNodes) && categorieLayers == old(categorieLayers)
      ensures categorieLayerNodes == old(categorieLayerNodes) && baseLayer == old(baseLayer)
      ensures mapAttached == old(mapAttached)
      ensures baseLayerDefinitions == old(baseLayerDefinitions) && baseLayerDefinition == old(baseLayerDefinition)
    {
      if title in categorieLayerNodes {
        log := log + [SelectCategoryNode(categorieLayerNodes[title], itemId)];
      }
    }
  }
}
