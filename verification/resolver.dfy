/**
 * Resolution of an equipment instance's properties: the instance's own
 * properties, then each class of its class chain from the immediate class up
 * through its parents, merged by name with later (more distant) declarations
 * overwriting earlier ones. A failed class lookup ends the walk and is
 * reported alongside whatever was merged before it.
 */
module PropertyResolver {
  import opened Wrappers
  import opened Domain

  /** The merged raw properties keyed by name, and the error that ended resolution, if any. */
  datatype Resolution = Resolution(props: map<string, Property>, err: Option<Error>)

  /** The last property of `ps` named `name`: within one list a later entry overwrites an earlier one. */
  function FindLast(ps: seq<Property>, name: string): (r: Option<Property>)
    ensures r.Some? ==> r.value in ps && r.value.name == name
    ensures r.None? <==> forall i | 0 <= i < |ps| :: ps[i].name != name
    ensures r.Some? ==> exists i | 0 <= i < |ps| :: ps[i] == r.value && forall j | i < j < |ps| :: ps[j].name != name
  {
    if |ps| == 0 then None
    else if ps[|ps| - 1].name == name then Some(ps[|ps| - 1])
    else
      var r := FindLast(ps[..|ps| - 1], name);
      if r.Some? then LastEntryExtends(ps, name, r.value); r else r
  }

  /** An entry that is the last of its name before the final entry stays the last when the final entry has another name. */
  lemma LastEntryExtends(ps: seq<Property>, name: string, p: Property)
    requires |ps| > 0 && ps[|ps| - 1].name != name
    requires var init := ps[..|ps| - 1];
             exists i | 0 <= i < |init| :: init[i] == p && forall j | i < j < |init| :: init[j].name != name
    ensures exists i | 0 <= i < |ps| :: ps[i] == p && forall j | i < j < |ps| :: ps[j].name != name
  {
    var init := ps[..|ps| - 1];
    var i :| 0 <= i < |init| && init[i] == p && forall j | i < j < |init| :: init[j].name != name;
    assert ps[i] == p;
    forall j | i < j < |ps|
      ensures ps[j].name != name
    {
      if j < |init| {
        assert init[j] == ps[j];
      }
    }
  }

  /** Stores every property of `ps` into `m` under its name, in list order. */
  function Overlay(m: map<string, Property>, ps: seq<Property>): (r: map<string, Property>)
    ensures forall k :: k in r <==> k in m || FindLast(ps, k).Some?
    ensures forall k | k in r && FindLast(ps, k).Some? :: r[k] == FindLast(ps, k).value
    ensures forall k | k in r && FindLast(ps, k).None? :: r[k] == m[k]
  {
    if |ps| == 0 then m
    else Overlay(m, ps[..|ps| - 1])[ps[|ps| - 1].name := ps[|ps| - 1]]
  }

  /** The class chain from `classId` reaches an empty parent or a missing class within `fuel` lookups. */
  predicate EndsWithin(store: DataStore, classId: string, fuel: nat)
    decreases fuel
  {
    || classId == ""
    || classId !in store.classes
    || (fuel > 0 && EndsWithin(store, store.classes[classId].parentId, fuel - 1))
  }

  /**
   * What the Go code needs to terminate: the class chain of the equipment is
   * finite. An acyclic chain visits each class at most once, so it ends within
   * as many lookups as there are classes.
   */
  predicate ChainTerminates(store: DataStore, eqId: string)
  {
    eqId !in store.equipment || EndsWithin(store, store.equipment[eqId].classId, |store.classes|)
  }

  /** The classes fetched while walking a chain, in order, and the failed lookup that ended it, if any. */
  datatype Walk = Walk(visited: seq<string>, failure: Option<Error>)

  /** The id looked up after the classes in `visited`: the parent of the last one, or the start. */
  function NextId(store: DataStore, start: string, visited: seq<string>): string
    requires forall i | 0 <= i < |visited| :: visited[i] in store.classes
  {
    if |visited| == 0 then start else store.classes[visited[|visited| - 1]].parentId
  }

  /** The class chain from `classId`: parent links followed until an empty parent or a failed lookup. */
  function ClassWalk(store: DataStore, classId: string, fuel: nat): (w: Walk)
    requires EndsWithin(store, classId, fuel)
    ensures forall i | 0 <= i < |w.visited| :: w.visited[i] in store.classes && w.visited[i] != ""
    ensures |w.visited| > 0 ==> w.visited[0] == classId
    ensures forall i | 0 <= i < |w.visited| - 1 :: w.visited[i + 1] == store.classes[w.visited[i]].parentId
    ensures w.failure.None? <==> NextId(store, classId, w.visited) == ""
    ensures w.failure.Some? ==>
              && NextId(store, classId, w.visited) !in store.classes
              && w.failure == Some(NotFound("EquipmentClass", NextId(store, classId, w.visited)))
    decreases fuel
  {
    if classId == "" then Walk([], None)
    else if classId !in store.classes then Walk([], Some(NotFound("EquipmentClass", classId)))
    else
      var rest := ClassWalk(store, store.classes[classId].parentId, fuel - 1);
      Walk([classId] + rest.visited, rest.failure)
  }

  /** The property lists of the given classes, in walk order. */
  function ClassLayers(store: DataStore, ids: seq<string>): (layers: seq<seq<Property>>)
    requires forall i | 0 <= i < |ids| :: ids[i] in store.classes
    ensures |layers| == |ids|
    ensures forall i | 0 <= i < |ids| :: layers[i] == store.classes[ids[i]].properties
  {
    seq(|ids|, i requires 0 <= i < |ids| => store.classes[ids[i]].properties)
  }

  /**
   * The reference meaning of precedence: the declaration of `name` in the last
   * layer that declares it (the last one within that layer).
   */
  function LastDecl(layers: seq<seq<Property>>, name: string): (r: Option<Property>)
    ensures r.None? <==> forall i | 0 <= i < |layers| :: FindLast(layers[i], name).None?
    ensures forall i | 0 <= i < |layers| && FindLast(layers[i], name).Some?
              && (forall j | i < j < |layers| :: FindLast(layers[j], name).None?) ::
              r == FindLast(layers[i], name)
  {
    if |layers| == 0 then None
    else
      var later := LastDecl(layers[1..], name);
      if later.Some? then later else FindLast(layers[0], name)
  }

  /** The Go code's walk: merge each fetched class into `acc` and continue with its parent. */
  function MergeChain(store: DataStore, acc: map<string, Property>, classId: string, fuel: nat): Resolution
    requires EndsWithin(store, classId, fuel)
    decreases fuel
  {
    if classId == "" then Resolution(acc, None)
    else if classId !in store.classes then Resolution(acc, Some(NotFound("EquipmentClass", classId)))
    else
      var cls := store.classes[classId];
      MergeChain(store, Overlay(acc, cls.properties), cls.parentId, fuel - 1)
  }

  /** All properties of an equipment instance, resolved through its class chain. */
  function Resolve(store: DataStore, eqId: string): (r: Resolution)
    requires ChainTerminates(store, eqId)
    ensures eqId !in store.equipment ==> r == Resolution(map[], Some(NotFound("Equipment", eqId)))
  {
    if eqId !in store.equipment then Resolution(map[], Some(NotFound("Equipment", eqId)))
    else
      var eq := store.equipment[eqId];
      MergeChain(store, Overlay(map[], eq.properties), eq.classId, |store.classes|)
  }

  /** The layers resolution merges for an equipment instance: its own list, then each fetched class's list. */
  function Layers(store: DataStore, eqId: string): seq<seq<Property>>
    requires eqId in store.equipment && ChainTerminates(store, eqId)
  {
    var eq := store.equipment[eqId];
    [eq.properties] + ClassLayers(store, ClassWalk(store, eq.classId, |store.classes|).visited)
  }

  /** `MergeChain` agrees with the reference precedence over the walked classes, and reports the walk's failure. */
  lemma {:induction false} MergeChainMeaning(store: DataStore, acc: map<string, Property>, classId: string, fuel: nat, k: string)
    requires EndsWithin(store, classId, fuel)
    ensures var r := MergeChain(store, acc, classId, fuel);
            var w := ClassWalk(store, classId, fuel);
            var d := LastDecl(ClassLayers(store, w.visited), k);
            && r.err == w.failure
            && (k in r.props <==> k in acc || d.Some?)
            && (k in r.props ==> r.props[k] == if d.Some? then d.value else acc[k])
    decreases fuel
  {
    if classId != "" && classId in store.classes {
      var cls := store.classes[classId];
      var w := ClassWalk(store, classId, fuel);
      var w' := ClassWalk(store, cls.parentId, fuel - 1);
      MergeChainMeaning(store, Overlay(acc, cls.properties), cls.parentId, fuel - 1, k);
      assert w.visited == [classId] + w'.visited;
      assert ClassLayers(store, w.visited)[1..] == ClassLayers(store, w'.visited);
    }
  }

  /**
   * Precedence: a name is resolved exactly when the instance or some fetched
   * class declares it, and its property is the declaration in the most distant
   * fetched class declaring it, or the instance's own when no class does. The
   * error is the failed lookup that ended the walk, if any.
   */
  lemma ResolvePrecedence(store: DataStore, eqId: string, k: string)
    requires ChainTerminates(store, eqId) && eqId in store.equipment
    ensures var r := Resolve(store, eqId);
            var d := LastDecl(Layers(store, eqId), k);
            && (k in r.props <==> d.Some?)
            && (k in r.props ==> r.props[k] == d.value)
            && r.err == ClassWalk(store, store.equipment[eqId].classId, |store.classes|).failure
  {
    var eq := store.equipment[eqId];
    var seed := Overlay(map[], eq.properties);
    MergeChainMeaning(store, seed, eq.classId, |store.classes|, k);
    assert Layers(store, eqId)[1..] == ClassLayers(store, ClassWalk(store, eq.classId, |store.classes|).visited);
  }

  /** Without a class, resolution is exactly the instance's own properties keyed by name, without error. */
  lemma ResolveWithoutClass(store: DataStore, eqId: string)
    requires eqId in store.equipment && store.equipment[eqId].classId == ""
    ensures ChainTerminates(store, eqId)
    ensures var r := Resolve(store, eqId);
            && r.err.None?
            && r.props.Keys == (set p | p in store.equipment[eqId].properties :: p.name)
            && (forall p | p in store.equipment[eqId].properties :: p.name in r.props && r.props[p.name].name == p.name)
            && forall k | k in r.props :: r.props[k] == FindLast(store.equipment[eqId].properties, k).value
  {
    var ps := store.equipment[eqId].properties;
    var r := Resolve(store, eqId);
    forall k
      ensures k in r.props <==> k in (set p | p in ps :: p.name)
    {
      if k in (set p | p in ps :: p.name) {
        var p :| p in ps && p.name == k;
        var i :| 0 <= i < |ps| && ps[i] == p;
        assert FindLast(ps, k).Some?;
      }
    }
  }

  /**
   * Two-level chain: when the instance's class and that class's parent (the top
   * of the chain) are both found, a name the parent declares resolves to the
   * parent's declaration, whatever the instance and its class declare.
   */
  lemma ParentClassWins(store: DataStore, eqId: string, k: string)
    requires eqId in store.equipment
    requires var c := store.equipment[eqId].classId;
             && c != "" && c in store.classes
             && var p := store.classes[c].parentId;
                p != "" && p in store.classes && store.classes[p].parentId == ""
    requires FindLast(store.classes[store.classes[store.equipment[eqId].classId].parentId].properties, k).Some?
    ensures ChainTerminates(store, eqId)
    ensures var r := Resolve(store, eqId);
            && r.err.None?
            && k in r.props
            && r.props[k] == FindLast(store.classes[store.classes[store.equipment[eqId].classId].parentId].properties, k).value
  {
    var c := store.equipment[eqId].classId;
    var p := store.classes[c].parentId;
    assert |store.classes| >= 2 by {
      assert c != p;
      var others := store.classes.Keys - {c, p};
      assert store.classes.Keys == others + {c, p};
      assert |store.classes.Keys| == |others| + 2;
    }
    assert EndsWithin(store, "", |store.classes| - 2);
    assert EndsWithin(store, p, |store.classes| - 1);
    assert EndsWithin(store, c, |store.classes|);
    assert ChainTerminates(store, eqId);
    var w := ClassWalk(store, c, |store.classes|);
    assert ClassWalk(store, "", |store.classes| - 2).visited == [];
    assert ClassWalk(store, p, |store.classes| - 1).visited == [p];
    assert w.visited == [c, p];
    var layers := Layers(store, eqId);
    assert |layers| == 3 && layers[2] == store.classes[p].properties;
    ResolvePrecedence(store, eqId, k);
  }

  /**
   * Partial failure: when the instance's class is found but its parent is not,
   * the result holds exactly the instance's properties overlaid by the class's,
   * together with the not-found error for the parent.
   */
  lemma MissingParentKeepsMerged(store: DataStore, eqId: string)
    requires eqId in store.equipment
    requires var c := store.equipment[eqId].classId;
             && c != "" && c in store.classes
             && var p := store.classes[c].parentId;
                p != "" && p !in store.classes
    ensures ChainTerminates(store, eqId)
    ensures var eq := store.equipment[eqId];
            var cls := store.classes[eq.classId];
            Resolve(store, eqId)
              == Resolution(Overlay(Overlay(map[], eq.properties), cls.properties), Some(NotFound("EquipmentClass", cls.parentId)))
  {
    var eq := store.equipment[eqId];
    var c := eq.classId;
    var cls := store.classes[c];
    assert |store.classes| >= 1 by {
      assert c in store.classes.Keys;
    }
    assert EndsWithin(store, c, |store.classes|);
    var seed := Overlay(map[], eq.properties);
    assert MergeChain(store, Overlay(seed, cls.properties), cls.parentId, |store.classes| - 1)
        == Resolution(Overlay(seed, cls.properties), Some(NotFound("EquipmentClass", cls.parentId)));
  }
}
