/**
  Cycle-aware reference counting.  A heap holds objects, the Ptrs stored in them, and Ptrs stored
  elsewhere.  Resetting a Ptr walks the objects reachable from its target, counts the references
  found there, and compares them with the reference counters.
 */
module Ptr {
  import opened RefTree

  type Obj = Node
  type Slot = nat

  /** fields[o] are the Ptrs that o shows to a visitor; target[p] is what the non-null Ptr p points at. */
  datatype Heap = Heap(fields: map<Obj, seq<Slot>>, target: map<Slot, Obj>, refs: map<Obj, nat>)

  ghost predicate Valid(h: Heap) {
    && (forall p :: p in h.target ==> h.target[p] in h.fields)
    && h.refs.Keys == h.fields.Keys
    && (forall o, i, j :: o in h.fields && 0 <= i < j < |h.fields[o]| ==> h.fields[o][i] != h.fields[o][j])
    && (forall a, b, p :: a in h.fields && b in h.fields && p in h.fields[a] && p in h.fields[b] ==> a == b)
  }

  /** The Ptrs among slots that point at o. */
  ghost function PointingAt(h: Heap, slots: set<Slot>, o: Obj): (r: set<Slot>) {
    set p | p in slots && p in h.target && h.target[p] == o
  }

  ghost predicate ExactCounters(h: Heap) {
    Valid(h) && forall o :: o in h.refs ==> h.refs[o] == |PointingAt(h, h.target.Keys, o)|
  }

  /** The non-null Ptrs stored in the objects of a set. */
  ghost function Inside(h: Heap, objs: set<Obj>): (r: set<Slot>) {
    set p | p in h.target && exists o :: o in objs && o in h.fields && p in h.fields[o]
  }

  ghost function Targets(h: Heap, slots: set<Slot>): (r: set<Obj>) {
    set p | p in slots && p in h.target :: h.target[p]
  }

  ghost function ObjectGraph(h: Heap): (g: Graph) {
    map o | o in h.fields :: Targets(h, Inside(h, {o}))
  }

  /** The objects that can be reached from root. */
  ghost predicate IsReach(h: Heap, root: Obj, objs: set<Obj>) {
    root in objs && ClosedSet(ObjectGraph(h), objs) && forall o :: o in objs ==> Reaches(ObjectGraph(h), root, o)
  }

  lemma ReachWithin(h: Heap, root: Obj, a: set<Obj>, b: set<Obj>)
    requires IsReach(h, root, a) && IsReach(h, root, b)
    ensures a <= b
  {
    forall o | o in a
      ensures o in b
    {
      var path :| Joins(ObjectGraph(h), path, root, o);
      StaysInside(ObjectGraph(h), b, path);
    }
  }

  lemma ReachIsUnique(h: Heap, root: Obj, a: set<Obj>, b: set<Obj>)
    requires IsReach(h, root, a) && IsReach(h, root, b)
    ensures a == b
  {
    ReachWithin(h, root, a, b);
    ReachWithin(h, root, b, a);
  }

  datatype RefEntry = RefEntry(refCount: nat, reachableCount: nat, children: set<Obj>)

  /** What the entry of o says once the Ptrs in counted have been seen; the Ptr being reset counts for root. */
  ghost predicate EntryCounts(h: Heap, root: Obj, counted: set<Slot>, o: Obj, e: RefEntry) {
    && o in h.refs && e.refCount == h.refs[o]
    && e.reachableCount == |PointingAt(h, counted, o)| + (if o == root then 1 else 0)
    && e.children == Targets(h, counted * Inside(h, {o}))
  }

  ghost predicate Counts(h: Heap, root: Obj, counted: set<Slot>, objMap: map<Obj, RefEntry>) {
    && Valid(h) && counted <= Inside(h, objMap.Keys)
    && objMap.Keys == {root} + Targets(h, counted)
    && forall o :: o in objMap ==> EntryCounts(h, root, counted, o, objMap[o])
  }

  function WithPtr(h: Heap, objMap: map<Obj, RefEntry>, owner: Obj, o: Obj): (r: map<Obj, RefEntry>)
    requires owner in objMap && o in h.refs
  {
    var m := if o in objMap then objMap else objMap[o := RefEntry(h.refs[o], 0, {})];
    var m := m[o := m[o].(reachableCount := m[o].reachableCount + 1)];
    m[owner := m[owner].(children := m[owner].children + {o})]
  }

  lemma PointingAtMore(h: Heap, counted: set<Slot>, p: Slot, o: Obj)
    requires p in h.target && p !in counted
    ensures |PointingAt(h, counted + {p}, o)| == |PointingAt(h, counted, o)| + (if h.target[p] == o then 1 else 0)
  {
    if h.target[p] == o {
      assert PointingAt(h, counted + {p}, o) == PointingAt(h, counted, o) + {p};
    } else {
      assert PointingAt(h, counted + {p}, o) == PointingAt(h, counted, o);
    }
  }

  lemma TargetsMore(h: Heap, counted: set<Slot>, p: Slot)
    requires p in h.target
    ensures Targets(h, counted + {p}) == Targets(h, counted) + {h.target[p]}
  {
  }

  lemma ChildrenMore(h: Heap, counted: set<Slot>, owner: Obj, p: Slot, o: Obj)
    requires Valid(h) && owner in h.fields && p in h.fields[owner] && p in h.target
    ensures Targets(h, (counted + {p}) * Inside(h, {o}))
         == Targets(h, counted * Inside(h, {o})) + (if o == owner then {h.target[p]} else {})
  {
    if o == owner {
      assert p in Inside(h, {o});
      assert (counted + {p}) * Inside(h, {o}) == counted * Inside(h, {o}) + {p};
      TargetsMore(h, counted * Inside(h, {o}), p);
    } else {
      assert p !in Inside(h, {o});
      assert (counted + {p}) * Inside(h, {o}) == counted * Inside(h, {o});
    }
  }

  /** An object without an entry has nothing counted for it. */
  lemma NewEntryCounts(h: Heap, root: Obj, counted: set<Slot>, objs: set<Obj>, o: Obj)
    requires Valid(h) && counted <= Inside(h, objs) && o in h.refs && o !in objs
    requires o != root && o !in Targets(h, counted)
    ensures EntryCounts(h, root, counted, o, RefEntry(h.refs[o], 0, {}))
  {
    assert PointingAt(h, counted, o) == {} by {
      assert forall p :: p in counted ==> h.target[p] in Targets(h, counted);
    }
    assert counted * Inside(h, {o}) == {};
  }

  lemma EntryStep(h: Heap, root: Obj, counted: set<Slot>, owner: Obj, p: Slot, x: Obj, e: RefEntry)
    requires Valid(h) && EntryCounts(h, root, counted, x, e)
    requires owner in h.fields && p in h.fields[owner] && p in h.target && p !in counted
    ensures EntryCounts(h, root, counted + {p}, x,
              RefEntry(e.refCount, e.reachableCount + (if x == h.target[p] then 1 else 0),
                       e.children + (if x == owner then {h.target[p]} else {})))
  {
    hide PointingAt, Inside, Targets;
    PointingAtMore(h, counted, p, x);
    ChildrenMore(h, counted, owner, p, x);
  }

  lemma EntriesStep(h: Heap, root: Obj, counted: set<Slot>, objMap: map<Obj, RefEntry>, owner: Obj, p: Slot, x: Obj)
    requires Counts(h, root, counted, objMap) && owner in objMap
    requires owner in h.fields && p in h.fields[owner] && p in h.target && p !in counted
    requires x in objMap || x == h.target[p]
    ensures var m := WithPtr(h, objMap, owner, h.target[p]);
            x in m && EntryCounts(h, root, counted + {p}, x, m[x])
  {
    hide PointingAt, Inside, Targets;
    if x !in objMap {
      NewEntryCounts(h, root, counted, objMap.Keys, x);
    }
    EntryStep(h, root, counted, owner, p, x, if x in objMap then objMap[x] else RefEntry(h.refs[x], 0, {}));
  }

  lemma InsideMore(h: Heap, counted: set<Slot>, objs: set<Obj>, more: set<Obj>, owner: Obj, p: Slot)
    requires counted <= Inside(h, objs) && objs <= more
    requires owner in objs && owner in h.fields && p in h.fields[owner] && p in h.target
    ensures counted + {p} <= Inside(h, more)
  {
  }

  lemma CountStep(h: Heap, root: Obj, counted: set<Slot>, objMap: map<Obj, RefEntry>, owner: Obj, p: Slot)
    requires Counts(h, root, counted, objMap) && owner in objMap
    requires owner in h.fields && p in h.fields[owner] && p in h.target && p !in counted
    ensures Counts(h, root, counted + {p}, WithPtr(h, objMap, owner, h.target[p]))
  {
    hide PointingAt, Inside, Targets, EntryCounts;
    var m := WithPtr(h, objMap, owner, h.target[p]);
    assert m.Keys == objMap.Keys + {h.target[p]};
    TargetsMore(h, counted, p);
    InsideMore(h, counted, objMap.Keys, m.Keys, owner, p);
    forall x | x in m
      ensures EntryCounts(h, root, counted + {p}, x, m[x])
    {
      EntriesStep(h, root, counted, objMap, owner, p, x);
    }
  }

  // The walk

  /** Everything stored in the objects of a set has been counted, and what it points at visited. */
  ghost predicate Followed(h: Heap, objs: set<Obj>, counted: set<Slot>, visited: set<Obj>) {
    Inside(h, objs) <= counted && Targets(h, Inside(h, objs)) <= visited
  }

  ghost predicate Walking(h: Heap, root: Obj, counted: set<Slot>, objMap: map<Obj, RefEntry>, visited: set<Obj>) {
    Counts(h, root, counted, objMap) && counted <= Inside(h, visited) && visited <= objMap.Keys
  }

  /** What a visit of o adds to a walk: new objects, reached from o and followed, and only their Ptrs. */
  ghost predicate Adds(h: Heap, o: Obj, counted: set<Slot>, visited: set<Obj>, counted': set<Slot>, visited': set<Obj>) {
    var more := visited' - visited;
    && visited <= visited' && counted <= counted'
    && counted' - counted <= Inside(h, more)
    && forall x :: x in more ==> Reaches(ObjectGraph(h), o, x)
  }

  /** The visit of o has come to field i. */
  ghost predicate AtField(h: Heap, o: Obj, i: nat, counted0: set<Slot>, visited0: set<Obj>, counted: set<Slot>, visited: set<Obj>) {
    && o in h.fields && i <= |h.fields[o]| && o in visited && o !in visited0
    && Adds(h, o, counted0, visited0, counted, visited)
    && Followed(h, visited - visited0 - {o}, counted, visited)
    && (forall j :: 0 <= j < i && h.fields[o][j] in h.target ==>
          h.fields[o][j] in counted && h.target[h.fields[o][j]] in visited)
    && (forall j :: i <= j < |h.fields[o]| ==> h.fields[o][j] !in counted)
  }

  lemma FirstField(h: Heap, o: Obj, counted: set<Slot>, visited: set<Obj>)
    requires Valid(h) && o in h.fields && o !in visited && counted <= Inside(h, visited)
    ensures AtField(h, o, 0, counted, visited, counted, visited + {o}) && counted <= Inside(h, visited + {o})
  {
    ReachesSelf(ObjectGraph(h), o);
    assert visited + {o} - visited - {o} == {};
  }

  /** The nested visit reaches only what o reaches. */
  lemma NestedReaches(h: Heap, o: Obj, p: Slot, more: set<Obj>)
    requires o in h.fields && p in h.fields[o] && p in h.target
    requires forall x :: x in more ==> Reaches(ObjectGraph(h), h.target[p], x)
    ensures forall x :: x in more ==> Reaches(ObjectGraph(h), o, x)
  {
    assert p in Inside(h, {o});
    assert Edge(ObjectGraph(h), o, h.target[p]);
    forall x | x in more
      ensures Reaches(ObjectGraph(h), o, x)
    {
      LeadsReaches(ObjectGraph(h), o, x);
    }
  }

  lemma NextField(h: Heap, o: Obj, i: nat, counted0: set<Slot>, visited0: set<Obj>,
                  counted1: set<Slot>, visited1: set<Obj>, counted2: set<Slot>, visited2: set<Obj>)
    requires Valid(h) && AtField(h, o, i, counted0, visited0, counted1, visited1) && i < |h.fields[o]|
    requires var p := h.fields[o][i];
             && p in h.target && h.target[p] in visited2
             && Adds(h, h.target[p], counted1 + {p}, visited1, counted2, visited2)
    requires Followed(h, visited2 - visited1, counted2, visited2)
    ensures AtField(h, o, i + 1, counted0, visited0, counted2, visited2)
  {
    hide Reaches, ObjectGraph, Targets;
    var p := h.fields[o][i];
    NestedReaches(h, o, p, visited2 - visited1);
    NestedPtrs(h, o, p, counted1, visited1, counted2, visited2);
    FollowedUnion(h, visited1 - visited0 - {o}, visited2 - visited1, counted1, visited1, counted2, visited2);
    assert visited2 - visited0 - {o} == (visited1 - visited0 - {o}) + (visited2 - visited1);
    InsideMore(h, {}, {o}, {o}, o, p);
    InsideChain(h, counted1 - counted0, {p}, visited1 - visited0, {o}, visited1 - visited0);
    InsideChain(h, (counted1 - counted0) + {p}, counted2 - (counted1 + {p}),
                visited1 - visited0, visited2 - visited1, visited2 - visited0);
    assert counted2 - counted0 <= Inside(h, visited2 - visited0);
  }

  lemma NestedPtrs(h: Heap, o: Obj, p: Slot, counted1: set<Slot>, visited1: set<Obj>, counted2: set<Slot>, visited2: set<Obj>)
    requires Valid(h) && o in visited1 && o in h.fields
    requires counted2 - (counted1 + {p}) <= Inside(h, visited2 - visited1)
    ensures forall q :: q in h.fields[o] && q in counted2 ==> q in counted1 || q == p
  {
    forall q | q in h.fields[o]
      ensures q !in Inside(h, visited2 - visited1)
    {
      assert forall x :: x in visited2 - visited1 && x in h.fields ==> q !in h.fields[x];
    }
  }

  lemma InsideChain(h: Heap, a: set<Slot>, b: set<Slot>, inA: set<Obj>, inB: set<Obj>, all: set<Obj>)
    requires a <= Inside(h, inA) && b <= Inside(h, inB) && inA <= all && inB <= all
    ensures a + b <= Inside(h, all)
  {
    forall q | q in a + b
      ensures q in Inside(h, all)
    {
      assert q in Inside(h, inA) || q in Inside(h, inB);
    }
  }

  lemma FollowedUnion(h: Heap, a: set<Obj>, b: set<Obj>, counted1: set<Slot>, visited1: set<Obj>,
                      counted2: set<Slot>, visited2: set<Obj>)
    requires Followed(h, a, counted1, visited1) && Followed(h, b, counted2, visited2)
    requires counted1 <= counted2 && visited1 <= visited2
    ensures Followed(h, a + b, counted2, visited2)
  {
    assert Inside(h, a + b) == Inside(h, a) + Inside(h, b);
  }

  lemma LastField(h: Heap, o: Obj, counted0: set<Slot>, visited0: set<Obj>, counted: set<Slot>, visited: set<Obj>)
    requires o in h.fields && AtField(h, o, |h.fields[o]|, counted0, visited0, counted, visited)
    ensures Followed(h, visited - visited0, counted, visited)
  {
    assert Followed(h, {o}, counted, visited);
    FollowedUnion(h, visited - visited0 - {o}, {o}, counted, visited, counted, visited);
    assert visited - visited0 == (visited - visited0 - {o}) + {o};
  }

  lemma SkipField(h: Heap, o: Obj, i: nat, counted0: set<Slot>, visited0: set<Obj>, counted: set<Slot>, visited: set<Obj>)
    requires AtField(h, o, i, counted0, visited0, counted, visited) && i < |h.fields[o]| && h.fields[o][i] !in h.target
    ensures AtField(h, o, i + 1, counted0, visited0, counted, visited)
  {
  }

  /**
    The visit of an object and of everything it points at.  The cycle detector is the set of visited
    objects; every Ptr met is counted at its target and added to the children of its owner.
   */
  method VisitObject(h: Heap, root: Obj, o: Obj, objMap: map<Obj, RefEntry>, visited: set<Obj>, ghost counted: set<Slot>)
    returns (objMap': map<Obj, RefEntry>, visited': set<Obj>, ghost counted': set<Slot>)
    requires Walking(h, root, counted, objMap, visited) && o in objMap && objMap.Keys <= h.fields.Keys
    ensures Walking(h, root, counted', objMap', visited') && o in visited' && objMap'.Keys <= h.fields.Keys
    ensures Adds(h, o, counted, visited, counted', visited') && Followed(h, visited' - visited, counted', visited')
    decreases h.fields.Keys - visited
  {
    objMap', visited', counted' := objMap, visited, counted;
    if o in visited {
      NothingNew(h, o, counted, visited);
      return;
    }
    visited' := visited + {o};
    FirstField(h, o, counted, visited);
    hide Inside, Targets, EntryCounts, Followed;
    var i := 0;
    while i < |h.fields[o]|
      invariant objMap'.Keys <= h.fields.Keys && Walking(h, root, counted', objMap', visited')
      invariant AtField(h, o, i, counted, visited, counted', visited')
    {
      var p := h.fields[o][i];
      if p in h.target {
        ghost var counted1, visited1 := counted', visited';
        CountStep(h, root, counted', objMap', o, p);
        InsideMore(h, counted', visited', visited', o, p);
        objMap' := WithPtr(h, objMap', o, h.target[p]);
        counted' := counted' + {p};
        objMap', visited', counted' := VisitObject(h, root, h.target[p], objMap', visited', counted');
        NextField(h, o, i, counted, visited, counted1, visited1, counted', visited');
      } else {
        SkipField(h, o, i, counted, visited, counted', visited');
      }
      i := i + 1;
    }
    LastField(h, o, counted, visited, counted', visited');
  }

  lemma NothingNew(h: Heap, o: Obj, counted: set<Slot>, visited: set<Obj>)
    ensures Adds(h, o, counted, visited, counted, visited) && Followed(h, visited - visited, counted, visited)
  {
  }

  // The decision

  ghost function Outside(h: Heap, objs: set<Obj>): (r: set<Slot>)
    ensures r <= h.target.Keys
  {
    h.target.Keys - Inside(h, objs)
  }

  /**
    What Reset takes for garbage: of the Ptrs stored outside the reach of t, one points at t, and none
    at another object of the reach that leads back to t.
   */
  ghost predicate LooksUnused(h: Heap, t: Obj, reach: set<Obj>) {
    && |PointingAt(h, Outside(h, reach), t)| == 1
    && forall o :: o in reach && o != t && PointingAt(h, Outside(h, reach), o) != {} ==> !Leads(ObjectGraph(h), o, t)
  }

  lemma SplitCount(h: Heap, objs: set<Obj>, o: Obj)
    ensures |PointingAt(h, h.target.Keys, o)| == |PointingAt(h, Inside(h, objs), o)| + |PointingAt(h, Outside(h, objs), o)|
  {
    var ins, outs := PointingAt(h, Inside(h, objs), o), PointingAt(h, Outside(h, objs), o);
    assert ins !! outs && PointingAt(h, h.target.Keys, o) == ins + outs;
  }

  /** The tree of references built by a whole walk. */
  function ChildGraph(objMap: map<Obj, RefEntry>): (g: Graph) {
    map o | o in objMap :: objMap[o].children
  }

  lemma {:induction false} PathInRestriction(g: Graph, r: Graph, path: seq<Node>)
    requires r.Keys <= g.Keys && ClosedSet(g, r.Keys) && (forall o :: o in r ==> r[o] == g[o])
    requires |path| > 0 && path[0] in r
    ensures IsPath(g, path) <==> IsPath(r, path)
    decreases |path|
  {
    if |path| == 1 {
    } else {
      if IsPath(g, path) {
        assert Edge(g, path[0], path[1]);
        TailIsPath(g, path);
        PathInRestriction(g, r, path[1..]);
        assert forall i :: 1 <= i < |path| - 1 ==> path[i] == path[1..][i - 1] && Edge(r, path[1..][i - 1], path[1..][i]);
      }
      if IsPath(r, path) {
        assert forall i :: 0 <= i < |path| - 1 ==> Edge(r, path[i], path[i + 1]);
      }
    }
  }

  lemma LeadsInRestriction(g: Graph, r: Graph, a: Node, b: Node)
    requires r.Keys <= g.Keys && ClosedSet(g, r.Keys) && (forall o :: o in r ==> r[o] == g[o])
    requires a in r
    ensures Leads(g, a, b) <==> Leads(r, a, b)
  {
    forall c, path | Edge(g, a, c) && |path| > 0 && path[0] == c
      ensures Joins(g, path, c, b) <==> Joins(r, path, c, b)
    {
      PathInRestriction(g, r, path);
    }
    if Leads(g, a, b) {
      var c :| Edge(g, a, c) && Reaches(g, c, b);
      var path :| Joins(g, path, c, b);
      assert Joins(r, path, c, b) && Edge(r, a, c);
    }
    if Leads(r, a, b) {
      var c :| Edge(r, a, c) && Reaches(r, c, b);
      var path :| Joins(r, path, c, b);
      assert Edge(g, a, c) && Joins(g, path, c, b);
    }
  }

  /** After a whole walk the entries are those of the reach, and the tree is the object graph on it. */
  ghost predicate Walked(h: Heap, t: Obj, objMap: map<Obj, RefEntry>, reach: set<Obj>) {
    && objMap.Keys == reach && IsReach(h, t, reach) && reach <= h.fields.Keys
    && Counts(h, t, Inside(h, reach), objMap)
  }

  lemma WalkIsWhole(h: Heap, t: Obj, objMap: map<Obj, RefEntry>, visited: set<Obj>, counted: set<Slot>)
    requires Walking(h, t, counted, objMap, visited) && t in visited && objMap.Keys <= h.fields.Keys
    requires Adds(h, t, {}, {}, counted, visited) && Followed(h, visited, counted, visited)
    ensures Walked(h, t, objMap, visited)
  {
    assert visited - {} == visited && counted == Inside(h, visited);
    forall a, b | a in visited && Edge(ObjectGraph(h), a, b)
      ensures b in visited
    {
      assert Inside(h, {a}) <= Inside(h, visited);
    }
  }

  lemma TreeIsObjectGraph(h: Heap, t: Obj, objMap: map<Obj, RefEntry>, reach: set<Obj>, o: Obj)
    requires Walked(h, t, objMap, reach) && o in reach
    ensures Closed(ChildGraph(objMap))
    ensures Leads(ChildGraph(objMap), o, t) <==> Leads(ObjectGraph(h), o, t)
  {
    var g, r := ObjectGraph(h), ChildGraph(objMap);
    forall x | x in r
      ensures r[x] == g[x]
    {
      assert EntryCounts(h, t, Inside(h, reach), x, objMap[x]);
      assert Inside(h, reach) * Inside(h, {x}) == Inside(h, {x});
    }
    forall a, b | a in r && b in r[a]
      ensures b in r
    {
      assert Edge(g, a, b);
    }
    LeadsInRestriction(g, r, o, t);
  }

  lemma EntryTells(h: Heap, t: Obj, objMap: map<Obj, RefEntry>, reach: set<Obj>, o: Obj)
    requires ExactCounters(h) && Walked(h, t, objMap, reach) && o in reach
    ensures objMap[o].refCount + (if o == t then 1 else 0)
         == objMap[o].reachableCount + |PointingAt(h, Outside(h, reach), o)|
  {
    assert EntryCounts(h, t, Inside(h, reach), o, objMap[o]);
    SplitCount(h, reach, o);
  }

  /** The test of one entry of obj_map: it does not forbid deleting t. */
  ghost predicate Harmless(h: Heap, t: Obj, reach: set<Obj>, o: Obj) {
    if o == t then |PointingAt(h, Outside(h, reach), t)| == 1
    else PointingAt(h, Outside(h, reach), o) != {} ==> !Leads(ObjectGraph(h), o, t)
  }

  method CheckEntry(h: Heap, t: Obj, objMap: map<Obj, RefEntry>, o: Obj, ghost reach: set<Obj>) returns (harmless: bool)
    requires ExactCounters(h) && Walked(h, t, objMap, reach) && o in reach
    ensures harmless <==> Harmless(h, t, reach, o)
  {
    EntryTells(h, t, objMap, reach, o);
    var ref := objMap[o];
    if o == t {
      return ref.refCount == ref.reachableCount;
    }
    if ref.refCount > ref.reachableCount {
      TreeIsObjectGraph(h, t, objMap, reach, o);
      var reachable := IsReachable(ChildGraph(objMap), o, t);
      return !reachable;
    }
    return true;
  }

  /** The part of DecrementGraph that decides. */
  method SafeToDelete(h: Heap, t: Obj) returns (safe: bool, ghost reach: set<Obj>)
    requires ExactCounters(h) && t in h.fields
    ensures IsReach(h, t, reach)
    ensures safe <==> LooksUnused(h, t, reach)
  {
    var objMap := map[t := RefEntry(h.refs[t], 1, {})];
    NothingCounted(h, t);
    ghost var counted;
    objMap, reach, counted := Walk(h, t, objMap);
    safe := true;
    var todo := objMap.Keys;
    while todo != {}
      invariant todo <= reach
      invariant forall o :: o in reach - todo ==> Harmless(h, t, reach, o)
      decreases todo
    {
      var o :| o in todo;
      var harmless := CheckEntry(h, t, objMap, o, reach);
      if !harmless {
        return false, reach;
      }
      todo := todo - {o};
    }
    assert forall o :: o in reach ==> Harmless(h, t, reach, o);
  }

  lemma NothingCounted(h: Heap, t: Obj)
    requires Valid(h) && t in h.fields
    ensures Walking(h, t, {}, map[t := RefEntry(h.refs[t], 1, {})], {})
  {
    assert PointingAt(h, {}, t) == {} && Targets(h, {}) == {};
    assert {} * Inside(h, {t}) == {};
  }

  method Walk(h: Heap, t: Obj, objMap: map<Obj, RefEntry>)
    returns (objMap': map<Obj, RefEntry>, ghost reach: set<Obj>, ghost counted: set<Slot>)
    requires Walking(h, t, {}, objMap, {}) && objMap.Keys == {t} && t in h.fields
    ensures Walked(h, t, objMap', reach)
  {
    var visited;
    objMap', visited, counted := VisitObject(h, t, t, objMap, {}, {});
    assert visited - {} == visited;
    WalkIsWhole(h, t, objMap', visited, counted);
    reach := visited;
  }

  // What the decision means

  /** No Ptr but p that is stored outside the reach of t points into the reach at something that leads to t. */
  ghost predicate NoOtherWayBack(h: Heap, p: Slot, t: Obj, reach: set<Obj>) {
    forall q :: q in Outside(h, reach) && q != p && h.target[q] in reach ==> !Reaches(ObjectGraph(h), h.target[q], t)
  }

  ghost predicate Deletes(h: Heap, t: Obj, reach: set<Obj>) {
    t in h.refs && (h.refs[t] == 1 || LooksUnused(h, t, reach))
  }

  lemma OneElement<T>(s: set<T>, x: T)
    requires x in s
    ensures |s| == 1 <==> s == {x}
  {
    if |s| == 1 {
      assert |s - {x}| == 0;
    }
  }

  lemma OnlyPtrMeansNoWayBack(h: Heap, p: Slot, t: Obj, reach: set<Obj>, o: Obj)
    requires Valid(h) && IsReach(h, t, reach) && PointingAt(h, h.target.Keys, t) == {p} && p in Outside(h, reach)
    requires o in reach && o != t
    ensures !Reaches(ObjectGraph(h), o, t)
  {
    var g, rest := ObjectGraph(h), reach - {t};
    forall a, b | a in rest && Edge(g, a, b)
      ensures b in rest
    {
      var q :| q in Inside(h, {a}) && q in h.target && h.target[q] == b;
      assert q in Inside(h, reach);
      assert b == t ==> q in PointingAt(h, h.target.Keys, t);
    }
    if Reaches(g, o, t) {
      var path :| Joins(g, path, o, t);
      StaysInside(g, rest, path);
    }
  }

  lemma LooksUnusedMeansNoWayBack(h: Heap, p: Slot, t: Obj, reach: set<Obj>)
    requires Valid(h) && p in h.target && h.target[p] == t && p in Outside(h, reach) && t in reach
    ensures LooksUnused(h, t, reach) <==> NoOtherWayBack(h, p, t, reach)
  {
    var g, outs := ObjectGraph(h), PointingAt(h, Outside(h, reach), t);
    OneElement(outs, p);
    if LooksUnused(h, t, reach) {
      forall q | q in Outside(h, reach) && q != p && h.target[q] in reach
        ensures !Reaches(g, h.target[q], t)
      {
        var o := h.target[q];
        assert q in PointingAt(h, Outside(h, reach), o);
        if Reaches(g, o, t) {
          LeadsOrSame(g, o, t);
        }
      }
    }
    if NoOtherWayBack(h, p, t, reach) {
      ReachesSelf(g, t);
      assert forall q :: q in outs ==> q == p;
      assert outs == {p};
      forall o | o in reach && o != t && PointingAt(h, Outside(h, reach), o) != {}
        ensures !Leads(g, o, t)
      {
        var q :| q in PointingAt(h, Outside(h, reach), o);
        if Leads(g, o, t) {
          LeadsReaches(g, o, t);
        }
      }
    }
  }

  /**
    A Ptr not stored inside the reach of its target deletes the target exactly when no other Ptr stored
    outside the reach leads, directly or through it, back to the target.
   */
  lemma ResetOutsideIsExact(h: Heap, p: Slot, t: Obj, reach: set<Obj>)
    requires ExactCounters(h) && p in h.target && h.target[p] == t && IsReach(h, t, reach) && p in Outside(h, reach)
    ensures Deletes(h, t, reach) <==> NoOtherWayBack(h, p, t, reach)
  {
    LooksUnusedMeansNoWayBack(h, p, t, reach);
    var all := PointingAt(h, h.target.Keys, t);
    OneElement(all, p);
    if h.refs[t] == 1 {
      forall q | q in Outside(h, reach) && q != p && h.target[q] in reach
        ensures !Reaches(ObjectGraph(h), h.target[q], t)
      {
        assert h.target[q] == t ==> q in all;
        OnlyPtrMeansNoWayBack(h, p, t, reach, h.target[q]);
      }
    }
  }

  /**
    Resetting a Ptr deletes an object that another Ptr from outside its reach still points at, if and only
    if the Ptr is stored inside the reach, is not the only one, and the object looks unused.
   */
  lemma DeletesHeldObjectIff(h: Heap, p: Slot, t: Obj, reach: set<Obj>)
    requires ExactCounters(h) && p in h.target && h.target[p] == t && IsReach(h, t, reach)
    ensures (Deletes(h, t, reach) && exists q :: q in Outside(h, reach) && q != p && h.target[q] == t) <==>
            (p in Inside(h, reach) && h.refs[t] > 1 && LooksUnused(h, t, reach))
  {
    var all, outs := PointingAt(h, h.target.Keys, t), PointingAt(h, Outside(h, reach), t);
    OneElement(all, p);
    if p in Outside(h, reach) {
      OneElement(outs, p);
    }
    if outs != {} {
      var q :| q in outs;
      OneElement(outs, q);
    }
    assert forall q :: q in Outside(h, reach) && h.target[q] == t ==> q in outs && q in all;
  }

  /** Such a heap: an object that holds a Ptr to itself, and one Ptr to it from outside. */
  lemma SelfResetDeletesHeldObject()
    ensures var h := Heap(map[0 := [0]], map[0 := 0, 1 := 0], map[0 := 2]);
            && ExactCounters(h) && IsReach(h, 0, {0}) && 0 in Inside(h, {0}) && 1 in Outside(h, {0})
            && Deletes(h, 0, {0})
  {
    var h := Heap(map[0 := [0]], map[0 := 0, 1 := 0], map[0 := 2]);
    assert h.fields[0][0] == 0;
    assert Inside(h, {0}) == {0};
    assert Outside(h, {0}) == {1};
    assert PointingAt(h, h.target.Keys, 0) == {0, 1};
    assert PointingAt(h, {1}, 0) == {1};
    ReachesSelf(ObjectGraph(h), 0);
  }

  // Copies, moves and resets

  ghost function Without(h: Heap, p: Slot, count: nat): (r: Heap)
    requires p in h.target
  {
    h.(target := h.target - {p}, refs := h.refs[h.target[p] := count])
  }

  lemma DropKeepsExact(h: Heap, p: Slot)
    requires ExactCounters(h) && p in h.target
    ensures h.refs[h.target[p]] > 0 && ExactCounters(Without(h, p, h.refs[h.target[p]] - 1))
  {
    var t := h.target[p];
    assert p in PointingAt(h, h.target.Keys, t);
    var r := Without(h, p, |PointingAt(h, h.target.Keys, t)| - 1);
    forall o | o in r.refs
      ensures PointingAt(r, r.target.Keys, o) == PointingAt(h, h.target.Keys, o) - {p}
    {
    }
  }

  lemma AddKeepsExact(h: Heap, p: Slot, o: Obj)
    requires ExactCounters(h) && p !in h.target && o in h.fields
    ensures ExactCounters(h.(target := h.target[p := o], refs := h.refs[o := h.refs[o] + 1]))
  {
    var r := h.(target := h.target[p := o], refs := h.refs[o := h.refs[o] + 1]);
    assert Valid(r);
    hide Valid;
    forall x | x in r.refs
      ensures |PointingAt(r, r.target.Keys, x)| == r.refs[x]
    {
      AddedCount(h, r, p, o, x);
    }
  }

  lemma AddedCount(h: Heap, r: Heap, p: Slot, o: Obj, x: Obj)
    requires p !in h.target && r.target == h.target[p := o]
    ensures |PointingAt(r, r.target.Keys, x)| == |PointingAt(h, h.target.Keys, x)| + (if x == o then 1 else 0)
  {
    assert PointingAt(r, r.target.Keys, x) == PointingAt(h, h.target.Keys, x) + (if x == o then {p} else {});
  }

  /** The decision of Reset, for a Ptr that is not null. */
  method Decide(h: Heap, p: Slot) returns (deleted: bool)
    requires ExactCounters(h) && p in h.target
    ensures forall reach :: IsReach(h, h.target[p], reach) ==> (deleted <==> Deletes(h, h.target[p], reach))
  {
    var t := h.target[p];
    if h.refs[t] == 1 {
      return true;
    }
    ghost var found;
    deleted, found := SafeToDelete(h, t);
    forall reach | IsReach(h, t, reach)
      ensures deleted <==> Deletes(h, t, reach)
    {
      ReachIsUnique(h, t, found, reach);
    }
  }

  lemma MoveKeepsCounts(h: Heap, r: Heap, from: Slot, to: Slot)
    requires ExactCounters(h) && ExactCounters(r) && from in h.target && to !in h.target
    requires r.fields == h.fields && r.target == h.target[to := h.target[from]] - {from}
    requires r.refs.Keys == h.refs.Keys
    ensures r.refs == h.refs
  {
    hide Valid;
    forall o | o in h.refs
      ensures |PointingAt(r, r.target.Keys, o)| == |PointingAt(h, h.target.Keys, o)|
    {
      MovedCount(h, r, from, to, o);
    }
  }

  lemma MovedCount(h: Heap, r: Heap, from: Slot, to: Slot, o: Obj)
    requires from in h.target && to !in h.target && r.target == h.target[to := h.target[from]] - {from}
    ensures |PointingAt(r, r.target.Keys, o)| == |PointingAt(h, h.target.Keys, o)|
  {
    var a, b := PointingAt(h, h.target.Keys, o), PointingAt(r, r.target.Keys, o);
    if o == h.target[from] {
      assert b == a - {from} + {to};
    } else {
      assert b == a;
    }
  }
}
