/**
  Resetting a Ptr with all that follows.  A deleted object resets the Ptrs stored in it, which may delete
  further objects.  An object is held when it can be reached from a root, a Ptr stored in no object.
 */
module PtrCascade {
  import opened RefTree
  import opened Ptr

  ghost function Roots(h: Heap): (r: set<Slot>)
    ensures r <= h.target.Keys
  {
    Outside(h, h.fields.Keys)
  }

  ghost function Held(h: Heap): (r: set<Obj>) {
    set o | o in h.fields && exists r :: r in Roots(h) && Reaches(ObjectGraph(h), h.target[r], o)
  }

  /** Every object is held. */
  ghost predicate NoGarbage(h: Heap) {
    Held(h) == h.fields.Keys
  }

  /** A heap without these Ptrs, the counters aside. */
  ghost function Cut(h: Heap, slots: set<Slot>): (r: Heap) {
    h.(target := h.target - slots)
  }

  ghost predicate Stored(h: Heap, p: Slot, o: Obj) {
    o in h.fields && p in h.fields[o]
  }

  /** A set with the targets of all roots and of all Ptrs in its objects. */
  ghost predicate Keeps(h: Heap, objs: set<Obj>) {
    && (forall r :: r in Roots(h) ==> h.target[r] in objs)
    && forall o, p :: o in objs && Stored(h, p, o) && p in h.target ==> h.target[p] in objs
  }

  // Small facts, so that the definitions can be hidden

  lemma OutsideIff(h: Heap, p: Slot, objs: set<Obj>)
    ensures p in Outside(h, objs) <==> p in h.target && forall o :: o in objs ==> !Stored(h, p, o)
  {
    if p in h.target && p in Inside(h, objs) {
      var o :| o in objs && o in h.fields && p in h.fields[o];
      assert Stored(h, p, o);
    }
  }

  lemma RootIff(h: Heap, r: Slot)
    ensures r in Roots(h) <==> r in h.target && forall o :: !Stored(h, r, o)
  {
    OutsideIff(h, r, h.fields.Keys);
  }

  lemma CutFacts(h: Heap, slots: set<Slot>)
    requires Valid(h)
    ensures Valid(Cut(h, slots)) && Roots(Cut(h, slots)) == Roots(h) - slots
    ensures forall p, o :: Stored(Cut(h, slots), p, o) <==> Stored(h, p, o)
  {
    var c := Cut(h, slots);
    forall r
      ensures r in Roots(c) <==> r in Roots(h) - slots
    {
      RootIff(h, r);
      RootIff(c, r);
      assert forall o :: Stored(c, r, o) <==> Stored(h, r, o);
    }
  }

  lemma TargetKnown(h: Heap, p: Slot)
    requires Valid(h) && p in h.target
    ensures h.target[p] in h.fields
  {
  }

  lemma StoredOnce(h: Heap, p: Slot, a: Obj, b: Obj)
    requires Valid(h) && Stored(h, p, a) && Stored(h, p, b)
    ensures a == b
  {
  }

  lemma EdgeIff(h: Heap, a: Obj, b: Obj)
    ensures Edge(ObjectGraph(h), a, b) <==> exists p :: Stored(h, p, a) && p in h.target && h.target[p] == b
  {
    if a in h.fields {
      if p :| Stored(h, p, a) && p in h.target && h.target[p] == b {
        assert p in Inside(h, {a});
      }
      if Edge(ObjectGraph(h), a, b) {
        var p :| p in Inside(h, {a}) && h.target[p] == b;
        assert Stored(h, p, a);
      }
    }
  }

  lemma EdgeOf(h: Heap, a: Obj, p: Slot)
    requires Stored(h, p, a) && p in h.target
    ensures Edge(ObjectGraph(h), a, h.target[p])
  {
    EdgeIff(h, a, h.target[p]);
  }

  lemma ReachesOn(g: Graph, a: Node, b: Node, c: Node)
    requires Reaches(g, a, b) && Edge(g, b, c)
    ensures Reaches(g, a, c)
  {
    var path :| Joins(g, path, a, b);
    var longer := path + [c];
    assert forall i :: 0 <= i < |path| - 1 ==> Edge(g, longer[i], longer[i + 1]);
    assert Joins(g, longer, a, c);
  }

  lemma ReachesInside(g: Graph, nodes: set<Node>, a: Node, b: Node)
    requires ClosedSet(g, nodes) && a in nodes && Reaches(g, a, b)
    ensures b in nodes
  {
    var path :| Joins(g, path, a, b);
    StaysInside(g, nodes, path);
  }

  lemma HeldHas(h: Heap, r: Slot, o: Obj)
    requires r in Roots(h) && o in h.fields && Reaches(ObjectGraph(h), h.target[r], o)
    ensures o in Held(h)
  {
  }

  lemma HeldFrom(h: Heap, o: Obj) returns (r: Slot)
    requires o in Held(h)
    ensures o in h.fields && r in Roots(h) && r in h.target && Reaches(ObjectGraph(h), h.target[r], o)
  {
    r :| r in Roots(h) && Reaches(ObjectGraph(h), h.target[r], o);
  }

  lemma HeldKeeps(h: Heap)
    requires Valid(h)
    ensures Keeps(h, Held(h)) && Held(h) <= h.fields.Keys
  {
    hide Valid, Held, ObjectGraph, Reaches, Roots;
    var g := ObjectGraph(h);
    forall r | r in Roots(h)
      ensures h.target[r] in Held(h)
    {
      RootIff(h, r);
      TargetKnown(h, r);
      ReachesSelf(g, h.target[r]);
      HeldHas(h, r, h.target[r]);
    }
    forall o, p | o in Held(h) && Stored(h, p, o) && p in h.target
      ensures h.target[p] in Held(h)
    {
      var r := HeldFrom(h, o);
      TargetKnown(h, p);
      EdgeOf(h, o, p);
      ReachesOn(g, h.target[r], o, h.target[p]);
      HeldHas(h, r, h.target[p]);
    }
    forall o | o in Held(h)
      ensures o in h.fields
    {
      var r := HeldFrom(h, o);
    }
  }

  /** The held objects are the least such set. */
  lemma HeldWithin(h: Heap, objs: set<Obj>)
    requires Keeps(h, objs)
    ensures Held(h) <= objs
  {
    hide Held, ObjectGraph, Reaches, Roots;
    var g := ObjectGraph(h);
    forall a, b | a in objs && Edge(g, a, b)
      ensures b in objs
    {
      EdgeIff(h, a, b);
    }
    forall o | o in Held(h)
      ensures o in objs
    {
      var r := HeldFrom(h, o);
      ReachesInside(g, objs, h.target[r], o);
    }
  }

  /** The objects that can be reached from one. */
  ghost function Reach(h: Heap, t: Obj): (r: set<Obj>) {
    set o | o in h.fields && Reaches(ObjectGraph(h), t, o)
  }

  lemma ReachIsReach(h: Heap, t: Obj)
    requires Valid(h) && t in h.fields
    ensures IsReach(h, t, Reach(h, t))
  {
    hide Valid, ObjectGraph, Reaches;
    var g := ObjectGraph(h);
    ReachesSelf(g, t);
    forall a, b | a in Reach(h, t) && Edge(g, a, b)
      ensures b in Reach(h, t)
    {
      EdgeIff(h, a, b);
      var p :| Stored(h, p, a) && p in h.target && h.target[p] == b;
      TargetKnown(h, p);
      ReachesOn(g, t, a, b);
    }
  }

  // The decision and the objects held

  /** An object that Reset deletes is not held by other Ptrs, garbage or not. */
  lemma DeletedIsNotHeld(h: Heap, p: Slot, t: Obj, reach: set<Obj>)
    requires Valid(h) && p in h.target && h.target[p] == t && IsReach(h, t, reach) && p in Outside(h, reach)
    requires NoOtherWayBack(h, p, t, reach)
    ensures t !in Held(Cut(h, {p}))
  {
    hide Valid, Held, ObjectGraph, Reaches, Roots, Outside;
    var g, c := ObjectGraph(h), Cut(h, {p});
    CutFacts(h, {p});
    var others := set o | o in h.fields && (o !in reach || !Reaches(g, o, t));
    forall r | r in Roots(c)
      ensures c.target[r] in others
    {
      RootIff(c, r);
      TargetKnown(h, r);
      assert forall o :: Stored(c, r, o) <==> Stored(h, r, o);
      OutsideIff(h, r, reach);
    }
    forall o, q | o in others && Stored(c, q, o) && q in c.target
      ensures c.target[q] in others
    {
      TargetKnown(h, q);
      if o !in reach {
        OnlyElsewhere(h, q, o, reach);
      } else if Reaches(g, h.target[q], t) {
        EdgeOf(h, o, q);
        LeadsReaches(g, o, t);
      }
    }
    HeldWithin(c, others);
    ReachesSelf(g, t);
  }

  lemma OnlyElsewhere(h: Heap, q: Slot, o: Obj, objs: set<Obj>)
    requires Valid(h) && Stored(h, q, o) && q in h.target && o !in objs
    ensures q in Outside(h, objs)
  {
    hide Valid, Outside;
    OutsideIff(h, q, objs);
    forall x | x in objs
      ensures !Stored(h, q, x)
    {
      if Stored(h, q, x) {
        StoredOnce(h, q, o, x);
      }
    }
  }

  /** Without garbage, an object that no other Ptr holds is deleted. */
  lemma NotHeldHasNoWayBack(h: Heap, p: Slot, t: Obj, reach: set<Obj>)
    requires Valid(h) && NoGarbage(h) && p in h.target && h.target[p] == t && IsReach(h, t, reach) && p in Outside(h, reach)
    requires t !in Held(Cut(h, {p}))
    ensures NoOtherWayBack(h, p, t, reach)
  {
    hide Valid, Held, ObjectGraph, Reaches, Roots, Outside;
    var g, c := ObjectGraph(h), Cut(h, {p});
    CutFacts(h, {p});
    HeldKeeps(c);
    ReachOrHeld(h, p, t, reach);
    forall q | q in h.target && q in Outside(h, reach) && q != p && h.target[q] in reach
      ensures !Reaches(g, h.target[q], t)
    {
      OutsideIff(h, q, reach);
      RootIff(c, q);
      if q !in Roots(c) {
        var o :| Stored(c, q, o);
        assert Stored(h, q, o) && o in Held(c);
      }
      HeldInReach(h, p, reach, h.target[q], t);
    }
  }

  lemma ReachOrHeld(h: Heap, p: Slot, t: Obj, reach: set<Obj>)
    requires Valid(h) && NoGarbage(h) && p in h.target && h.target[p] == t && IsReach(h, t, reach)
    ensures forall o :: o in h.fields ==> o in reach || o in Held(Cut(h, {p}))
  {
    hide Valid, Held, ObjectGraph, Reaches, Roots;
    var c := Cut(h, {p});
    var all := Held(c) + reach;
    CutFacts(h, {p});
    HeldKeeps(c);
    forall r | r in Roots(h)
      ensures h.target[r] in all
    {
      assert r != p ==> r in Roots(c);
    }
    forall o, q | o in all && Stored(h, q, o) && q in h.target
      ensures h.target[q] in all
    {
      if o in reach {
        EdgeOf(h, o, q);
      } else {
        assert Stored(c, q, o);
      }
    }
    HeldWithin(h, all);
  }

  /** Within the reach the Ptr that is reset plays no part. */
  lemma HeldInReach(h: Heap, p: Slot, reach: set<Obj>, x: Obj, t: Obj)
    requires Valid(h) && p in Outside(h, reach) && ClosedSet(ObjectGraph(h), reach)
    requires x in reach && x in Held(Cut(h, {p})) && t !in Held(Cut(h, {p}))
    ensures !Reaches(ObjectGraph(h), x, t)
  {
    hide Valid, Held, ObjectGraph, Reaches, Roots, Outside;
    var g, c := ObjectGraph(h), Cut(h, {p});
    var both := reach * Held(c);
    CutFacts(h, {p});
    HeldKeeps(c);
    OutsideIff(h, p, reach);
    forall a, b | a in both && Edge(g, a, b)
      ensures b in both
    {
      EdgeIff(h, a, b);
      var q :| Stored(h, q, a) && q in h.target && h.target[q] == b;
      assert Stored(c, q, a) && q != p;
    }
    if Reaches(g, x, t) {
      ReachesInside(g, both, x, t);
    }
  }

  /**
    In a heap without garbage, resetting a Ptr not stored in the reach of its target deletes the target if and
    only if the target cannot be reached from a root without that Ptr.
   */
  lemma DeletesIffNotHeld(h: Heap, p: Slot, t: Obj, reach: set<Obj>)
    requires ExactCounters(h) && NoGarbage(h)
    requires p in h.target && h.target[p] == t && IsReach(h, t, reach) && p in Outside(h, reach)
    ensures Deletes(h, t, reach) <==> t !in Held(Cut(h, {p}))
  {
    hide Valid, Held, NoGarbage, IsReach, Outside, Deletes, NoOtherWayBack, Cut;
    ResetOutsideIsExact(h, p, t, reach);
    if NoOtherWayBack(h, p, t, reach) {
      DeletedIsNotHeld(h, p, t, reach);
    }
    if t !in Held(Cut(h, {p})) {
      NotHeldHasNoWayBack(h, p, t, reach);
    }
  }

  /** What a Ptr stored in the reach of its target deletes, when it is not the only one, is still held. */
  lemma InsideDeletesHeld(h: Heap, p: Slot, t: Obj, reach: set<Obj>)
    requires ExactCounters(h) && NoGarbage(h)
    requires p in h.target && h.target[p] == t && IsReach(h, t, reach) && p in Inside(h, reach)
    requires h.refs[t] > 1 && Deletes(h, t, reach)
    ensures t in Held(Cut(h, {p}))
  {
    hide Valid, Held, ObjectGraph, Reaches, Roots, Outside, Inside, NoGarbage, Deletes;
    var q := OtherPtr(h, p, t, reach);
    var c := Cut(h, {p});
    CutFacts(h, {p});
    HeldKeeps(c);
    ReachOrHeld(h, p, t, reach);
    OutsideIff(h, q, reach);
    RootIff(c, q);
    if q !in Roots(c) {
      var o :| Stored(c, q, o);
      assert Stored(h, q, o) && o in Held(c);
    }
  }

  lemma OtherPtr(h: Heap, p: Slot, t: Obj, reach: set<Obj>) returns (q: Slot)
    requires Valid(h) && p in h.target && h.target[p] == t && h.refs[t] > 1 && Deletes(h, t, reach) && p in Inside(h, reach)
    ensures q in Outside(h, reach) && q in h.target && q != p && h.target[q] == t
  {
    q :| q in PointingAt(h, Outside(h, reach), t);
  }

  /** And what it leaves need not be: an object with a Ptr to itself, otherwise held only through the Ptr that is reset. */
  lemma InsideLeaks()
    ensures ExactCounters(LEAK) && NoGarbage(LEAK) && IsReach(LEAK, 0, {0, 1}) && 0 in Inside(LEAK, {0, 1})
    ensures !Deletes(LEAK, 0, {0, 1}) && 0 !in Held(Cut(LEAK, {0}))
  {
    LeakExact();
    hide Valid, ExactCounters, NoGarbage, IsReach, Inside, Outside, Held, Cut;
    LeakHeld(LEAK);
    LeakReach(LEAK);
  }

  const LEAK := Heap(map[0 := [1, 3], 1 := [0]], map[0 := 0, 1 := 1, 2 := 1, 3 := 0], map[0 := 2, 1 := 2])

  lemma LeakExact()
    ensures ExactCounters(LEAK)
  {
    assert PointingAt(LEAK, LEAK.target.Keys, 0) == {0, 3} && PointingAt(LEAK, LEAK.target.Keys, 1) == {1, 2};
  }

  lemma LeakHeld(h: Heap)
    requires Valid(h) && h.fields == map[0 := [1, 3], 1 := [0]] && h.target == map[0 := 0, 1 := 1, 2 := 1, 3 := 0]
    ensures NoGarbage(h) && 0 !in Held(Cut(h, {0}))
  {
    hide Valid, Held, Roots;
    assert h.fields[0][0] == 1 && h.fields[0][1] == 3 && h.fields[1][0] == 0;
    var c := Cut(h, {0});
    HeldKeeps(h);
    RootIff(h, 2);
    assert forall o :: !Stored(h, 2, o);
    assert Stored(h, 0, 1);
    forall r | r in Roots(c)
      ensures c.target[r] in {1}
    {
      RootIff(c, r);
      assert Stored(c, 3, 0) && Stored(c, 1, 0);
    }
    HeldWithin(c, {1});
  }

  lemma LeakReach(h: Heap)
    requires Valid(h) && h.fields == map[0 := [1, 3], 1 := [0]] && h.target == map[0 := 0, 1 := 1, 2 := 1, 3 := 0]
    ensures IsReach(h, 0, {0, 1}) && 0 in Inside(h, {0, 1}) && PointingAt(h, Outside(h, {0, 1}), 0) == {}
  {
    assert h.fields[0][0] == 1 && h.fields[0][1] == 3 && h.fields[1][0] == 0;
    assert Stored(h, 1, 0) && Stored(h, 3, 0) && Stored(h, 0, 1);
    var g := ObjectGraph(h);
    EdgeOf(h, 0, 1);
    ReachesSelf(g, 0);
    ReachesOn(g, 0, 0, 1);
    assert 0 in Inside(h, {0, 1}) && 3 in Inside(h, {0, 1});
  }

  // What a cascade leaves

  /** Stored in none but these objects. */
  ghost predicate StoredWithin(h: Heap, p: Slot, objs: set<Obj>) {
    forall o :: Stored(h, p, o) ==> o in objs
  }

  /** A part of a heap, without these Ptrs: with an object all its Ptrs are gone. */
  ghost predicate PartOf(h: Heap, slots: set<Slot>, r: Heap) {
    && (forall o :: o in r.fields ==> o in h.fields && r.fields[o] == h.fields[o])
    && (forall p :: p in r.target ==> p in h.target && p !in slots && r.target[p] == h.target[p])
    && forall p :: p in r.target ==> StoredWithin(h, p, r.fields.Keys)
  }

  /** It still has these objects, the Ptrs stored in them and the roots. */
  ghost predicate Spares(h: Heap, slots: set<Slot>, objs: set<Obj>, r: Heap) {
    && objs <= r.fields.Keys
    && forall p :: p in h.target && p !in slots && StoredWithin(h, p, objs) ==> p in r.target
  }

  /** What is left when these Ptrs were reset: counters are exact, and nothing that is held without them is gone. */
  ghost predicate Swept(h: Heap, slots: set<Slot>, r: Heap) {
    && PartOf(h, slots, r) && ExactCounters(r)
    && Spares(h, slots, Held(Cut(h, slots)), r)
    && (NoGarbage(h) ==> NoGarbage(r))
  }

  lemma SameKeeps(h: Heap, r: Heap, objs: set<Obj>)
    requires r.fields == h.fields && r.target == h.target && Keeps(h, objs)
    ensures Keeps(r, objs)
  {
    hide Roots;
    forall s | s in Roots(r)
      ensures r.target[s] in objs
    {
      RootIff(r, s);
      RootIff(h, s);
      assert forall o :: Stored(h, s, o) <==> Stored(r, s, o);
    }
    forall o, p | o in objs && Stored(r, p, o) && p in r.target
      ensures r.target[p] in objs
    {
      assert Stored(h, p, o);
    }
  }

  /** The counters play no part in what is held. */
  lemma SameHeld(h: Heap, r: Heap)
    requires Valid(h) && Valid(r) && r.fields == h.fields && r.target == h.target
    ensures Held(r) == Held(h)
  {
    hide Valid, Held, Keeps;
    HeldKeeps(h);
    HeldKeeps(r);
    SameKeeps(h, r, Held(h));
    SameKeeps(r, h, Held(r));
    HeldWithin(r, Held(h));
    HeldWithin(h, Held(r));
  }

  lemma SweptNothing(h: Heap, slots: set<Slot>)
    requires ExactCounters(h) && slots !! h.target.Keys
    ensures Swept(h, slots, h)
  {
    hide ExactCounters, Held;
    assert h.target - slots == h.target;
    HeldInFields(Cut(h, slots));
  }

  lemma HeldInFields(h: Heap)
    ensures Held(h) <= h.fields.Keys
  {
  }

  /** The Ptr was only one of several that hold the target. */
  lemma SweptOne(h: Heap, p: Slot, r: Heap)
    requires ExactCounters(h) && p in h.target && h.refs[h.target[p]] > 0 && r == Without(h, p, h.refs[h.target[p]] - 1)
    requires NoGarbage(h) ==> h.target[p] in Held(Cut(h, {p}))
    ensures Swept(h, {p}, r)
  {
    hide Valid, Held, Roots;
    DropKeepsExact(h, p);
    var c := Cut(h, {p});
    CutFacts(h, {p});
    HeldInFields(c);
    SameHeld(c, r);
    if NoGarbage(h) {
      HeldKeeps(c);
      forall s | s in Roots(h)
        ensures h.target[s] in Held(c)
      {
        assert s != p ==> s in Roots(c);
      }
      forall o, q | o in Held(c) && Stored(h, q, o) && q in h.target
        ensures h.target[q] in Held(c)
      {
        assert Stored(c, q, o);
      }
      HeldWithin(h, Held(c));
    }
  }

  /** An object is gone, and so is what its Ptrs led to. */
  ghost function Deleted(h: Heap, t: Obj): (r: Heap) {
    Heap(h.fields - {t}, map p | p in h.target && h.target[p] != t :: h.target[p], h.refs - {t})
  }

  lemma DeletedExact(h: Heap, t: Obj)
    requires ExactCounters(h)
    ensures ExactCounters(Deleted(h, t))
  {
    var r := Deleted(h, t);
    forall o | o in r.refs
      ensures PointingAt(r, r.target.Keys, o) == PointingAt(h, h.target.Keys, o)
    {
    }
  }

  /** The Ptrs of the deleted object become roots, so that nothing else turns into garbage. */
  lemma DeletedNoGarbage(h: Heap, t: Obj)
    requires Valid(h) && Valid(Deleted(h, t)) && NoGarbage(h) && t in h.fields
    ensures NoGarbage(Deleted(h, t))
  {
    hide Valid, Held, Roots;
    var r := Deleted(h, t);
    var all := Held(r) + {t};
    HeldKeeps(r);
    forall s | s in Roots(h)
      ensures h.target[s] in all
    {
      RootIff(h, s);
      RootIff(r, s);
      assert forall o :: Stored(r, s, o) ==> Stored(h, s, o);
    }
    forall o, q | o in all && Stored(h, q, o) && q in h.target
      ensures h.target[q] in all
    {
      if h.target[q] != t {
        if o == t {
          RootIff(r, q);
          forall x | Stored(r, q, x)
            ensures false
          {
            StoredOnce(h, q, t, x);
          }
        } else {
          assert Stored(r, q, o);
        }
      }
    }
    HeldWithin(h, all);
  }

  lemma SweptDeleted(h: Heap, p: Slot, t: Obj, loose: set<Slot>, r: Heap)
    requires ExactCounters(h) && p in h.target && h.target[p] == t && t in h.fields
    requires t !in Held(Cut(h, {p})) && (forall q :: q in loose <==> Stored(h, q, t))
    requires Swept(Deleted(h, t), loose, r)
    ensures Swept(h, {p}, r)
  {
    hide Valid, Held, Roots, NoGarbage, PartOf, Spares;
    DeletedExact(h, t);
    if NoGarbage(h) {
      DeletedNoGarbage(h, t);
    }
    HeldWithoutDeleted(h, p, t, loose);
    PartOfDeleted(h, p, t, loose, r);
    SparesWithoutDeleted(h, p, t, loose, Held(Cut(Deleted(h, t), loose)), r);
  }

  lemma PartOfDeleted(h: Heap, p: Slot, t: Obj, loose: set<Slot>, r: Heap)
    requires p in h.target && h.target[p] == t && (forall q :: q in loose <==> Stored(h, q, t))
    requires PartOf(Deleted(h, t), loose, r)
    ensures PartOf(h, {p}, r)
  {
    var d := Deleted(h, t);
    forall q | q in r.target
      ensures StoredWithin(h, q, r.fields.Keys)
    {
      assert StoredWithin(d, q, r.fields.Keys);
      assert forall o :: Stored(h, q, o) ==> Stored(d, q, o);
    }
  }

  lemma SparesWithoutDeleted(h: Heap, p: Slot, t: Obj, loose: set<Slot>, objs: set<Obj>, r: Heap)
    requires Valid(h) && p in h.target && h.target[p] == t && (forall q :: q in loose <==> Stored(h, q, t))
    requires t !in Held(Cut(h, {p})) && Held(Cut(h, {p})) <= objs && Spares(Deleted(h, t), loose, objs, r)
    ensures Spares(h, {p}, Held(Cut(h, {p})), r)
  {
    hide Valid, Held;
    var d := Deleted(h, t);
    forall q | q in h.target && q != p && StoredWithin(h, q, Held(Cut(h, {p})))
      ensures q in r.target
    {
      KeptTarget(h, p, q);
      assert forall o :: Stored(d, q, o) ==> Stored(h, q, o);
      assert StoredWithin(d, q, objs);
    }
  }

  /** A Ptr stored in held objects or in none points at a held object. */
  lemma KeptTarget(h: Heap, p: Slot, q: Slot)
    requires Valid(h) && q in h.target && q != p && StoredWithin(h, q, Held(Cut(h, {p})))
    ensures h.target[q] in Held(Cut(h, {p}))
  {
    hide Valid, Held, Roots;
    var c := Cut(h, {p});
    CutFacts(h, {p});
    HeldKeeps(c);
    RootIff(c, q);
    if q !in Roots(c) {
      var o :| Stored(c, q, o);
      assert Stored(h, q, o);
    }
  }

  lemma HeldWithoutDeleted(h: Heap, p: Slot, t: Obj, loose: set<Slot>)
    requires Valid(h) && Valid(Deleted(h, t)) && p in h.target && h.target[p] == t
    requires t !in Held(Cut(h, {p})) && (forall q :: q in loose <==> Stored(h, q, t))
    ensures Held(Cut(h, {p})) <= Held(Cut(Deleted(h, t), loose))
  {
    hide Valid, Held, Roots;
    var c, d := Cut(h, {p}), Deleted(h, t);
    var e := Cut(d, loose);
    var both := Held(c) * Held(e);
    CutFacts(h, {p});
    CutFacts(d, loose);
    HeldKeeps(c);
    HeldKeeps(e);
    forall s | s in Roots(c)
      ensures c.target[s] in both
    {
      RootIff(c, s);
      RootIff(e, s);
      assert forall o :: Stored(e, s, o) ==> Stored(c, s, o);
      assert !Stored(c, s, t);
    }
    forall o, q | o in both && Stored(c, q, o) && q in c.target
      ensures c.target[q] in both
    {
      assert c.target[q] in Held(c);
      if q in loose {
        StoredOnce(h, q, o, t);
      }
      assert Stored(e, q, o) && q in e.target;
    }
    HeldWithin(c, both);
  }

  /** One reset after the other. */
  lemma SweptOn(h: Heap, a: set<Slot>, r: Heap, b: set<Slot>, r': Heap)
    requires Valid(h) && Swept(h, a, r) && Swept(r, b, r')
    ensures Swept(h, a + b, r')
  {
    hide Valid, Held, Roots, NoGarbage;
    HeldOn(h, a, r, b);
    forall p | p in r'.target
      ensures StoredWithin(h, p, r'.fields.Keys)
    {
      forall o | Stored(h, p, o)
        ensures o in r'.fields
      {
        assert StoredWithin(h, p, r.fields.Keys) && StoredWithin(r, p, r'.fields.Keys);
        assert Stored(r, p, o);
      }
    }
    var held := Held(Cut(h, a + b));
    forall p | p in h.target && p !in a + b && StoredWithin(h, p, held)
      ensures p in r'.target
    {
      assert StoredWithin(h, p, Held(Cut(h, a)));
      assert forall o :: Stored(r, p, o) ==> Stored(h, p, o);
    }
  }

  lemma HeldFewer(h: Heap, a: set<Slot>, b: set<Slot>)
    requires Valid(h)
    ensures Held(Cut(h, a + b)) <= Held(Cut(h, a))
  {
    hide Valid, Held, Roots;
    var first, all := Cut(h, a), Cut(h, a + b);
    CutFacts(h, a);
    CutFacts(h, a + b);
    HeldKeeps(first);
    forall s | s in Roots(all)
      ensures all.target[s] in Held(first)
    {
      assert s in Roots(first);
    }
    forall o, p | o in Held(first) && Stored(all, p, o) && p in all.target
      ensures all.target[p] in Held(first)
    {
      assert Stored(first, p, o);
    }
    HeldWithin(all, Held(first));
  }

  lemma HeldOn(h: Heap, a: set<Slot>, r: Heap, b: set<Slot>)
    requires Valid(h) && Swept(h, a, r)
    ensures Held(Cut(h, a + b)) <= Held(Cut(h, a)) && Held(Cut(h, a + b)) <= Held(Cut(r, b))
  {
    hide Valid, Held, Roots, NoGarbage;
    var first, all, next := Cut(h, a), Cut(h, a + b), Cut(r, b);
    CutFacts(h, a);
    CutFacts(h, a + b);
    CutFacts(r, b);
    HeldKeeps(all);
    HeldKeeps(next);
    HeldFewer(h, a, b);
    var both := Held(all) * Held(next);
    forall s | s in Roots(all)
      ensures all.target[s] in both
    {
      RootIff(all, s);
      RootIff(next, s);
      assert forall o :: Stored(next, s, o) ==> Stored(h, s, o);
      assert StoredWithin(h, s, Held(first));
    }
    forall o, p | o in both && Stored(all, p, o) && p in all.target
      ensures all.target[p] in both
    {
      assert StoredWithin(h, p, Held(first)) by {
        forall x | Stored(h, p, x)
          ensures x == o
        {
          StoredOnce(h, p, x, o);
        }
      }
      assert Stored(next, p, o) && p in next.target;
    }
    HeldWithin(all, both);
  }

  /** From a heap without garbage exactly the objects that are still held are left, with all their Ptrs. */
  lemma SweptIsExact(h: Heap, slots: set<Slot>, r: Heap)
    requires Valid(h) && Swept(h, slots, r) && NoGarbage(h)
    ensures r.fields.Keys == Held(Cut(h, slots)) && NoGarbage(r)
    ensures forall p :: p in r.target <==> p in h.target && p !in slots && StoredWithin(h, p, Held(Cut(h, slots)))
  {
    hide Valid, Held, Roots;
    var c := Cut(h, slots);
    CutFacts(h, slots);
    HeldKeeps(c);
    forall s | s in Roots(r)
      ensures r.target[s] in Held(c)
    {
      RootIff(r, s);
      RootIff(c, s);
      assert StoredWithin(h, s, r.fields.Keys);
      assert forall o :: Stored(c, s, o) ==> Stored(r, s, o);
    }
    forall o, p | o in Held(c) && Stored(r, p, o) && p in r.target
      ensures r.target[p] in Held(c)
    {
      assert Stored(c, p, o);
    }
    HeldWithin(r, Held(c));
  }

  class PtrHeap {
    var heap: Heap

    constructor (heap: Heap)
      ensures this.heap == heap
    {
      this.heap := heap;
    }

    /** The copy constructor, and Cast: one more reference. */
    method Copy(from: Slot, to: Slot)
      requires ExactCounters(heap) && to !in heap.target
      modifies this
      ensures ExactCounters(heap)
      ensures if from in old(heap).target
              then var o := old(heap).target[from];
                   o in old(heap).refs && heap == old(heap).(target := old(heap).target[to := o],
                                                             refs := old(heap).refs[o := old(heap).refs[o] + 1])
              else heap == old(heap)
    {
      if from in heap.target {
        var o := heap.target[from];
        AddKeepsExact(heap, to, o);
        heap := heap.(target := heap.target[to := o], refs := heap.refs[o := heap.refs[o] + 1]);
      }
    }

    /** MoveCast: a copy, one reference less, and the old Ptr is null. */
    method MoveCast(from: Slot, to: Slot)
      requires ExactCounters(heap) && to !in heap.target
      modifies this
      ensures ExactCounters(heap) && heap.refs == old(heap).refs
      ensures if from in old(heap).target
              then heap.target == old(heap).target[to := old(heap).target[from]] - {from}
              else heap == old(heap)
    {
      ghost var was := heap;
      Copy(from, to);
      if from in heap.target {
        var o := heap.target[from];
        DropKeepsExact(heap, from);
        heap := heap.(target := heap.target - {from}, refs := heap.refs[o := heap.refs[o] - 1]);
        MoveKeepsCounts(was, heap, from, to);
      }
    }


    /** Reset, as the destructor runs it: the Ptr is gone afterwards, and so is all that it alone held. */
    method Reset(p: Slot) returns (gone: seq<Obj>)
      requires ExactCounters(heap)
      modifies this
      ensures ExactCounters(heap) && EachOnce(old(heap), heap, gone)
      ensures p !in old(heap).target ==> heap == old(heap)
      ensures AfterReset(old(heap), p, heap)
      ensures var was := old(heap);
              p in was.target && p in Outside(was, Reach(was, was.target[p])) && NoGarbage(was) ==>
                heap.fields.Keys == Held(Cut(was, {p})) && NoGarbage(heap)
    {
      hide Valid, Held, Reach, Outside, NoGarbage, Swept;
      ghost var was := heap;
      heap, gone := ResetPtr(heap, p);
      if p in was.target && p in Outside(was, Reach(was, was.target[p])) && NoGarbage(was) {
        SweptIsExact(was, {p}, heap);
      }
    }
  }

  /** The objects deleted, each of them once. */
  ghost predicate EachOnce(h: Heap, r: Heap, gone: seq<Obj>) {
    && r.fields.Keys <= h.fields.Keys
    && (forall i, j :: 0 <= i < j < |gone| ==> gone[i] != gone[j])
    && forall o :: o in gone <==> o in h.fields && o !in r.fields
  }

  /** When the Ptr is not stored in the reach of its target. */
  ghost predicate AfterReset(h: Heap, p: Slot, r: Heap) {
    p in h.target && p in Outside(h, Reach(h, h.target[p])) ==> Swept(h, {p}, r)
  }

  method ResetPtr(h: Heap, p: Slot) returns (r: Heap, gone: seq<Obj>)
    requires ExactCounters(h)
    ensures ExactCounters(r) && EachOnce(h, r, gone)
    ensures p !in h.target ==> r == h
    ensures AfterReset(h, p, r)
    decreases |h.fields.Keys|, 0
  {
    hide Held, NoGarbage, Reach, Outside, IsReach, Deletes, Swept;
    r, gone := h, [];
    if p in h.target {
      var t := h.target[p];
      TargetKnown(h, p);
      ReachIsReach(h, t);
      DropKeepsExact(h, p);
      var deleted := Decide(h, p);
      if deleted {
        r := Heap(h.fields - {t}, map q | q in h.target && h.target[q] != t :: h.target[q], h.refs - {t});
        DeletedExact(h, t);
        ghost var d := r;
        var rest;
        r, rest := ResetAll(r, h.fields[t]);
        gone := [t] + rest;
        OnceMore(h, d, r, [t], rest);
        LooseAreNotStored(h, t);
        if p in Outside(h, Reach(h, t)) {
          SweptByDelete(h, p, t, r);
        }
      } else {
        r := h.(target := h.target - {p}, refs := h.refs[t := h.refs[t] - 1]);
        if p in Outside(h, Reach(h, t)) {
          SweptByDecrement(h, p, t, r);
        }
      }
    }
  }

  /** The destructors of the Ptrs of a deleted object, the last one first. */
  method ResetAll(h: Heap, qs: seq<Slot>) returns (r: Heap, gone: seq<Obj>)
    requires ExactCounters(h)
    ensures ExactCounters(r) && EachOnce(h, r, gone)
    ensures NotStored(h, qs) ==> Swept(h, Elements(qs), r)
    decreases |h.fields.Keys|, 1
  {
    hide ExactCounters, Swept, AfterReset, Elements;
    r, gone := h, [];
    var i := |qs|;
    SweptNoneYet(h, qs);
    while i > 0
      invariant 0 <= i <= |qs| && ExactCounters(r) && EachOnce(h, r, gone)
      invariant NotStored(h, qs) ==> Swept(h, Elements(qs[i..]), r)
    {
      i := i - 1;
      ghost var cur, before := r, gone;
      CardinalitySubset(r.fields.Keys, h.fields.Keys);
      var more;
      r, more := ResetPtr(r, qs[i]);
      gone := gone + more;
      OnceMore(h, cur, r, before, more);
      if NotStored(h, qs) {
        SweepStep(h, qs, i, cur, r);
      }
    }
    assert qs[0..] == qs;
  }

  ghost function Elements(qs: seq<Slot>): (r: set<Slot>) {
    set q | q in qs
  }

  ghost predicate NotStored(h: Heap, qs: seq<Slot>) {
    forall q, o :: q in qs ==> !Stored(h, q, o)
  }

  lemma SweptNoneYet(h: Heap, qs: seq<Slot>)
    requires ExactCounters(h)
    ensures Swept(h, Elements(qs[|qs|..]), h)
  {
    hide ExactCounters, Swept;
    SweptNothing(h, Elements(qs[|qs|..]));
  }

  lemma CardinalitySubset(a: set<Obj>, b: set<Obj>)
    requires a <= b
    ensures |a| <= |b|
  {
    assert b == a + (b - a);
  }

  lemma OnceMore(h: Heap, r: Heap, r': Heap, gone: seq<Obj>, more: seq<Obj>)
    requires EachOnce(h, r, gone) && EachOnce(r, r', more)
    ensures EachOnce(h, r', gone + more)
  {
    var all := gone + more;
    forall i, j | 0 <= i < j < |all|
      ensures all[i] != all[j]
    {
      assert i < |gone| ==> gone[i] in gone;
      assert j >= |gone| ==> more[j - |gone|] in more;
    }
  }

  lemma SweepStep(h: Heap, qs: seq<Slot>, i: nat, cur: Heap, r: Heap)
    requires i < |qs| && NotStored(h, qs) && ExactCounters(h) && Swept(h, Elements(qs[i + 1..]), cur)
    requires AfterReset(cur, qs[i], r) && (qs[i] !in cur.target ==> r == cur)
    ensures Swept(h, Elements(qs[i..]), r)
  {
    hide Valid, Held, NoGarbage, Outside, Reach, Roots, Spares;
    var q := qs[i];
    assert q in qs;
    if q in cur.target {
      forall o
        ensures !Stored(cur, q, o)
      {
        assert Stored(cur, q, o) ==> Stored(h, q, o);
      }
      OutsideIff(cur, q, Reach(cur, cur.target[q]));
    } else {
      SweptNothing(cur, {q});
    }
    SweptOn(h, Elements(qs[i + 1..]), cur, {q}, r);
    assert Elements(qs[i..]) == Elements(qs[i + 1..]) + {q};
  }

  lemma SweptByDelete(h: Heap, p: Slot, t: Obj, r: Heap)
    requires ExactCounters(h) && p in h.target && h.target[p] == t && t in h.fields
    requires p in Outside(h, Reach(h, t)) && Deletes(h, t, Reach(h, t))
    requires Swept(Deleted(h, t), Elements(h.fields[t]), r)
    ensures Swept(h, {p}, r)
  {
    hide Held, NoGarbage, Reach, Outside, IsReach, Deletes, Swept;
    var reach := Reach(h, t);
    ReachIsReach(h, t);
    ResetOutsideIsExact(h, p, t, reach);
    DeletedIsNotHeld(h, p, t, reach);
    SweptDeleted(h, p, t, Elements(h.fields[t]), r);
  }

  lemma SweptByDecrement(h: Heap, p: Slot, t: Obj, r: Heap)
    requires ExactCounters(h) && p in h.target && h.target[p] == t && t in h.fields && h.refs[t] > 0
    requires p in Outside(h, Reach(h, t)) && !Deletes(h, t, Reach(h, t)) && r == Without(h, p, h.refs[t] - 1)
    ensures Swept(h, {p}, r)
  {
    hide Held, NoGarbage, Reach, Outside, IsReach, Deletes, Swept;
    ReachIsReach(h, t);
    if NoGarbage(h) {
      DeletesIffNotHeld(h, p, t, Reach(h, t));
    }
    SweptOne(h, p, r);
  }

  /** The Ptrs of a deleted object are stored in no other one. */
  lemma LooseAreNotStored(h: Heap, t: Obj)
    requires Valid(h) && t in h.fields
    ensures NotStored(Deleted(h, t), h.fields[t])
  {
    hide Valid;
    forall q, o | q in h.fields[t]
      ensures !Stored(Deleted(h, t), q, o)
    {
      if Stored(Deleted(h, t), q, o) {
        StoredOnce(h, q, t, o);
      }
    }
  }
}
