/**
  The registry of classes: which are registered, and which are derived from which.  On load it picks
  the class of an object from the classes its data was stored under.
 */
module Registry {

  type ClassId = nat

  /** derived lists the classes registered with a base; rank falls from a base to what is derived from it. */
  datatype Classes = Classes(factories: set<ClassId>, derived: map<ClassId, seq<ClassId>>, rank: map<ClassId, nat>)

  /** No class is derived from itself. */
  ghost predicate Acyclic(r: Classes) {
    forall b, c :: b in r.derived && c in r.derived[b] ==> b in r.rank && c in r.rank && r.rank[c] < r.rank[b]
  }

  function Rank(r: Classes, c: ClassId): (n: nat) {
    if c in r.rank then r.rank[c] else 0
  }

  /** GenerationDistanceInternal. */
  function DistanceBelow(r: Classes, base: ClassId, d: ClassId): (n: int)
    requires Acyclic(r)
    ensures n >= -1
    decreases Rank(r, base), 1, 0
  {
    if base !in r.derived then -1 else DistanceAmong(r, base, 0, d)
  }

  /** The loop over the classes derived from base, from the i-th on. */
  function DistanceAmong(r: Classes, base: ClassId, i: nat, d: ClassId): (n: int)
    requires Acyclic(r) && base in r.derived && i <= |r.derived[base]|
    ensures n >= -1
    decreases Rank(r, base), 0, |r.derived[base]| - i
  {
    if i == |r.derived[base]| then -1
    else
      var c := r.derived[base][i];
      if c == d then 1
      else
        var n := DistanceBelow(r, c, d);
        if n >= 0 then n + 1 else DistanceAmong(r, base, i + 1, d)
  }

  function GenerationDistance(r: Classes, base: ClassId, d: ClassId): (n: int)
    requires Acyclic(r)
  {
    if base !in r.factories || d !in r.factories then -1
    else if base == d then 0
    else DistanceBelow(r, base, d)
  }

  /** d is derived from base in n generations. */
  ghost predicate Derives(r: Classes, base: ClassId, d: ClassId, n: nat)
    decreases n
  {
    if n == 0 then base == d
    else base in r.derived && exists c :: c in r.derived[base] && Derives(r, c, d, n - 1)
  }

  /** A distance that is found is the length of a line of descent. */
  lemma {:induction false} DistanceIsDescent(r: Classes, base: ClassId, d: ClassId)
    requires Acyclic(r)
    ensures var n := DistanceBelow(r, base, d);
            n != 0 && (n > 0 ==> Derives(r, base, d, n))
    decreases Rank(r, base), 1, 0
  {
    if base !in r.derived {
    } else {
      AmongIsDescent(r, base, 0, d);
    }
  }

  lemma {:induction false} AmongIsDescent(r: Classes, base: ClassId, i: nat, d: ClassId)
    requires Acyclic(r) && base in r.derived && i <= |r.derived[base]|
    ensures var n := DistanceAmong(r, base, i, d);
            n != 0 && (n > 0 ==> Derives(r, base, d, n))
    decreases Rank(r, base), 0, |r.derived[base]| - i
  {
    if i == |r.derived[base]| {
    } else {
      var c := r.derived[base][i];
      if c == d {
        assert c in r.derived[base] && Derives(r, c, d, 0);
        assert Derives(r, base, d, 1);
      } else {
        DistanceIsDescent(r, c, d);
        AmongIsDescent(r, base, i + 1, d);
        var n := DistanceBelow(r, c, d);
        if n > 0 {
          assert c in r.derived[base] && Derives(r, c, d, n);
          assert Derives(r, base, d, n + 1);
        }
      }
    }
  }

  /** And a distance is found whenever there is a line of descent. */
  lemma {:induction false} DescentHasDistance(r: Classes, base: ClassId, d: ClassId, n: nat)
    requires Acyclic(r) && Derives(r, base, d, n) && n > 0
    ensures DistanceBelow(r, base, d) > 0
    decreases n
  {
    var c :| c in r.derived[base] && Derives(r, c, d, n - 1);
    var j :| 0 <= j < |r.derived[base]| && r.derived[base][j] == c;
    if n > 1 {
      DescentHasDistance(r, c, d, n - 1);
    }
    AmongFinds(r, base, 0, j, d);
  }

  lemma {:induction false} AmongFinds(r: Classes, base: ClassId, i: nat, j: nat, d: ClassId)
    requires Acyclic(r) && base in r.derived && i <= j < |r.derived[base]|
    requires r.derived[base][j] == d || DistanceBelow(r, r.derived[base][j], d) > 0
    ensures DistanceAmong(r, base, i, d) > 0
    decreases j - i
  {
    if i == j {
    } else {
      DistanceIsDescent(r, r.derived[base][i], d);
      AmongFinds(r, base, i + 1, j, d);
    }
  }

  /** Generations and lines of descent say the same. */
  lemma DistanceIff(r: Classes, base: ClassId, d: ClassId)
    requires Acyclic(r) && base in r.factories && d in r.factories
    ensures GenerationDistance(r, base, d) >= 0 <==> exists n: nat :: Derives(r, base, d, n)
    ensures GenerationDistance(r, base, d) >= 0 ==> Derives(r, base, d, GenerationDistance(r, base, d))
  {
    DistanceIsDescent(r, base, d);
    assert base == d ==> Derives(r, base, d, 0);
    var g := GenerationDistance(r, base, d);
    if g >= 0 {
      assert Derives(r, base, d, g);
    }
    forall n: nat | Derives(r, base, d, n)
      ensures g >= 0
    {
      if n > 0 {
        DescentHasDistance(r, base, d, n);
      }
    }
  }

  /** The comparison GetMostRelatedFactory sorts with. */
  predicate Before(r: Classes, left: ClassId, right: ClassId)
    requires Acyclic(r)
  {
    GenerationDistance(r, right, left) <= 0 && GenerationDistance(r, left, right) >= 0
  }

  predicate IsLast(r: Classes, c: ClassId) {
    c !in r.derived
  }

  /** Of these classes, all registered, top is derived from every other one. */
  ghost predicate IsTop(r: Classes, classes: set<ClassId>, top: ClassId)
    requires Acyclic(r)
  {
    && top in classes && classes <= r.factories
    && forall c :: c in classes && c != top ==> GenerationDistance(r, c, top) > 0 && GenerationDistance(r, top, c) <= 0
  }

  /** The last of the sorted classes. */
  method MostDerived(r: Classes, classes: set<ClassId>, ghost top: ClassId) returns (c: ClassId)
    requires Acyclic(r) && IsTop(r, classes, top)
    ensures c == top
  {
    c :| c in classes;
    var rest := classes - {c};
    while rest != {}
      invariant rest <= classes && c in classes && c !in rest && (top !in rest ==> c == top)
      decreases rest
    {
      var x :| x in rest;
      if Before(r, c, x) {
        c := x;
      }
      rest := rest - {x};
    }
  }

  /** GetMostRelatedFactory, for an object whose most derived class has nothing derived from it. */
  method MostRelatedFactory(r: Classes, stored: set<ClassId>, ghost top: ClassId) returns (c: ClassId)
    requires Acyclic(r) && IsTop(r, stored * r.factories, top) && IsLast(r, top)
    ensures c == top
  {
    var back := MostDerived(r, stored * r.factories, top);
    var rest := r.factories;
    c := back;
    while rest != {}
      invariant rest <= r.factories && top in rest
      decreases rest
    {
      c :| c in rest;
      if IsLast(r, c) && GenerationDistance(r, back, c) >= 0 {
        return;
      }
      rest := rest - {c};
    }
  }
}
