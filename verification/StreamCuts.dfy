/**
  Streams that end too early.  A value is cut when only a part of its bytes can be read.  Most types notice
  it; a pair reads its second part even when the first was not read, and so does every entry of a map.
 */
module StreamCuts {
  import opened Bytes
  import opened Sequences
  import opened MStream
  import P = PackedInt

  /** Types without pairs and maps. */
  predicate Plain(t: Type) {
    match t
    case Scalar(_) => true
    case Blob(_) => true
    case Sequence(e) => Plain(e)
    case List(e) => Plain(e)
    case Array(e, _) => Plain(e)
    case Optional(e) => Plain(e)
    case _ => false
  }

  /** The first n bytes of a and b. */
  lemma CutOfTwo(a: seq<Byte>, b: seq<Byte>, n: nat)
    requires n <= |a| + |b|
    ensures n < |a| ==> (a + b)[..n] == a[..n]
    ensures n >= |a| ==> (a + b)[..n] == a + b[..n - |a|]
  {
  }

  lemma CutOfThree(a: seq<Byte>, b: seq<Byte>, c: seq<Byte>, n: nat)
    requires n <= |a| + |b| + |c|
    ensures n < |a| ==> (a + (b + c))[..n] == a[..n]
    ensures |a| <= n < |a| + |b| ==> (a + (b + c))[..n] == a + b[..n - |a|]
    ensures |a| + |b| <= n ==> (a + (b + c))[..n] == a + (b + c[..n - |a| - |b|])
  {
    CutOfTwo(a, b + c, n);
    if |a| <= n {
      CutOfTwo(b, c, n - |a|);
    }
  }

  // The reader behind a cut value

  ghost function SizeLeft(sz: SizeType, count: nat, n: nat): (r: seq<Byte>)
    requires count < SizeLimit(sz) && n < |EncodeSize(sz, count)|
  {
    var s := EncodeSize(sz, count)[..n];
    if sz.Fixed? then s else P.Decode(sz.k, sz.m, s).rest
  }

  /**
    Where reading stands after the first n bytes of a value, and whether it noticed.  The innermost scalar,
    string or size that is cut is left unread; what is read after that in the same value is read from there.
   */
  ghost function Rest(sz: SizeType, t: Type, v: Value, n: nat): (r: Reader)
    requires Fits(sz, t, v) && n < |Encode(sz, t, v)|
    decreases t, 0
  {
    match t
    case Scalar(_) => Reader(v.bytes[..n], false)
    case Blob(w) =>
      var size := |EncodeSize(sz, |v.bytes| / w)|;
      Reader(if n < size then SizeLeft(sz, |v.bytes| / w, n) else v.bytes[..n - size], false)
    case Sequence(e) => CountedRest(sz, e, v.values, n, true)
    case List(e) => CountedRest(sz, e, v.values, n, false)
    case Array(e, _) => AllRest(sz, e, v.values, n, true)
    case Pair(a, b) =>
      var first := |Encode(sz, a, v.first)|;
      if n < first then Decode(sz, b, Rest(sz, a, v.first, n)).1 else Rest(sz, b, v.second, n - first)
    case Map(a, b) =>
      var size := |EncodeSize(sz, |v.values|)|;
      if n < size then Reader(SizeLeft(sz, |v.values|, n), false) else EntriesRest(sz, a, b, v.values, n - size)
    case Optional(e) => if n == 0 then Reader([], false) else Rest(sz, e, v.value, n - 1)
  }

  ghost function CountedRest(sz: SizeType, e: Type, vs: seq<Value>, n: nat, resized: bool): (r: Reader)
    requires |vs| < SizeLimit(sz) && forall x :: x in vs ==> Fits(sz, e, x)
    requires n < |EncodeSize(sz, |vs|) + EncodeAll(sz, e, vs)|
    decreases e, 2, 0
  {
    var size := |EncodeSize(sz, |vs|)|;
    if n < size then Reader(SizeLeft(sz, |vs|, n), false) else AllRest(sz, e, vs, n - size, resized)
  }

  ghost function AllRest(sz: SizeType, e: Type, vs: seq<Value>, n: nat, resized: bool): (r: Reader)
    requires (forall x :: x in vs ==> Fits(sz, e, x)) && n < |EncodeAll(sz, e, vs)|
    decreases e, 1, |vs|
  {
    var x := |Encode(sz, e, vs[0])|;
    if n < x then OthersAfter(sz, e, |vs| - 1, Rest(sz, e, vs[0], n), resized)
    else AllRest(sz, e, vs[1..], n - x, resized)
  }

  /** The values behind one that did not notice are read from what it left. */
  ghost function OthersAfter(sz: SizeType, e: Type, k: nat, r: Reader, resized: bool): (o: Reader) {
    if r.ok then DecodeAll(sz, e, k, r, resized).1 else r
  }

  ghost predicate EntriesFit(sz: SizeType, a: Type, b: Type, vs: seq<Value>) {
    forall x :: x in vs ==> x.Both? && Fits(sz, a, x.first) && Fits(sz, b, x.second)
  }

  // The first of some entries, and the bytes of all

  ghost function KeySize(sz: SizeType, a: Type, b: Type, vs: seq<Value>): (n: nat)
    requires EntriesFit(sz, a, b, vs) && vs != []
  {
    |Encode(sz, a, vs[0].first)|
  }

  ghost function ValueSize(sz: SizeType, a: Type, b: Type, vs: seq<Value>): (n: nat)
    requires EntriesFit(sz, a, b, vs) && vs != []
  {
    |Encode(sz, b, vs[0].second)|
  }

  ghost function KeyRest(sz: SizeType, a: Type, b: Type, vs: seq<Value>, n: nat): (r: Reader)
    requires EntriesFit(sz, a, b, vs) && vs != [] && n < KeySize(sz, a, b, vs)
    decreases a, 3
  {
    Rest(sz, a, vs[0].first, n)
  }

  ghost function ValueRest(sz: SizeType, a: Type, b: Type, vs: seq<Value>, n: nat): (r: Reader)
    requires EntriesFit(sz, a, b, vs) && vs != [] && n < ValueSize(sz, a, b, vs)
    decreases b, 3
  {
    Rest(sz, b, vs[0].second, n)
  }

  ghost function Entries(sz: SizeType, a: Type, b: Type, vs: seq<Value>): (r: seq<Byte>)
    requires EntriesFit(sz, a, b, vs)
    ensures vs == [] ==> r == []
  {
    EncodeEntries(sz, a, b, vs)
  }

  ghost function EntriesRest(sz: SizeType, a: Type, b: Type, vs: seq<Value>, n: nat): (r: Reader)
    requires EntriesFit(sz, a, b, vs) && n < |Entries(sz, a, b, vs)|
    decreases Map(a, b), 0, |vs|
  {
    var key, val := KeySize(sz, a, b, vs), ValueSize(sz, a, b, vs);
    if n < key + val then EntriesAfter(sz, a, b, |vs| - 1, EntryRest(sz, a, b, vs, n))
    else EntriesRest(sz, a, b, vs[1..], n - key - val)
  }

  /** The first entry, read as a pair. */
  ghost function EntryRest(sz: SizeType, a: Type, b: Type, vs: seq<Value>, n: nat): (r: Reader)
    requires EntriesFit(sz, a, b, vs) && vs != [] && n < KeySize(sz, a, b, vs) + ValueSize(sz, a, b, vs)
    decreases Map(a, b), 0, 0
  {
    var key := KeySize(sz, a, b, vs);
    if n < key then Decode(sz, b, KeyRest(sz, a, b, vs, n)).1 else ValueRest(sz, a, b, vs, n - key)
  }

  ghost function EntriesAfter(sz: SizeType, a: Type, b: Type, k: nat, r: Reader): (o: Reader) {
    if r.ok then DecodeEntries(sz, a, b, k, r, []).1 else r
  }

  lemma SizeCut(sz: SizeType, count: nat, n: nat, ok: bool)
    requires count < SizeLimit(sz) && n < |EncodeSize(sz, count)|
    ensures DecodeSize(sz, Reader(EncodeSize(sz, count)[..n], ok)).1 == Reader(SizeLeft(sz, count, n), false)
  {
    if sz.Packed? {
      P.LimitsFit(sz.k, sz.m);
      P.StrictPrefixIsNotRead(sz.k, sz.m, count, n);
    }
  }

  /** Reading a value that is cut stops there, for every type. */
  lemma {:induction false} CutReads(sz: SizeType, t: Type, v: Value, n: nat, ok: bool)
    requires Fits(sz, t, v) && n < |Encode(sz, t, v)|
    ensures Decode(sz, t, Reader(Encode(sz, t, v)[..n], ok)).1 == Rest(sz, t, v, n)
    decreases t, 0
  {
    hide EncodeSize, DecodeSize, SizeLeft, EncodeAll, DecodeAll, AllRest, EncodeEntries, DecodeEntries, EntriesRest;
    match t
    case Scalar(_) =>
    case Blob(w) => BlobCut(sz, w, v, n, ok);
    case Sequence(e) => CountedCut(sz, e, v.values, n, ok, true);
    case List(e) => CountedCut(sz, e, v.values, n, ok, false);
    case Array(e, _) => AllCut(sz, e, v.values, n, ok, true);
    case Pair(a, b) => PairCut(sz, a, b, v.first, v.second, n, ok);
    case Map(a, b) => MapCut(sz, a, b, v, n, ok);
    case Optional(e) =>
      if v.Something? && n > 0 {
        var s := Encode(sz, Optional(e), v)[..n];
        CutOfTwo([1], Encode(sz, e, v.value), n);
        assert s[1..] == Encode(sz, e, v.value)[..n - 1] && s[..1] == [1];
        CutReads(sz, e, v.value, n - 1, true);
      }
  }

  lemma BlobCut(sz: SizeType, w: nat, v: Value, n: nat, ok: bool)
    requires Fits(sz, Blob(w), v) && n < |Encode(sz, Blob(w), v)|
    ensures Decode(sz, Blob(w), Reader(Encode(sz, Blob(w), v)[..n], ok)).1 == Rest(sz, Blob(w), v, n)
  {
    hide EncodeSize, DecodeSize, SizeLeft;
    var size := EncodeSize(sz, |v.bytes| / w);
    CutOfTwo(size, v.bytes, n);
    if n < |size| {
      SizeCut(sz, |v.bytes| / w, n, ok);
    } else {
      SizeRoundTrip(sz, |v.bytes| / w, v.bytes[..n - |size|], ok);
      assert BlobSize(|v.bytes| / w, w) == |v.bytes|;
    }
  }

  /** A size and then that many values. */
  lemma {:induction false} CountedCut(sz: SizeType, e: Type, vs: seq<Value>, n: nat, ok: bool, resized: bool)
    requires |vs| < SizeLimit(sz) && forall x :: x in vs ==> Fits(sz, e, x)
    requires n < |EncodeSize(sz, |vs|) + EncodeAll(sz, e, vs)|
    ensures var (count, r) := DecodeSize(sz, Reader((EncodeSize(sz, |vs|) + EncodeAll(sz, e, vs))[..n], ok));
            (if r.ok then DecodeAll(sz, e, count, r, resized).1 else r) == CountedRest(sz, e, vs, n, resized)
    decreases e, 2
  {
    hide EncodeSize, DecodeSize, EncodeAll, DecodeAll, SizeLeft, AllRest;
    var size, all := EncodeSize(sz, |vs|), EncodeAll(sz, e, vs);
    CutOfTwo(size, all, n);
    if n < |size| {
      SizeCut(sz, |vs|, n, ok);
    } else {
      SizeRoundTrip(sz, |vs|, all[..n - |size|], ok);
      AllCut(sz, e, vs, n - |size|, true, resized);
    }
  }

  lemma {:induction false} AllCut(sz: SizeType, e: Type, vs: seq<Value>, n: nat, ok: bool, resized: bool)
    requires (forall x :: x in vs ==> Fits(sz, e, x)) && n < |EncodeAll(sz, e, vs)|
    ensures DecodeAll(sz, e, |vs|, Reader(EncodeAll(sz, e, vs)[..n], ok), resized).1 == AllRest(sz, e, vs, n, resized)
    decreases e, 1, |vs|
  {
    hide Encode, Decode, DecodeAll, Fits, Rest;
    var x, others := Encode(sz, e, vs[0]), EncodeAll(sz, e, vs[1..]);
    CutOfTwo(x, others, n);
    NextOfAll(sz, e, |vs|, Reader(EncodeAll(sz, e, vs)[..n], ok), resized);
    if n < |x| {
      CutReads(sz, e, vs[0], n, ok);
    } else {
      RoundTrip(sz, e, vs[0], others[..n - |x|], ok);
      AllCut(sz, e, vs[1..], n - |x|, true, resized);
    }
  }

  // Pairs

  lemma PairParts(sz: SizeType, a: Type, b: Type, x: Value, y: Value, r: Reader)
    requires Fits(sz, a, x) && Fits(sz, b, y)
    ensures Encode(sz, Pair(a, b), Both(x, y)) == Encode(sz, a, x) + Encode(sz, b, y)
    ensures Decode(sz, Pair(a, b), r).1 == Decode(sz, b, Decode(sz, a, r).1).1
  {
  }

  lemma {:induction false} PairCut(sz: SizeType, a: Type, b: Type, x: Value, y: Value, n: nat, ok: bool)
    requires Fits(sz, a, x) && Fits(sz, b, y) && n < |Encode(sz, a, x)| + |Encode(sz, b, y)|
    ensures Decode(sz, Pair(a, b), Reader(Encode(sz, Pair(a, b), Both(x, y))[..n], ok)).1 ==
            if n < |Encode(sz, a, x)| then Decode(sz, b, Rest(sz, a, x, n)).1
            else Rest(sz, b, y, n - |Encode(sz, a, x)|)
    decreases Pair(a, b), 0, 0
  {
    hide Encode, Decode, Fits, Rest;
    var xs, ys := Encode(sz, a, x), Encode(sz, b, y);
    PairParts(sz, a, b, x, y, Reader((xs + ys)[..n], ok));
    CutOfTwo(xs, ys, n);
    if n < |xs| {
      CutReads(sz, a, x, n, ok);
    } else {
      RoundTrip(sz, a, x, ys[..n - |xs|], ok);
      CutReads(sz, b, y, n - |xs|, true);
    }
  }

  // Maps

  lemma NextOfEntries(sz: SizeType, a: Type, b: Type, k: nat, r: Reader, read: seq<Value>)
    requires k > 0
    ensures var (x, r1) := Decode(sz, a, r);
            var (y, r2) := Decode(sz, b, r1);
            DecodeEntries(sz, a, b, k, r, read) == if !r2.ok then (read, r2)
                                                   else DecodeEntries(sz, a, b, k - 1, r2, Emplaced(read, x, y))
  {
    hide Decode;
  }

  lemma NoneOfEntries(sz: SizeType, a: Type, b: Type, r: Reader, read: seq<Value>)
    ensures DecodeEntries(sz, a, b, 0, r, read) == (read, r)
  {
    hide Decode;
  }

  ghost function Emplaced(read: seq<Value>, x: Value, y: Value): (r: seq<Value>) {
    if HasKey(read, x) then read else read + [Both(x, y)]
  }

  /** What is left does not depend on the entries read before. */
  lemma {:induction false} SameLeft(sz: SizeType, a: Type, b: Type, k: nat, r: Reader, xs: seq<Value>, ys: seq<Value>)
    ensures DecodeEntries(sz, a, b, k, r, xs).1 == DecodeEntries(sz, a, b, k, r, ys).1
    decreases k
  {
    hide Decode, DecodeEntries, Emplaced;
    if k == 0 {
      NoneOfEntries(sz, a, b, r, xs);
      NoneOfEntries(sz, a, b, r, ys);
    } else {
      NextOfEntries(sz, a, b, k, r, xs);
      NextOfEntries(sz, a, b, k, r, ys);
      var (x, r1) := Decode(sz, a, r);
      var (y, r2) := Decode(sz, b, r1);
      if r2.ok {
        SameLeft(sz, a, b, k - 1, r2, Emplaced(xs, x, y), Emplaced(ys, x, y));
      }
    }
  }

  lemma EntryFits(sz: SizeType, a: Type, b: Type, vs: seq<Value>)
    requires EntriesFit(sz, a, b, vs) && vs != []
    ensures EntriesFit(sz, a, b, vs[1..])
    ensures vs[0].Both? && Fits(sz, a, vs[0].first) && Fits(sz, b, vs[0].second)
  {
    hide Fits;
    assert vs[0] in vs;
  }

  /** The bytes of the first entry and of the others. */
  lemma EntriesParts(sz: SizeType, a: Type, b: Type, vs: seq<Value>)
    requires EntriesFit(sz, a, b, vs) && vs != []
    ensures Entries(sz, a, b, vs)
            == Encode(sz, a, vs[0].first) + (Encode(sz, b, vs[0].second) + Entries(sz, a, b, vs[1..]))
    ensures EntriesFit(sz, a, b, vs[1..])
    ensures KeySize(sz, a, b, vs) + ValueSize(sz, a, b, vs) + |Entries(sz, a, b, vs[1..])| == |Entries(sz, a, b, vs)|
  {
    hide Encode, Fits;
    Regroup(Encode(sz, a, vs[0].first), Encode(sz, b, vs[0].second), Entries(sz, a, b, vs[1..]));
  }

  /** The cut is in the first key. */
  lemma {:induction false} KeyCut(sz: SizeType, a: Type, b: Type, vs: seq<Value>, n: nat, ok: bool, read: seq<Value>)
    requires EntriesFit(sz, a, b, vs) && vs != []
    requires n < KeySize(sz, a, b, vs) && n < |Entries(sz, a, b, vs)|
    ensures DecodeEntries(sz, a, b, |vs|, Reader(Entries(sz, a, b, vs)[..n], ok), read).1
            == EntriesAfter(sz, a, b, |vs| - 1, Decode(sz, b, KeyRest(sz, a, b, vs, n)).1)
    decreases Map(a, b), 0, 0
  {
    hide EntriesFit, Encode, Decode, Fits, Rest, EncodeEntries, DecodeEntries, Emplaced;
    EntryFits(sz, a, b, vs);
    var xs, ys, others := Encode(sz, a, vs[0].first), Encode(sz, b, vs[0].second), Entries(sz, a, b, vs[1..]);
    EntriesParts(sz, a, b, vs);
    CutOfThree(xs, ys, others, n);
    var r := Reader(xs[..n], ok);
    NextOfEntries(sz, a, b, |vs|, r, read);
    CutReads(sz, a, vs[0].first, n, ok);
    var (x', r1) := Decode(sz, a, r);
    var (y', r2) := Decode(sz, b, r1);
    SameLeft(sz, a, b, |vs| - 1, r2, Emplaced(read, x', y'), []);
  }

  /** The cut is in the first value. */
  lemma {:induction false} ValueCut(sz: SizeType, a: Type, b: Type, vs: seq<Value>, n: nat, ok: bool, read: seq<Value>)
    requires EntriesFit(sz, a, b, vs) && vs != [] && n < |Entries(sz, a, b, vs)|
    requires KeySize(sz, a, b, vs) <= n < KeySize(sz, a, b, vs) + ValueSize(sz, a, b, vs)
    ensures DecodeEntries(sz, a, b, |vs|, Reader(Entries(sz, a, b, vs)[..n], ok), read).1
            == EntriesAfter(sz, a, b, |vs| - 1, ValueRest(sz, a, b, vs, n - KeySize(sz, a, b, vs)))
    decreases Map(a, b), 0, 0
  {
    hide EntriesFit, Encode, Decode, Fits, Rest, EncodeEntries, DecodeEntries, Emplaced;
    EntryFits(sz, a, b, vs);
    var xs, ys, others := Encode(sz, a, vs[0].first), Encode(sz, b, vs[0].second), Entries(sz, a, b, vs[1..]);
    EntriesParts(sz, a, b, vs);
    var m := n - |xs|;
    CutOfThree(xs, ys, others, n);
    NextOfEntries(sz, a, b, |vs|, Reader(xs + ys[..m], ok), read);
    RoundTrip(sz, a, vs[0].first, ys[..m], ok);
    CutReads(sz, b, vs[0].second, m, true);
    var y' := Decode(sz, b, Reader(ys[..m], true)).0;
    SameLeft(sz, a, b, |vs| - 1, Rest(sz, b, vs[0].second, m), Emplaced(read, vs[0].first, y'), []);
  }

  /** The first entry is whole. */
  lemma LaterCut(sz: SizeType, a: Type, b: Type, vs: seq<Value>, n: nat, m: nat, ok: bool, read: seq<Value>)
    requires EntriesFit(sz, a, b, vs) && vs != [] && EntriesFit(sz, a, b, vs[1..])
    requires n < |Entries(sz, a, b, vs)| && m < |Entries(sz, a, b, vs[1..])|
    requires n == KeySize(sz, a, b, vs) + ValueSize(sz, a, b, vs) + m
    ensures DecodeEntries(sz, a, b, |vs|, Reader(Entries(sz, a, b, vs)[..n], ok), read)
            == DecodeEntries(sz, a, b, |vs| - 1, Reader(Entries(sz, a, b, vs[1..])[..m], true),
                             Emplaced(read, vs[0].first, vs[0].second))
  {
    hide EntriesFit, Encode, Decode, Fits, EncodeEntries, DecodeEntries, Emplaced;
    EntryFits(sz, a, b, vs);
    var xs, ys, others := Encode(sz, a, vs[0].first), Encode(sz, b, vs[0].second), Entries(sz, a, b, vs[1..]);
    EntriesParts(sz, a, b, vs);
    CutOfThree(xs, ys, others, n);
    NextOfEntries(sz, a, b, |vs|, Reader(xs + (ys + others[..m]), ok), read);
    RoundTrip(sz, a, vs[0].first, ys + others[..m], ok);
    RoundTrip(sz, b, vs[0].second, others[..m], true);
  }

  lemma EntriesRestStep(sz: SizeType, a: Type, b: Type, vs: seq<Value>, n: nat)
    requires EntriesFit(sz, a, b, vs) && n < |Entries(sz, a, b, vs)|
    ensures vs != [] && EntriesFit(sz, a, b, vs[1..])
    ensures var first := KeySize(sz, a, b, vs) + ValueSize(sz, a, b, vs);
            if n < first then EntriesRest(sz, a, b, vs, n) == EntriesAfter(sz, a, b, |vs| - 1, EntryRest(sz, a, b, vs, n))
            else n - first < |Entries(sz, a, b, vs[1..])|
                 && EntriesRest(sz, a, b, vs, n) == EntriesRest(sz, a, b, vs[1..], n - first)
  {
    hide Encode, Decode, Fits, Rest, EncodeEntries, EntriesAfter, EntryRest;
    EntriesParts(sz, a, b, vs);
  }

  lemma {:induction false} EntriesCut(sz: SizeType, a: Type, b: Type, vs: seq<Value>, n: nat, ok: bool, read: seq<Value>)
    requires EntriesFit(sz, a, b, vs) && n < |Entries(sz, a, b, vs)|
    ensures DecodeEntries(sz, a, b, |vs|, Reader(Entries(sz, a, b, vs)[..n], ok), read).1 == EntriesRest(sz, a, b, vs, n)
    decreases Map(a, b), 0, |vs|
  {
    hide EntriesFit, Encode, Decode, Fits, Rest, EncodeEntries, DecodeEntries, EntriesRest, Emplaced;
    hide EntriesAfter, KeyRest, ValueRest;
    EntriesRestStep(sz, a, b, vs, n);
    EntryFits(sz, a, b, vs);
    EntriesParts(sz, a, b, vs);
    var key, val := KeySize(sz, a, b, vs), ValueSize(sz, a, b, vs);
    if n < key {
      KeyCut(sz, a, b, vs, n, ok, read);
    } else if n < key + val {
      ValueCut(sz, a, b, vs, n, ok, read);
    } else {
      LaterCut(sz, a, b, vs, n, n - key - val, ok, read);
      EntriesCut(sz, a, b, vs[1..], n - key - val, true, Emplaced(read, vs[0].first, vs[0].second));
    }
  }

  lemma {:induction false} MapCut(sz: SizeType, a: Type, b: Type, v: Value, n: nat, ok: bool)
    requires Fits(sz, Map(a, b), v) && n < |Encode(sz, Map(a, b), v)|
    ensures Decode(sz, Map(a, b), Reader(Encode(sz, Map(a, b), v)[..n], ok)).1 == Rest(sz, Map(a, b), v, n)
    decreases Map(a, b), 0, |v.values| + 1
  {
    hide EncodeSize, DecodeSize, EntriesRest, DecodeEntries, EncodeEntries, SizeLeft;
    var size, entries := EncodeSize(sz, |v.values|), Entries(sz, a, b, v.values);
    CutOfTwo(size, entries, n);
    if n < |size| {
      SizeCut(sz, |v.values|, n, ok);
    } else {
      SizeRoundTrip(sz, |v.values|, entries[..n - |size|], ok);
      EntriesCut(sz, a, b, v.values, n - |size|, true, []);
    }
  }

  // Which cuts are noticed

  /** The first n bytes of a value are taken for a whole value. */
  ghost predicate Unnoticed(sz: SizeType, t: Type, v: Value, n: nat, ok: bool)
    requires Fits(sz, t, v) && n < |Encode(sz, t, v)|
  {
    Decode(sz, t, Reader(Encode(sz, t, v)[..n], ok)).1.ok
  }

  lemma UnnoticedIsRest(sz: SizeType, t: Type, v: Value, n: nat, ok: bool)
    requires Fits(sz, t, v) && n < |Encode(sz, t, v)|
    ensures Unnoticed(sz, t, v, n, ok) <==> Rest(sz, t, v, n).ok
  {
    hide Encode, Decode, Fits, Rest;
    CutReads(sz, t, v, n, ok);
  }

  /** A plain value that is cut is never taken for a whole one. */
  lemma {:induction false} CutNoticed(sz: SizeType, t: Type, v: Value, n: nat, ok: bool)
    requires Plain(t) && Fits(sz, t, v) && n < |Encode(sz, t, v)|
    ensures !Unnoticed(sz, t, v, n, ok)
  {
    UnnoticedIsRest(sz, t, v, n, ok);
    PlainNotices(sz, t, v, n);
  }

  lemma {:induction false} PlainNotices(sz: SizeType, t: Type, v: Value, n: nat)
    requires Plain(t) && Fits(sz, t, v) && n < |Encode(sz, t, v)|
    ensures !Rest(sz, t, v, n).ok
    decreases t, 0
  {
    hide EncodeSize, SizeLeft, AllRest, EncodeAll;
    match t
    case Scalar(_) =>
    case Blob(_) =>
    case Sequence(e) =>
      var size := |EncodeSize(sz, |v.values|)|;
      if n >= size {
        PlainElementsNotice(sz, e, v.values, n - size, true);
      }
    case List(e) =>
      var size := |EncodeSize(sz, |v.values|)|;
      if n >= size {
        PlainElementsNotice(sz, e, v.values, n - size, false);
      }
    case Array(e, _) => PlainElementsNotice(sz, e, v.values, n, true);
    case Optional(e) =>
      if n > 0 {
        PlainNotices(sz, e, v.value, n - 1);
      }
  }

  lemma {:induction false} PlainElementsNotice(sz: SizeType, e: Type, vs: seq<Value>, n: nat, resized: bool)
    requires Plain(e) && (forall x :: x in vs ==> Fits(sz, e, x)) && n < |EncodeAll(sz, e, vs)|
    ensures !AllRest(sz, e, vs, n, resized).ok
    decreases e, 1, |vs|
  {
    hide Encode, Fits, Rest, DecodeAll;
    var x := |Encode(sz, e, vs[0])|;
    if n < x {
      PlainNotices(sz, e, vs[0], n);
    } else {
      PlainElementsNotice(sz, e, vs[1..], n - x, resized);
    }
  }

  /**
    A pair that is cut is taken for a whole one if and only if the cut is in the first value and the second
    one can be read from what that leaves, or the cut is in the second value and that does not notice.
   */
  lemma PairCutUnnoticedIff(sz: SizeType, a: Type, b: Type, x: Value, y: Value, n: nat, ok: bool)
    requires Fits(sz, a, x) && Fits(sz, b, y) && n < |Encode(sz, a, x)| + |Encode(sz, b, y)|
    ensures Unnoticed(sz, Pair(a, b), Both(x, y), n, ok) <==>
            if n < |Encode(sz, a, x)| then Decode(sz, b, Rest(sz, a, x, n)).1.ok
            else !Plain(b) && Rest(sz, b, y, n - |Encode(sz, a, x)|).ok
  {
    hide Encode, Decode, Fits, Rest;
    PairCut(sz, a, b, x, y, n, ok);
    if n >= |Encode(sz, a, x)| && Plain(b) {
      PlainNotices(sz, b, y, n - |Encode(sz, a, x)|);
    }
  }

  /** In particular, a scalar behind any value: it is read when enough bytes are left. */
  lemma ScalarAfterCutIff(sz: SizeType, a: Type, w: nat, x: Value, y: Value, n: nat, ok: bool)
    requires Fits(sz, a, x) && Fits(sz, Scalar(w), y)
    requires n < |Encode(sz, Pair(a, Scalar(w)), Both(x, y))|
    ensures Unnoticed(sz, Pair(a, Scalar(w)), Both(x, y), n, ok) <==>
            n < |Encode(sz, a, x)| && w <= |Rest(sz, a, x, n).rest|
  {
    PairCutUnnoticedIff(sz, a, Scalar(w), x, y, n, ok);
  }

  /** Cut m bytes into the i-th value: the later ones are read from what is left of that one. */
  lemma {:induction false} RestAt(sz: SizeType, e: Type, vs: seq<Value>, i: nat, m: nat, resized: bool)
    requires (forall x :: x in vs ==> Fits(sz, e, x)) && i < |vs| && m < |Encode(sz, e, vs[i])|
    ensures |EncodeAll(sz, e, vs[..i])| + m < |EncodeAll(sz, e, vs)|
    ensures AllRest(sz, e, vs, |EncodeAll(sz, e, vs[..i])| + m, resized)
            == OthersAfter(sz, e, |vs| - i - 1, Rest(sz, e, vs[i], m), resized)
    decreases i
  {
    hide Encode, Fits, Rest, DecodeAll;
    if i == 0 {
      assert vs[..0] == [];
    } else {
      assert vs[..i][0] == vs[0] && vs[..i][1..] == vs[1..][..i - 1];
      RestAt(sz, e, vs[1..], i - 1, m, resized);
    }
  }

  /**
    A vector or list that is cut within its i-th value is taken for a whole one if and only if that value does
    not notice and all later ones can be read from what it leaves.
   */
  lemma SequenceCutUnnoticedIff(sz: SizeType, e: Type, v: Value, i: nat, m: nat, ok: bool)
    requires Fits(sz, Sequence(e), v) && i < |v.values| && m < |Encode(sz, e, v.values[i])|
    ensures var n := |EncodeSize(sz, |v.values|)| + |EncodeAll(sz, e, v.values[..i])| + m;
            var r := Rest(sz, e, v.values[i], m);
            && n < |Encode(sz, Sequence(e), v)| && n < |Encode(sz, List(e), v)|
            && (Unnoticed(sz, Sequence(e), v, n, ok) <==> r.ok && DecodeAll(sz, e, |v.values| - i - 1, r, true).1.ok)
            && (Unnoticed(sz, List(e), v, n, ok) <==> r.ok && DecodeAll(sz, e, |v.values| - i - 1, r, false).1.ok)
  {
    hide EncodeSize, DecodeSize, EncodeAll, DecodeAll, AllRest, Decode, SizeLeft, Unnoticed;
    RestAt(sz, e, v.values, i, m, true);
    RestAt(sz, e, v.values, i, m, false);
    var n := |EncodeSize(sz, |v.values|)| + |EncodeAll(sz, e, v.values[..i])| + m;
    UnnoticedIsRest(sz, Sequence(e), v, n, ok);
    UnnoticedIsRest(sz, List(e), v, n, ok);
  }

  /** How many bytes the first i entries have. */
  ghost function EntriesBefore(sz: SizeType, a: Type, b: Type, vs: seq<Value>, i: nat): (n: nat)
    requires EntriesFit(sz, a, b, vs) && i <= |vs|
    decreases i
  {
    if i == 0 then 0
    else KeySize(sz, a, b, vs) + ValueSize(sz, a, b, vs) + EntriesBefore(sz, a, b, vs[1..], i - 1)
  }

  /** Cut m bytes into the i-th entry: the later ones are read from what is left of that one. */
  lemma {:induction false} EntriesRestAt(sz: SizeType, a: Type, b: Type, vs: seq<Value>, i: nat, m: nat)
    requires EntriesFit(sz, a, b, vs) && i < |vs| && EntriesFit(sz, a, b, vs[i..])
    requires m < KeySize(sz, a, b, vs[i..]) + ValueSize(sz, a, b, vs[i..])
    ensures EntriesBefore(sz, a, b, vs, i) + m < |Entries(sz, a, b, vs)|
    ensures EntriesRest(sz, a, b, vs, EntriesBefore(sz, a, b, vs, i) + m)
            == EntriesAfter(sz, a, b, |vs| - i - 1, EntryRest(sz, a, b, vs[i..], m))
    decreases i
  {
    hide EntriesFit, Encode, Fits, Rest, DecodeEntries, EncodeEntries, EntriesRest, EntriesAfter, EntryRest;
    EntriesParts(sz, a, b, vs);
    if i == 0 {
      assert vs[0..] == vs;
      EntriesRestStep(sz, a, b, vs, m);
    } else {
      assert vs[i..] == vs[1..][i - 1..];
      EntriesRestAt(sz, a, b, vs[1..], i - 1, m);
      EntriesRestStep(sz, a, b, vs, EntriesBefore(sz, a, b, vs, i) + m);
    }
  }

  lemma EntryRestIsPairRest(sz: SizeType, a: Type, b: Type, vs: seq<Value>, i: nat, m: nat)
    requires EntriesFit(sz, a, b, vs) && i < |vs| && Fits(sz, Pair(a, b), vs[i]) && m < |Encode(sz, Pair(a, b), vs[i])|
    ensures EntriesFit(sz, a, b, vs[i..]) && m < KeySize(sz, a, b, vs[i..]) + ValueSize(sz, a, b, vs[i..])
    ensures EntryRest(sz, a, b, vs[i..], m) == Rest(sz, Pair(a, b), vs[i], m)
  {
    var t := vs[i..];
    assert t[0] == vs[i] && forall x :: x in t ==> x in vs;
  }

  lemma MapFits(sz: SizeType, a: Type, b: Type, v: Value)
    requires Fits(sz, Map(a, b), v)
    ensures v.Many? && |v.values| < SizeLimit(sz) && EntriesFit(sz, a, b, v.values)
  {
  }

  lemma MapRest(sz: SizeType, a: Type, b: Type, v: Value, n: nat)
    requires Fits(sz, Map(a, b), v) && EntriesFit(sz, a, b, v.values) && n < |Entries(sz, a, b, v.values)|
    ensures |EncodeSize(sz, |v.values|)| + n < |Encode(sz, Map(a, b), v)|
    ensures Rest(sz, Map(a, b), v, |EncodeSize(sz, |v.values|)| + n) == EntriesRest(sz, a, b, v.values, n)
  {
    hide EncodeSize, EncodeEntries, EntriesRest;
  }

  /**
    A map that is cut within its i-th entry is taken for a whole one if and only if that entry, read as a pair,
    does not notice and all later ones can be read from what it leaves.
   */
  lemma MapCutUnnoticedIff(sz: SizeType, a: Type, b: Type, v: Value, i: nat, m: nat, ok: bool)
    requires Fits(sz, Map(a, b), v) && EntriesFit(sz, a, b, v.values) && i < |v.values|
    requires Fits(sz, Pair(a, b), v.values[i]) && m < |Encode(sz, Pair(a, b), v.values[i])|
    ensures var n := |EncodeSize(sz, |v.values|)| + (EntriesBefore(sz, a, b, v.values, i) + m);
            var r := Rest(sz, Pair(a, b), v.values[i], m);
            && n < |Encode(sz, Map(a, b), v)|
            && (Unnoticed(sz, Map(a, b), v, n, ok) <==> r.ok && DecodeEntries(sz, a, b, |v.values| - i - 1, r, []).1.ok)
  {
    hide Fits, EntriesFit, Encode, EncodeSize, DecodeEntries, Entries, EntriesRest, Rest, EntryRest, Unnoticed, EntriesBefore;
    hide KeySize, ValueSize;
    MapFits(sz, a, b, v);
    var n := EntriesBefore(sz, a, b, v.values, i) + m;
    EntryRestIsPairRest(sz, a, b, v.values, i, m);
    EntriesRestAt(sz, a, b, v.values, i, m);
    MapRest(sz, a, b, v, n);
    UnnoticedIsRest(sz, Map(a, b), v, |EncodeSize(sz, |v.values|)| + n, ok);
  }

  // Scalars only

  function Times(k: nat, w: nat): (r: nat) {
    k * w
  }

  lemma OneTimeMore(k: nat, w: nat)
    ensures Times(0, w) == 0 && Times(k + 1, w) == Times(k, w) + w
  {
  }

  /** Pairs of scalars read from fewer bytes than a first one has: every first one fails, every second one needs its bytes. */
  lemma {:induction false} ScalarPairsIff(sz: SizeType, w1: nat, w2: nat, k: nat, r: Reader, resized: bool)
    requires |r.rest| < w1 && r.ok
    ensures DecodeAll(sz, Pair(Scalar(w1), Scalar(w2)), k, r, resized).1.ok <==> Times(k, w2) <= |r.rest|
    decreases k
  {
    if k == 0 {
    } else {
      hide Times;
      OneTimeMore(k - 1, w2);
      NextOfAll(sz, Pair(Scalar(w1), Scalar(w2)), k, r, resized);
      ScalarPairRead(sz, w1, w2, r);
      hide Decode, DecodeAll;
      var r1 := Decode(sz, Pair(Scalar(w1), Scalar(w2)), r).1;
      if r1.ok {
        ScalarPairsIff(sz, w1, w2, k - 1, r1, resized);
      }
    }
  }

  lemma ScalarPairRead(sz: SizeType, w1: nat, w2: nat, r: Reader)
    requires |r.rest| < w1
    ensures var r1 := Decode(sz, Pair(Scalar(w1), Scalar(w2)), r).1;
            (r1.ok <==> w2 <= |r.rest|) && (r1.ok ==> |r1.rest| == |r.rest| - w2)
  {
  }

  lemma {:induction false} ScalarEntriesIff(sz: SizeType, w1: nat, w2: nat, k: nat, r: Reader, read: seq<Value>)
    requires |r.rest| < w1 && r.ok
    ensures DecodeEntries(sz, Scalar(w1), Scalar(w2), k, r, read).1.ok <==> Times(k, w2) <= |r.rest|
    decreases k
  {
    if k == 0 {
    } else {
      hide Times;
      OneTimeMore(k - 1, w2);
      var (x, r1) := Decode(sz, Scalar(w1), r);
      var (y, r2) := Decode(sz, Scalar(w2), r1);
      if r2.ok {
        ScalarEntriesIff(sz, w1, w2, k - 1, r2, if HasKey(read, x) then read else read + [Both(x, y)]);
      }
    }
  }

  lemma ScalarPairRest(sz: SizeType, w1: nat, w2: nat, v: Value, m: nat)
    requires Fits(sz, Pair(Scalar(w1), Scalar(w2)), v) && m < w1 + w2
    ensures |Encode(sz, Pair(Scalar(w1), Scalar(w2)), v)| == w1 + w2
    ensures var r := Rest(sz, Pair(Scalar(w1), Scalar(w2)), v, m);
            (r.ok <==> w2 <= m < w1) && (r.ok ==> |r.rest| == m - w2)
  {
  }

  /**
    A vector of pairs of scalars, cut m bytes into its i-th pair: unnoticed if and only if these are fewer than
    a first part has, but enough for the second parts of this and of all later pairs.
   */
  lemma ScalarPairsCutIff(sz: SizeType, w1: nat, w2: nat, v: Value, i: nat, m: nat, ok: bool)
    requires Fits(sz, Sequence(Pair(Scalar(w1), Scalar(w2))), v) && i < |v.values| && m < w1 + w2
    ensures var n := |EncodeSize(sz, |v.values|)| + |EncodeAll(sz, Pair(Scalar(w1), Scalar(w2)), v.values[..i])| + m;
            && n < |Encode(sz, Sequence(Pair(Scalar(w1), Scalar(w2))), v)|
            && (Unnoticed(sz, Sequence(Pair(Scalar(w1), Scalar(w2))), v, n, ok) <==> Times(|v.values| - i, w2) <= m < w1)
  {
    var t := Pair(Scalar(w1), Scalar(w2));
    ScalarPairRest(sz, w1, w2, v.values[i], m);
    hide Encode, Decode, EncodeAll, DecodeAll, EncodeSize, Rest, Times, Unnoticed;
    SequenceCutUnnoticedIff(sz, t, v, i, m, ok);
    var k, r := |v.values| - i - 1, Rest(sz, t, v.values[i], m);
    OneTimeMore(k, w2);
    if r.ok {
      ScalarPairsIff(sz, w1, w2, k, r, true);
    }
  }

  lemma ScalarEntryFits(sz: SizeType, w1: nat, w2: nat, vs: seq<Value>, i: nat)
    requires EntriesFit(sz, Scalar(w1), Scalar(w2), vs) && i < |vs|
    ensures Fits(sz, Pair(Scalar(w1), Scalar(w2)), vs[i])
  {
    assert vs[i] in vs;
  }

  /** The same for a map of scalars. */
  lemma ScalarEntriesCutIff(sz: SizeType, w1: nat, w2: nat, v: Value, i: nat, m: nat, ok: bool)
    requires Fits(sz, Map(Scalar(w1), Scalar(w2)), v) && EntriesFit(sz, Scalar(w1), Scalar(w2), v.values)
    requires i < |v.values| && m < w1 + w2
    ensures var n := |EncodeSize(sz, |v.values|)| + (EntriesBefore(sz, Scalar(w1), Scalar(w2), v.values, i) + m);
            && n < |Encode(sz, Map(Scalar(w1), Scalar(w2)), v)|
            && (Unnoticed(sz, Map(Scalar(w1), Scalar(w2)), v, n, ok) <==> Times(|v.values| - i, w2) <= m < w1)
  {
    var t := Pair(Scalar(w1), Scalar(w2));
    hide Fits, EntriesFit, Encode, Decode, DecodeEntries, EncodeSize, Rest, Times, Unnoticed, EntriesBefore;
    MapFits(sz, Scalar(w1), Scalar(w2), v);
    ScalarEntryFits(sz, w1, w2, v.values, i);
    ScalarPairRest(sz, w1, w2, v.values[i], m);
    MapCutUnnoticedIff(sz, Scalar(w1), Scalar(w2), v, i, m, ok);
    var k, r := |v.values| - i - 1, Rest(sz, t, v.values[i], m);
    OneTimeMore(k, w2);
    if r.ok {
      ScalarEntriesIff(sz, w1, w2, k, r, []);
    }
  }

  // Inputs

  const ONE_PAIR := Both(Raw([1, 2]), Raw([3]))

  /** A pair of a scalar of two bytes and one of one byte, on its own, in a vector and in a map. */
  lemma OnePairFits()
    ensures Fits(Fixed(4), Pair(Scalar(2), Scalar(1)), ONE_PAIR)
    ensures Fits(Fixed(4), Sequence(Pair(Scalar(2), Scalar(1))), Many([ONE_PAIR]))
    ensures Fits(Fixed(4), Map(Scalar(2), Scalar(1)), Many([ONE_PAIR]))
    ensures |EncodeSize(Fixed(4), 1)| == 4
  {
    assert Pow256(4) > 1;
  }

  /** With the first byte of the pair only, all three are read without an error. */
  lemma CutWitness(ok: bool)
    ensures Fits(Fixed(4), Pair(Scalar(2), Scalar(1)), ONE_PAIR) && 1 < |Encode(Fixed(4), Pair(Scalar(2), Scalar(1)), ONE_PAIR)|
    ensures Unnoticed(Fixed(4), Pair(Scalar(2), Scalar(1)), ONE_PAIR, 1, ok)
  {
    OnePairFits();
    ScalarAfterCutIff(Fixed(4), Scalar(2), 1, Raw([1, 2]), Raw([3]), 1, ok);
  }

  lemma CutSequenceWitness(ok: bool)
    ensures var t, v := Sequence(Pair(Scalar(2), Scalar(1))), Many([ONE_PAIR]);
            Fits(Fixed(4), t, v) && 5 < |Encode(Fixed(4), t, v)| && Unnoticed(Fixed(4), t, v, 5, ok)
  {
    hide Fits, Encode, EncodeSize, Unnoticed;
    OnePairFits();
    ScalarPairsCutIff(Fixed(4), 2, 1, Many([ONE_PAIR]), 0, 1, ok);
    assert [ONE_PAIR][..0] == [];
  }

  lemma CutMapWitness(ok: bool)
    ensures var t, v := Map(Scalar(2), Scalar(1)), Many([ONE_PAIR]);
            Fits(Fixed(4), t, v) && 5 < |Encode(Fixed(4), t, v)| && Unnoticed(Fixed(4), t, v, 5, ok)
  {
    hide Fits, EntriesFit, Encode, EncodeSize, Unnoticed;
    OnePairFits();
    MapFits(Fixed(4), Scalar(2), Scalar(1), Many([ONE_PAIR]));
    ScalarEntriesCutIff(Fixed(4), 2, 1, Many([ONE_PAIR]), 0, 1, ok);
  }
}
