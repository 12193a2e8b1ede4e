/**
  Objects that refer to each other by id, the records they are saved as, and the two walks over them:
  saving follows the references that are loaded, loading those that can be resolved.
 */
module Objects {
  import opened Bytes
  import opened MStream
  import opened Registry
  import opened Wrappers

  type ObjId = nat

  const MAX_ID := 0x1_0000_0000

  /** Sizes in records are of type uint32_t. */
  const SZ := SizeType.Fixed(4)

  /** An ObjPtr in a record: its id and its flags. */
  const REF := Pair(Scalar(4), Scalar(1))

  datatype FieldType = DataField(t: Type) | RefField | RefListField

  /** A reference that is not loaded has an id and flags of its own; a loaded one has those of its object. */
  datatype Ref = Unloaded(id: ObjId, flags: Byte) | Loaded(id: ObjId)

  datatype Field = Data(v: Value) | Refs(refs: seq<Ref>)

  datatype ClassInfo = ClassInfo(base: Option<ClassId>, fields: seq<FieldType>)

  /** The rank in the registry is at most bound. */
  datatype Schema = Schema(info: map<ClassId, ClassInfo>, classes: Classes, bound: nat)

  datatype Object = Object(cls: ClassId, flags: Byte, parts: map<ClassId, seq<Field>>)

  type Heap = map<ObjId, Object>

  /** The part of an object that belongs to one of its classes. */
  datatype Node = Node(id: ObjId, cls: ClassId)

  type Storage = map<Node, seq<Byte>>

  /** Every class is registered with its base, except for the root of all classes, which is not registered itself. */
  ghost predicate SchemaOk(s: Schema) {
    && Acyclic(s.classes)
    && (forall c :: c in s.info ==> Rank(s.classes, c) <= s.bound)
    && forall c :: c in s.info && s.info[c].base.Some? ==>
         var b := s.info[c].base.value;
         && b in s.info && Rank(s.classes, c) < Rank(s.classes, b)
         && (b in s.classes.factories ==> b in s.classes.derived && c in s.classes.derived[b])
         && (b !in s.classes.factories ==> s.info[b].base.None?)
  }

  /** A class with all its bases. */
  ghost function Chain(s: Schema, c: ClassId): (r: set<ClassId>)
    requires SchemaOk(s) && c in s.info
    ensures c in r && forall x :: x in r ==> x in s.info
    decreases s.bound - Rank(s.classes, c)
  {
    {c} + if s.info[c].base.Some? then Chain(s, s.info[c].base.value) else {}
  }

  // Records

  predicate Flagged(flags: Byte) {
    flags % 4 != 0
  }

  function FlagsOf(h: Heap, r: Ref): (f: Byte) {
    if r.Unloaded? then r.flags else if r.id in h then h[r.id].flags else 0
  }

  function WireType(t: FieldType): (w: Type) {
    match t
    case DataField(w) => w
    case RefField => REF
    case RefListField => Sequence(REF)
  }

  function RefValue(id: ObjId, flags: Byte): (v: Value) {
    Both(Raw(ToBytes(id, 4)), Raw([flags]))
  }

  function RefValues(h: Heap, refs: seq<Ref>): (vs: seq<Value>)
    ensures |vs| == |refs|
  {
    seq(|refs|, i requires 0 <= i < |refs| => RefValue(refs[i].id, FlagsOf(h, refs[i])))
  }

  ghost predicate RefsOk(h: Heap, refs: seq<Ref>) {
    forall r :: r in refs ==> r.id < MAX_ID && (r.Loaded? ==> r.id in h)
  }

  ghost predicate FieldOk(h: Heap, t: FieldType, f: Field) {
    match t
    case DataField(w) => f.Data? && Fits(SZ, w, f.v)
    case RefField => f.Refs? && |f.refs| == 1 && RefsOk(h, f.refs)
    case RefListField => f.Refs? && |f.refs| < SizeLimit(SZ) && RefsOk(h, f.refs)
  }

  ghost predicate FieldsOk(h: Heap, ts: seq<FieldType>, fs: seq<Field>) {
    |ts| == |fs| && forall i :: 0 <= i < |ts| ==> FieldOk(h, ts[i], fs[i])
  }

  function FieldValue(h: Heap, t: FieldType, f: Field): (v: Value)
    requires FieldOk(h, t, f)
    ensures Fits(SZ, WireType(t), v)
  {
    match t
    case DataField(_) => f.v
    case RefField => RefValue(f.refs[0].id, FlagsOf(h, f.refs[0]))
    case RefListField => Many(RefValues(h, f.refs))
  }

  ghost function EncodeFields(h: Heap, ts: seq<FieldType>, fs: seq<Field>): (r: seq<Byte>)
    requires FieldsOk(h, ts, fs)
  {
    if ts == [] then []
    else Encode(SZ, WireType(ts[0]), FieldValue(h, ts[0], fs[0])) + EncodeFields(h, ts[1..], fs[1..])
  }

  /** What a reference value read from a record says. */
  function RefId(v: Value): (id: ObjId) {
    if v.Both? && v.first.Raw? then FromBytes(v.first.bytes) else 0
  }

  function RefFlags(v: Value): (f: Byte) {
    if v.Both? && v.second.Raw? && |v.second.bytes| == 1 then v.second.bytes[0] else 0
  }

  lemma RefRead(id: ObjId, flags: Byte)
    requires id < MAX_ID
    ensures RefId(RefValue(id, flags)) == id && RefFlags(RefValue(id, flags)) == flags
  {
    assert Pow256(4) == MAX_ID;
    FromToBytes(id, 4);
  }

  /** A reference in a record: four bytes of the id, least significant first, and one byte of flags. */
  lemma ReferenceBytes(id: ObjId, flags: Byte)
    requires id < MAX_ID
    ensures Encode(SZ, REF, RefValue(id, flags))
            == [id % 0x100, id / 0x100 % 0x100, id / 0x1_0000 % 0x100, id / 0x100_0000 % 0x100, flags]
  {
    assert ToBytes(id / 0x100_0000, 1) == [id / 0x100_0000 % 0x100];
    assert ToBytes(id / 0x1_0000, 2) == [id / 0x1_0000 % 0x100] + ToBytes(id / 0x100_0000, 1);
    assert ToBytes(id / 0x100, 3) == [id / 0x100 % 0x100] + ToBytes(id / 0x1_0000, 2);
  }

  // Heaps

  /** Valid ids; registered classes that nothing is derived from; the fields of each class of an object. */
  ghost predicate HeapOk(s: Schema, h: Heap) {
    && SchemaOk(s)
    && forall id :: id in h ==>
         && 0 < id < MAX_ID
         && h[id].cls in s.info && h[id].cls in s.classes.factories && IsLast(s.classes, h[id].cls)
         && forall c :: c in Chain(s, h[id].cls) ==> c in h[id].parts && FieldsOk(h, s.info[c].fields, h[id].parts[c])
  }

  ghost predicate IsNode(s: Schema, h: Heap, n: Node)
    requires HeapOk(s, h)
  {
    n.id in h && n.cls in Chain(s, h[n.id].cls)
  }

  ghost function Nodes(s: Schema, h: Heap): (r: set<Node>)
    requires HeapOk(s, h)
    ensures forall n :: n in r <==> IsNode(s, h, n)
  {
    set id, c | id in h && c in Chain(s, h[id].cls) :: Node(id, c)
  }

  ghost function Record(s: Schema, h: Heap, n: Node): (r: seq<Byte>)
    requires HeapOk(s, h) && IsNode(s, h, n)
  {
    EncodeFields(h, s.info[n.cls].fields, h[n.id].parts[n.cls])
  }

  ghost function Records(s: Schema, h: Heap, nodes: set<Node>): (r: Storage)
    requires HeapOk(s, h) && nodes <= Nodes(s, h)
  {
    map n | n in nodes :: Record(s, h, n)
  }

  /** The classes of an object, seen by the registry: its own is derived from all others. */
  lemma {:induction false} ChainDerives(s: Schema, c: ClassId, b: ClassId) returns (n: nat)
    requires SchemaOk(s) && c in s.info && b in Chain(s, c) && b in s.classes.factories
    ensures Derives(s.classes, b, c, n) && (b != c ==> n > 0)
    decreases s.bound - Rank(s.classes, c)
  {
    if b == c {
      n := 0;
    } else {
      var up := s.info[c].base.value;
      n := ChainDerives(s, up, b);
      DescentGoesOn(s.classes, b, up, c, n);
      n := n + 1;
    }
  }

  lemma {:induction false} DescentGoesOn(r: Classes, a: ClassId, b: ClassId, c: ClassId, n: nat)
    requires Derives(r, a, b, n) && b in r.derived && c in r.derived[b]
    ensures Derives(r, a, c, n + 1)
    decreases n
  {
    if n == 0 {
      assert Derives(r, c, c, 0);
    } else {
      var x :| x in r.derived[a] && Derives(r, x, b, n - 1);
      DescentGoesOn(r, x, b, c, n - 1);
    }
  }

  lemma OwnClassIsTop(s: Schema, c: ClassId)
    requires SchemaOk(s) && c in s.info && c in s.classes.factories && IsLast(s.classes, c)
    ensures IsTop(s.classes, Chain(s, c) * s.classes.factories, c)
  {
    forall b | b in Chain(s, c) * s.classes.factories && b != c
      ensures GenerationDistance(s.classes, b, c) > 0
    {
      var n := ChainDerives(s, c, b);
      DescentHasDistance(s.classes, b, c, n);
    }
  }

  // Walks

  /** Saving, or loading when objects with these ids are stored. */
  datatype Walk = Saving | Loading(ids: set<ObjId>)

  /** A reference after its record is read. */
  function Resolved(h: Heap, ids: set<ObjId>, r: Ref): (r': Ref) {
    var flags := FlagsOf(h, r);
    if Flagged(flags) || r.id == 0 || r.id !in ids then Unloaded(r.id, flags) else Loaded(r.id)
  }

  predicate Follows(h: Heap, w: Walk, r: Ref) {
    r.id in h && match w case Saving => r.Loaded? case Loading(ids) => Resolved(h, ids, r).Loaded?
  }

  function Links(h: Heap, w: Walk, refs: seq<Ref>): (r: set<Node>) {
    set r | r in refs && Follows(h, w, r) :: Node(r.id, h[r.id].cls)
  }

  function RefsOf(f: Field): (refs: seq<Ref>) {
    if f.Refs? then f.refs else []
  }

  function RefsIn(fs: seq<Field>): (refs: seq<Ref>) {
    if fs == [] then [] else RefsIn(fs[..|fs| - 1]) + RefsOf(fs[|fs| - 1])
  }

  /** The part of the base class, if there is one. */
  function Base(s: Schema, n: Node): (r: set<Node>) {
    if n.cls in s.info && s.info[n.cls].base.Some? then {Node(n.id, s.info[n.cls].base.value)} else {}
  }

  ghost function Next(s: Schema, h: Heap, w: Walk, n: Node): (r: set<Node>)
    requires HeapOk(s, h) && IsNode(s, h, n)
  {
    Base(s, n) + Links(h, w, RefsIn(h[n.id].parts[n.cls]))
  }

  ghost predicate Closed(s: Schema, h: Heap, w: Walk, x: set<Node>)
    requires HeapOk(s, h)
  {
    forall n :: n in x && IsNode(s, h, n) ==> Next(s, h, w, n) <= x
  }

  /**
    What a walk adds to the visited parts: all it starts from and all that follows from what it adds,
    and nothing that could be missing from a closed set with the same start.
   */
  ghost predicate Grew(s: Schema, h: Heap, w: Walk, start: set<Node>, v0: set<Node>, v1: set<Node>)
    requires HeapOk(s, h)
  {
    && v0 <= v1 && start <= v1
    && (forall n :: n in v1 - v0 ==> IsNode(s, h, n) && Next(s, h, w, n) <= v1)
    && forall x :: Closed(s, h, w, x) && start <= x ==> v1 - v0 <= x
  }

  /** The least closed set with this start. */
  ghost predicate Least(s: Schema, h: Heap, w: Walk, start: set<Node>, v: set<Node>)
    requires HeapOk(s, h)
  {
    && start <= v && v <= Nodes(s, h) && Closed(s, h, w, v)
    && forall x :: Closed(s, h, w, x) && start <= x ==> v <= x
  }

  lemma GrewOn(s: Schema, h: Heap, w: Walk, a: set<Node>, b: set<Node>, v0: set<Node>, v1: set<Node>, v2: set<Node>)
    requires HeapOk(s, h) && Grew(s, h, w, a, v0, v1) && Grew(s, h, w, b, v1, v2)
    ensures Grew(s, h, w, a + b, v0, v2)
  {
    hide HeapOk, Next, Closed;
  }

  lemma GrewNode(s: Schema, h: Heap, w: Walk, n: Node, v0: set<Node>, v1: set<Node>)
    requires HeapOk(s, h) && IsNode(s, h, n) && n !in v0 && Grew(s, h, w, Next(s, h, w, n), v0 + {n}, v1)
    ensures Grew(s, h, w, {n}, v0, v1)
  {
    hide HeapOk, Next;
  }

  lemma GrewFromNothing(s: Schema, h: Heap, w: Walk, n: Node, v: set<Node>)
    requires HeapOk(s, h) && Grew(s, h, w, {n}, {}, v)
    ensures Least(s, h, w, {n}, v)
  {
    assert v - {} == v;
  }
}
