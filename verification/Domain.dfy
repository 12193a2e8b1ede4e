/**
  The domain of objects: it saves a root object with all that can be reached from it, part by part, and
  loads a root object back with all that its records refer to.
 */
module Domain {
  import opened Bytes
  import opened MStream
  import opened Objects
  import opened Registry
  import opened Wrappers

  /** An object as the domain creates it; its fields are loaded part by part. */
  datatype Created = Created(cls: ClassId, flags: Byte)

  ghost function Ids(st: Storage): (r: set<ObjId>) {
    set n | n in st :: n.id
  }

  /** Records of this heap, of all parts of an object or of none. */
  ghost predicate StorageOk(s: Schema, h: Heap, st: Storage)
    requires HeapOk(s, h)
  {
    && (forall n :: n in st ==> IsNode(s, h, n) && st[n] == Record(s, h, n))
    && forall n, c :: n in st && c in Chain(s, h[n.id].cls) ==> Node(n.id, c) in st
  }

  function ResolvedRefs(h: Heap, ids: set<ObjId>, refs: seq<Ref>): (r: seq<Ref>)
    ensures |r| == |refs|
  {
    seq(|refs|, i requires 0 <= i < |refs| => Resolved(h, ids, refs[i]))
  }

  function ResolvedField(h: Heap, ids: set<ObjId>, f: Field): (r: Field) {
    if f.Data? then f else Refs(ResolvedRefs(h, ids, f.refs))
  }

  function ResolvedFields(h: Heap, ids: set<ObjId>, fs: seq<Field>): (r: seq<Field>)
    ensures |r| == |fs|
  {
    seq(|fs|, i requires 0 <= i < |fs| => ResolvedField(h, ids, fs[i]))
  }

  ghost function Part(s: Schema, h: Heap, ids: set<ObjId>, n: Node): (r: seq<Field>)
    requires HeapOk(s, h) && IsNode(s, h, n)
  {
    ResolvedFields(h, ids, h[n.id].parts[n.cls])
  }

  /** The fields of these parts, once loaded. */
  ghost function Parts(s: Schema, h: Heap, ids: set<ObjId>, nodes: set<Node>): (r: map<Node, seq<Field>>)
    requires HeapOk(s, h) && nodes <= Nodes(s, h)
    ensures r.Keys == nodes
  {
    map n | n in nodes :: Part(s, h, ids, n)
  }

  /** Some saved reference has these flags for this object. */
  ghost predicate Referred(s: Schema, h: Heap, id: ObjId, flags: Byte)
    requires HeapOk(s, h)
  {
    exists n, r :: IsNode(s, h, n) && r in RefsIn(h[n.id].parts[n.cls]) && r.id == id && FlagsOf(h, r) == flags
  }

  class Domain {
    const schema: Schema
    /** cycle_detector_ */
    var visited: set<Node>
    /** facility_ */
    var storage: Storage
    /** id_objects_ */
    var objects: map<ObjId, Created>
    /** The fields of the objects, by class. */
    var parts: map<Node, seq<Field>>

    constructor (schema: Schema, storage: Storage)
      ensures this.schema == schema && this.storage == storage && objects == map[] && parts == map[]
    {
      this.schema := schema;
      visited := {};
      this.storage := storage;
      objects := map[];
      parts := map[];
    }

    // Saving

    method SaveRoot(h: Heap, id: ObjId)
      requires HeapOk(schema, h) && id in h
      modifies `visited, `storage
      ensures Least(schema, h, Saving, {Node(id, h[id].cls)}, visited)
      ensures storage == old(storage) + Records(schema, h, visited)
    {
      visited := {};
      SaveNode(h, Node(id, h[id].cls));
      GrewFromNothing(schema, h, Saving, Node(id, h[id].cls), visited);
      assert visited - {} == visited;
    }

    /** Save, for the part of an object that belongs to one class. */
    method SaveNode(h: Heap, n: Node)
      requires HeapOk(schema, h) && IsNode(schema, h, n) && visited <= Nodes(schema, h)
      modifies `visited, `storage
      ensures Saved(schema, h, {n}, old(visited), visited, old(storage), storage)
      decreases Nodes(schema, h) - visited, 0
    {
      NodeOk(schema, h, n);
      hide HeapOk, Grew, Chain, Records, FieldsOk;
      if n in visited {
        SavedNothing(schema, h, {n}, visited, storage);
        return;
      }
      visited := visited + {n};
      ghost var v0 := visited;
      SavedNothing(schema, h, {}, visited, storage);
      if schema.info[n.cls].base.Some? {
        SaveNode(h, Node(n.id, schema.info[n.cls].base.value));
      }
      ghost var v1, st1 := visited, storage;
      var record := SaveFields(h, schema.info[n.cls].fields, h[n.id].parts[n.cls]);
      SavedOn(schema, h, Base(schema, n), Links(h, Saving, RefsIn(h[n.id].parts[n.cls])),
              v0, v1, visited, old(storage), st1, storage);
      SavedNode(schema, h, n, old(visited), visited, old(storage), storage);
      storage := storage[n := record];
    }

    method SaveFields(h: Heap, ts: seq<FieldType>, fs: seq<Field>) returns (record: seq<Byte>)
      requires HeapOk(schema, h) && FieldsOk(h, ts, fs) && visited <= Nodes(schema, h)
      modifies `visited, `storage
      ensures record == EncodeFields(h, ts, fs)
      ensures Saved(schema, h, Links(h, Saving, RefsIn(fs)), old(visited), visited, old(storage), storage)
      decreases Nodes(schema, h) - visited, 2
    {
      hide HeapOk, Grew, Records, Nodes, Links, RefsIn, EncodeFields;
      record := [];
      assert ts[0..] == ts && fs[0..] == fs;
      NoLinks(h, Saving);
      SavedNothing(schema, h, {}, visited, storage);
      for i := 0 to |ts|
        invariant record + EncodeFields(h, ts[i..], fs[i..]) == EncodeFields(h, ts, fs)
        invariant Saved(schema, h, Links(h, Saving, RefsIn(fs[..i])), old(visited), visited, old(storage), storage)
      {
        OneMoreField(h, ts[i..], fs[i..], record);
        record := record + Encode(SZ, WireType(ts[i]), FieldValue(h, ts[i], fs[i]));
        ghost var v, st := visited, storage;
        SaveRefs(h, RefsOf(fs[i]));
        SavedOn(schema, h, Links(h, Saving, RefsIn(fs[..i])), Links(h, Saving, RefsOf(fs[i])),
                old(visited), v, visited, old(storage), st, storage);
        MoreLinks(h, Saving, fs, i);
      }
      NoFields(h);
      assert fs[..|ts|] == fs;
    }

    /** SaveRootImpl, for each of these references. */
    method SaveRefs(h: Heap, refs: seq<Ref>)
      requires HeapOk(schema, h) && RefsOk(h, refs) && visited <= Nodes(schema, h)
      modifies `visited, `storage
      ensures Saved(schema, h, Links(h, Saving, refs), old(visited), visited, old(storage), storage)
      decreases Nodes(schema, h) - visited, 1
    {
      hide Grew, Records, Links, Nodes, Chain;
      NoLinks(h, Saving);
      SavedNothing(schema, h, {}, visited, storage);
      for i := 0 to |refs|
        invariant Saved(schema, h, Links(h, Saving, refs[..i]), old(visited), visited, old(storage), storage)
      {
        ghost var v, st := visited, storage;
        OneLink(h, Saving, refs[i]);
        SavedNothing(schema, h, {}, visited, storage);
        if refs[i].Loaded? {
          SaveNode(h, Node(refs[i].id, h[refs[i].id].cls));
        }
        SavedOn(schema, h, Links(h, Saving, refs[..i]), Links(h, Saving, [refs[i]]),
                old(visited), v, visited, old(storage), st, storage);
        OneMoreLink(h, Saving, refs, i);
      }
      assert refs[..|refs|] == refs;
    }

    // Loading

    ghost function State(): (l: Progress)
      reads this
    {
      Progress(visited, parts, objects)
    }

    method LoadRoot(ghost h: Heap, id: ObjId, flags: Byte) returns (r: Ref)
      requires HeapOk(schema, h) && StorageOk(schema, h, storage) && objects == map[] && parts == map[]
      modifies `visited, `objects, `parts
      ensures id !in Ids(storage) ==> r == Unloaded(id, flags) && visited == {}
      ensures id in Ids(storage) ==> r == Loaded(id) && Least(schema, h, Loading(Ids(storage)), Entry(h, Ids(storage), id), visited)
      ensures visited <= Nodes(schema, h) && parts == Parts(schema, h, Ids(storage), visited) && ObjectsOk(h, visited, objects)
      ensures forall x :: x in objects ==> Justified(schema, h, id, x, objects[x].flags)
      ensures id in Ids(storage) ==> id in objects && ClearsUnloaded(flags, objects[id].flags)
    {
      hide HeapOk, Chain, Grew, Record, Closed, Referred, StorageOk, ClearsUnloaded;
      visited := {};
      r := LoadRootImpl(h, id, id, flags);
      assert visited - {} == visited;
      if id in Ids(storage) {
        StoredIsNode(schema, h, storage, id);
        GrewFromNothing(schema, h, Loading(Ids(storage)), Node(id, h[id].cls), visited);
      } else {
        GrewNowhere(schema, h, Loading(Ids(storage)), visited);
      }
    }

    method LoadRootImpl(ghost h: Heap, ghost root: ObjId, id: ObjId, flags: Byte) returns (r: Ref)
      requires HeapOk(schema, h) && Ready(schema, h, storage, State())
      requires Justified(schema, h, root, id, flags)
      modifies `visited, `objects, `parts
      ensures r == if id in Ids(storage) then Loaded(id) else Unloaded(id, flags)
      ensures Brought(schema, h, root, Ids(storage), Entry(h, Ids(storage), id), old(State()), State())
      ensures Ready(schema, h, storage, State())
      ensures id in Ids(storage) && id !in old(objects) ==> id in objects && ClearsUnloaded(flags, objects[id].flags)
      decreases storage.Keys - visited, 1
    {
      hide HeapOk, Chain, Grew, Parts, Referred, IsTop, Brought, StorageOk, ClearsUnloaded;
      if id in Ids(storage) {
        StoredIsNode(schema, h, storage, id);
      }
      if id == 0 {
        BroughtNothing(schema, h, root, Ids(storage), {}, State());
        r := Unloaded(id, flags);
      } else if id in objects {
        BroughtNothing(schema, h, root, Ids(storage), Entry(h, Ids(storage), id), State());
        r := Loaded(id);
      } else {
        var stored := set n | n in storage && n.id == id :: n.cls;
        if id in Ids(storage) {
          StoredClasses(schema, h, storage, id, stored);
        }
        if stored * schema.classes.factories == {} {
          BroughtNothing(schema, h, root, Ids(storage), {}, State());
          r := Unloaded(id, flags);
        } else {
          var c := MostRelatedFactory(schema.classes, stored, h[id].cls);
          objects := objects[id := Created(c, Cleared(flags))];
          ObjectReady(schema, h, storage, old(State()), id, Cleared(flags));
          ghost var l := State();
          LoadNode(h, root, Node(id, c));
          BroughtObject(schema, h, root, Ids(storage), id, old(State()), l, State());
          r := Loaded(id);
        }
      }
    }

    /** Load, for the part of an object that belongs to one class. */
    method LoadNode(ghost h: Heap, ghost root: ObjId, n: Node)
      requires HeapOk(schema, h) && n in storage && Ready(schema, h, storage, State().(visited := visited + {n})) 
      modifies `visited, `objects, `parts
      ensures Brought(schema, h, root, Ids(storage), {n}, old(State()), State())
      ensures Ready(schema, h, storage, State())
      decreases storage.Keys - visited, 0
    {
      hide HeapOk, Chain, Grew, Parts, FieldsOk, StorageOk, Ready, ObjectsKept;
      NodeReady(schema, h, storage, State().(visited := visited + {n}), n);
      if n in visited {
        assert visited + {n} == visited;
        BroughtNothing(schema, h, root, Ids(storage), {n}, State());
        return;
      }
      visited := visited + {n};
      ghost var l0 := State();
      BroughtNothing(schema, h, root, Ids(storage), {}, l0);
      if schema.info[n.cls].base.Some? {
        BaseReady(schema, h, storage, State(), n);
        LoadNode(h, root, Node(n.id, schema.info[n.cls].base.value));
      }
      ghost var l1 := State();
      ReadyMeans(schema, h, storage, l1);
      var fields := LoadFields(h, root, schema.info[n.cls].fields, storage[n], h[n.id].parts[n.cls]);
      BroughtPart(schema, h, root, storage, n, old(State()), l1, State());
      parts := parts[n := fields];
    }

    method LoadFields(ghost h: Heap, ghost root: ObjId, ts: seq<FieldType>, record: seq<Byte>, ghost fs: seq<Field>)
      returns (fields: seq<Field>)
      requires HeapOk(schema, h) && Ready(schema, h, storage, State())
      requires FieldsOk(h, ts, fs) && record == EncodeFields(h, ts, fs) && AllReferred(schema, h, RefsIn(fs))
      modifies `visited, `objects, `parts
      ensures fields == ResolvedFields(h, Ids(storage), fs)
      ensures Brought(schema, h, root, Ids(storage), Links(h, Loading(Ids(storage)), RefsIn(fs)), old(State()), State())
      ensures Ready(schema, h, storage, State())
      decreases storage.Keys - visited, 5
    {
      hide HeapOk, Grew, Parts, ObjectsKept, Ready, Links, RefsIn, Referred, EncodeFields, FieldOk, ResolvedField, Ids, RefsOf;
      assert ts[0..] == ts && fs[0..] == fs;
      var reader := Reader(record, true);
      fields := [];
      ReadyMeans(schema, h, storage, State());
      NoLinks(h, Loading(Ids(storage)));
      BroughtNothing(schema, h, root, Ids(storage), {}, State());
      for i := 0 to |ts|
        invariant reader == Reader(EncodeFields(h, ts[i..], fs[i..]), true)
        invariant fields == ResolvedFields(h, Ids(storage), fs[..i])
        invariant Brought(schema, h, root, Ids(storage), Links(h, Loading(Ids(storage)), RefsIn(fs[..i])), old(State()), State())
        invariant Ready(schema, h, storage, State())
      {
        ghost var l := State();
        ReadyMeans(schema, h, storage, l);
        var v;
        v, reader := ReadField(h, ts[i..], fs[i..], reader);
        InFields(fs, i);
        var field := LoadField(h, root, ts[i], v, fs[i]);
        fields := fields + [field];
        BroughtOn(schema, h, root, Ids(storage), Links(h, Loading(Ids(storage)), RefsIn(fs[..i])),
                  Links(h, Loading(Ids(storage)), RefsOf(fs[i])), old(State()), l, State());
        MoreLinks(h, Loading(Ids(storage)), fs, i);
      }
      assert fs[..|ts|] == fs;
    }

    method LoadField(ghost h: Heap, ghost root: ObjId, t: FieldType, v: Value, ghost f: Field) returns (field: Field)
      requires HeapOk(schema, h) && Ready(schema, h, storage, State())
      requires FieldOk(h, t, f) && v == FieldValue(h, t, f) && AllReferred(schema, h, RefsOf(f))
      modifies `visited, `objects, `parts
      ensures field == ResolvedField(h, Ids(storage), f)
      ensures Brought(schema, h, root, Ids(storage), Links(h, Loading(Ids(storage)), RefsOf(f)), old(State()), State())
      ensures Ready(schema, h, storage, State())
      decreases storage.Keys - visited, 4
    {
      hide HeapOk, Grew, Parts, Links, ObjectsOk, ObjectsKept, Referred, StorageOk;
      match t
      case DataField(_) =>
        NoLinks(h, Loading(Ids(storage)));
        BroughtNothing(schema, h, root, Ids(storage), {}, State());
        field := Data(v);
      case RefField =>
        assert RefValues(h, f.refs) == [v];
        var refs := LoadRefs(h, root, [v], f.refs);
        field := Refs(refs);
      case RefListField =>
        var refs := LoadRefs(h, root, v.values, f.refs);
        field := Refs(refs);
    }

    method LoadRefs(ghost h: Heap, ghost root: ObjId, vs: seq<Value>, ghost refs: seq<Ref>) returns (rs: seq<Ref>)
      requires HeapOk(schema, h) && Ready(schema, h, storage, State())
      requires RefsOk(h, refs) && vs == RefValues(h, refs) && AllReferred(schema, h, refs)
      modifies `visited, `objects, `parts
      ensures rs == ResolvedRefs(h, Ids(storage), refs)
      ensures Brought(schema, h, root, Ids(storage), Links(h, Loading(Ids(storage)), refs), old(State()), State())
      ensures Ready(schema, h, storage, State())
      decreases storage.Keys - visited, 3
    {
      hide HeapOk, Grew, Parts, Links, ObjectsOk, ObjectsKept, Referred, StorageOk;
      rs := [];
      NoLinks(h, Loading(Ids(storage)));
      BroughtNothing(schema, h, root, Ids(storage), {}, State());
      for i := 0 to |vs|
        invariant rs == ResolvedRefs(h, Ids(storage), refs[..i])
        invariant Brought(schema, h, root, Ids(storage), Links(h, Loading(Ids(storage)), refs[..i]), old(State()), State())
        invariant Ready(schema, h, storage, State())
      {
        ghost var l := State();
        var r := LoadRef(h, root, vs[i], refs[i]);
        rs := rs + [r];
        BroughtOn(schema, h, root, Ids(storage), Links(h, Loading(Ids(storage)), refs[..i]),
                  Links(h, Loading(Ids(storage)), [refs[i]]), old(State()), l, State());
        OneMoreLink(h, Loading(Ids(storage)), refs, i);
      }
      assert refs[..|vs|] == refs;
    }

    /** The operator >> of a reference. */
    method LoadRef(ghost h: Heap, ghost root: ObjId, v: Value, ghost ref: Ref) returns (r: Ref)
      requires HeapOk(schema, h) && Ready(schema, h, storage, State())
      requires RefsOk(h, [ref]) && v == RefValue(ref.id, FlagsOf(h, ref)) && Referred(schema, h, ref.id, FlagsOf(h, ref))
      modifies `visited, `objects, `parts
      ensures r == Resolved(h, Ids(storage), ref)
      ensures Brought(schema, h, root, Ids(storage), Links(h, Loading(Ids(storage)), [ref]), old(State()), State())
      ensures Ready(schema, h, storage, State())
      decreases storage.Keys - visited, 2
    {
      hide Chain, Grew, Parts, Links, ObjectsOk, ObjectsKept, Referred, Record, RefValue, RefId, RefFlags;
      assert ref in [ref];
      RefRead(ref.id, FlagsOf(h, ref));
      OneLink(h, Loading(Ids(storage)), ref);
      if Flagged(RefFlags(v)) {
        BroughtNothing(schema, h, root, Ids(storage), {}, State());
        r := Unloaded(RefId(v), RefFlags(v));
      } else {
        r := LoadRootImpl(h, root, RefId(v), RefFlags(v));
      }
    }
  }

  /** Reads the first of these fields. */
  method ReadField(ghost h: Heap, ts: seq<FieldType>, ghost fs: seq<Field>, reader: Reader) returns (v: Value, rest: Reader)
    requires ts != [] && FieldsOk(h, ts, fs) && reader == Reader(EncodeFields(h, ts, fs), true)
    ensures v == FieldValue(h, ts[0], fs[0]) && rest == Reader(EncodeFields(h, ts[1..], fs[1..]), true)
  {
    RoundTrip(SZ, WireType(ts[0]), FieldValue(h, ts[0], fs[0]), EncodeFields(h, ts[1..], fs[1..]), true);
    var d := Decode(SZ, WireType(ts[0]), reader);
    v, rest := d.0, d.1;
  }

  // What loading adds

  /** The bit kUnloaded is cleared, and all other bits are as they were. */
  ghost predicate ClearsUnloaded(flags: Byte, r: Byte) {
    r / 2 % 2 == 0 && r % 2 == flags % 2 && r / 4 == flags / 4
  }

  function Cleared(flags: Byte): (r: Byte)
    ensures ClearsUnloaded(flags, r)
  {
    if flags / 2 % 2 == 1 then flags - 2 else flags
  }

  /** A stored object starts a walk. */
  ghost function Entry(h: Heap, ids: set<ObjId>, id: ObjId): (r: set<Node>) {
    if id in ids && id in h then {Node(id, h[id].cls)} else {}
  }

  ghost predicate AllReferred(s: Schema, h: Heap, refs: seq<Ref>)
    requires HeapOk(s, h)
  {
    forall r :: r in refs ==> Referred(s, h, r.id, FlagsOf(h, r))
  }

  /** Apart from the root, an object is created for a reference without flags, and has the flags it was written with. */
  ghost predicate Justified(s: Schema, h: Heap, root: ObjId, id: ObjId, flags: Byte)
    requires HeapOk(s, h)
  {
    id == root || (Referred(s, h, id, flags) && !Flagged(flags))
  }

  /** The objects created are those whose own part is visited, and have the classes they had. */
  ghost predicate ObjectsOk(h: Heap, v: set<Node>, o: map<ObjId, Created>) {
    && (forall id :: id in o ==> id in h && o[id].cls == h[id].cls && Node(id, o[id].cls) in v)
    && forall n :: n in v && n.id in h && n.cls == h[n.id].cls ==> n.id in o
  }

  ghost predicate ObjectsKept(s: Schema, h: Heap, root: ObjId, o0: map<ObjId, Created>, o1: map<ObjId, Created>)
    requires HeapOk(s, h)
  {
    && (forall id :: id in o0 ==> id in o1 && o1[id] == o0[id])
    && forall id :: id in o1 && id !in o0 ==> Justified(s, h, root, id, o1[id].flags)
  }

  /** What has been loaded so far. */
  datatype Progress = Progress(visited: set<Node>, parts: map<Node, seq<Field>>, objects: map<ObjId, Created>)

  ghost predicate Ready(s: Schema, h: Heap, st: Storage, l: Progress)
    requires HeapOk(s, h)
  {
    && StorageOk(s, h, st) && l.visited <= st.Keys && l.visited <= Nodes(s, h)
    && ObjectsOk(h, l.visited, l.objects)
  }

  ghost predicate Brought(s: Schema, h: Heap, root: ObjId, ids: set<ObjId>, start: set<Node>, a: Progress, b: Progress)
    requires HeapOk(s, h)
  {
    && a.visited <= b.visited <= Nodes(s, h) && Grew(s, h, Loading(ids), start, a.visited, b.visited)
    && b.parts == a.parts + Parts(s, h, ids, b.visited - a.visited)
    && ObjectsKept(s, h, root, a.objects, b.objects)
  }

  lemma BroughtNothing(s: Schema, h: Heap, root: ObjId, ids: set<ObjId>, start: set<Node>, l: Progress)
    requires HeapOk(s, h) && l.visited <= Nodes(s, h) && start <= l.visited
    ensures Brought(s, h, root, ids, start, l, l)
  {
    assert l.visited - l.visited == {};
  }

  lemma BroughtOn(s: Schema, h: Heap, root: ObjId, ids: set<ObjId>, x: set<Node>, y: set<Node>,
                  a: Progress, b: Progress, c: Progress)
    requires HeapOk(s, h) && Brought(s, h, root, ids, x, a, b) && Brought(s, h, root, ids, y, b, c)
    ensures Brought(s, h, root, ids, x + y, a, c)
  {
    hide HeapOk, Nodes, Parts, Grew, Justified;
    GrewOn(s, h, Loading(ids), x, y, a.visited, b.visited, c.visited);
    PartsOn(s, h, ids, b.visited - a.visited, c.visited - b.visited, a.parts);
    assert c.visited - a.visited == (b.visited - a.visited) + (c.visited - b.visited);
  }

  lemma PartsOn(s: Schema, h: Heap, ids: set<ObjId>, a: set<Node>, b: set<Node>, p: map<Node, seq<Field>>)
    requires HeapOk(s, h) && a <= Nodes(s, h) && b <= Nodes(s, h)
    ensures p + Parts(s, h, ids, a) + Parts(s, h, ids, b) == p + Parts(s, h, ids, a + b)
  {
    hide HeapOk, Nodes, Part;
  }

  lemma OneMorePart(s: Schema, h: Heap, ids: set<ObjId>, n: Node, a: set<Node>, p: map<Node, seq<Field>>)
    requires HeapOk(s, h) && a <= Nodes(s, h) && IsNode(s, h, n)
    ensures (p + Parts(s, h, ids, a))[n := Part(s, h, ids, n)] == p + Parts(s, h, ids, a + {n})
  {
    hide HeapOk, Nodes, Part;
  }

  lemma BroughtNode(s: Schema, h: Heap, root: ObjId, ids: set<ObjId>, n: Node, a: Progress, b: Progress)
    requires HeapOk(s, h) && IsNode(s, h, n) && n !in a.visited
    requires Brought(s, h, root, ids, Next(s, h, Loading(ids), n), a.(visited := a.visited + {n}), b)
    ensures Brought(s, h, root, ids, {n}, a, b.(parts := b.parts[n := Part(s, h, ids, n)]))
  {
    hide HeapOk, Nodes, Parts, Part, Grew, Next, ObjectsKept;
    GrewNode(s, h, Loading(ids), n, a.visited, b.visited);
    OneMorePart(s, h, ids, n, b.visited - (a.visited + {n}), a.parts);
    assert b.visited - a.visited == (b.visited - (a.visited + {n})) + {n};
  }

  /** An object is created, and then its parts are loaded. */
  lemma BroughtObject(s: Schema, h: Heap, root: ObjId, ids: set<ObjId>, id: ObjId, a: Progress, b: Progress, c: Progress)
    requires HeapOk(s, h) && id in h && id !in a.objects && id in b.objects && b == a.(objects := a.objects[id := b.objects[id]])
    requires Justified(s, h, root, id, b.objects[id].flags) && Brought(s, h, root, ids, {Node(id, h[id].cls)}, b, c)
    ensures Brought(s, h, root, ids, {Node(id, h[id].cls)}, a, c) && id in c.objects && c.objects[id] == b.objects[id]
  {
    hide HeapOk, Nodes, Parts, Grew, Justified;
  }

  /** The part of the base is loaded, and then the references of a part. */
  lemma BroughtPart(s: Schema, h: Heap, root: ObjId, st: Storage, n: Node, a: Progress, b: Progress, c: Progress)
    requires HeapOk(s, h) && IsNode(s, h, n) && n !in a.visited && Ready(s, h, st, c)
    requires Brought(s, h, root, Ids(st), Base(s, n), a.(visited := a.visited + {n}), b)
    requires Brought(s, h, root, Ids(st), Links(h, Loading(Ids(st)), RefsIn(h[n.id].parts[n.cls])), b, c)
    ensures var d := c.(parts := c.parts[n := Part(s, h, Ids(st), n)]);
            Brought(s, h, root, Ids(st), {n}, a, d) && Ready(s, h, st, d)
  {
    NodeOk(s, h, n);
    hide HeapOk, Brought, Part, StorageOk, Links, RefsIn;
    BroughtOn(s, h, root, Ids(st), Base(s, n), Links(h, Loading(Ids(st)), RefsIn(h[n.id].parts[n.cls])),
              a.(visited := a.visited + {n}), b, c);
    BroughtNode(s, h, root, Ids(st), n, a, c);
  }

  lemma StoredIsNode(s: Schema, h: Heap, st: Storage, id: ObjId)
    requires HeapOk(s, h) && StorageOk(s, h, st) && id in Ids(st)
    ensures 0 != id && id in h && Node(id, h[id].cls) in st
    ensures h[id].cls in s.classes.factories && IsLast(s.classes, h[id].cls)
  {
  }

  lemma StoredPart(s: Schema, h: Heap, st: Storage, n: Node)
    requires HeapOk(s, h) && StorageOk(s, h, st) && n in st
    ensures IsNode(s, h, n) && st[n] == Record(s, h, n)
  {
  }

  lemma ReadyMeans(s: Schema, h: Heap, st: Storage, l: Progress)
    requires HeapOk(s, h) && Ready(s, h, st, l)
    ensures l.visited <= st.Keys && l.visited <= Nodes(s, h)
  {
  }

  lemma NodeReady(s: Schema, h: Heap, st: Storage, l: Progress, n: Node)
    requires HeapOk(s, h) && Ready(s, h, st, l) && n in st
    ensures IsNode(s, h, n) && st[n] == Record(s, h, n) && l.visited <= st.Keys && l.visited <= Nodes(s, h)
    ensures n.cls in s.info && n.cls in h[n.id].parts && FieldsOk(h, s.info[n.cls].fields, h[n.id].parts[n.cls])
    ensures AllReferred(s, h, RefsIn(h[n.id].parts[n.cls]))
  {
    StoredPart(s, h, st, n);
    NodeOk(s, h, n);
    FieldsReferred(s, h, n);
  }

  /** An object is created for a stored id. */
  lemma ObjectReady(s: Schema, h: Heap, st: Storage, l: Progress, id: ObjId, flags: Byte)
    requires HeapOk(s, h) && Ready(s, h, st, l) && id in h && Node(id, h[id].cls) in st
    ensures Ready(s, h, st, l.(visited := l.visited + {Node(id, h[id].cls)}, objects := l.objects[id := Created(h[id].cls, flags)]))
  {
    hide HeapOk, StorageOk, Nodes;
    StoredPart(s, h, st, Node(id, h[id].cls));
  }

  /** The classes an object is stored under. */
  lemma StoredClasses(s: Schema, h: Heap, st: Storage, id: ObjId, stored: set<ClassId>)
    requires HeapOk(s, h) && StorageOk(s, h, st) && id in Ids(st)
    requires stored == set n | n in st && n.id == id :: n.cls
    ensures Acyclic(s.classes) && IsTop(s.classes, stored * s.classes.factories, h[id].cls) && IsLast(s.classes, h[id].cls)
  {
    StoredIsNode(s, h, st, id);
    var c := h[id].cls;
    assert stored == Chain(s, c) by {
      forall b | b in Chain(s, c)
        ensures b in stored
      {
        assert Node(id, b) in st;
      }
    }
    OwnClassIsTop(s, c);
  }

  lemma BaseReady(s: Schema, h: Heap, st: Storage, l: Progress, n: Node)
    requires HeapOk(s, h) && Ready(s, h, st, l) && n in st && s.info[n.cls].base.Some?
    ensures var b := Node(n.id, s.info[n.cls].base.value); b in st && Ready(s, h, st, l.(visited := l.visited + {b}))
  {
    hide HeapOk, StorageOk, Nodes;
    var b := BaseStored(s, h, st, n);
  }

  lemma BaseStored(s: Schema, h: Heap, st: Storage, n: Node) returns (b: Node)
    requires HeapOk(s, h) && StorageOk(s, h, st) && n in st && s.info[n.cls].base.Some?
    ensures b == Node(n.id, s.info[n.cls].base.value) && b in st && IsNode(s, h, b) && b.cls != h[b.id].cls
  {
    b := Node(n.id, s.info[n.cls].base.value);
    NodeOk(s, h, n);
    ChainRank(s, h[n.id].cls, n.cls);
  }

  lemma {:induction false} ChainRank(s: Schema, c: ClassId, b: ClassId)
    requires SchemaOk(s) && c in s.info && b in Chain(s, c)
    ensures Rank(s.classes, b) >= Rank(s.classes, c)
    ensures s.info[b].base.Some? ==> s.info[b].base.value != c
    decreases s.bound - Rank(s.classes, c)
  {
    if b == c {
    } else {
      ChainRank(s, s.info[c].base.value, b);
    }
  }

  lemma FieldsReferred(s: Schema, h: Heap, n: Node)
    requires HeapOk(s, h) && IsNode(s, h, n)
    ensures AllReferred(s, h, RefsIn(h[n.id].parts[n.cls]))
  {
    hide HeapOk;
  }

  lemma {:induction false} InFields(fs: seq<Field>, i: nat)
    requires i < |fs|
    ensures forall r :: r in RefsOf(fs[i]) ==> r in RefsIn(fs)
  {
    if i == |fs| - 1 {
    } else {
      InFields(fs[..|fs| - 1], i);
    }
  }

  lemma GrewNowhere(s: Schema, h: Heap, w: Walk, v: set<Node>)
    requires HeapOk(s, h) && Grew(s, h, w, {}, {}, v)
    ensures v == {}
  {
    assert Closed(s, h, w, {});
  }

  // What saving adds

  ghost predicate Saved(s: Schema, h: Heap, start: set<Node>, v0: set<Node>, v1: set<Node>, st0: Storage, st1: Storage)
    requires HeapOk(s, h)
  {
    && v0 <= v1 <= Nodes(s, h) && Grew(s, h, Saving, start, v0, v1)
    && st1 == st0 + Records(s, h, v1 - v0)
  }

  lemma SavedNothing(s: Schema, h: Heap, start: set<Node>, v: set<Node>, st: Storage)
    requires HeapOk(s, h) && v <= Nodes(s, h) && start <= v
    ensures Saved(s, h, start, v, v, st, st)
  {
    assert v - v == {};
  }

  lemma SavedOn(s: Schema, h: Heap, a: set<Node>, b: set<Node>, v0: set<Node>, v1: set<Node>, v2: set<Node>,
                st0: Storage, st1: Storage, st2: Storage)
    requires HeapOk(s, h) && Saved(s, h, a, v0, v1, st0, st1) && Saved(s, h, b, v1, v2, st1, st2)
    ensures Saved(s, h, a + b, v0, v2, st0, st2)
  {
    hide HeapOk, Nodes, Records, Grew;
    GrewOn(s, h, Saving, a, b, v0, v1, v2);
    RecordsOn(s, h, v1 - v0, v2 - v1, st0);
    assert v2 - v0 == (v1 - v0) + (v2 - v1);
  }

  lemma OneMoreField(h: Heap, ts: seq<FieldType>, fs: seq<Field>, record: seq<Byte>)
    requires ts != [] && FieldsOk(h, ts, fs)
    ensures record + EncodeFields(h, ts, fs) ==
            record + Encode(SZ, WireType(ts[0]), FieldValue(h, ts[0], fs[0])) + EncodeFields(h, ts[1..], fs[1..])
  {
    hide FieldOk;
  }

  lemma NoFields(h: Heap)
    ensures EncodeFields(h, [], []) == []
  {
  }

  lemma RecordsOn(s: Schema, h: Heap, a: set<Node>, b: set<Node>, st: Storage)
    requires HeapOk(s, h) && a <= Nodes(s, h) && b <= Nodes(s, h)
    ensures st + Records(s, h, a) + Records(s, h, b) == st + Records(s, h, a + b)
  {
    hide HeapOk, Nodes, Record;
  }

  lemma OneMoreRecord(s: Schema, h: Heap, n: Node, a: set<Node>, st: Storage)
    requires HeapOk(s, h) && a <= Nodes(s, h) && IsNode(s, h, n)
    ensures (st + Records(s, h, a))[n := Record(s, h, n)] == st + Records(s, h, a + {n})
  {
    hide HeapOk, Nodes, Record;
  }

  lemma SavedNode(s: Schema, h: Heap, n: Node, v0: set<Node>, v1: set<Node>, st0: Storage, st1: Storage)
    requires HeapOk(s, h) && IsNode(s, h, n) && n !in v0 && Saved(s, h, Next(s, h, Saving, n), v0 + {n}, v1, st0, st1)
    ensures Saved(s, h, {n}, v0, v1, st0, st1[n := Record(s, h, n)])
  {
    hide HeapOk, Nodes, Records, Record, Grew, Next;
    GrewNode(s, h, Saving, n, v0, v1);
    OneMoreRecord(s, h, n, v1 - (v0 + {n}), st0);
    assert v1 - v0 == (v1 - (v0 + {n})) + {n};
  }

  lemma NodeOk(s: Schema, h: Heap, n: Node)
    requires HeapOk(s, h) && IsNode(s, h, n)
    ensures n.id in h && n.cls in s.info && n.cls in h[n.id].parts && FieldsOk(h, s.info[n.cls].fields, h[n.id].parts[n.cls])
    ensures s.info[n.cls].base.Some? ==> IsNode(s, h, Node(n.id, s.info[n.cls].base.value))
  {
    ChainGoesUp(s, h[n.id].cls, n.cls);
  }

  lemma {:induction false} ChainGoesUp(s: Schema, c: ClassId, b: ClassId)
    requires SchemaOk(s) && c in s.info && b in Chain(s, c)
    ensures s.info[b].base.Some? ==> s.info[b].base.value in Chain(s, c)
    decreases s.bound - Rank(s.classes, c)
  {
    if b == c {
    } else {
      ChainGoesUp(s, s.info[c].base.value, b);
    }
  }

  lemma NoLinks(h: Heap, w: Walk)
    ensures RefsIn([]) == [] && Links(h, w, []) == {}
  {
  }

  lemma OneLink(h: Heap, w: Walk, r: Ref)
    ensures Links(h, w, [r]) == if Follows(h, w, r) then {Node(r.id, h[r.id].cls)} else {}
  {
    assert r in [r];
  }

  lemma OneMoreLink(h: Heap, w: Walk, refs: seq<Ref>, i: nat)
    requires i < |refs|
    ensures Links(h, w, refs[..i + 1]) == Links(h, w, refs[..i]) + Links(h, w, [refs[i]])
  {
    assert refs[..i + 1] == refs[..i] + [refs[i]];
  }

  lemma MoreLinks(h: Heap, w: Walk, fs: seq<Field>, i: nat)
    requires i < |fs|
    ensures Links(h, w, RefsIn(fs[..i + 1])) == Links(h, w, RefsIn(fs[..i])) + Links(h, w, RefsOf(fs[i]))
  {
    assert fs[..i + 1][..i] == fs[..i];
  }

  // Saving and loading again

  ghost function IdsOf(nodes: set<Node>): (r: set<ObjId>) {
    set n | n in nodes :: n.id
  }

  /** What a root is saved with has all its parts. */
  lemma SavedWhole(s: Schema, h: Heap, root: ObjId, saved: set<Node>)
    requires HeapOk(s, h) && root in h && Least(s, h, Saving, {Node(root, h[root].cls)}, saved)
    ensures StorageOk(s, h, Records(s, h, saved)) && Ids(Records(s, h, saved)) == IdsOf(saved)
  {
    hide Closed, Record, Chain, FieldsOk;
    OwnPartSaved(s, h, root, saved);
    forall n, c | n in saved && c in Chain(s, h[n.id].cls)
      ensures Node(n.id, c) in saved
    {
      ChainSaved(s, h, saved, n.id, h[n.id].cls, c);
    }
  }

  /** From a part, a walk goes to another part of the same object or to the own part of an object. */
  lemma NextIsOwn(s: Schema, h: Heap, n: Node)
    requires HeapOk(s, h) && IsNode(s, h, n)
    ensures forall m :: m in Next(s, h, Saving, n) ==> m.id == n.id || (m.id in h && m.cls == h[m.id].cls)
  {
  }

  lemma OwnPartSaved(s: Schema, h: Heap, root: ObjId, saved: set<Node>)
    requires HeapOk(s, h) && root in h && Least(s, h, Saving, {Node(root, h[root].cls)}, saved)
    ensures forall n :: n in saved ==> n.id in h && Node(n.id, h[n.id].cls) in saved
  {
    hide HeapOk, IsNode, Next;
    var x := set n | n in saved && n.id in h && Node(n.id, h[n.id].cls) in saved;
    forall n | n in x && IsNode(s, h, n)
      ensures Next(s, h, Saving, n) <= x
    {
      NextIsOwn(s, h, n);
    }
    assert Closed(s, h, Saving, x);
  }

  lemma {:induction false} ChainSaved(s: Schema, h: Heap, saved: set<Node>, id: ObjId, c: ClassId, b: ClassId)
    requires HeapOk(s, h) && saved <= Nodes(s, h) && Closed(s, h, Saving, saved)
    requires c in s.info && Node(id, c) in saved && b in Chain(s, c)
    ensures Node(id, b) in saved
    decreases s.bound - Rank(s.classes, c)
  {
    if b == c {
    } else {
      var up := Node(id, s.info[c].base.value);
      assert up in Next(s, h, Saving, Node(id, c));
      ChainSaved(s, h, saved, id, up.cls, b);
    }
  }

  /**
    A root is saved into an empty storage and loaded into a fresh domain.  Each of its parts comes back
    as it was, up to its references being resolved; so does every object that they lead to.
   */
  method SaveAndLoad(s: Schema, h: Heap, root: ObjId, flags: Byte)
    returns (r: Ref, objects: map<ObjId, Created>, parts: map<Node, seq<Field>>, ghost saved: set<Node>)
    requires HeapOk(s, h) && root in h
    ensures Least(s, h, Saving, {Node(root, h[root].cls)}, saved) && r == Loaded(root)
    ensures Least(s, h, Loading(IdsOf(saved)), {Node(root, h[root].cls)}, parts.Keys)
    ensures parts == Parts(s, h, IdsOf(saved), parts.Keys)
    ensures ObjectsOk(h, parts.Keys, objects)
    ensures forall id :: id in objects ==> Justified(s, h, root, id, objects[id].flags)
    ensures root in objects && ClearsUnloaded(flags, objects[root].flags)
  {
    hide HeapOk, Least, StorageOk, Records, Parts, ObjectsOk, Justified;
    var d := new Domain(s, map[]);
    d.SaveRoot(h, root);
    saved := d.visited;
    SavedWhole(s, h, root, saved);
    assert d.storage == Records(s, h, saved);
    var e := new Domain(s, d.storage);
    assert Node(root, h[root].cls) in saved;
    r := e.LoadRoot(h, root, flags);
    objects, parts := e.objects, e.parts;
    assert parts.Keys == e.visited;
  }

  // Flags

  /** The bit kUnloadedByDefault or the bit kUnloaded. */
  lemma FlaggedIff(flags: Byte)
    ensures Flagged(flags) <==> flags % 2 == 1 || flags / 2 % 2 == 1
  {
  }

  /** A reference is read as unloaded when one of these bits was written with it or there is nothing to load. */
  lemma ResolvedIff(h: Heap, ids: set<ObjId>, r: Ref)
    ensures var flags, r' := FlagsOf(h, r), Resolved(h, ids, r);
            && r'.id == r.id && (r'.Unloaded? ==> r'.flags == flags)
            && (r'.Unloaded? <==> flags % 2 == 1 || flags / 2 % 2 == 1 || r.id == 0 || r.id !in ids)
  {
    FlaggedIff(FlagsOf(h, r));
  }

  ghost predicate SameButFlags(h: Heap, h': Heap) {
    h.Keys == h'.Keys && forall id :: id in h ==> h'[id] == h[id].(flags := h'[id].flags)
  }

  lemma SameFields(h: Heap, h': Heap, ts: seq<FieldType>, fs: seq<Field>)
    requires h.Keys == h'.Keys && FieldsOk(h, ts, fs)
    ensures FieldsOk(h', ts, fs)
  {
    forall i | 0 <= i < |ts|
      ensures FieldOk(h', ts[i], fs[i])
    {
      assert FieldOk(h, ts[i], fs[i]);
    }
  }

  lemma FlagsDoNotMatter(s: Schema, h: Heap, h': Heap)
    requires HeapOk(s, h) && SameButFlags(h, h')
    ensures HeapOk(s, h')
  {
    hide FieldsOk, SchemaOk, IsLast;
    forall id, c | id in h' && c in Chain(s, h'[id].cls)
      ensures c in h'[id].parts && FieldsOk(h', s.info[c].fields, h'[id].parts[c])
    {
      SameFields(h, h', s.info[c].fields, h[id].parts[c]);
    }
  }

  /** Each loaded reference to id comes back unloaded, with these flags. */
  ghost predicate LeftUnloaded(before: seq<Field>, after: seq<Field>, id: ObjId, flags: Byte) {
    && |after| == |before|
    && forall i :: 0 <= i < |before| && before[i].Refs? ==>
         && after[i].Refs? && |after[i].refs| == |before[i].refs|
         && forall j :: 0 <= j < |before[i].refs| && before[i].refs[j] == Loaded(id) ==> after[i].refs[j] == Unloaded(id, flags)
  }

  lemma FlaggedIsLeft(h: Heap, ids: set<ObjId>, fs: seq<Field>, id: ObjId)
    requires id in h && h[id].flags % 2 == 1
    ensures LeftUnloaded(fs, ResolvedFields(h, ids, fs), id, h[id].flags)
  {
    FlaggedIff(h[id].flags);
  }

  lemma FlaggedPartsLeft(s: Schema, h: Heap, ids: set<ObjId>, nodes: set<Node>, n: Node, id: ObjId)
    requires HeapOk(s, h) && nodes <= Nodes(s, h) && n in nodes && id in h && h[id].flags % 2 == 1
    ensures n.id in h && n.cls in h[n.id].parts
    ensures LeftUnloaded(h[n.id].parts[n.cls], Parts(s, h, ids, nodes)[n], id, h[id].flags)
  {
    NodeOk(s, h, n);
    FlaggedIsLeft(h, ids, h[n.id].parts[n.cls], id);
    hide HeapOk, LeftUnloaded, ResolvedFields;
  }

  /**
    A root is saved and loaded with flags, and afterwards an object around it is.  If the flags have kUnloadedByDefault,
    every loaded reference to the first root comes back unloaded, and has kUnloadedByDefault still.
   */
  method LoadAndSaveAround(s: Schema, h: Heap, id: ObjId, flags: Byte, around: Heap, owner: ObjId)
    returns (f: Byte, parts: map<Node, seq<Field>>)
    requires HeapOk(s, h) && id in h && HeapOk(s, around) && id in around && owner in around
    ensures ClearsUnloaded(flags, f) && owner in IdsOf(parts.Keys)
    ensures flags % 2 == 1 ==> forall n :: n in parts ==>
              && n.id in around && n.cls in around[n.id].parts
              && LeftUnloaded(around[n.id].parts[n.cls], parts[n], id, f)
  {
    hide HeapOk, Least, Parts, ObjectsOk, Justified, LeftUnloaded;
    var r, objects, loaded;
    ghost var saved;
    r, objects, loaded, saved := SaveAndLoad(s, h, id, flags);
    f := objects[id].flags;
    var now := around[id := around[id].(flags := f)];
    FlagsDoNotMatter(s, around, now);
    r, objects, parts, saved := SaveAndLoad(s, now, owner, 0);
    StartIsIn(s, now, Loading(IdsOf(saved)), Node(owner, now[owner].cls), parts.Keys);
    if flags % 2 == 1 {
      forall n | n in parts
        ensures && n.id in around && n.cls in around[n.id].parts
                && LeftUnloaded(around[n.id].parts[n.cls], parts[n], id, f)
      {
        FlaggedPartsLeft(s, now, IdsOf(saved), parts.Keys, n, id);
      }
    }
  }

  lemma StartIsIn(s: Schema, h: Heap, w: Walk, n: Node, v: set<Node>)
    requires HeapOk(s, h) && Least(s, h, w, {n}, v)
    ensures n in v && v <= Nodes(s, h)
  {
  }

  /** A reference that is read as it was written. */
  predicate Kept(h: Heap, ids: set<ObjId>, r: Ref) {
    if r.Loaded? then !Flagged(FlagsOf(h, r)) else Flagged(r.flags) || r.id == 0 || r.id !in ids
  }

  lemma {:induction false} RefsInOk(h: Heap, ts: seq<FieldType>, fs: seq<Field>)
    requires FieldsOk(h, ts, fs)
    ensures RefsOk(h, RefsIn(fs))
  {
    if fs == [] {
    } else {
      RefsInOk(h, ts[..|ts| - 1], fs[..|fs| - 1]);
      assert FieldOk(h, ts[|ts| - 1], fs[|fs| - 1]);
    }
  }

  lemma LoadedIsSaved(s: Schema, h: Heap, saved: set<Node>, n: Node, r: Ref)
    requires HeapOk(s, h) && saved <= Nodes(s, h) && Closed(s, h, Saving, saved)
    requires n in saved && r in RefsIn(h[n.id].parts[n.cls]) && r.Loaded?
    ensures r.id in IdsOf(saved) && 0 != r.id && r.id in h && Node(r.id, h[r.id].cls) in saved
  {
    NodeOk(s, h, n);
    RefsInOk(h, s.info[n.cls].fields, h[n.id].parts[n.cls]);
    assert Node(r.id, h[r.id].cls) in Next(s, h, Saving, n);
  }

  lemma KeptIff(s: Schema, h: Heap, saved: set<Node>, n: Node, r: Ref)
    requires HeapOk(s, h) && saved <= Nodes(s, h) && Closed(s, h, Saving, saved)
    requires n in saved && r in RefsIn(h[n.id].parts[n.cls])
    ensures Resolved(h, IdsOf(saved), r) == r <==> Kept(h, IdsOf(saved), r)
  {
    if r.Loaded? {
      LoadedIsSaved(s, h, saved, n, r);
    }
  }

  lemma {:induction false} FieldsUnchangedIff(h: Heap, ids: set<ObjId>, fs: seq<Field>)
    ensures ResolvedFields(h, ids, fs) == fs <==> forall r :: r in RefsIn(fs) ==> Resolved(h, ids, r) == r
  {
    if fs == [] {
    } else {
      var k := |fs| - 1;
      FieldsUnchangedIff(h, ids, fs[..k]);
      FieldUnchangedIff(h, ids, fs[k]);
      assert ResolvedFields(h, ids, fs) == ResolvedFields(h, ids, fs[..k]) + [ResolvedField(h, ids, fs[k])];
      assert fs == fs[..k] + [fs[k]];
    }
  }

  lemma FieldUnchangedIff(h: Heap, ids: set<ObjId>, f: Field)
    ensures ResolvedField(h, ids, f) == f <==> forall r :: r in RefsOf(f) ==> Resolved(h, ids, r) == r
  {
    if f.Refs? {
      assert forall i :: 0 <= i < |f.refs| ==> ResolvedRefs(h, ids, f.refs)[i] == Resolved(h, ids, f.refs[i]);
    }
  }

  /** A saved part comes back with the same references exactly when each of them is kept. */
  lemma PartUnchangedIff(s: Schema, h: Heap, root: ObjId, saved: set<Node>, n: Node)
    requires HeapOk(s, h) && root in h && Least(s, h, Saving, {Node(root, h[root].cls)}, saved) && n in saved
    ensures Part(s, h, IdsOf(saved), n) == h[n.id].parts[n.cls] <==>
            forall r :: r in RefsIn(h[n.id].parts[n.cls]) ==> Kept(h, IdsOf(saved), r)
  {
    NodeOk(s, h, n);
    hide HeapOk, Closed, ResolvedFields, RefsIn, Resolved, Kept, IdsOf;
    var fs := h[n.id].parts[n.cls];
    FieldsUnchangedIff(h, IdsOf(saved), fs);
    forall r | r in RefsIn(fs)
      ensures Resolved(h, IdsOf(saved), r) == r <==> Kept(h, IdsOf(saved), r)
    {
      KeptIff(s, h, saved, n, r);
    }
  }

  /** Then both walks go the same way. */
  lemma SameNext(s: Schema, h: Heap, saved: set<Node>, n: Node)
    requires HeapOk(s, h) && saved <= Nodes(s, h) && Closed(s, h, Saving, saved) && n in saved
    requires forall r :: r in RefsIn(h[n.id].parts[n.cls]) ==> Kept(h, IdsOf(saved), r)
    ensures Next(s, h, Loading(IdsOf(saved)), n) == Next(s, h, Saving, n)
  {
    NodeOk(s, h, n);
    hide HeapOk, Closed, RefsIn, IdsOf, Base;
    var refs := RefsIn(h[n.id].parts[n.cls]);
    forall r | r in refs
      ensures Follows(h, Loading(IdsOf(saved)), r) <==> Follows(h, Saving, r)
    {
      if r.Loaded? {
        LoadedIsSaved(s, h, saved, n, r);
      }
    }
  }

  /** When all references are kept, all that was saved is loaded, and is what it was. */
  lemma AllKeptMeansSame(s: Schema, h: Heap, root: ObjId, saved: set<Node>, loaded: set<Node>)
    requires HeapOk(s, h) && root in h && Least(s, h, Saving, {Node(root, h[root].cls)}, saved)
    requires Least(s, h, Loading(IdsOf(saved)), {Node(root, h[root].cls)}, loaded)
    requires forall n :: n in saved ==> forall r :: r in RefsIn(h[n.id].parts[n.cls]) ==> Kept(h, IdsOf(saved), r)
    ensures loaded == saved
    ensures forall n :: n in saved ==> Part(s, h, IdsOf(saved), n) == h[n.id].parts[n.cls]
  {
    forall n | n in saved
      ensures Next(s, h, Loading(IdsOf(saved)), n) == Next(s, h, Saving, n)
      ensures Part(s, h, IdsOf(saved), n) == h[n.id].parts[n.cls]
    {
      SameNext(s, h, saved, n);
      PartUnchangedIff(s, h, root, saved, n);
    }
    assert Closed(s, h, Loading(IdsOf(saved)), saved);
    assert Closed(s, h, Saving, loaded);
  }

  // Inputs

  /** One class with one reference, and an object of it that refers to itself. */
  const ONE_CLASS := Schema(map[7 := ClassInfo(None, [RefField])], Classes({7}, map[], map[]), 0)

  ghost function SelfHeap(flags: Byte, r: Ref): (h: Heap) {
    map[1 := Object(7, flags, map[7 := [Refs([r])]])]
  }

  lemma SelfHeapOk(flags: Byte, r: Ref)
    requires r.id == 1
    ensures HeapOk(ONE_CLASS, SelfHeap(flags, r)) && IsNode(ONE_CLASS, SelfHeap(flags, r), Node(1, 7))
  {
    assert Chain(ONE_CLASS, 7) == {7};
  }

  lemma SelfSaved(flags: Byte, r: Ref)
    requires r.id == 1 && HeapOk(ONE_CLASS, SelfHeap(flags, r))
    ensures Least(ONE_CLASS, SelfHeap(flags, r), Saving, {Node(1, 7)}, {Node(1, 7)})
  {
    var s, h, n := ONE_CLASS, SelfHeap(flags, r), Node(1, 7);
    SelfHeapOk(flags, r);
    OneLink(h, Saving, r);
    assert RefsIn([Refs([r])]) == [r] by {
      assert [Refs([r])][..0] == [];
    }
    assert Next(s, h, Saving, n) <= {n};
  }

  /** The loaded reference comes back unloaded when the object has a flag, the unloaded one loaded when it has none. */
  lemma ReferencesChange()
    ensures HeapOk(ONE_CLASS, SelfHeap(1, Loaded(1))) && HeapOk(ONE_CLASS, SelfHeap(0, Unloaded(1, 0)))
    ensures IsNode(ONE_CLASS, SelfHeap(1, Loaded(1)), Node(1, 7)) && IsNode(ONE_CLASS, SelfHeap(0, Unloaded(1, 0)), Node(1, 7))
    ensures Least(ONE_CLASS, SelfHeap(1, Loaded(1)), Saving, {Node(1, 7)}, {Node(1, 7)})
    ensures Least(ONE_CLASS, SelfHeap(0, Unloaded(1, 0)), Saving, {Node(1, 7)}, {Node(1, 7)})
    ensures Part(ONE_CLASS, SelfHeap(1, Loaded(1)), {1}, Node(1, 7)) == [Refs([Unloaded(1, 1)])]
    ensures Part(ONE_CLASS, SelfHeap(0, Unloaded(1, 0)), {1}, Node(1, 7)) == [Refs([Loaded(1)])]
  {
    SelfHeapOk(1, Loaded(1));
    SelfHeapOk(0, Unloaded(1, 0));
    SelfSaved(1, Loaded(1));
    SelfSaved(0, Unloaded(1, 0));
    hide Least, HeapOk, IsNode;
    assert ResolvedRefs(SelfHeap(1, Loaded(1)), {1}, [Loaded(1)]) == [Unloaded(1, 1)];
    assert ResolvedRefs(SelfHeap(0, Unloaded(1, 0)), {1}, [Unloaded(1, 0)]) == [Loaded(1)];
  }
}
