/**
  Binary streams: values of nested types written to a byte vector and read back from it.
  Types are given by their shape; a value is what the operators << and >> see of it.
 */
module MStream {
  import opened Bytes
  import opened Sequences
  import P = PackedInt

  /** How sizes are written: an unsigned integer of n bytes, or a Packed of some level. */
  datatype SizeType = Fixed(n: nat) | Packed(k: P.Level, m: P.FirstMax)

  /**
    Scalar: an arithmetic or enum value, or a fixed array of scalars, of so many bytes.
    Blob: a string, or a vector of scalars of so many bytes each.
    Sequence: a vector or deque of other values, resized before it is filled; List: a std::list.
    Array: a fixed array of other values.  Optional: a unique or shared pointer to a value.
   */
  datatype Type =
    | Scalar(width: nat)
    | Blob(width: nat)
    | Sequence(elem: Type)
    | List(elem: Type)
    | Array(elem: Type, n: nat)
    | Pair(first: Type, second: Type)
    | Map(key: Type, val: Type)
    | Optional(elem: Type)

  datatype Value =
    | Raw(bytes: seq<Byte>)
    | Many(values: seq<Value>)
    | Both(first: Value, second: Value)
    | Nothing
    | Something(value: Value)

  /** What is left to read, and whether the last read got its bytes. */
  datatype Reader = Reader(rest: seq<Byte>, ok: bool)

  function SizeLimit(sz: SizeType): (r: int) {
    if sz.Fixed? then Pow256(sz.n) else P.Upper(sz.k, sz.m)
  }

  function EncodeSize(sz: SizeType, n: nat): (r: seq<Byte>)
    requires n < SizeLimit(sz)
  {
    if sz.Fixed? then ToBytes(n, sz.n) else P.LimitsFit(sz.k, sz.m); P.Encode(sz.k, sz.m, n)
  }

  function Zeros(n: nat): (r: seq<Byte>)
    ensures |r| == n
  {
    seq(n, _ => 0)
  }

  function Read(r: Reader, n: nat): (o: (seq<Byte>, Reader))
    ensures |o.0| == n && |o.1.rest| <= |r.rest|
  {
    if |r.rest| < n then (Zeros(n), Reader(r.rest, false)) else (r.rest[..n], Reader(r.rest[n..], true))
  }

  function DecodeSize(sz: SizeType, r: Reader): (o: (nat, Reader))
    ensures |o.1.rest| <= |r.rest|
  {
    if sz.Fixed? then var (bytes, r') := Read(r, sz.n); (FromBytes(bytes), r')
    else
      P.DecodeShrinks(sz.k, sz.m, r.rest);
      match P.Decode(sz.k, sz.m, r.rest)
      case No(rest) => (0, Reader(rest, false))
      case Finished(v, rest) => (v, Reader(rest, true))
      case Next(v, rest) => (v, Reader(rest, true))
  }

  function BlobSize(n: nat, width: nat): (r: nat) {
    n * width
  }

  // Writing

  /** Values that can be written: they have the shape of their type, and their sizes fit the size type. */
  ghost predicate Fits(sz: SizeType, t: Type, v: Value)
    decreases t
  {
    match t
    case Scalar(w) => v.Raw? && |v.bytes| == w
    case Blob(w) => v.Raw? && w > 0 && |v.bytes| % w == 0 && |v.bytes| / w < SizeLimit(sz)
    case Sequence(e) => v.Many? && |v.values| < SizeLimit(sz) && forall x :: x in v.values ==> Fits(sz, e, x)
    case List(e) => v.Many? && |v.values| < SizeLimit(sz) && forall x :: x in v.values ==> Fits(sz, e, x)
    case Array(e, n) => v.Many? && |v.values| == n > 0 && forall x :: x in v.values ==> Fits(sz, e, x)
    case Pair(a, b) => v.Both? && Fits(sz, a, v.first) && Fits(sz, b, v.second)
    case Map(a, b) =>
      && v.Many? && |v.values| < SizeLimit(sz) && DistinctKeys(v.values)
      && forall x :: x in v.values ==> x.Both? && Fits(sz, a, x.first) && Fits(sz, b, x.second)
    case Optional(e) => v.Nothing? || (v.Something? && Fits(sz, e, v.value))
  }

  ghost predicate DistinctKeys(entries: seq<Value>) {
    && (forall x :: x in entries ==> x.Both?)
    && forall i, j :: 0 <= i < j < |entries| ==> entries[i].first != entries[j].first
  }

  function Encode(sz: SizeType, t: Type, v: Value): (r: seq<Byte>)
    requires Fits(sz, t, v)
    decreases t, 0
  {
    match t
    case Scalar(_) => v.bytes
    case Blob(w) => EncodeSize(sz, |v.bytes| / w) + v.bytes
    case Sequence(e) => EncodeSize(sz, |v.values|) + EncodeAll(sz, e, v.values)
    case List(e) => EncodeSize(sz, |v.values|) + EncodeAll(sz, e, v.values)
    case Array(e, _) => EncodeAll(sz, e, v.values)
    case Pair(a, b) => Encode(sz, a, v.first) + Encode(sz, b, v.second)
    case Map(a, b) => EncodeSize(sz, |v.values|) + EncodeEntries(sz, a, b, v.values)
    case Optional(e) => if v.Nothing? then [0] else [1] + Encode(sz, e, v.value)
  }

  function EncodeAll(sz: SizeType, t: Type, vs: seq<Value>): (r: seq<Byte>)
    requires forall x :: x in vs ==> Fits(sz, t, x)
    decreases t, 1, |vs|
  {
    if vs == [] then [] else Encode(sz, t, vs[0]) + EncodeAll(sz, t, vs[1..])
  }

  function EncodeEntries(sz: SizeType, a: Type, b: Type, vs: seq<Value>): (r: seq<Byte>)
    requires forall x :: x in vs ==> x.Both? && Fits(sz, a, x.first) && Fits(sz, b, x.second)
    decreases Map(a, b), 0, |vs|
  {
    if vs == [] then []
    else Encode(sz, a, vs[0].first) + Encode(sz, b, vs[0].second) + EncodeEntries(sz, a, b, vs[1..])
  }

  // Reading

  function Default(t: Type): (v: Value) {
    match t
    case Scalar(w) => Raw(Zeros(w))
    case Blob(_) => Raw([])
    case Array(e, n) => Many(seq(n, _ => Default(e)))
    case Pair(a, b) => Both(Default(a), Default(b))
    case Optional(_) => Nothing
    case _ => Many([])
  }

  function Decode(sz: SizeType, t: Type, r: Reader): (o: (Value, Reader))
    ensures |o.1.rest| <= |r.rest|
    decreases t, 0
  {
    match t
    case Scalar(w) => var (bytes, r') := Read(r, w); (Raw(bytes), r')
    case Blob(w) =>
      var (n, r') := DecodeSize(sz, r);
      if !r'.ok then (Raw([]), r') else var (bytes, r'') := Read(r', BlobSize(n, w)); (Raw(bytes), r'')
    case Sequence(e) =>
      var (n, r') := DecodeSize(sz, r);
      if !r'.ok then (Many([]), r') else var (vs, r'') := DecodeAll(sz, e, n, r', true); (Many(vs), r'')
    case List(e) =>
      var (n, r') := DecodeSize(sz, r);
      if !r'.ok then (Many([]), r') else var (vs, r'') := DecodeAll(sz, e, n, r', false); (Many(vs), r'')
    case Array(e, n) => var (vs, r') := DecodeAll(sz, e, n, r, true); (Many(vs), r')
    case Pair(a, b) =>
      var (x, r') := Decode(sz, a, r);
      var (y, r'') := Decode(sz, b, r');
      (Both(x, y), r'')
    case Map(a, b) =>
      var (n, r') := DecodeSize(sz, r);
      if !r'.ok then (Many([]), r') else var (vs, r'') := DecodeEntries(sz, a, b, n, r', []); (Many(vs), r'')
    case Optional(e) =>
      var (flag, r') := Read(r, 1);
      if !r'.ok || flag[0] == 0 then (Nothing, r')
      else var (x, r'') := Decode(sz, e, r'); (if r''.ok then Something(x) else Nothing, r'')
  }

  function Defaults(t: Type, n: nat): (vs: seq<Value>) {
    seq(n, _ => Default(t))
  }

  /** n values in a row, up to the first that is not read; what was resized before keeps its length. */
  function DecodeAll(sz: SizeType, t: Type, n: nat, r: Reader, resized: bool): (o: (seq<Value>, Reader))
    ensures |o.1.rest| <= |r.rest|
    decreases t, 1, n
  {
    if n == 0 then ([], r)
    else
      var (x, r') := Decode(sz, t, r);
      if !r'.ok then (if resized then [x] + Defaults(t, n - 1) else [], r')
      else var (vs, r'') := DecodeAll(sz, t, n - 1, r', resized); ([x] + vs, r'')
  }

  predicate HasKey(entries: seq<Value>, key: Value) {
    exists x :: x in entries && x.Both? && x.first == key
  }

  /** n entries in a row; emplace keeps the first value of a key. */
  function DecodeEntries(sz: SizeType, a: Type, b: Type, n: nat, r: Reader, entries: seq<Value>): (o: (seq<Value>, Reader))
    ensures |o.1.rest| <= |r.rest|
    decreases Map(a, b), 0, n
  {
    if n == 0 then (entries, r)
    else
      var (x, r') := Decode(sz, a, r);
      var (y, r'') := Decode(sz, b, r');
      if !r''.ok then (entries, r'')
      else DecodeEntries(sz, a, b, n - 1, r'', if HasKey(entries, x) then entries else entries + [Both(x, y)])
  }

  // Round trips

  lemma SizeRoundTrip(sz: SizeType, n: nat, rest: seq<Byte>, ok: bool)
    requires n < SizeLimit(sz)
    ensures DecodeSize(sz, Reader(EncodeSize(sz, n) + rest, ok)) == (n, Reader(rest, true))
  {
    if sz.Fixed? {
      var bytes := ToBytes(n, sz.n);
      FromToBytes(n, sz.n);
      assert (bytes + rest)[..sz.n] == bytes && (bytes + rest)[sz.n..] == rest;
    } else {
      P.LimitsFit(sz.k, sz.m);
      P.RoundTrip(sz.k, sz.m, n, rest);
    }
  }

  lemma ReadBack(bytes: seq<Byte>, rest: seq<Byte>, ok: bool)
    ensures Read(Reader(bytes + rest, ok), |bytes|) == (bytes, Reader(rest, true))
  {
    assert (bytes + rest)[..|bytes|] == bytes && (bytes + rest)[|bytes|..] == rest;
  }

  /** A value that fits is read back from what was written, and the bytes behind it are left. */
  lemma {:induction false} RoundTrip(sz: SizeType, t: Type, v: Value, rest: seq<Byte>, ok: bool)
    requires Fits(sz, t, v)
    ensures Decode(sz, t, Reader(Encode(sz, t, v) + rest, ok)) == (v, Reader(rest, true))
    decreases t, 0
  {
    hide EncodeSize, DecodeSize;
    match t
    case Scalar(w) => ReadBack(v.bytes, rest, ok);
    case Blob(w) => BlobRoundTrip(sz, w, v, rest, ok);
    case Sequence(e) =>
      Counted(sz, |v.values|, EncodeAll(sz, e, v.values), rest, ok);
      AllRoundTrip(sz, e, v.values, rest, true, true);
    case List(e) =>
      Counted(sz, |v.values|, EncodeAll(sz, e, v.values), rest, ok);
      AllRoundTrip(sz, e, v.values, rest, true, false);
    case Array(e, n) => AllRoundTrip(sz, e, v.values, rest, ok, true);
    case Pair(a, b) => BothRoundTrip(sz, a, b, v.first, v.second, rest, ok);
    case Map(a, b) =>
      Counted(sz, |v.values|, EncodeEntries(sz, a, b, v.values), rest, ok);
      assert [] + v.values == v.values;
      EntriesRoundTrip(sz, a, b, [], v.values, rest, true);
    case Optional(e) => OptionalRoundTrip(sz, e, v, rest, ok);
  }

  lemma Counted(sz: SizeType, n: nat, body: seq<Byte>, rest: seq<Byte>, ok: bool)
    requires n < SizeLimit(sz)
    ensures DecodeSize(sz, Reader(EncodeSize(sz, n) + body + rest, ok)) == (n, Reader(body + rest, true))
  {
    assert EncodeSize(sz, n) + body + rest == EncodeSize(sz, n) + (body + rest);
    SizeRoundTrip(sz, n, body + rest, ok);
  }

  lemma BlobRoundTrip(sz: SizeType, w: nat, v: Value, rest: seq<Byte>, ok: bool)
    requires Fits(sz, Blob(w), v)
    ensures Decode(sz, Blob(w), Reader(Encode(sz, Blob(w), v) + rest, ok)) == (v, Reader(rest, true))
  {
    hide EncodeSize, DecodeSize;
    Counted(sz, |v.bytes| / w, v.bytes, rest, ok);
    assert BlobSize(|v.bytes| / w, w) == |v.bytes|;
    ReadBack(v.bytes, rest, true);
  }

  lemma {:induction false} BothRoundTrip(sz: SizeType, a: Type, b: Type, x: Value, y: Value, rest: seq<Byte>, ok: bool)
    requires Fits(sz, a, x) && Fits(sz, b, y)
    ensures var (x', r) := Decode(sz, a, Reader(Encode(sz, a, x) + Encode(sz, b, y) + rest, ok));
            x' == x && Decode(sz, b, r) == (y, Reader(rest, true))
    decreases Pair(a, b), 0, 0
  {
    hide Encode, Decode, Fits;
    Regroup(Encode(sz, a, x), Encode(sz, b, y), rest);
    RoundTrip(sz, a, x, Encode(sz, b, y) + rest, ok);
    RoundTrip(sz, b, y, rest, true);
  }

  lemma {:induction false} OptionalRoundTrip(sz: SizeType, e: Type, v: Value, rest: seq<Byte>, ok: bool)
    requires Fits(sz, Optional(e), v)
    ensures Decode(sz, Optional(e), Reader(Encode(sz, Optional(e), v) + rest, ok)) == (v, Reader(rest, true))
    decreases Optional(e), 0, 0
  {
    if v.Nothing? {
      ReadBack([0], rest, ok);
    } else {
      var body := Encode(sz, e, v.value);
      assert [1] + body + rest == [1] + (body + rest);
      ReadBack([1], body + rest, ok);
      RoundTrip(sz, e, v.value, rest, true);
    }
  }

  /** A pointer is written as 0 when it is empty, and as 1 and what it points to otherwise; any other first byte than 0 says that it points to something. */
  lemma PointerBytes(sz: SizeType, e: Type, v: Value, first: Byte, rest: seq<Byte>, ok: bool)
    requires Fits(sz, e, v)
    ensures Encode(sz, Optional(e), Nothing) == [0]
    ensures Encode(sz, Optional(e), Something(v)) == [1] + Encode(sz, e, v)
    ensures Decode(sz, Optional(e), Reader([first] + Encode(sz, e, v) + rest, ok)).0 == if first == 0 then Nothing else Something(v)
  {
    hide Decode;
    var body := Encode(sz, e, v);
    assert [first] + body + rest == [first] + (body + rest);
    ReadBack([first], body + rest, ok);
    RoundTrip(sz, e, v, rest, true);
    PointerRead(sz, e, Reader([first] + body + rest, ok));
  }

  lemma PointerRead(sz: SizeType, e: Type, r: Reader)
    requires r.rest != []
    ensures Decode(sz, Optional(e), r) ==
            if r.rest[0] == 0 then (Nothing, Reader(r.rest[1..], true))
            else var (x, r') := Decode(sz, e, Reader(r.rest[1..], true)); (if r'.ok then Something(x) else Nothing, r')
  {
  }

  lemma {:induction false} AllRoundTrip(sz: SizeType, t: Type, vs: seq<Value>, rest: seq<Byte>, ok: bool, resized: bool)
    requires (forall x :: x in vs ==> Fits(sz, t, x)) && (ok || vs != [])
    ensures DecodeAll(sz, t, |vs|, Reader(EncodeAll(sz, t, vs) + rest, ok), resized) == (vs, Reader(rest, true))
    decreases t, 1, |vs|
  {
    hide Encode, Decode, Fits;
    if vs == [] {
      assert EncodeAll(sz, t, vs) + rest == rest;
    } else {
      var first, others := Encode(sz, t, vs[0]), EncodeAll(sz, t, vs[1..]);
      assert EncodeAll(sz, t, vs) + rest == first + (others + rest);
      RoundTrip(sz, t, vs[0], others + rest, ok);
      AllRoundTrip(sz, t, vs[1..], rest, true, resized);
      assert vs == [vs[0]] + vs[1..];
    }
  }

  lemma {:induction false} EntriesRoundTrip(sz: SizeType, a: Type, b: Type, read: seq<Value>, vs: seq<Value>,
                                            rest: seq<Byte>, ok: bool)
    requires forall x :: x in vs ==> x.Both? && Fits(sz, a, x.first) && Fits(sz, b, x.second)
    requires DistinctKeys(read + vs) && ok
    ensures DecodeEntries(sz, a, b, |vs|, Reader(EncodeEntries(sz, a, b, vs) + rest, ok), read) == (read + vs, Reader(rest, true))
    decreases Map(a, b), 0, |vs|
  {
    hide Encode, Decode, Fits;
    if vs == [] {
      assert EncodeEntries(sz, a, b, vs) + rest == rest && read + vs == read;
    } else {
      var x, y, others := vs[0].first, vs[0].second, EncodeEntries(sz, a, b, vs[1..]);
      var ys := Encode(sz, b, y);
      assert EncodeEntries(sz, a, b, vs) + rest == Encode(sz, a, x) + (ys + (others + rest));
      RoundTrip(sz, a, x, ys + (others + rest), ok);
      RoundTrip(sz, b, y, others + rest, true);
      NewKey(read, vs);
      assert read + [vs[0]] + vs[1..] == read + vs;
      EntriesRoundTrip(sz, a, b, read + [vs[0]], vs[1..], rest, true);
    }
  }

  lemma NewKey(read: seq<Value>, vs: seq<Value>)
    requires vs != [] && DistinctKeys(read + vs)
    ensures vs[0].Both? && !HasKey(read, vs[0].first)
  {
    assert vs[0] == (read + vs)[|read|] && vs[0] in read + vs;
    forall i | 0 <= i < |read|
      ensures read[i].Both? ==> read[i].first != vs[0].first
    {
      assert (read + vs)[i] == read[i];
    }
  }

  // The code

  class VectorWriter {
    var data: seq<Byte>

    constructor ()
      ensures data == []
    {
      data := [];
    }

    method Write(bytes: seq<Byte>)
      modifies this
      ensures data == old(data) + bytes
    {
      data := data + bytes;
    }
  }

  class VectorReader {
    const data: seq<Byte>
    var offset: nat
    var ok: bool

    ghost predicate Valid()
      reads this
    {
      offset <= |data|
    }

    function State(): (r: Reader)
      reads this
      requires Valid()
    {
      Reader(data[offset..], ok)
    }

    constructor (data: seq<Byte>)
      ensures Valid() && this.data == data && offset == 0 && State() == Reader(data, false)
    {
      this.data, offset, ok := data, 0, false;
    }

    /** Fills the target, or leaves it and the stream as they are. */
    method ReadInto(target: seq<Byte>) returns (bytes: seq<Byte>, count: nat)
      requires Valid()
      modifies this
      ensures Valid() && offset == old(offset) + count && ok == (|target| <= |old(State()).rest|)
      ensures State() == Read(old(State()), |target|).1
      ensures ok ==> count == |target| && bytes + State().rest == old(State()).rest
      ensures !ok ==> count == 0 && bytes == target
      ensures |bytes| == |target|
    {
      var n := |target|;
      if offset + n > |data| {
        ok := false;
        return target, 0;
      }
      bytes := data[offset..offset + n];
      offset := offset + n;
      ok := true;
      count := n;
      assert data[old(offset)..][n..] == data[offset..] && data[old(offset)..] == bytes + data[offset..];
    }

    /** A read into a fresh target. */
    method ReadBytes(n: nat) returns (bytes: seq<Byte>)
      requires Valid()
      modifies this
      ensures Valid() && offset >= old(offset) && (bytes, State()) == Read(old(State()), n)
    {
      var count;
      bytes, count := ReadInto(Zeros(n));
      Parted(bytes, State().rest);
    }
  }

  /** Packed::Serialize. */
  method SerializePacked(out: VectorWriter, k: P.Level, m: P.FirstMax, v: nat)
    requires v < P.Base(k)
    modifies out
    ensures out.data == old(out.data) + P.Encode(k, m, v)
    decreases k
  {
    if k == 0 {
      out.Write([v]);
      assert P.Encode(k, m, v) == [v];
      return;
    }
    hide P.HighPart, P.LowPart;
    P.LimitsFit(k - 1, m);
    if v >= P.Upper(k - 1, m) {
      SerializePacked(out, k - 1, m, P.HighPart(k, m, v));
      out.Write(ToBytes(P.LowPart(k, m, v), P.Width(k - 1)));
      Regroup(old(out.data), P.Encode(k - 1, m, P.HighPart(k, m, v)), ToBytes(P.LowPart(k, m, v), P.Width(k - 1)));
    } else {
      SerializePacked(out, k - 1, m, v);
    }
  }

  datatype PackedResult = NotRead | WholeRead | PartRead

  /** What Deserialize reports and leaves in the stream, given what is decoded. */
  ghost predicate Deserialized(d: P.Decoded, result: PackedResult, value: nat, r: Reader) {
    match d
    case No(rest) => result == NotRead && r == Reader(rest, false)
    case Finished(v, rest) => result == WholeRead && value == v && r == Reader(rest, true)
    case Next(v, rest) => result == PartRead && value == v && r == Reader(rest, true)
  }

  /** Packed::Deserialize. */
  method DeserializePacked(input: VectorReader, k: P.Level, m: P.FirstMax) returns (result: PackedResult, value: nat)
    requires input.Valid()
    modifies input
    ensures input.Valid() && Deserialized(P.Decode(k, m, old(input.State()).rest), result, value, input.State())
    decreases k
  {
    P.LimitsFit(k, m);
    if k == 0 {
      var bytes := input.ReadBytes(1);
      if !input.ok {
        return NotRead, 0;
      }
      var b: nat := bytes[0];
      if b >= P.Upper(0, m) {
        return PartRead, b - P.Upper(0, m);
      }
      return WholeRead, b;
    }
    P.LimitsFit(k - 1, m);
    P.NextLevel(k, m, old(input.State()).rest);
    hide P.Decode, P.Upper, P.Base;
    result, value := DeserializePacked(input, k - 1, m);
    if result == PartRead {
      var low := input.ReadBytes(P.Width(k - 1));
      if !input.ok {
        return NotRead, 0;
      }
      value := value * P.Base(k - 1) + FromBytes(low) + P.Upper(k - 1, m);
      if value >= P.Upper(k, m) {
        return PartRead, value - P.Upper(k, m);
      }
      return WholeRead, value;
    }
  }

  method WriteSize(out: VectorWriter, sz: SizeType, n: nat)
    requires n < SizeLimit(sz)
    modifies out
    ensures out.data == old(out.data) + EncodeSize(sz, n)
  {
    if sz.Fixed? {
      out.Write(ToBytes(n, sz.n));
    } else {
      P.LimitsFit(sz.k, sz.m);
      SerializePacked(out, sz.k, sz.m, n);
    }
  }

  method ReadSize(input: VectorReader, sz: SizeType) returns (n: nat)
    requires input.Valid()
    modifies input
    ensures input.Valid() && input.State() == DecodeSize(sz, old(input.State())).1
    ensures input.ok ==> n == DecodeSize(sz, old(input.State())).0
  {
    if sz.Fixed? {
      var bytes := input.ReadBytes(sz.n);
      n := FromBytes(bytes);
    } else {
      var result;
      result, n := DeserializePacked(input, sz.k, sz.m);
    }
  }

  /** The operators << of the container types, with a loop over the elements. */
  method WriteValue(out: VectorWriter, sz: SizeType, t: Type, v: Value)
    requires Fits(sz, t, v)
    modifies out
    ensures out.data == old(out.data) + Encode(sz, t, v)
    decreases t, 0
  {
    hide EncodeSize, SizeLimit, EncodeAll, EncodeEntries;
    match t
    case Scalar(_) => out.Write(v.bytes);
    case Blob(w) =>
      WriteSize(out, sz, |v.bytes| / w);
      out.Write(v.bytes);
      Regroup(old(out.data), EncodeSize(sz, |v.bytes| / w), v.bytes);
    case Sequence(e) =>
      WriteSize(out, sz, |v.values|);
      WriteAll(out, sz, e, v.values);
      Regroup(old(out.data), EncodeSize(sz, |v.values|), EncodeAll(sz, e, v.values));
    case List(e) =>
      WriteSize(out, sz, |v.values|);
      WriteAll(out, sz, e, v.values);
      Regroup(old(out.data), EncodeSize(sz, |v.values|), EncodeAll(sz, e, v.values));
    case Array(e, _) => WriteAll(out, sz, e, v.values);
    case Pair(a, b) =>
      WriteValue(out, sz, a, v.first);
      WriteValue(out, sz, b, v.second);
      Regroup(old(out.data), Encode(sz, a, v.first), Encode(sz, b, v.second));
    case Map(a, b) =>
      WriteSize(out, sz, |v.values|);
      WriteEntries(out, sz, a, b, v.values);
      Regroup(old(out.data), EncodeSize(sz, |v.values|), EncodeEntries(sz, a, b, v.values));
    case Optional(e) =>
      if v.Nothing? {
        out.Write([0]);
      } else {
        out.Write([1]);
        WriteValue(out, sz, e, v.value);
        Regroup(old(out.data), [1], Encode(sz, e, v.value));
      }
  }

  method WriteAll(out: VectorWriter, sz: SizeType, t: Type, vs: seq<Value>)
    requires forall x :: x in vs ==> Fits(sz, t, x)
    modifies out
    ensures out.data == old(out.data) + EncodeAll(sz, t, vs)
    decreases t, 1
  {
    hide Fits, Encode;
    ghost var written := [];
    var i := 0;
    while i < |vs|
      invariant i <= |vs| && out.data == old(out.data) + written
      invariant written + EncodeAll(sz, t, vs[i..]) == EncodeAll(sz, t, vs)
    {
      assert vs[i..][1..] == vs[i + 1..];
      WriteValue(out, sz, t, vs[i]);
      Regroup(written, Encode(sz, t, vs[i]), EncodeAll(sz, t, vs[i + 1..]));
      written := written + Encode(sz, t, vs[i]);
      i := i + 1;
    }
  }

  method WriteEntry(out: VectorWriter, sz: SizeType, a: Type, b: Type, key: Value, val: Value)
    requires Fits(sz, a, key) && Fits(sz, b, val)
    modifies out
    ensures out.data == old(out.data) + (Encode(sz, a, key) + Encode(sz, b, val))
    decreases Map(a, b), 0, 0
  {
    hide Fits, Encode;
    WriteValue(out, sz, a, key);
    WriteValue(out, sz, b, val);
    Regroup(old(out.data), Encode(sz, a, key), Encode(sz, b, val));
  }

  method WriteEntries(out: VectorWriter, sz: SizeType, a: Type, b: Type, vs: seq<Value>)
    requires forall x :: x in vs ==> x.Both? && Fits(sz, a, x.first) && Fits(sz, b, x.second)
    modifies out
    ensures out.data == old(out.data) + EncodeEntries(sz, a, b, vs)
    decreases Map(a, b), 0, 1
  {
    hide Fits, Encode, EncodeEntries;
    ghost var written := [];
    var i := 0;
    assert vs[0..] == vs;
    while i < |vs|
      invariant i <= |vs| && out.data == old(out.data) + written
      invariant written + EncodeEntries(sz, a, b, vs[i..]) == EncodeEntries(sz, a, b, vs)
    {
      FirstEntry(sz, a, b, vs[i..]);
      assert vs[i..][1..] == vs[i + 1..];
      WriteEntry(out, sz, a, b, vs[i].first, vs[i].second);
      ghost var entry := Encode(sz, a, vs[i].first) + Encode(sz, b, vs[i].second);
      Regroup(written, entry, EncodeEntries(sz, a, b, vs[i + 1..]));
      Regroup(old(out.data), written, entry);
      written := written + entry;
      i := i + 1;
    }
    NoEntries(sz, a, b);
  }

  lemma FirstEntry(sz: SizeType, a: Type, b: Type, vs: seq<Value>)
    requires vs != [] && forall x :: x in vs ==> x.Both? && Fits(sz, a, x.first) && Fits(sz, b, x.second)
    ensures EncodeEntries(sz, a, b, vs) ==
            Encode(sz, a, vs[0].first) + Encode(sz, b, vs[0].second) + EncodeEntries(sz, a, b, vs[1..])
  {
    hide Fits, Encode;
  }

  lemma NoEntries(sz: SizeType, a: Type, b: Type)
    ensures EncodeEntries(sz, a, b, []) == []
  {
  }

  /** The operators >>. */
  method ReadValue(input: VectorReader, sz: SizeType, t: Type) returns (v: Value)
    requires input.Valid()
    modifies input
    ensures input.Valid() && (v, input.State()) == Decode(sz, t, old(input.State()))
    decreases t, 0
  {
    hide DecodeSize;
    match t
    case Scalar(w) =>
      var bytes := input.ReadBytes(w);
      v := Raw(bytes);
    case Blob(w) =>
      var n := ReadSize(input, sz);
      v := Raw([]);
      if input.ok {
        var bytes := input.ReadBytes(BlobSize(n, w));
        v := Raw(bytes);
      }
    case Sequence(e) =>
      var n := ReadSize(input, sz);
      v := Many([]);
      if input.ok {
        var vs := ReadAll(input, sz, e, n, true);
        v := Many(vs);
      }
    case List(e) =>
      var n := ReadSize(input, sz);
      v := Many([]);
      if input.ok {
        var vs := ReadAll(input, sz, e, n, false);
        v := Many(vs);
      }
    case Array(e, n) =>
      var vs := ReadAll(input, sz, e, n, true);
      v := Many(vs);
    case Pair(a, b) =>
      var x := ReadValue(input, sz, a);
      var y := ReadValue(input, sz, b);
      v := Both(x, y);
    case Map(a, b) =>
      var n := ReadSize(input, sz);
      v := Many([]);
      if input.ok {
        var vs := ReadEntries(input, sz, a, b, n);
        v := Many(vs);
      }
    case Optional(e) =>
      var flag := input.ReadBytes(1);
      v := Nothing;
      if input.ok && flag[0] != 0 {
        var x := ReadValue(input, sz, e);
        if input.ok {
          v := Something(x);
        }
      }
  }

  method ReadAll(input: VectorReader, sz: SizeType, t: Type, n: nat, resized: bool) returns (vs: seq<Value>)
    requires input.Valid()
    modifies input
    ensures input.Valid() && (vs, input.State()) == DecodeAll(sz, t, n, old(input.State()), resized)
    decreases t, 1
  {
    hide Decode, DecodeAll;
    vs := [];
    var i := 0;
    while i < n
      invariant i <= n && input.Valid()
      invariant DecodeAll(sz, t, n, old(input.State()), resized).0 == vs + DecodeAll(sz, t, n - i, input.State(), resized).0
      invariant DecodeAll(sz, t, n, old(input.State()), resized).1 == DecodeAll(sz, t, n - i, input.State(), resized).1
    {
      NextOfAll(sz, t, n - i, input.State(), resized);
      var x := ReadValue(input, sz, t);
      if !input.ok {
        assert vs + [] == vs;
        if resized {
          vs := vs + ([x] + Defaults(t, n - i - 1));
        }
        return;
      }
      ghost var rest := DecodeAll(sz, t, n - i - 1, input.State(), resized).0;
      Regroup(vs, [x], rest);
      vs := vs + [x];
      i := i + 1;
    }
    NoneOfAll(sz, t, input.State(), resized);
    assert vs + [] == vs;
  }

  lemma NextOfAll(sz: SizeType, t: Type, n: nat, r: Reader, resized: bool)
    requires n > 0
    ensures var (x, r') := Decode(sz, t, r);
            DecodeAll(sz, t, n, r, resized) ==
            if !r'.ok then (if resized then [x] + Defaults(t, n - 1) else [], r')
            else ([x] + DecodeAll(sz, t, n - 1, r', resized).0, DecodeAll(sz, t, n - 1, r', resized).1)
  {
    hide Decode;
  }

  lemma NoneOfAll(sz: SizeType, t: Type, r: Reader, resized: bool)
    ensures DecodeAll(sz, t, 0, r, resized) == ([], r)
  {
  }

  method ReadEntries(input: VectorReader, sz: SizeType, a: Type, b: Type, n: nat) returns (vs: seq<Value>)
    requires input.Valid()
    modifies input
    ensures input.Valid() && (vs, input.State()) == DecodeEntries(sz, a, b, n, old(input.State()), [])
    decreases Map(a, b), 0, 0
  {
    hide Decode;
    vs := [];
    var i := 0;
    while i < n
      invariant i <= n && input.Valid()
      invariant DecodeEntries(sz, a, b, n, old(input.State()), []) == DecodeEntries(sz, a, b, n - i, input.State(), vs)
    {
      var x := ReadValue(input, sz, a);
      var y := ReadValue(input, sz, b);
      if !input.ok {
        return;
      }
      if !HasKey(vs, x) {
        vs := vs + [Both(x, y)];
      }
      i := i + 1;
    }
  }
}
