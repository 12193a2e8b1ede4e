/**
  The messages of the SafeStream interface on the wire: PacketBuilder packs a sequence of them, and
  ApiParser reads message after message and dispatches each.
 */
module ApiProtocol {
  import opened Bytes
  import opened Sequences
  import opened MStream
  import opened SafeStreamTypes
  import opened StreamCuts
  import P = PackedInt

  datatype ApiMessage =
    | Close
    | RequestReport
    | PutReport(offset: nat)
    | Stream(message: Message)

  /** PackedSize: Packed<uint64_t, uint8_t, 250>. */
  const PACKED_SIZE := SizeType.Packed(3, 250)

  const U16 := Scalar(2)
  const DATA := Blob(1)

  const CODES := {2, 3, 4, 5, 6, 7, 8}

  function CodeOf(m: ApiMessage): (c: Byte)
    ensures c in CODES
  {
    match m
    case Close => 2
    case RequestReport => 3
    case PutReport(_) => 4
    case Stream(Confirm(_)) => 5
    case Stream(RequestRepeat(_)) => 6
    case Stream(Send(_, _)) => 7
    case Stream(Repeat(_, _, _)) => 8
  }

  /** The fields of a message, in the order of its Serializator. */
  function Layout(code: Byte): (t: Type)
    requires code in CODES
  {
    if code == 2 || code == 3 then Scalar(0)
    else if code <= 6 then U16
    else if code == 7 then Pair(U16, DATA)
    else Pair(U16, Pair(U16, DATA))
  }

  function Short(n: nat): (v: Value) {
    Raw(ToBytes(n, 2))
  }

  function Fields(m: ApiMessage): (v: Value) {
    match m
    case Close => Raw([])
    case RequestReport => Raw([])
    case PutReport(o) => Short(o)
    case Stream(Confirm(o)) => Short(o)
    case Stream(RequestRepeat(o)) => Short(o)
    case Stream(Send(o, data)) => Both(Short(o), Raw(data))
    case Stream(Repeat(n, o, data)) => Both(Short(n), Both(Short(o), Raw(data)))
  }

  /** Offsets and counts are of type uint16_t, and data is not longer than a size can say. */
  ghost predicate Sendable(m: ApiMessage) {
    match m
    case Close => true
    case RequestReport => true
    case PutReport(o) => o <= MAX
    case Stream(Repeat(n, o, data)) => n <= MAX && o <= MAX && |data| < SizeLimit(PACKED_SIZE)
    case Stream(Send(o, data)) => o <= MAX && |data| < SizeLimit(PACKED_SIZE)
    case Stream(m) => m.offset <= MAX
  }

  /** The message that a value of its layout is. */
  function FromFields(code: Byte, v: Value): (m: ApiMessage)
    requires code in CODES && HasLayout(code, v)
  {
    if code == 2 then Close
    else if code == 3 then RequestReport
    else if code == 4 then PutReport(FromBytes(v.bytes))
    else if code == 5 then Stream(Confirm(FromBytes(v.bytes)))
    else if code == 6 then Stream(RequestRepeat(FromBytes(v.bytes)))
    else if code == 7 then Stream(Send(FromBytes(v.first.bytes), v.second.bytes))
    else Stream(Repeat(FromBytes(v.first.bytes), FromBytes(v.second.first.bytes), v.second.second.bytes))
  }

  predicate HasLayout(code: Byte, v: Value)
    requires code in CODES
  {
    if code <= 6 then v.Raw?
    else if code == 7 then v.Both? && v.first.Raw? && v.second.Raw?
    else v.Both? && v.first.Raw? && v.second.Both? && v.second.first.Raw? && v.second.second.Raw?
  }

  lemma DecodedHasLayout(code: Byte, r: Reader)
    requires code in CODES
    ensures HasLayout(code, Decode(PACKED_SIZE, Layout(code), r).0)
  {
    hide DecodeSize;
  }

  lemma FieldsFit(m: ApiMessage)
    requires Sendable(m)
    ensures Fits(PACKED_SIZE, Layout(CodeOf(m)), Fields(m))
  {
    hide SizeLimit;
  }

  lemma FieldsBack(m: ApiMessage)
    requires Sendable(m)
    ensures HasLayout(CodeOf(m), Fields(m)) && FromFields(CodeOf(m), Fields(m)) == m
  {
    assert Pow256(2) == 65536;
    forall n: nat | n <= MAX
      ensures FromBytes(ToBytes(n, 2)) == n
    {
      FromToBytes(n, 2);
    }
  }

  // Packing

  function Pack(m: ApiMessage): (s: seq<Byte>)
    requires Sendable(m)
  {
    FieldsFit(m);
    [CodeOf(m)] + Encode(PACKED_SIZE, Layout(CodeOf(m)), Fields(m))
  }

  function PackAll(ms: seq<ApiMessage>): (s: seq<Byte>)
    requires forall m :: m in ms ==> Sendable(m)
  {
    if ms == [] then [] else Pack(ms[0]) + PackAll(ms[1..])
  }

  /** Every message byte by byte: its code, its numbers least significant byte first, and its data behind their size. */
  lemma MessageBytes(n: nat, o: nat, data: seq<Byte>)
    requires n <= MAX && o <= MAX && |data| <= 1514
    ensures |data| < SizeLimit(PACKED_SIZE)
    ensures Pack(Close) == [2] && Pack(RequestReport) == [3] && Pack(PutReport(o)) == [4, o % 256, o / 256]
    ensures Pack(Stream(Confirm(o))) == [5, o % 256, o / 256] && Pack(Stream(RequestRepeat(o))) == [6, o % 256, o / 256]
    ensures var size := if |data| <= 250 then [|data|] else [251 + (|data| - 251) / 256, (|data| - 251) % 256];
            && Pack(Stream(Send(o, data))) == [7, o % 256, o / 256] + size + data
            && Pack(Stream(Repeat(n, o, data))) == [8, n % 256, n / 256, o % 256, o / 256] + size + data
  {
    ShortBytes(o);
    ShortBytes(n);
    SmallSize(|data|);
    NumbersPacked(o);
    DataPacked(n, o, data);
    hide Pack, ToBytes, EncodeSize, SizeLimit;
  }

  lemma SmallSize(n: nat)
    requires n <= 1514
    ensures n < SizeLimit(PACKED_SIZE)
    ensures EncodeSize(PACKED_SIZE, n) == if n <= 250 then [n] else [251 + (n - 251) / 256, (n - 251) % 256]
  {
    P.LimitValues(250);
    P.ShortCodes(n);
    hide P.Encode;
  }

  lemma NumbersPacked(o: nat)
    requires o <= MAX
    ensures Pack(Close) == [2] && Pack(RequestReport) == [3] && Pack(PutReport(o)) == [4] + ToBytes(o, 2)
    ensures Pack(Stream(Confirm(o))) == [5] + ToBytes(o, 2) && Pack(Stream(RequestRepeat(o))) == [6] + ToBytes(o, 2)
  {
    hide ToBytes, SizeLimit;
  }

  lemma DataPacked(n: nat, o: nat, data: seq<Byte>)
    requires n <= MAX && o <= MAX && |data| < SizeLimit(PACKED_SIZE)
    ensures Pack(Stream(Send(o, data))) == [7] + ToBytes(o, 2) + EncodeSize(PACKED_SIZE, |data|) + data
    ensures Pack(Stream(Repeat(n, o, data))) == [8] + ToBytes(n, 2) + ToBytes(o, 2) + EncodeSize(PACKED_SIZE, |data|) + data
  {
    hide ToBytes, EncodeSize, SizeLimit;
  }

  lemma ShortBytes(n: nat)
    requires n <= MAX
    ensures ToBytes(n, 2) == [n % 256, n / 256]
  {
    assert ToBytes(n / 256, 1) == [n / 256];
  }

  // Parsing

  /** One turn of Parse: the message dispatched, if the code is known, and the reader behind it. */
  function ParseOne(r: Reader): (o: (seq<ApiMessage>, Reader))
    requires r.rest != []
    ensures |o.1.rest| < |r.rest|
  {
    var code, r' := r.rest[0], Reader(r.rest[1..], true);
    if code in CODES then
      DecodedHasLayout(code, r');
      var (v, r'') := Decode(PACKED_SIZE, Layout(code), r');
      ([FromFields(code, v)], r'')
    else ([], r')
  }

  /** Parse ends on every input: each turn takes at least the code. */
  function ParseAll(r: Reader): (ms: seq<ApiMessage>)
    decreases |r.rest|
  {
    if r.rest == [] then [] else var (ms, r') := ParseOne(r); ms + ParseAll(r')
  }

  lemma ParseNext(r: Reader)
    requires r.rest != []
    ensures ParseAll(r) == ParseOne(r).0 + ParseAll(ParseOne(r).1)
  {
    hide ParseOne;
  }

  lemma ParseNone(r: Reader)
    requires r.rest == []
    ensures ParseAll(r) == []
  {
  }

  lemma ParsePacked(m: ApiMessage, rest: seq<Byte>, ok: bool)
    requires Sendable(m)
    ensures ParseOne(Reader(Pack(m) + rest, ok)) == ([m], Reader(rest, true))
  {
    hide Encode, Decode, Layout, Fields, FromFields;
    FieldsFit(m);
    FieldsBack(m);
    var code, body := CodeOf(m), Encode(PACKED_SIZE, Layout(CodeOf(m)), Fields(m));
    RoundTrip(PACKED_SIZE, Layout(code), Fields(m), rest, true);
    assert (Pack(m) + rest)[0] == code && (Pack(m) + rest)[1..] == body + rest;
  }

  /** What PacketBuilder packs, ApiParser dispatches: the same messages in the same order. */
  lemma {:induction false} ParsePackedAll(ms: seq<ApiMessage>, ok: bool)
    requires forall m :: m in ms ==> Sendable(m)
    ensures ParseAll(Reader(PackAll(ms), ok)) == ms
    decreases |ms|
  {
    if ms == [] {
    } else {
      ParsePacked(ms[0], PackAll(ms[1..]), ok);
      ParsePackedAll(ms[1..], true);
    }
  }

  /** A code that no message has is skipped, and what follows is parsed as if it was not there. */
  lemma UnknownCodeIsSkipped(code: Byte, ms: seq<ApiMessage>, ok: bool)
    requires (code < 2 || code > 8) && forall m :: m in ms ==> Sendable(m)
    ensures ParseAll(Reader([code] + PackAll(ms), ok)) == ms
  {
    hide PackAll, Decode, Layout, FromFields;
    var r := Reader([code] + PackAll(ms), ok);
    assert r.rest[0] == code && r.rest[1..] == PackAll(ms);
    ParsePackedAll(ms, true);
  }

  // Packets that end too early

  /** How many messages lie wholly within the first n bytes of a packet. */
  ghost function WholeMessages(ms: seq<ApiMessage>, n: nat): (k: nat)
    requires forall m :: m in ms ==> Sendable(m)
    ensures k <= |ms|
  {
    if ms == [] || n < |Pack(ms[0])| then 0 else 1 + WholeMessages(ms[1..], n - |Pack(ms[0])|)
  }

  /** How many bytes of the message behind them are there. */
  ghost function BytesOfCut(ms: seq<ApiMessage>, n: nat): (c: nat)
    requires forall m :: m in ms ==> Sendable(m)
  {
    if ms == [] || n < |Pack(ms[0])| then n else BytesOfCut(ms[1..], n - |Pack(ms[0])|)
  }

  /** What is read for the first n bytes of a message, code included. */
  ghost function MadeUp(m: ApiMessage, n: nat): (x: ApiMessage)
    requires Sendable(m) && 0 < n < |Pack(m)|
  {
    var r := Reader(Pack(m)[1..n], true);
    DecodedHasLayout(CodeOf(m), r);
    FromFields(CodeOf(m), Decode(PACKED_SIZE, Layout(CodeOf(m)), r).0)
  }

  /** And what is left then: it is parsed as messages again. */
  ghost function LeftOf(m: ApiMessage, n: nat): (r: Reader)
    requires Sendable(m) && 0 < n < |Pack(m)|
  {
    FieldsFit(m);
    Rest(PACKED_SIZE, Layout(CodeOf(m)), Fields(m), n - 1)
  }

  lemma CutMessage(m: ApiMessage, n: nat, ok: bool)
    requires Sendable(m) && 0 < n < |Pack(m)|
    ensures ParseAll(Reader(Pack(m)[..n], ok)) == [MadeUp(m, n)] + ParseAll(LeftOf(m, n))
  {
    hide Encode, Layout, Fields, FromFields, Decode, Rest;
    FieldsFit(m);
    var r := Reader(Pack(m)[..n], ok);
    var body := Encode(PACKED_SIZE, Layout(CodeOf(m)), Fields(m));
    assert r.rest[0] == CodeOf(m) && r.rest[1..] == body[..n - 1] && Pack(m)[1..n] == body[..n - 1];
    CutReads(PACKED_SIZE, Layout(CodeOf(m)), Fields(m), n - 1, true);
    ParseNext(r);
  }

  lemma MadeUpHasCode(m: ApiMessage, n: nat)
    requires Sendable(m) && 0 < n < |Pack(m)|
    ensures CodeOf(MadeUp(m, n)) == CodeOf(m)
  {
    hide Encode, Layout, Fields, Decode;
  }

  /**
    A packet that is cut dispatches its whole messages first, and nothing else if and only if the cut is where
    a message ends.  Otherwise it dispatches one message with the code of the message cut, and then whatever
    the bytes that this one leaves unread are taken for.
   */
  lemma {:induction false} CutPacketIff(ms: seq<ApiMessage>, n: nat, ok: bool)
    requires (forall m :: m in ms ==> Sendable(m)) && n <= |PackAll(ms)|
    ensures var dispatched, k, c := ParseAll(Reader(PackAll(ms)[..n], ok)), WholeMessages(ms, n), BytesOfCut(ms, n);
            && (dispatched == ms[..k] <==> c == 0)
            && (c > 0 ==> k < |ms| && c < |Pack(ms[k])| && CodeOf(MadeUp(ms[k], c)) == CodeOf(ms[k])
                          && dispatched == ms[..k] + ([MadeUp(ms[k], c)] + ParseAll(LeftOf(ms[k], c))))
    decreases |ms|
  {
    hide Pack, ParseOne, Sendable, ParseAll, MadeUp, LeftOf;
    if ms == [] {
      ParseNone(Reader(PackAll(ms)[..n], ok));
    } else {
      PackedIsNotEmpty(ms[0]);
      var first, others := Pack(ms[0]), PackAll(ms[1..]);
      if n == 0 {
        ParseNone(Reader(PackAll(ms)[..n], ok));
      } else if n < |first| {
        assert PackAll(ms)[..n] == first[..n];
        CutMessage(ms[0], n, ok);
        MadeUpHasCode(ms[0], n);
        assert ms[..0] == [];
      } else {
        var rest := others[..n - |first|];
        assert PackAll(ms)[..n] == first + rest;
        ParsePacked(ms[0], rest, ok);
        ParseNext(Reader(first + rest, ok));
        CutPacketIff(ms[1..], n - |first|, true);
        Shifted(ms, WholeMessages(ms[1..], n - |first|), ParseAll(Reader(rest, true)));
      }
    }
  }

  lemma Shifted(ms: seq<ApiMessage>, k: nat, later: seq<ApiMessage>)
    requires ms != [] && k < |ms|
    ensures ms[..k + 1] == [ms[0]] + ms[1..][..k]
    ensures [ms[0]] + later == ms[..k + 1] <==> later == ms[1..][..k]
    ensures forall x :: later == ms[1..][..k] + x ==> [ms[0]] + later == ms[..k + 1] + x
  {
    if [ms[0]] + later == ms[..k + 1] {
      assert ([ms[0]] + later)[1..] == later && ms[..k + 1][1..] == ms[1..][..k];
    }
  }

  lemma PackedIsNotEmpty(m: ApiMessage)
    requires Sendable(m)
    ensures |Pack(m)| > 0
  {
  }

  // What cut messages are taken for

  /** A Send that is cut behind its code is dispatched as a Send of nothing at offset 0. */
  lemma CutSend(o: nat, data: seq<Byte>, ok: bool)
    requires Sendable(Stream(Send(o, data)))
    ensures |Pack(Stream(Send(o, data)))| > 1
    ensures ParseAll(Reader(Pack(Stream(Send(o, data)))[..1], ok)) == [Stream(Send(0, []))]
  {
    var m := Stream(Send(o, data));
    FieldsFit(m);
    assert Pack(m)[..1] == [7];
    SendOfNothing(ok);
  }

  lemma SendOfNothing(ok: bool)
    ensures ParseAll(Reader([7], ok)) == [Stream(Send(0, []))]
  {
    var r := Reader([7], ok);
    assert r.rest[1..] == [];
    assert Zeros(2) == [0, 0] && FromBytes([0]) == 0 && FromBytes([0, 0]) == 0;
  }

  /** The bytes of a Send that is cut j bytes into its data. */
  ghost function SendCutInData(o: nat, data: seq<Byte>, j: nat): (s: seq<Byte>)
    requires Sendable(Stream(Send(o, data))) && j < |data|
  {
    [7] + (ToBytes(o, 2) + (EncodeSize(PACKED_SIZE, |data|) + data[..j]))
  }

  /**
    A Send that is cut within its data is dispatched with its offset and its full length, but with zeros for
    data; the bytes of its data that are there are then parsed as messages.
   */
  lemma CutSendData(o: nat, data: seq<Byte>, j: nat, ok: bool)
    requires Sendable(Stream(Send(o, data))) && j < |data|
    ensures SendCutInData(o, data, j) <= Pack(Stream(Send(o, data)))
    ensures ParseAll(Reader(SendCutInData(o, data, j), ok))
            == [Stream(Send(o, Zeros(|data|)))] + ParseAll(Reader(data[..j], false))
  {
    PackedSend(o, data);
    var r, size := Reader(SendCutInData(o, data, j), ok), EncodeSize(PACKED_SIZE, |data|);
    hide Pack, EncodeSize, ParseAll, DecodeSize, ToBytes, FromBytes, Zeros;
    assert data == data[..j] + data[j..];
    Regroup(size, data[..j], data[j..]);
    Regroup(ToBytes(o, 2), size + data[..j], data[j..]);
    Regroup([7], ToBytes(o, 2) + (size + data[..j]), data[j..]);
    Parted(SendCutInData(o, data, j), data[j..]);
    var rest := ToBytes(o, 2) + (size + data[..j]);
    assert r.rest[0] == 7 && r.rest[1..] == rest;
    ReadsSend(o, data, j, rest);
    ParseNext(r);
  }

  lemma PackedSend(o: nat, data: seq<Byte>)
    requires Sendable(Stream(Send(o, data)))
    ensures Pack(Stream(Send(o, data))) == [7] + (ToBytes(o, 2) + (EncodeSize(PACKED_SIZE, |data|) + data))
  {
    hide EncodeSize;
  }

  lemma ReadsSend(o: nat, data: seq<Byte>, j: nat, rest: seq<Byte>)
    requires Sendable(Stream(Send(o, data))) && j < |data|
    requires rest == ToBytes(o, 2) + (EncodeSize(PACKED_SIZE, |data|) + data[..j])
    ensures Decode(PACKED_SIZE, Pair(U16, DATA), Reader(rest, true))
            == (Both(Raw(ToBytes(o, 2)), Raw(Zeros(|data|))), Reader(data[..j], false))
    ensures FromBytes(ToBytes(o, 2)) == o
  {
    hide EncodeSize, DecodeSize;
    assert Pow256(2) == 65536;
    FromToBytes(o, 2);
    ReadBack(ToBytes(o, 2), EncodeSize(PACKED_SIZE, |data|) + data[..j], true);
    SizeRoundTrip(PACKED_SIZE, |data|, data[..j], true);
    assert BlobSize(|data|, 1) == |data|;
  }

  /** A Confirm that is cut within its offset confirms offset 0, and the low byte of the offset is parsed again. */
  lemma CutConfirm(o: nat, ok: bool)
    requires Sendable(Stream(Confirm(o)))
    ensures |Pack(Stream(Confirm(o)))| == 3
    ensures ParseAll(Reader(Pack(Stream(Confirm(o)))[..2], ok))
            == [Stream(Confirm(0))] + ParseAll(Reader([o % 256], false))
  {
    var low := o % 256;
    assert Pack(Stream(Confirm(o)))[..2] == [5, low];
    hide Pack, ParseAll;
    var r := Reader([5, low], ok);
    assert r.rest[1..] == [low];
    assert Zeros(2) == [0, 0] && FromBytes([0]) == 0 && FromBytes([0, 0]) == 0;
    ParseNext(r);
  }

  /** Such as a Confirm of 5, which becomes two Confirms of 0. */
  lemma CutConfirmOfFive(ok: bool)
    ensures |Pack(Stream(Confirm(5)))| == 3
    ensures ParseAll(Reader(Pack(Stream(Confirm(5)))[..2], ok)) == [Stream(Confirm(0)), Stream(Confirm(0))]
  {
    hide Pack, ParseAll;
    CutConfirm(5, ok);
    ConfirmOfNothing(false);
  }

  lemma ConfirmOfNothing(ok: bool)
    ensures ParseAll(Reader([5], ok)) == [Stream(Confirm(0))]
  {
    hide ParseAll;
    var r := Reader([5], ok);
    assert r.rest[1..] == [];
    assert Zeros(2) == [0, 0] && FromBytes([0]) == 0 && FromBytes([0, 0]) == 0;
    ParseNext(r);
    ParseNone(Reader([], false));
  }

  /** A Repeat that is cut is read without an error if and only if one byte of its count or of its offset is there, and is 0. */
  lemma RepeatCutUnnoticedIff(c: nat, o: nat, data: seq<Byte>, n: nat, ok: bool)
    requires Sendable(Stream(Repeat(c, o, data)))
    requires 0 < n < |Pack(Stream(Repeat(c, o, data)))|
    ensures LeftOf(Stream(Repeat(c, o, data)), n).ok <==> (n == 2 && c % 256 == 0) || (n == 4 && o % 256 == 0)
  {
  }

  // The code

  /** PacketBuilder::Pack. */
  method PackPacket(messages: seq<ApiMessage>) returns (data: seq<Byte>)
    requires forall m :: m in messages ==> Sendable(m)
    ensures data == PackAll(messages)
  {
    hide Encode, Layout, Fields, Sendable;
    var out := new VectorWriter();
    ghost var written := [];
    var i := 0;
    while i < |messages|
      invariant i <= |messages| && out.data == written && written + PackAll(messages[i..]) == PackAll(messages)
      modifies out
    {
      var m := messages[i];
      FieldsFit(m);
      assert messages[i..][1..] == messages[i + 1..];
      out.Write([CodeOf(m)]);
      WriteValue(out, PACKED_SIZE, Layout(CodeOf(m)), Fields(m));
      Regroup(written, [CodeOf(m)], Encode(PACKED_SIZE, Layout(CodeOf(m)), Fields(m)));
      Regroup(written, Pack(m), PackAll(messages[i + 1..]));
      written := written + Pack(m);
      i := i + 1;
    }
    assert written + [] == written;
    data := out.data;
  }

  /** LoadFactory: a code that is not known is skipped, as in a build without assertions. */
  method ParseTurn(input: VectorReader) returns (dispatched: seq<ApiMessage>)
    requires input.Valid() && input.offset < |input.data|
    modifies input
    ensures input.Valid() && (dispatched, input.State()) == ParseOne(old(input.State()))
  {
    hide Decode, Layout, FromFields;
    var bytes := input.ReadBytes(1);
    var code := bytes[0];
    dispatched := [];
    if code in CODES {
      DecodedHasLayout(code, input.State());
      var v := ReadValue(input, PACKED_SIZE, Layout(code));
      dispatched := [FromFields(code, v)];
    }
  }

  /** ApiParser::Parse. */
  method ParsePacket(data: seq<Byte>) returns (messages: seq<ApiMessage>)
    ensures messages == ParseAll(Reader(data, false))
  {
    hide ParseOne, ParseAll;
    var input := new VectorReader(data);
    messages := [];
    while input.offset < |input.data|
      invariant input.Valid() && messages + ParseAll(input.State()) == ParseAll(Reader(data, false))
      modifies input
      decreases |input.State().rest|
    {
      ParseNext(input.State());
      var dispatched := ParseTurn(input);
      Regroup(messages, dispatched, ParseAll(input.State()));
      messages := messages + dispatched;
    }
    ParseNone(input.State());
    assert messages + [] == messages;
  }
}
