/**
  The two ends of a SafeStream and a network that loses, duplicates and reorders: every message
  ever sent stays in a set, and any of them may arrive at any time, any number of times, or never.
 */
module Protocol {
  import opened Bytes
  import opened SafeStreamTypes
  import opened Wrappers
  import opened SendBuffer
  import Sending
  import ChunkList
  import Receiving

  datatype System = System(accepted: seq<Byte>, sender: Sending.Sender, receiver: Receiving.Receiver,
                           delivered: seq<Byte>, net: set<Message>, clock: int)

  const INITIAL := System([], Sending.INITIAL_SENDER, Receiving.INITIAL_RECEIVER, [], {}, 0)

  datatype Event =
    | AppSends(bytes: seq<Byte>)
    | MaxDataSizeSet(size: Offset)
    | SenderUpdates(now: int)
    | ConfirmArrives(offset: Offset)
    | RequestArrives(offset: Offset)
    | WriteFails(offset: Offset)
    | StopRequested(offset: Offset)
    | DataArrives(message: Message)
    | ReceiverUpdates(now: int)

  /**
    What may happen next.  Data is never empty, the whole run stays one window short of the end of
    the ring, no slice is longer than a window, the clock of the sender does not go back, and an
    offset that makes the sender drop data is at most one window behind the end of the buffer.
   */
  ghost predicate Enabled(cfg: Config, s: System, e: Event) {
    var w, next := cfg.windowSize, s.sender.nextToAdd;
    match e
    case AppSends(bytes) => bytes != [] && Small(next + |bytes|, w)
    case MaxDataSizeSet(size) => size <= w
    case SenderUpdates(now) => s.clock <= now
    case ConfirmArrives(o) => Confirm(o) in s.net && (s.sender.lastConfirmed <= o ==> next <= o + w)
    case RequestArrives(o) => RequestRepeat(o) in s.net
    case WriteFails(o) => o < next <= o + w
    case StopRequested(o) => o < next <= o + w
    case DataArrives(m) => (m.Send? || m.Repeat?) && m in s.net
    case ReceiverUpdates(now) => true
  }

  // The invariant

  ghost predicate Carries(stream: seq<Byte>, o: nat, data: seq<Byte>) {
    o + |data| <= |stream| && stream[o..o + |data|] == data
  }

  ghost predicate SenderHolds(stream: seq<Byte>, s: Sending.Sender) {
    && s.nextToAdd == |stream|
    && Carries(stream, Start(s.buffer.blocks, s.nextToAdd), Flatten(s.buffer.blocks))
  }

  /** As long as nothing was rejected or stopped, the buffer reaches back to the confirmed offset. */
  ghost predicate BufferReachesBack(s: Sending.Sender) {
    (forall f :: f in s.buffer.finished ==> f.1 == Done) ==> Start(s.buffer.blocks, s.nextToAdd) <= s.lastConfirmed
  }

  ghost predicate ReceiverHolds(stream: seq<Byte>, r: Receiving.Receiver) {
    && r.lastConfirmed <= |stream|
    && (forall c :: c in r.chunks ==> Carries(stream, c.offset, c.data))
    && (forall o :: o in r.confirmations ==> o < |stream|)
    && (forall o :: o in r.requests.repeats ==> o <= |stream|)
  }

  /** A data message carries true bytes and ends within the window of the sender. */
  ghost predicate MessageHolds(stream: seq<Byte>, w: nat, confirmed: nat, m: Message) {
    match m
    case Confirm(o) => o < |stream|
    case RequestRepeat(o) => o <= |stream|
    case _ => 0 < |m.data| <= w && Carries(stream, m.offset, m.data) && m.offset + |m.data| <= confirmed + w
  }

  ghost predicate NetHolds(stream: seq<Byte>, w: nat, confirmed: nat, net: set<Message>) {
    forall m :: m in net ==> MessageHolds(stream, w, confirmed, m)
  }

  ghost predicate Inv(cfg: Config, s: System) {
    && Sending.SenderOk(cfg, s.sender)
    && Receiving.ReceiverOk(cfg.windowSize, s.receiver)
    && SenderHolds(s.accepted, s.sender) && BufferReachesBack(s.sender)
    && ReceiverHolds(s.accepted, s.receiver)
    && s.delivered == s.accepted[..s.receiver.lastConfirmed]
    && NetHolds(s.accepted, cfg.windowSize, s.sender.lastConfirmed, s.net)
    && ChunkList.OrderedByTime(s.sender.chunks) && ChunkList.SentBy(s.sender.chunks, s.clock)
  }

  // The steps

  ghost function Emitted(net: set<Message>, m: Option<Message>): (r: set<Message>) {
    if m.Some? then net + {m.value} else net
  }

  ghost function Apply(cfg: Config, s: System, e: Event): (r: System)
    requires Inv(cfg, s) && Enabled(cfg, s, e)
  {
    match e
    case AppSends(bytes) =>
      s.(sender := Sending.Accept(cfg, s.sender, bytes),
         accepted := if Sending.Fits(cfg, s.sender, bytes) then s.accepted + bytes else s.accepted)
    case MaxDataSizeSet(size) => s.(sender := s.sender.(maxDataSize := size))
    case SenderUpdates(now) =>
      Sending.TimeoutOk(cfg, s.sender, now);
      var sender := Sending.TimeoutHandled(cfg, s.sender, now);
      Sending.TransmitOk(cfg, sender, now);
      var (sender', m) := Sending.Transmit(cfg, sender, now);
      s.(sender := sender', net := Emitted(s.net, m), clock := now)
    case ConfirmArrives(o) =>
      assert MessageHolds(s.accepted, cfg.windowSize, s.sender.lastConfirmed, Confirm(o));
      s.(sender := Sending.Confirmed(cfg, s.sender, o))
    case RequestArrives(o) => s.(sender := s.sender.(lastSent := o))
    case WriteFails(o) => s.(sender := Sending.Abandoned(s.sender, o, Failed))
    case StopRequested(o) => s.(sender := Sending.Abandoned(s.sender, o, Stopped))
    case DataArrives(m) =>
      assert MessageHolds(s.accepted, cfg.windowSize, s.sender.lastConfirmed, m);
      s.(receiver := if m.Send? then Receiving.SendReceived(cfg.windowSize, s.receiver, m.offset, m.data)
                     else Receiving.RepeatReceived(cfg.windowSize, s.receiver, m.offset, m.data))
    case ReceiverUpdates(now) =>
      Receiving.CompletedOk(cfg, s.receiver, now);
      var r := Receiving.MissedChecked(cfg, Receiving.Completed(cfg, s.receiver, now), now);
      var (r', ms) := Receiving.Answered(r);
      s.(receiver := r', delivered := s.delivered + Receiving.Delivered(cfg, s.receiver, now),
         net := s.net + (set m | m in ms))
  }

  // Preservation, part by part

  lemma CarriesMore(stream: seq<Byte>, more: seq<Byte>, o: nat, data: seq<Byte>)
    requires Carries(stream, o, data)
    ensures Carries(stream + more, o, data)
  {
    assert (stream + more)[o..o + |data|] == stream[o..o + |data|];
  }

  lemma CarriesPart(stream: seq<Byte>, o: nat, data: seq<Byte>, from: nat, to: nat)
    requires Carries(stream, o, data) && from <= to <= |data|
    ensures Carries(stream, o + from, data[from..to])
  {
    var part := data[from..to];
    forall k | 0 <= k < |part|
      ensures part[k] == stream[o + from..o + from + |part|][k]
    {
      assert data[from + k] == stream[o..o + |data|][from + k];
    }
  }

  lemma CarriesJoined(stream: seq<Byte>, o: nat, a: seq<Byte>, b: seq<Byte>)
    requires Carries(stream, o, a) && Carries(stream, o + |a|, b)
    ensures Carries(stream, o, a + b)
  {
    assert stream[o..o + |a + b|] == stream[o..o + |a|] + stream[o + |a|..o + |a| + |b|];
  }

  lemma AppSendsKeeps(cfg: Config, s: System, bytes: seq<Byte>)
    requires Inv(cfg, s) && Enabled(cfg, s, AppSends(bytes))
    ensures Inv(cfg, Apply(cfg, s, AppSends(bytes)))
  {
    Sending.AcceptOk(cfg, s.sender, bytes);
    if Sending.Fits(cfg, s.sender, bytes) {
      var b, next := s.sender.buffer, s.sender.nextToAdd;
      var stream := s.accepted + bytes;
      AppendContiguous(b.blocks, next, cfg.windowSize, SendingData(next, bytes));
      FlattenLength(b.blocks, next, cfg.windowSize);
      CarriesMore(s.accepted, bytes, Start(b.blocks, next), Flatten(b.blocks));
      CarriesJoined(stream, Start(b.blocks, next), Flatten(b.blocks), bytes);
      forall c | c in s.receiver.chunks
        ensures Carries(stream, c.offset, c.data)
      {
        CarriesMore(s.accepted, bytes, c.offset, c.data);
      }
      forall m | m in s.net
        ensures MessageHolds(stream, cfg.windowSize, s.sender.lastConfirmed, m)
      {
        if m.Send? || m.Repeat? {
          CarriesMore(s.accepted, bytes, m.offset, m.data);
        }
      }
      assert stream[..s.receiver.lastConfirmed] == s.accepted[..s.receiver.lastConfirmed];
    }
  }

  lemma RestCarries(stream: seq<Byte>, o: nat, blocks: seq<SendingData>, c: nat)
    requires c <= |blocks| && Carries(stream, o, Flatten(blocks))
    ensures |Flatten(blocks)| == |Flatten(blocks[..c])| + |Flatten(blocks[c..])|
    ensures Carries(stream, o + |Flatten(blocks[..c])|, Flatten(blocks[c..]))
  {
    hide Flatten;
    FlattenConcat(blocks[..c], blocks[c..]);
    assert blocks[..c] + blocks[c..] == blocks;
    CarriesPart(stream, o, Flatten(blocks), |Flatten(blocks[..c])|, |Flatten(blocks)|);
    assert Flatten(blocks)[|Flatten(blocks[..c])|..] == Flatten(blocks[c..]);
  }

  lemma RetireHolds(stream: seq<Byte>, s: Sending.Sender, w: nat, o: nat, inclusive: bool, outcome: Outcome)
    requires SenderHolds(stream, s) && BufferOk(s.buffer, w, s.nextToAdd)
    ensures var b := Retire(s.buffer, o, inclusive, outcome);
            && Carries(stream, Start(b.blocks, s.nextToAdd), Flatten(b.blocks))
            && (!inclusive ==> Start(b.blocks, s.nextToAdd) <= Start(s.buffer.blocks, s.nextToAdd)
                               || Start(b.blocks, s.nextToAdd) <= o)
  {
    hide Flatten, Carries;
    var blocks, next, c := s.buffer.blocks, s.nextToAdd, Cut(s.buffer.blocks, o, inclusive);
    CutSplits(blocks, next, w, o, inclusive);
    FlattenLength(blocks, next, w);
    FlattenLength(blocks[c..], next, w);
    RestCarries(stream, Start(blocks, next), blocks, c);
    if c > 0 {
      BlockBounds(blocks, next, w, c - 1);
    } else {
      assert blocks[c..] == blocks;
    }
  }

  lemma AbandonHolds(cfg: Config, stream: seq<Byte>, s: Sending.Sender, o: Offset, outcome: Outcome, now: int)
    requires Sending.SenderOk(cfg, s) && SenderHolds(stream, s) && BufferReachesBack(s) && outcome != Done
    requires ChunkList.OrderedByTime(s.chunks) && ChunkList.SentBy(s.chunks, now)
    ensures var t := Sending.Abandoned(s, o, outcome);
            && Sending.SenderOk(cfg, t) && SenderHolds(stream, t) && BufferReachesBack(t)
            && ChunkList.OrderedByTime(t.chunks) && ChunkList.SentBy(t.chunks, now)
  {
    Sending.AbandonedOk(cfg, s, o, outcome);
    RetireHolds(stream, s, cfg.windowSize, o, true, outcome);
    ChunkList.RemoveKeepsTimes(s.chunks, o, now);
    var c, t := Cut(s.buffer.blocks, o, true), Sending.Abandoned(s, o, outcome);
    if c > 0 {
      assert t.buffer.finished[|s.buffer.finished|] == (s.buffer.blocks[0], outcome);
      assert (s.buffer.blocks[0], outcome) in t.buffer.finished;
    } else {
      assert s.buffer.blocks[0..] == s.buffer.blocks;
      assert t.buffer.finished == s.buffer.finished;
    }
  }

  lemma ConfirmKeeps(cfg: Config, s: System, o: Offset)
    requires Inv(cfg, s) && Enabled(cfg, s, ConfirmArrives(o))
    ensures Inv(cfg, Apply(cfg, s, ConfirmArrives(o)))
  {
    var t := Apply(cfg, s, ConfirmArrives(o)).sender;
    assert MessageHolds(s.accepted, cfg.windowSize, s.sender.lastConfirmed, Confirm(o));
    Sending.ConfirmedOk(cfg, s.sender, o);
    RetireHolds(s.accepted, s.sender, cfg.windowSize, o, false, Done);
    ChunkList.RemoveKeepsTimes(s.sender.chunks, o, s.clock);
    assert s.sender.buffer.finished <= t.buffer.finished;
    assert forall f :: f in s.sender.buffer.finished ==> f in t.buffer.finished;
    assert NetHolds(s.accepted, cfg.windowSize, t.lastConfirmed, s.net) by {
      forall m | m in s.net
        ensures MessageHolds(s.accepted, cfg.windowSize, t.lastConfirmed, m)
      {
        assert MessageHolds(s.accepted, cfg.windowSize, s.sender.lastConfirmed, m);
      }
    }
  }

  lemma SliceCarries(cfg: Config, stream: seq<Byte>, s: Sending.Sender)
    requires Sending.SenderOk(cfg, s) && SenderHolds(stream, s)
    ensures Carries(stream, s.lastSent, Sending.NextSlice(cfg, s))
  {
    var data, start := Sending.NextSlice(cfg, s), Start(s.buffer.blocks, s.nextToAdd);
    Sending.NextSliceFits(cfg, s);
    if data != [] {
      CarriesPart(stream, start, Flatten(s.buffer.blocks), s.lastSent - start, s.lastSent - start + |data|);
    }
  }

  lemma CountedTimes(chunks: seq<ChunkList.SendingChunk>, now: int)
    requires chunks != [] && ChunkList.OrderedByTime(chunks) && ChunkList.SentBy(chunks, now)
    ensures ChunkList.OrderedByTime(Sending.Counted(chunks)) && ChunkList.SentBy(Sending.Counted(chunks), now)
  {
    var r := Sending.Counted(chunks);
    assert forall i :: 0 <= i < |r| ==> r[i].sendTime == chunks[i].sendTime && chunks[i] in chunks;
  }

  ghost predicate SenderGood(cfg: Config, stream: seq<Byte>, s: Sending.Sender, now: int) {
    && Sending.SenderOk(cfg, s) && SenderHolds(stream, s) && BufferReachesBack(s)
    && ChunkList.OrderedByTime(s.chunks) && ChunkList.SentBy(s.chunks, now)
  }

  lemma DispatchHolds(cfg: Config, stream: seq<Byte>, s: Sending.Sender, o: nat, data: seq<Byte>, now: int)
    requires SenderGood(cfg, stream, s, now) && s.chunks != []
    ensures var t := Sending.Dispatch(cfg, s, o, data).0;
            SenderGood(cfg, stream, t, now) && t.lastConfirmed == s.lastConfirmed
  {
    Sending.DispatchOk(cfg, s, o, data);
    CountedTimes(s.chunks, now);
    AbandonHolds(cfg, stream, s, s.chunks[|s.chunks| - 1].end, Failed, now);
  }

  lemma TakenHolds(cfg: Config, stream: seq<Byte>, s: Sending.Sender, data: seq<Byte>, now: int)
    requires SenderGood(cfg, stream, s, now)
    requires 0 < |data| <= cfg.windowSize && s.lastSent + |data| <= s.nextToAdd
    ensures SenderGood(cfg, stream, Sending.Taken(s, data, now), now)
  {
    hide ChunkList.Registered;
    Sending.TakenOk(cfg, s, data, now);
    ChunkList.RegisterKeepsTimes(s.chunks, s.lastSent, s.lastSent + |data| - 1, now);
  }

  /** What SendData does to the sender, and what it writes. */
  lemma TransmitHolds(cfg: Config, stream: seq<Byte>, s: Sending.Sender, now: int)
    requires SenderGood(cfg, stream, s, now)
    ensures |Sending.NextSlice(cfg, s)| + s.lastSent <= MAX
    ensures var (t, m) := Sending.Transmit(cfg, s, now);
            && SenderGood(cfg, stream, t, now) && t.lastConfirmed == s.lastConfirmed
            && (m.Some? ==> MessageHolds(stream, cfg.windowSize, t.lastConfirmed, m.value))
  {
    Sending.NextSliceFits(cfg, s);
    SliceCarries(cfg, stream, s);
    var data := Sending.NextSlice(cfg, s);
    if data != [] {
      TakenHolds(cfg, stream, s, data, now);
      DispatchHolds(cfg, stream, Sending.Taken(s, data, now), s.lastSent, data, now);
    }
  }

  lemma SenderUpdateKeeps(cfg: Config, s: System, now: int)
    requires Inv(cfg, s) && Enabled(cfg, s, SenderUpdates(now))
    ensures Inv(cfg, Apply(cfg, s, SenderUpdates(now)))
  {
    Sending.TimeoutOk(cfg, s.sender, now);
    TransmitHolds(cfg, s.accepted, Sending.TimeoutHandled(cfg, s.sender, now), now);
  }

  lemma StoredHolds(stream: seq<Byte>, r: Receiving.Receiver, c: Receiving.ReceivingChunk)
    requires ReceiverHolds(stream, r) && Carries(stream, c.offset, c.data)
    ensures ReceiverHolds(stream, Receiving.Stored(r, c))
  {
    var i := Receiving.Place(r.chunks, c.offset);
    if i < |r.chunks| {
      var d := r.chunks[i].offset - c.offset;
      if d < |c.data| {
        CarriesPart(stream, c.offset, c.data, 0, d);
      }
    }
  }

  lemma DataKeeps(cfg: Config, s: System, m: Message)
    requires Inv(cfg, s) && Enabled(cfg, s, DataArrives(m))
    ensures Inv(cfg, Apply(cfg, s, DataArrives(m)))
  {
    assert MessageHolds(s.accepted, cfg.windowSize, s.sender.lastConfirmed, m);
    if Receiving.IsNew(cfg.windowSize, s.receiver, m.offset) {
      var c := Receiving.ReceivingChunk(m.offset, m.data);
      Receiving.StoredOk(cfg.windowSize, s.receiver, c);
      StoredHolds(s.accepted, s.receiver, c);
    }
  }

  /** The run at the front of the receiver carries the bytes that follow the confirmed offset. */
  lemma {:induction false} RunCarries(stream: seq<Byte>, chunks: seq<Receiving.ReceivingChunk>, from: nat)
    requires from <= |stream|
    requires forall c :: c in chunks ==> Carries(stream, c.offset, c.data)
    ensures Carries(stream, from, Receiving.Join(chunks[..Receiving.RunLength(chunks, from)]))
  {
    var k := Receiving.RunLength(chunks, from);
    if k == 0 {
    } else {
      assert chunks[0] in chunks;
      RunCarries(stream, chunks[1..], chunks[0].End());
      assert chunks[..k][1..] == chunks[1..][..k - 1];
      CarriesJoined(stream, from, chunks[0].data, Receiving.Join(chunks[1..][..k - 1]));
    }
  }

  lemma {:induction false} RequestsBounded(cfg: Config, chunks: seq<Receiving.ReceivingChunk>, from: Offset,
                                           q: Receiving.Requests, limit: nat)
    requires Receiving.EndsOk(chunks) && from <= limit
    requires forall c :: c in chunks ==> c.End() <= limit
    requires forall o :: o in q.repeats ==> o <= limit
    ensures forall o :: o in Receiving.MissedRequests(cfg, chunks, from, q).repeats ==> o <= limit
  {
    if chunks == [] {
    } else {
      RequestsBounded(cfg, chunks[..|chunks| - 1], from, q, limit);
    }
  }

  lemma CompletedHolds(cfg: Config, stream: seq<Byte>, r: Receiving.Receiver, now: int)
    requires Receiving.ReceiverOk(cfg.windowSize, r) && ReceiverHolds(stream, r)
    ensures r.lastConfirmed + |Receiving.Run(r)| <= MAX
    ensures var t := Receiving.Completed(cfg, r, now);
            && ReceiverHolds(stream, t)
            && stream[..r.lastConfirmed] + Receiving.Delivered(cfg, r, now) == stream[..t.lastConfirmed]
  {
    Receiving.CompletedOk(cfg, r, now);
    RunCarries(stream, r.chunks, r.lastConfirmed);
    var next := r.lastConfirmed + |Receiving.Run(r)|;
    assert stream[..r.lastConfirmed] + stream[r.lastConfirmed..next] == stream[..next];
  }

  lemma AnsweredHolds(stream: seq<Byte>, w: nat, confirmed: nat, r: Receiving.Receiver)
    requires Receiving.ReceiverOk(w, r) && ReceiverHolds(stream, r)
    ensures var (t, ms) := Receiving.Answered(r);
            && Receiving.ReceiverOk(w, t) && ReceiverHolds(stream, t) && t.lastConfirmed == r.lastConfirmed
            && forall m :: m in ms ==> MessageHolds(stream, w, confirmed, m)
  {
    var ms := Receiving.Answered(r).1;
    forall m | m in ms
      ensures MessageHolds(stream, w, confirmed, m)
    {
      assert m.offset in r.confirmations || m.offset in r.requests.repeats;
    }
  }

  lemma ReceiverUpdateKeeps(cfg: Config, s: System, now: int)
    requires Inv(cfg, s) && Enabled(cfg, s, ReceiverUpdates(now))
    ensures Inv(cfg, Apply(cfg, s, ReceiverUpdates(now)))
  {
    Receiving.CompletedOk(cfg, s.receiver, now);
    CompletedHolds(cfg, s.accepted, s.receiver, now);
    var r := Receiving.Completed(cfg, s.receiver, now);
    RequestsBounded(cfg, r.chunks, r.lastConfirmed, r.requests, |s.accepted|);
    AnsweredHolds(s.accepted, cfg.windowSize, s.sender.lastConfirmed, Receiving.MissedChecked(cfg, r, now));
  }

  /** Every step keeps the invariant. */
  lemma StepKeeps(cfg: Config, s: System, e: Event)
    requires Inv(cfg, s) && Enabled(cfg, s, e)
    ensures Inv(cfg, Apply(cfg, s, e))
  {
    match e
    case AppSends(bytes) => AppSendsKeeps(cfg, s, bytes);
    case MaxDataSizeSet(size) =>
    case SenderUpdates(now) => SenderUpdateKeeps(cfg, s, now);
    case ConfirmArrives(o) => ConfirmKeeps(cfg, s, o);
    case RequestArrives(o) =>
      assert MessageHolds(s.accepted, cfg.windowSize, s.sender.lastConfirmed, RequestRepeat(o));
    case WriteFails(o) => AbandonHolds(cfg, s.accepted, s.sender, o, Failed, s.clock);
    case StopRequested(o) => AbandonHolds(cfg, s.accepted, s.sender, o, Stopped, s.clock);
    case DataArrives(m) => DataKeeps(cfg, s, m);
    case ReceiverUpdates(now) => ReceiverUpdateKeeps(cfg, s, now);
  }
}
