/**
  The sending end.  Functions on Sender say what each call does on stream positions; the class does
  it with ring offsets, on top of the send buffer and the list of chunks sent.
 */
module Sending {
  import opened Bytes
  import opened SafeStreamTypes
  import opened Wrappers
  import opened SendBuffer
  import opened ChunkList

  datatype Sender = Sender(buffer: BufferState, chunks: seq<SendingChunk>,
                           lastConfirmed: Offset, nextToAdd: Offset, lastSent: Offset, maxDataSize: Offset)

  const INITIAL_SENDER := Sender(BufferState([], 0, []), [], 0, 0, 0, 0)

  /** The conditions on the configuration under which ring comparisons are exact. */
  ghost predicate ConfigOk(cfg: Config) {
    WindowOk(cfg.windowSize) && cfg.bufferCapacity <= cfg.windowSize
  }

  ghost predicate SenderOk(cfg: Config, s: Sender) {
    && ConfigOk(cfg) && s.maxDataSize <= cfg.windowSize
    && BufferOk(s.buffer, cfg.windowSize, s.nextToAdd) && s.buffer.bufferSize <= cfg.bufferCapacity
    && s.lastConfirmed <= s.nextToAdd && s.lastSent <= s.nextToAdd
    && ChunksOk(s.chunks, cfg.windowSize) && EndBelow(s.chunks, s.nextToAdd)
  }

  ghost predicate EndBelow(chunks: seq<SendingChunk>, next: int) {
    forall c :: c in chunks ==> c.end < next
  }

  // What the calls do

  ghost predicate Fits(cfg: Config, s: Sender, data: seq<Byte>) {
    s.buffer.bufferSize + |data| <= cfg.bufferCapacity
  }

  ghost function Accept(cfg: Config, s: Sender, data: seq<Byte>): (r: Sender)
    requires s.nextToAdd + |data| <= MAX
  {
    if Fits(cfg, s, data)
    then s.(buffer := Append(s.buffer, SendingData(s.nextToAdd, data)), nextToAdd := s.nextToAdd + |data|)
    else s
  }

  ghost predicate Timely(cfg: Config, s: Sender, o: nat) {
    s.lastConfirmed <= o <= s.lastConfirmed + cfg.windowSize
  }

  ghost function Confirmed(cfg: Config, s: Sender, o: Offset): (r: Sender)
    requires o < MAX
  {
    if Timely(cfg, s, o)
    then s.(chunks := RemovedUpTo(s.chunks, o), buffer := Retire(s.buffer, o, false, Done), lastConfirmed := o + 1)
    else s
  }

  /** ReportWriteError, ReportWriteStopped and StopSending. */
  ghost function Abandoned(s: Sender, o: Offset, outcome: Outcome): (r: Sender) {
    s.(chunks := RemovedUpTo(s.chunks, o), buffer := Retire(s.buffer, o, true, outcome))
  }

  ghost function TimeoutHandled(cfg: Config, s: Sender, now: int): (r: Sender) {
    if s.chunks != [] && s.chunks[0].sendTime + cfg.waitConfirmTimeout < now
    then s.(lastSent := s.chunks[0].begin) else s
  }

  ghost predicate TimedOut(cfg: Config, s: Sender, t: int) {
    exists c :: c in s.chunks && c.sendTime + cfg.waitConfirmTimeout < t
  }

  /** What HandleTimeouts returns. */
  ghost function WakeTime(cfg: Config, s: Sender, now: int): (t: int) {
    if s.chunks == [] || s.chunks[0].sendTime + cfg.waitConfirmTimeout < now then now
    else s.chunks[0].sendTime + cfg.waitConfirmTimeout
  }

  /**
    With chunks waiting, and none timed out, the first timeout comes right after the time returned; otherwise
    there is no later time to wait for.
   */
  lemma WakesForFirstTimeout(cfg: Config, s: Sender, now: int, t: int)
    requires OrderedByTime(s.chunks)
    ensures if s.chunks == [] || TimedOut(cfg, s, now) then WakeTime(cfg, s, now) == now
            else WakeTime(cfg, s, now) >= now && (TimedOut(cfg, s, t) <==> t > WakeTime(cfg, s, now))
  {
    FrontTimesOutFirst(s.chunks, cfg.waitConfirmTimeout, now);
    FrontTimesOutFirst(s.chunks, cfg.waitConfirmTimeout, t);
  }

  /** The bytes SendData takes from the buffer: none when the window has no room for a full chunk. */
  ghost function NextSlice(cfg: Config, s: Sender): (r: seq<Byte>) {
    if s.maxDataSize > 0 && Timely(cfg, s, s.lastSent + s.maxDataSize)
    then Slice(s.buffer, s.nextToAdd, s.lastSent, s.maxDataSize) else []
  }

  ghost function Counted(chunks: seq<SendingChunk>): (r: seq<SendingChunk>)
    requires chunks != []
  {
    var last := chunks[|chunks| - 1];
    chunks[|chunks| - 1 := last.(repeatCount := Cast16(last.repeatCount + 1))]
  }

  /** The end of SendData, when the chunk of bytes at o is the last one registered. */
  ghost function Dispatch(cfg: Config, s: Sender, o: nat, data: seq<Byte>): (r: (Sender, Option<Message>))
    requires s.chunks != []
  {
    var last := s.chunks[|s.chunks| - 1];
    if last.repeatCount == 0 then (s.(chunks := Counted(s.chunks)), Some(Send(o, data)))
    else if last.repeatCount > cfg.maxRepeatCount then (Abandoned(s, last.end, Failed), None)
    else (s.(chunks := Counted(s.chunks)), Some(Repeat(last.repeatCount, o, data)))
  }

  /** The slice data is taken: it is registered, and sending goes on behind it. */
  ghost function Taken(s: Sender, data: seq<Byte>, now: int): (r: Sender)
    requires data != [] && s.lastSent + |data| <= MAX
  {
    s.(lastSent := s.lastSent + |data|, chunks := Registered(s.chunks, s.lastSent, s.lastSent + |data| - 1, now))
  }

  /** SendData(current_time): the new state, and the message written, if any. */
  ghost function Transmit(cfg: Config, s: Sender, now: int): (r: (Sender, Option<Message>))
    requires |NextSlice(cfg, s)| + s.lastSent <= MAX
  {
    var data := NextSlice(cfg, s);
    if data == [] then (s, None) else Dispatch(cfg, Taken(s, data, now), s.lastSent, data)
  }

  // Every call keeps the sender within the conditions

  lemma NextSliceFits(cfg: Config, s: Sender)
    requires SenderOk(cfg, s)
    ensures var data := NextSlice(cfg, s);
            && |data| <= s.maxDataSize && s.lastSent + |data| <= s.nextToAdd
            && (data != [] ==> s.lastSent + s.maxDataSize <= s.lastConfirmed + cfg.windowSize
                               && s.nextToAdd <= s.lastSent + cfg.windowSize)
  {
    FlattenLength(s.buffer.blocks, s.nextToAdd, cfg.windowSize);
  }

  lemma RetireOk(b: BufferState, w: nat, next: nat, o: nat, inclusive: bool, outcome: Outcome)
    requires BufferOk(b, w, next)
    ensures var r := Retire(b, o, inclusive, outcome);
            BufferOk(r, w, next) && r.bufferSize <= b.bufferSize
  {
    var c := Cut(b.blocks, o, inclusive);
    CutSplits(b.blocks, next, w, o, inclusive);
    FlattenConcat(b.blocks[..c], b.blocks[c..]);
    assert b.blocks[..c] + b.blocks[c..] == b.blocks;
  }

  lemma RemovedUpToOk(chunks: seq<SendingChunk>, o: Offset, w: nat, next: int)
    requires ChunksOk(chunks, w) && EndBelow(chunks, next)
    ensures ChunksOk(RemovedUpTo(chunks, o), w) && EndBelow(RemovedUpTo(chunks, o), next)
  {
    RemoveUpToCoverage(chunks, o, w, 0);
    forall c | c in RemovedUpTo(chunks, o)
      ensures c.end < next
    {
      RemoveUpToCoverage(chunks, o, w, c.end);
      assert ChunkOk(c, w) && c.Has(c.end);
    }
  }

  lemma RegisteredOk(chunks: seq<SendingChunk>, b: Offset, e: Offset, now: int, w: nat, next: int)
    requires ChunksOk(chunks, w) && EndBelow(chunks, next) && b <= e < b + w && Small(e, w) && e < next
    ensures ChunksOk(Registered(chunks, b, e, now), w) && EndBelow(Registered(chunks, b, e, now), next)
  {
    RegisterCoverage(chunks, b, e, now, w, 0);
    forall c | c in Registered(chunks, b, e, now)
      ensures c.end < next
    {
      RegisterCoverage(chunks, b, e, now, w, c.end);
      assert ChunkOk(c, w) && c.Has(c.end);
    }
  }

  lemma AcceptOk(cfg: Config, s: Sender, data: seq<Byte>)
    requires SenderOk(cfg, s) && data != [] && Small(s.nextToAdd + |data|, cfg.windowSize)
    ensures SenderOk(cfg, Accept(cfg, s, data))
  {
    if Fits(cfg, s, data) {
      AppendContiguous(s.buffer.blocks, s.nextToAdd, cfg.windowSize, SendingData(s.nextToAdd, data));
    }
  }

  lemma ConfirmedOk(cfg: Config, s: Sender, o: Offset)
    requires SenderOk(cfg, s) && o < s.nextToAdd
    ensures SenderOk(cfg, Confirmed(cfg, s, o))
  {
    RetireOk(s.buffer, cfg.windowSize, s.nextToAdd, o, false, Done);
    RemovedUpToOk(s.chunks, o, cfg.windowSize, s.nextToAdd);
  }

  lemma AbandonedOk(cfg: Config, s: Sender, o: Offset, outcome: Outcome)
    requires SenderOk(cfg, s)
    ensures SenderOk(cfg, Abandoned(s, o, outcome))
  {
    RetireOk(s.buffer, cfg.windowSize, s.nextToAdd, o, true, outcome);
    RemovedUpToOk(s.chunks, o, cfg.windowSize, s.nextToAdd);
  }

  lemma CountedOk(chunks: seq<SendingChunk>, w: nat, next: int)
    requires chunks != [] && ChunksOk(chunks, w) && EndBelow(chunks, next)
    ensures ChunksOk(Counted(chunks), w) && EndBelow(Counted(chunks), next)
  {
    var last := chunks[|chunks| - 1];
    assert ChunkOk(last, w) && last.end < next;
    forall c | c in Counted(chunks)
      ensures ChunkOk(c, w) && c.end < next
    {
      assert c in chunks || (c.begin == last.begin && c.end == last.end);
    }
  }

  lemma DispatchOk(cfg: Config, s: Sender, o: nat, data: seq<Byte>)
    requires SenderOk(cfg, s) && s.chunks != []
    ensures SenderOk(cfg, Dispatch(cfg, s, o, data).0)
  {
    CountedOk(s.chunks, cfg.windowSize, s.nextToAdd);
    AbandonedOk(cfg, s, s.chunks[|s.chunks| - 1].end, Failed);
  }

  lemma ResumeOk(cfg: Config, s: Sender, o: Offset, chunks: seq<SendingChunk>)
    requires SenderOk(cfg, s) && o <= s.nextToAdd && ChunksOk(chunks, cfg.windowSize) && EndBelow(chunks, s.nextToAdd)
    ensures SenderOk(cfg, s.(lastSent := o, chunks := chunks))
  {
  }

  lemma TakenOk(cfg: Config, s: Sender, data: seq<Byte>, now: int)
    requires SenderOk(cfg, s) && 0 < |data| <= cfg.windowSize && s.lastSent + |data| <= s.nextToAdd
    ensures SenderOk(cfg, Taken(s, data, now))
  {
    hide ChunkList.Registered;
    RegisteredOk(s.chunks, s.lastSent, s.lastSent + |data| - 1, now, cfg.windowSize, s.nextToAdd);
    ResumeOk(cfg, s, s.lastSent + |data|, Registered(s.chunks, s.lastSent, s.lastSent + |data| - 1, now));
  }

  lemma TransmitOk(cfg: Config, s: Sender, now: int)
    requires SenderOk(cfg, s)
    ensures |NextSlice(cfg, s)| + s.lastSent <= MAX && SenderOk(cfg, Transmit(cfg, s, now).0)
  {
    NextSliceFits(cfg, s);
    var data := NextSlice(cfg, s);
    if data != [] {
      TakenOk(cfg, s, data, now);
      DispatchOk(cfg, Taken(s, data, now), s.lastSent, data);
    }
  }

  lemma TimeoutOk(cfg: Config, s: Sender, now: int)
    requires SenderOk(cfg, s)
    ensures SenderOk(cfg, TimeoutHandled(cfg, s, now))
  {
    if s.chunks != [] {
      assert ChunkOk(s.chunks[0], cfg.windowSize) && s.chunks[0].end < s.nextToAdd;
    }
  }

  // What the calls are for

  /** The blocks up to o, with or without the one that holds o, are reported and gone; so are the chunks up to o. */
  ghost predicate Removes(s: Sender, t: Sender, o: nat, inclusive: bool, outcome: Outcome) {
    && (forall d :: d in s.buffer.blocks ==>
          if (if inclusive then d.offset <= o else d.End() <= o)
          then (d, outcome) in t.buffer.finished && d !in t.buffer.blocks else d in t.buffer.blocks)
    && t.buffer.bufferSize == |Flatten(t.buffer.blocks)|
    && forall x :: Covered(t.chunks, x) <==>
         (x > o && Covered(s.chunks, x)) || (x == o && exists c :: c in s.chunks && c.begin <= o < c.end)
  }

  lemma RetireRemoves(cfg: Config, s: Sender, o: Offset, inclusive: bool, outcome: Outcome, t: Sender)
    requires SenderOk(cfg, s) && t.chunks == RemovedUpTo(s.chunks, o) && t.buffer == Retire(s.buffer, o, inclusive, outcome)
    ensures Removes(s, t, o, inclusive, outcome)
  {
    assert t.buffer.bufferSize == |Flatten(t.buffer.blocks)|;
    hide RemovedUpTo, Retire, Covered, BufferOk;
    forall d | d in s.buffer.blocks
      ensures if Retires(d, o, inclusive) then (d, outcome) in t.buffer.finished && d !in t.buffer.blocks else d in t.buffer.blocks
    {
      RetiresBlock(s.buffer, cfg.windowSize, s.nextToAdd, o, inclusive, outcome, d);
    }
    forall x
      ensures Covered(t.chunks, x) <==>
                (x > o && Covered(s.chunks, x)) || (x == o && exists c :: c in s.chunks && c.begin <= o < c.end)
    {
      RemoveUpToCoverage(s.chunks, o, cfg.windowSize, x);
    }
  }

  /**
    A confirmation within a window of the confirmed offset moves it behind o, and reports each block that
    ends before the byte at o as done; any other confirmation changes nothing.
   */
  lemma ConfirmedMeans(cfg: Config, s: Sender, o: Offset)
    requires SenderOk(cfg, s) && o < s.nextToAdd
    ensures var t := Confirmed(cfg, s, o);
            if s.lastConfirmed <= o <= s.lastConfirmed + cfg.windowSize
            then t.lastConfirmed == o + 1 && t.lastSent == s.lastSent && Removes(s, t, o, false, Done)
            else t == s
  {
    hide Removes, SenderOk;
    if Timely(cfg, s, o) {
      RetireRemoves(cfg, s, o, false, Done, Confirmed(cfg, s, o));
    }
  }

  /** Giving up at o reports the block that holds o as well, and neither confirms nor resumes anything. */
  lemma AbandonedMeans(cfg: Config, s: Sender, o: Offset, outcome: Outcome)
    requires SenderOk(cfg, s)
    ensures var t := Abandoned(s, o, outcome);
            t.lastConfirmed == s.lastConfirmed && t.lastSent == s.lastSent && Removes(s, t, o, true, outcome)
  {
    hide Removes, SenderOk;
    RetireRemoves(cfg, s, o, true, outcome, Abandoned(s, o, outcome));
  }

  ghost predicate Oldest(chunks: seq<SendingChunk>, c: SendingChunk) {
    c in chunks && forall d :: d in chunks ==> c.sendTime <= d.sendTime
  }

  /** After a timeout sending resumes at the first byte of a chunk that waits longest; without one nothing changes. */
  lemma TimeoutResumes(cfg: Config, s: Sender, now: int)
    requires OrderedByTime(s.chunks)
    ensures var t := TimeoutHandled(cfg, s, now);
            if TimedOut(cfg, s, now)
            then exists c :: Oldest(s.chunks, c) && c.sendTime + cfg.waitConfirmTimeout < now && t == s.(lastSent := c.begin)
            else t == s
  {
    FrontTimesOutFirst(s.chunks, cfg.waitConfirmTimeout, now);
    if TimedOut(cfg, s, now) {
      assert Oldest(s.chunks, s.chunks[0]);
    }
  }

  /** There is something to send at lastSent, and room in the window for a full chunk. */
  ghost predicate CanSend(cfg: Config, s: Sender) {
    && s.maxDataSize > 0 && s.lastConfirmed <= s.lastSent + s.maxDataSize <= s.lastConfirmed + cfg.windowSize
    && Start(s.buffer.blocks, s.nextToAdd) <= s.lastSent < s.nextToAdd
  }

  /** The last byte of the next chunk: as many bytes as allowed, up to the end of the buffer. */
  ghost function ChunkEnd(s: Sender): (e: int) {
    Min(s.lastSent + s.maxDataSize, s.nextToAdd) - 1
  }

  lemma NextSliceLength(cfg: Config, s: Sender)
    requires SenderOk(cfg, s)
    ensures s.lastSent + |NextSlice(cfg, s)| == if CanSend(cfg, s) then ChunkEnd(s) + 1 else s.lastSent
  {
    FlattenLength(s.buffer.blocks, s.nextToAdd, cfg.windowSize);
  }

  /** The message for a chunk that was sent count times before. */
  ghost predicate IsMessage(m: Message, count: nat, o: nat, size: int) {
    && m.offset == o && (m.Send? || m.Repeat?) && |m.data| == size
    && (m.Send? <==> count == 0) && (m.Repeat? ==> m.repeatCount == count)
  }

  /** A chunk that was not sent too often is written, from lastSent on, and counted. */
  ghost predicate Sends(cfg: Config, s: Sender, now: int, count: Offset, t: Sender, m: Option<Message>) {
    var b, e := s.lastSent, ChunkEnd(s);
    && m.Some? && IsMessage(m.value, count, b, e + 1 - b)
    && t.buffer == s.buffer && t.chunks != []
    && (var last := t.chunks[|t.chunks| - 1]; last.begin == b && last.end == e && last.sendTime == now && last.repeatCount == Cast16(count + 1))
    && forall x :: Covered(t.chunks, x) <==> Covered(s.chunks, x) || b <= x <= e
  }

  /** A chunk that was is not, and all up to its end fails. */
  ghost predicate GivesUp(s: Sender, t: Sender, m: Option<Message>) {
    var e := ChunkEnd(s);
    && m.None?
    && (forall d :: d in s.buffer.blocks ==>
          if d.offset <= e then (d, Failed) in t.buffer.finished && d !in t.buffer.blocks else d in t.buffer.blocks)
    && forall x :: x != e ==> (Covered(t.chunks, x) <==> x > e && Covered(s.chunks, x))
  }

  lemma CountedCoverage(chunks: seq<SendingChunk>, x: int)
    requires chunks != []
    ensures Covered(Counted(chunks), x) <==> Covered(chunks, x)
  {
    var r, k := Counted(chunks), |chunks| - 1;
    assert forall i :: 0 <= i < |chunks| ==> r[i].Has(x) == chunks[i].Has(x);
    if Covered(chunks, x) {
      var i :| 0 <= i < |chunks| && chunks[i].Has(x);
      assert r[i] in r;
    }
    if Covered(r, x) {
      var i :| 0 <= i < |r| && r[i].Has(x);
      assert chunks[i] in chunks;
    }
  }

  lemma SendsChunk(cfg: Config, s: Sender, data: seq<Byte>, now: int, count: Offset, t: Sender, m: Option<Message>)
    requires SenderOk(cfg, s) && 0 < |data| <= cfg.windowSize && s.lastSent + |data| == ChunkEnd(s) + 1 <= s.nextToAdd
    requires var r := Registered(s.chunks, s.lastSent, ChunkEnd(s), now);
             r[|r| - 1].repeatCount == count && t.chunks == Counted(r) && t.buffer == s.buffer
    requires m == Some(if count == 0 then Send(s.lastSent, data) else Repeat(count, s.lastSent, data))
    ensures Sends(cfg, s, now, count, t, m)
  {
    var b, e := s.lastSent, ChunkEnd(s);
    var r := Registered(s.chunks, b, e, now);
    assert r[|r| - 1] == SendingChunk(b, e, count, now);
    hide Registered, Counted, Covered;
    forall x
      ensures Covered(t.chunks, x) <==> Covered(s.chunks, x) || b <= x <= e
    {
      RegisterCoverage(s.chunks, b, e, now, cfg.windowSize, x);
      CountedCoverage(r, x);
    }
    assert |t.chunks| == |r| && t.chunks[|r| - 1] == r[|r| - 1].(repeatCount := Cast16(count + 1)) by {
      CountedLast(r);
    }
  }

  lemma CountedLast(chunks: seq<SendingChunk>)
    requires chunks != []
    ensures |Counted(chunks)| == |chunks|
    ensures var last := chunks[|chunks| - 1];
            Counted(chunks)[|chunks| - 1] == last.(repeatCount := Cast16(last.repeatCount + 1))
  {
  }

  lemma GivesUpChunk(cfg: Config, s: Sender, now: int, t: Sender)
    requires SenderOk(cfg, s) && s.lastSent <= ChunkEnd(s) < s.lastSent + cfg.windowSize && ChunkEnd(s) < s.nextToAdd
    requires t.chunks == RemovedUpTo(Registered(s.chunks, s.lastSent, ChunkEnd(s), now), ChunkEnd(s))
    requires t.buffer == Retire(s.buffer, ChunkEnd(s), true, Failed)
    ensures GivesUp(s, t, None)
  {
    hide Registered, RemovedUpTo, Covered, Retire, Flatten;
    var b, e := s.lastSent, ChunkEnd(s);
    var r := Registered(s.chunks, b, e, now);
    RegisteredOk(s.chunks, b, e, now, cfg.windowSize, s.nextToAdd);
    forall x | x != e
      ensures Covered(t.chunks, x) <==> x > e && Covered(s.chunks, x)
    {
      RegisterCoverage(s.chunks, b, e, now, cfg.windowSize, x);
      RemoveUpToCoverage(r, e, cfg.windowSize, x);
    }
    forall d | d in s.buffer.blocks
      ensures if d.offset <= e then (d, Failed) in t.buffer.finished && d !in t.buffer.blocks else d in t.buffer.blocks
    {
      RetiresBlock(s.buffer, cfg.windowSize, s.nextToAdd, e, true, Failed, d);
    }
  }

  /** What SendData does with a slice of this length. */
  ghost predicate Transmits(cfg: Config, s: Sender, now: int, t: Sender, m: Option<Message>)
    requires s.lastSent <= ChunkEnd(s) < MAX
  {
    var count := RegisteredCount(s.chunks, s.lastSent, ChunkEnd(s));
    && t.lastSent == ChunkEnd(s) + 1 && t.lastConfirmed == s.lastConfirmed && t.nextToAdd == s.nextToAdd
    && t.maxDataSize == s.maxDataSize
    && if count > cfg.maxRepeatCount then GivesUp(s, t, m) else Sends(cfg, s, now, count, t, m)
  }

  lemma ChunkTransmitted(cfg: Config, s: Sender, data: seq<Byte>, now: int)
    requires SenderOk(cfg, s) && 0 < |data| <= cfg.windowSize && s.lastSent + |data| == ChunkEnd(s) + 1 <= s.nextToAdd
    ensures var (t, m) := Dispatch(cfg, Taken(s, data, now), s.lastSent, data);
            Transmits(cfg, s, now, t, m)
  {
    hide Sends, GivesUp, Retire, RemovedUpTo, Others, RegisteredCount, SenderOk, Counted, Start;
    var taken := Taken(s, data, now);
    var (t, m) := Dispatch(cfg, taken, s.lastSent, data);
    var count := RegisteredCount(s.chunks, s.lastSent, ChunkEnd(s));
    assert taken.chunks[|taken.chunks| - 1] == SendingChunk(s.lastSent, ChunkEnd(s), count, now);
    if count > cfg.maxRepeatCount {
      GivesUpChunk(cfg, s, now, t);
    } else {
      SendsChunk(cfg, s, data, now, count, t, m);
    }
  }

  /**
    SendData writes when it can send.  The chunk starts at lastSent, and the next one goes on behind it; it is
    written as new, as a repetition with its count, or not at all when that count is above the limit.
   */
  lemma TransmitMeans(cfg: Config, s: Sender, now: int)
    requires SenderOk(cfg, s)
    ensures |NextSlice(cfg, s)| + s.lastSent <= MAX
    ensures CanSend(cfg, s) ==> s.lastSent <= ChunkEnd(s) < MAX
    ensures var (t, m) := Transmit(cfg, s, now);
            if CanSend(cfg, s) then Transmits(cfg, s, now, t, m) else t == s && m == None
  {
    NextSliceFits(cfg, s);
    NextSliceLength(cfg, s);
    assert s.maxDataSize <= cfg.windowSize;
    hide NextSlice, Transmits, Taken, Dispatch, SenderOk;
    if CanSend(cfg, s) {
      ChunkTransmitted(cfg, s, NextSlice(cfg, s), now);
    }
  }

  // Sending one range again and again

  /** The chunk at b is sent once more at each of these times. */
  ghost function Resent(cfg: Config, s: Sender, b: Offset, times: seq<int>): (r: Sender)
    requires SenderOk(cfg, s) && b <= s.nextToAdd
    ensures SenderOk(cfg, r) && r.nextToAdd == s.nextToAdd
  {
    if times == [] then s
    else
      var last := |times| - 1;
      var before := Resent(cfg, s, b, times[..last]).(lastSent := b);
      TransmitOk(cfg, before, times[last]);
      SentKeepsEnd(cfg, before, times[last]);
      Transmit(cfg, before, times[last]).0
  }

  lemma SentKeepsEnd(cfg: Config, s: Sender, now: int)
    requires |NextSlice(cfg, s)| + s.lastSent <= MAX
    ensures Transmit(cfg, s, now).0.nextToAdd == s.nextToAdd
  {
    hide NextSlice, Registered, Counted;
  }

  ghost predicate NoneBegins(chunks: seq<SendingChunk>, b: int, e: int) {
    forall c :: c in chunks ==> !BeginsIn(c, b, e)
  }

  /** The range is the last chunk of the list, and was sent n times. */
  ghost predicate SentTimes(chunks: seq<SendingChunk>, b: int, e: int, n: nat) {
    if n == 0 then NoneBegins(chunks, b, e)
    else
      && chunks != [] && NoneBegins(chunks[..|chunks| - 1], b, e)
      && (var last := chunks[|chunks| - 1]; last.begin == b && last.end == e && last.repeatCount == n)
  }

  lemma SentTimesCount(chunks: seq<SendingChunk>, b: Offset, e: Offset, n: nat)
    requires b <= e && SentTimes(chunks, b, e, n)
    ensures RegisteredCount(chunks, b, e) == n && NoneBegins(Others(chunks, b, e), b, e)
  {
    if n == 0 {
      CountOfNew(chunks, b, e);
    } else {
      var l := |chunks| - 1;
      assert forall j :: 0 <= j < l ==> chunks[j] in chunks[..l];
      CountOfMerged(chunks, b, e, l, l);
      FirstInIs(chunks, b, e, l);
    }
  }

  lemma SentOnceMore(chunks: seq<SendingChunk>, b: Offset, e: Offset, now: int, n: nat)
    requires b <= e && n < MAX && SentTimes(chunks, b, e, n)
    ensures SentTimes(Counted(Registered(chunks, b, e, now)), b, e, n + 1)
  {
    SentTimesCount(chunks, b, e, n);
    hide Others, RegisteredCount;
    var r := Registered(chunks, b, e, now);
    CountedLast(r);
    assert Counted(r)[..|r| - 1] == Others(chunks, b, e);
  }

  lemma TakenState(cfg: Config, s: Sender, data: seq<Byte>, now: int)
    requires data != [] && s.lastSent + |data| == ChunkEnd(s) + 1 <= MAX
    requires RegisteredCount(s.chunks, s.lastSent, ChunkEnd(s)) <= cfg.maxRepeatCount
    ensures Dispatch(cfg, Taken(s, data, now), s.lastSent, data).0 ==
            s.(lastSent := ChunkEnd(s) + 1, chunks := Counted(Registered(s.chunks, s.lastSent, ChunkEnd(s), now)))
  {
    hide Others, RegisteredCount, Abandoned, Counted, Min;
  }

  lemma SentState(cfg: Config, s: Sender, now: int)
    requires SenderOk(cfg, s) && CanSend(cfg, s)
    ensures s.lastSent <= ChunkEnd(s) < MAX && |NextSlice(cfg, s)| + s.lastSent <= MAX
    ensures RegisteredCount(s.chunks, s.lastSent, ChunkEnd(s)) <= cfg.maxRepeatCount ==>
              Transmit(cfg, s, now).0 == s.(lastSent := ChunkEnd(s) + 1,
                                            chunks := Counted(Registered(s.chunks, s.lastSent, ChunkEnd(s), now)))
  {
    NextSliceFits(cfg, s);
    NextSliceLength(cfg, s);
    assert s.nextToAdd < MAX;
    hide NextSlice, SenderOk, Registered, RegisteredCount, Taken, Dispatch, Counted;
    if RegisteredCount(s.chunks, s.lastSent, ChunkEnd(s)) <= cfg.maxRepeatCount {
      TakenState(cfg, s, NextSlice(cfg, s), now);
    }
  }

  lemma {:induction false} ResentState(cfg: Config, s: Sender, b: Offset, times: seq<int>)
    requires SenderOk(cfg, s) && CanSend(cfg, s.(lastSent := b)) && |times| <= cfg.maxRepeatCount + 1 <= MAX
    requires NoneBegins(s.chunks, b, ChunkEnd(s.(lastSent := b)))
    ensures var r := Resent(cfg, s, b, times);
            r == s.(lastSent := r.lastSent, chunks := r.chunks) && SentTimes(r.chunks, b, ChunkEnd(s.(lastSent := b)), |times|)
  {
    if times == [] {
    } else {
      var last := |times| - 1;
      ResentState(cfg, s, b, times[..last]);
      var before := Resent(cfg, s, b, times[..last]).(lastSent := b);
      var e := ChunkEnd(before);
      hide SenderOk, NextSlice, Transmit, SentTimes, Registered, RegisteredCount, Counted;
      SentState(cfg, before, times[last]);
      SentTimesCount(before.chunks, b, e, last);
      SentOnceMore(before.chunks, b, e, times[last], last);
    }
  }

  /**
    A range in which no chunk begins is sent once as new and maxRepeatCount times as a repetition, numbered
    from 1; the attempt after these makes the sender give up.
   */
  lemma RangeIsRepeated(cfg: Config, s: Sender, b: Offset, times: seq<int>, now: int)
    requires SenderOk(cfg, s) && CanSend(cfg, s.(lastSent := b)) && |times| <= cfg.maxRepeatCount + 1 <= MAX
    requires NoneBegins(s.chunks, b, ChunkEnd(s.(lastSent := b)))
    ensures var r := Resent(cfg, s, b, times).(lastSent := b);
            && |NextSlice(cfg, r)| + b <= MAX
            && var (t, m) := Transmit(cfg, r, now);
               if |times| <= cfg.maxRepeatCount
               then m.Some? && IsMessage(m.value, |times|, b, ChunkEnd(s.(lastSent := b)) + 1 - b)
               else GivesUp(r, t, m)
  {
    var r := Resent(cfg, s, b, times).(lastSent := b);
    ResentState(cfg, s, b, times);
    hide SenderOk, NextSlice, Transmit, GivesUp, SentTimes, RegisteredCount, Registered;
    TransmitMeans(cfg, r, now);
    SentTimesCount(r.chunks, b, ChunkEnd(r), |times|);
  }

  // The code

  class SafeStreamSending {
    const config: Config
    const sendDataBuffer: SendDataBuffer
    const sendingChunks: SendingChunkList
    var lastConfirmed: Offset
    var nextToAdd: Offset
    var lastSent: Offset
    var maxDataSize: Offset

    ghost function State(): (s: Sender)
      reads this, sendDataBuffer, sendingChunks
    {
      Sender(sendDataBuffer.State(), sendingChunks.chunks, lastConfirmed, nextToAdd, lastSent, maxDataSize)
    }

    ghost predicate Valid()
      reads this, sendDataBuffer, sendingChunks
    {
      && sendDataBuffer.windowSize == config.windowSize && sendingChunks.windowSize == config.windowSize
      && SenderOk(config, State())
    }

    constructor (config: Config)
      requires ConfigOk(config)
      ensures Valid() && this.config == config && State() == INITIAL_SENDER
      ensures fresh(sendDataBuffer) && fresh(sendingChunks)
    {
      this.config := config;
      sendDataBuffer := new SendDataBuffer(config.windowSize);
      sendingChunks := new SendingChunkList(config.windowSize);
      lastConfirmed, nextToAdd, lastSent, maxDataSize := 0, 0, 0, 0;
    }

    /** False is the empty view returned when the buffer is full. */
    method SendData(data: seq<Byte>) returns (accepted: bool)
      requires Valid() && data != [] && Small(nextToAdd + |data|, config.windowSize)
      modifies this, sendDataBuffer
      ensures Valid() && State() == Accept(config, old(State()), data)
      ensures accepted <==> old(sendDataBuffer.bufferSize) + |data| <= config.bufferCapacity
      ensures accepted ==> Flatten(sendDataBuffer.blocks) == Flatten(old(sendDataBuffer.blocks)) + data
                           && nextToAdd == old(nextToAdd) + |data|
      ensures !accepted ==> State() == old(State())
    {
      AcceptOk(config, State(), data);
      FlattenConcat(sendDataBuffer.blocks, [SendingData(nextToAdd, data)]);
      if sendDataBuffer.bufferSize + |data| > config.bufferCapacity {
        return false;
      }
      var sendingData := SendingData(nextToAdd, data);
      sendDataBuffer.AddData(sendingData, nextToAdd);
      nextToAdd := Plus(sendingData.GetOffsetRange(config.windowSize).end, 1);
      return true;
    }

    method Confirm(offset: Offset)
      requires Valid() && offset < nextToAdd
      requires lastConfirmed <= offset ==> nextToAdd <= offset + config.windowSize
      modifies this, sendDataBuffer, sendingChunks
      ensures Valid() && State() == Confirmed(config, old(State()), offset)
      ensures if old(lastConfirmed) <= offset <= old(lastConfirmed) + config.windowSize
              then lastConfirmed == offset + 1 && Removes(old(State()), State(), offset, false, Done)
              else State() == old(State())
    {
      ConfirmedOk(config, State(), offset);
      ConfirmedMeans(config, State(), offset);
      if Distance(lastConfirmed, offset) <= config.windowSize {
        sendingChunks.RemoveUpTo(offset);
        sendDataBuffer.Confirm(offset, nextToAdd);
        lastConfirmed := Plus(offset, 1);
      }
    }

    method RequestRepeatSend(offset: Offset)
      requires Valid() && offset <= nextToAdd
      modifies this
      ensures Valid() && State() == old(State()).(lastSent := offset)
    {
      lastSent := offset;
    }

    /** ReportWriteError and ReportWriteStopped. */
    method ReportWriteFailure(offset: Offset)
      requires Valid() && offset < nextToAdd <= offset + config.windowSize
      modifies sendDataBuffer, sendingChunks
      ensures Valid() && State() == Abandoned(old(State()), offset, Failed)
      ensures Removes(old(State()), State(), offset, true, Failed)
    {
      AbandonedOk(config, State(), offset, Failed);
      AbandonedMeans(config, State(), offset, Failed);
      sendingChunks.RemoveUpTo(offset);
      sendDataBuffer.Reject(offset, nextToAdd);
    }

    method StopSending(offset: Offset)
      requires Valid() && offset < nextToAdd <= offset + config.windowSize
      modifies sendDataBuffer, sendingChunks
      ensures Valid() && State() == Abandoned(old(State()), offset, Stopped)
      ensures Removes(old(State()), State(), offset, true, Stopped)
    {
      AbandonedOk(config, State(), offset, Stopped);
      AbandonedMeans(config, State(), offset, Stopped);
      sendingChunks.RemoveUpTo(offset);
      sendDataBuffer.Stop(offset, nextToAdd);
    }

    /** The size is cut to 16 bits; up to a window it keeps the sender valid. */
    method SetMaxDataSize(size: nat)
      requires Valid()
      modifies this
      ensures State() == old(State()).(maxDataSize := Cast16(size))
      ensures Valid() <==> Cast16(size) <= config.windowSize
    {
      maxDataSize := Cast16(size);
    }

    /** The time returned is when to look again. */
    method HandleTimeouts(now: int) returns (wake: int)
      requires Valid()
      modifies this
      ensures Valid() && State() == TimeoutHandled(config, old(State()), now)
      ensures wake == WakeTime(config, old(State()), now)
      ensures OrderedByTime(sendingChunks.chunks) ==>
                if TimedOut(config, old(State()), now)
                then exists c :: Oldest(sendingChunks.chunks, c) && lastSent == c.begin else State() == old(State())
    {
      TimeoutOk(config, State(), now);
      if OrderedByTime(sendingChunks.chunks) {
        TimeoutResumes(config, State(), now);
      }
      wake := now;
      if sendingChunks.chunks != [] {
        var selected := sendingChunks.chunks[0];
        if selected.sendTime + config.waitConfirmTimeout < now {
          lastSent := selected.begin;
        } else {
          wake := selected.sendTime + config.waitConfirmTimeout;
        }
      }
    }

    method Update(now: int) returns (message: Option<Message>, wake: int)
      requires Valid()
      modifies this, sendDataBuffer, sendingChunks
      ensures Valid() && wake == WakeTime(config, old(State()), now)
      ensures var s := TimeoutHandled(config, old(State()), now);
              |NextSlice(config, s)| + s.lastSent <= MAX && (State(), message) == Transmit(config, s, now)
    {
      wake := HandleTimeouts(now);
      message := None;
      TransmitOk(config, State(), now);
      if maxDataSize != 0 {
        message := SendSlice(now);
      }
    }

    /** SendData(current_time). */
    method SendSlice(now: int) returns (message: Option<Message>)
      requires Valid() && maxDataSize > 0
      modifies this, sendDataBuffer, sendingChunks
      ensures Valid()
      ensures |NextSlice(config, old(State()))| + old(lastSent) <= MAX
      ensures (State(), message) == Transmit(config, old(State()), now)
      ensures if CanSend(config, old(State()))
              then old(lastSent) <= ChunkEnd(old(State())) < MAX && Transmits(config, old(State()), now, State(), message)
              else State() == old(State()) && message == None
    {
      hide Transmits, CanSend, Dispatch, Others;
      TransmitOk(config, State(), now);
      TransmitMeans(config, State(), now);
      NextSliceFits(config, State());
      if Distance(lastConfirmed, Plus(lastSent, maxDataSize)) > config.windowSize {
        return None;
      }
      var data := sendDataBuffer.GetSlice(lastSent, maxDataSize, nextToAdd);
      if data == [] {
        return None;
      }
      var offset := lastSent;
      TakeSlice(data, now);
      message := WriteChunk(offset, data);
    }

    /** The middle of SendData: move on behind the slice and register it. */
    method TakeSlice(data: seq<Byte>, now: int)
      requires Valid() && 0 < |data| <= config.windowSize && lastSent + |data| <= nextToAdd
      modifies this, sendingChunks
      ensures Valid() && State() == Taken(old(State()), data, now)
    {
      TakenOk(config, State(), data, now);
      var offset, end := lastSent, Plus(lastSent, Cast16(|data| - 1));
      lastSent := Plus(lastSent, Cast16(|data|));
      var chunk := sendingChunks.Register(offset, end, now);
    }

    /** The end of SendData: first send, repeat, or give up. */
    method WriteChunk(offset: Offset, data: seq<Byte>) returns (message: Option<Message>)
      requires Valid() && sendingChunks.chunks != []
      requires nextToAdd <= sendingChunks.chunks[|sendingChunks.chunks| - 1].end + config.windowSize
      modifies this, sendDataBuffer, sendingChunks
      ensures Valid() && (State(), message) == Dispatch(config, old(State()), offset, data)
    {
      DispatchOk(config, State(), offset, data);
      var last := |sendingChunks.chunks| - 1;
      var chunk := sendingChunks.chunks[last];
      if chunk.repeatCount == 0 {
        message := Some(Send(offset, data));
      } else {
        if chunk.repeatCount > config.maxRepeatCount {
          sendingChunks.RemoveUpTo(chunk.end);
          sendDataBuffer.Reject(chunk.end, nextToAdd);
          return None;
        }
        message := Some(Repeat(chunk.repeatCount, offset, data));
      }
      sendingChunks.chunks := sendingChunks.chunks[last := chunk.(repeatCount := Cast16(chunk.repeatCount + 1))];
    }
  }
}
