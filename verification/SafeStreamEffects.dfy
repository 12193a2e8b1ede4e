/**
  What the steps of a SafeStream bring about: what is confirmed and asked for after an update of the receiver,
  what is sent after an update of the sender, and what becomes of every block that was accepted.
 */
module Effects {
  import opened Bytes
  import opened SafeStreamTypes
  import opened Wrappers
  import SendBuffer
  import Sending
  import ChunkList
  import opened Receiving
  import opened Protocol
  import opened Runs

  // The receiver

  /** Between updates nothing is queued to be asked for, and each missing offset is listed once. */
  ghost predicate Quiet(q: Requests) {
    q.repeats == [] && !q.exceeded && Distinct(q.expected)
  }

  /** The gaps that are asked for: those that are left, once it is time. */
  ghost function AskedGaps(cfg: Config, time: int, chunks: seq<ReceivingChunk>, from: Offset, now: int): (ps: seq<Offset>)
    requires EndsOk(chunks)
  {
    if time + cfg.sendRepeatTimeout <= now then Gaps(chunks, from) else []
  }

  /** The confirmations to be sent: those queued, and one of the last byte delivered now. */
  ghost predicate ToConfirm(r: Receiver, confirmed: nat, o: int) {
    o in r.confirmations || (r.lastConfirmed < confirmed && o == confirmed - 1)
  }

  lemma MissedCheckedMeans(cfg: Config, time: int, r: Receiver, now: int)
    requires EndsOk(r.chunks) && Quiet(r.requests) && r.oldestRepeatTime == time
    ensures var t, gaps := MissedChecked(cfg, r, now), AskedGaps(cfg, time, r.chunks, r.lastConfirmed, now);
            && t.chunks == r.chunks && t.lastConfirmed == r.lastConfirmed && t.confirmations == r.confirmations
            && AsksFor(cfg, r.requests, gaps, t.requests) && Distinct(t.requests.expected)
  {
    hide Gaps, MissedRequests, Distinct;
    if time + cfg.sendRepeatTimeout <= now {
      hide AsksFor;
      MissedMeans(cfg, r.chunks, r.lastConfirmed, r.requests);
      MissedKeepsDistinct(cfg, r.chunks, r.lastConfirmed, r.requests);
    } else {
      NothingTooOften(cfg, r.requests);
    }
  }

  lemma ConfirmsHave(offsets: seq<Offset>, o: nat)
    ensures Confirm(o) in Confirms(offsets) <==> o in offsets
    ensures RequestRepeat(o) in RequestRepeats(offsets) <==> o in offsets
    ensures Confirm(o) !in RequestRepeats(offsets) && RequestRepeat(o) !in Confirms(offsets)
  {
    if o in offsets {
      var i :| 0 <= i < |offsets| && offsets[i] == o;
      assert Confirms(offsets)[i] == Confirm(o) && RequestRepeats(offsets)[i] == RequestRepeat(o);
    }
  }

  lemma AnsweredMeans(cfg: Config, q: Requests, gaps: seq<Offset>, r: Receiver, o: nat)
    requires Quiet(q) && AsksFor(cfg, q, gaps, r.requests) && Distinct(r.requests.expected)
    ensures var (t, ms) := Answered(r);
            && t.chunks == r.chunks && t.lastConfirmed == r.lastConfirmed && Quiet(t.requests)
            && if AnyTooOften(cfg, q, gaps) then ms == [] && t.confirmations == r.confirmations
               else
                 && (Confirm(o) in ms <==> o in r.confirmations) && (RequestRepeat(o) in ms <==> o in gaps)
                 && t.confirmations == []
  {
    hide Asked, AnyTooOften, Confirms, RequestRepeats;
    ConfirmsHave(r.confirmations, o);
    ConfirmsHave(r.requests.repeats, o);
    assert q.repeats + gaps == gaps;
  }

  /** The queue after a delivery. */
  lemma QueuedToConfirm(cfg: Config, r: Receiver, now: int)
    requires ReceiverOk(cfg.windowSize, r)
    ensures r.lastConfirmed + |Run(r)| <= MAX
    ensures var c := Completed(cfg, r, now);
            c.lastConfirmed >= r.lastConfirmed && forall o :: o in c.confirmations <==> ToConfirm(r, c.lastConfirmed, o)
  {
    CompletedConfirms(cfg, r, now);
    hide Completed, Run, Delivered, ReceiverOk;
  }

  /** An update of the receiver, from what it delivers to what it answers. */
  ghost function Answer(cfg: Config, r: Receiver, now: int): (a: (Receiver, seq<Message>))
    requires ReceiverOk(cfg.windowSize, r)
    ensures EndsOk(a.0.chunks)
  {
    CompletedOk(cfg, r, now);
    Answered(MissedChecked(cfg, Completed(cfg, r, now), now))
  }

  lemma UpdateIsAnswer(cfg: Config, s: System, now: int)
    requires Inv(cfg, s)
    ensures var t, (r, ms) := Apply(cfg, s, ReceiverUpdates(now)), Answer(cfg, s.receiver, now);
            && t == s.(receiver := r, delivered := t.delivered, net := s.net + (set m | m in ms))
            && |t.delivered| == r.lastConfirmed
  {
    ReceiverUpdateKeeps(cfg, s, now);
    hide Completed, MissedChecked, Answered, Delivered;
  }

  /** Nothing is answered: the confirmations stay queued. */
  ghost predicate Silent(r: Receiver, t: Receiver, ms: seq<Message>) {
    ms == [] && forall o :: o in t.confirmations <==> ToConfirm(r, t.lastConfirmed, o)
  }

  ghost predicate Answers(r: Receiver, t: Receiver, gaps: seq<Offset>, ms: seq<Message>, o: nat) {
    && (Confirm(o) in ms <==> ToConfirm(r, t.lastConfirmed, o)) && (RequestRepeat(o) in ms <==> o in gaps)
    && t.confirmations == []
  }

  lemma AnswerMeans(cfg: Config, r: Receiver, now: int, o: nat)
    requires ReceiverOk(cfg.windowSize, r) && Quiet(r.requests)
    ensures var (t, ms) := Answer(cfg, r, now);
            var gaps := AskedGaps(cfg, r.oldestRepeatTime, t.chunks, t.lastConfirmed, now);
            && t.lastConfirmed >= r.lastConfirmed && Quiet(t.requests)
            && if AnyTooOften(cfg, r.requests, gaps) then Silent(r, t, ms) else Answers(r, t, gaps, ms, o)
  {
    hide Completed, Run, Delivered, AsksFor, AnyTooOften, Distinct, ReceiverOk, MissedChecked, Answered, AskedGaps, Quiet, ToConfirm;
    CompletedOk(cfg, r, now);
    CompletedConfirms(cfg, r, now);
    QueuedToConfirm(cfg, r, now);
    var c := Completed(cfg, r, now);
    ChunksFit(cfg.windowSize, c);
    MissedCheckedMeans(cfg, r.oldestRepeatTime, c, now);
    AnsweredMeans(cfg, r.requests, AskedGaps(cfg, r.oldestRepeatTime, c.chunks, c.lastConfirmed, now), MissedChecked(cfg, c, now), o);
  }

  /** The receiver asks for some gap too often, so that it reports an error in place of an answer. */
  ghost predicate GivesUp(cfg: Config, s: System, now: int)
    requires Inv(cfg, s)
  {
    var t := Answer(cfg, s.receiver, now).0;
    AnyTooOften(cfg, s.receiver.requests, AskedGaps(cfg, s.receiver.oldestRepeatTime, t.chunks, t.lastConfirmed, now))
  }

  /**
    After an update of the receiver the network holds one more confirmation when something was delivered, that
    of the last byte delivered, and none when nothing was; it holds those queued before, and no other.
   */
  lemma DeliveryIsConfirmed(cfg: Config, s: System, now: int, o: nat)
    requires Inv(cfg, s) && Quiet(s.receiver.requests) && !GivesUp(cfg, s, now)
    ensures var t := Apply(cfg, s, ReceiverUpdates(now));
            Confirm(o) in t.net <==>
              || Confirm(o) in s.net || o in s.receiver.confirmations
              || (|t.delivered| > |s.delivered| && o == |t.delivered| - 1)
  {
    UpdateIsAnswer(cfg, s, now);
    assert |s.delivered| == s.receiver.lastConfirmed;
    hide Inv, Apply, Answer, AnyTooOften, AskedGaps, Quiet, ReceiverOk;
    InvMeansOk(cfg, s);
    AnswerMeans(cfg, s.receiver, now, o);
  }

  lemma InvMeansOk(cfg: Config, s: System)
    requires Inv(cfg, s)
    ensures ReceiverOk(cfg.windowSize, s.receiver) && Sending.SenderOk(cfg, s.sender)
  {
  }

  /** Once it is time, the receiver asks for a position exactly when a gap in front of a stored chunk starts there. */
  lemma GapsAreAskedFor(cfg: Config, s: System, now: int, p: nat)
    requires Inv(cfg, s) && Quiet(s.receiver.requests) && !GivesUp(cfg, s, now)
    ensures var t := Apply(cfg, s, ReceiverUpdates(now));
            RequestRepeat(p) in t.net <==>
              || RequestRepeat(p) in s.net
              || (s.receiver.oldestRepeatTime + cfg.sendRepeatTimeout <= now && GapAt(t.receiver.chunks, t.receiver.lastConfirmed, p))
  {
    UpdateIsAnswer(cfg, s, now);
    hide Inv, Apply, Answer, AnyTooOften, Quiet, ReceiverOk, Gaps, GapAt;
    InvMeansOk(cfg, s);
    AnswerMeans(cfg, s.receiver, now, p);
    var t := Answer(cfg, s.receiver, now).0;
    GapsAre(t.chunks, t.lastConfirmed, p);
  }

  /** A receiver that gives up sends nothing; its confirmations wait for the next update. */
  lemma GivingUpIsSilent(cfg: Config, s: System, now: int, o: nat)
    requires Inv(cfg, s) && Quiet(s.receiver.requests) && GivesUp(cfg, s, now)
    ensures var t := Apply(cfg, s, ReceiverUpdates(now));
            && t.net == s.net
            && (o in t.receiver.confirmations <==>
                  o in s.receiver.confirmations || (|t.delivered| > |s.delivered| && o == |t.delivered| - 1))
  {
    UpdateIsAnswer(cfg, s, now);
    assert |s.delivered| == s.receiver.lastConfirmed;
    hide Inv, Apply, Answer, AnyTooOften, AskedGaps, Quiet, ReceiverOk;
    InvMeansOk(cfg, s);
    AnswerMeans(cfg, s.receiver, now, o);
  }

  lemma StepStaysQuiet(cfg: Config, s: System, e: Event)
    requires Inv(cfg, s) && Enabled(cfg, s, e) && Quiet(s.receiver.requests)
    ensures Quiet(Apply(cfg, s, e).receiver.requests)
  {
    InvMeansOk(cfg, s);
    if e.ReceiverUpdates? {
      UpdateIsAnswer(cfg, s, e.now);
      hide Apply, Answer, Inv, Quiet, ReceiverOk, AskedGaps;
      AnswerMeans(cfg, s.receiver, e.now, 0);
    } else if e.DataArrives? {
      assert MessageHolds(s.accepted, cfg.windowSize, s.sender.lastConfirmed, e.message);
      StoredForgets(s.receiver, ReceivingChunk(e.message.offset, e.message.data));
      hide Stored, Inv, Distinct;
    } else {
      hide Inv, Distinct, Sending.Transmit, Sending.TimeoutHandled, Sending.Confirmed, Sending.Abandoned, Sending.Accept;
    }
  }

  // From the receiver back to the sender

  /** What the receiver holds, delivered or not, ends within the window of the sender. */
  ghost predicate WithinWindow(cfg: Config, s: System) {
    var limit := s.sender.lastConfirmed + cfg.windowSize;
    s.receiver.lastConfirmed <= limit && forall c :: c in s.receiver.chunks ==> c.End() <= limit
  }

  lemma StoredWithin(r: Receiver, c: ReceivingChunk, limit: int)
    requires (forall d :: d in r.chunks ==> d.End() <= limit) && c.End() <= limit
    ensures forall d :: d in Stored(r, c).chunks ==> d.End() <= limit
  {
  }

  lemma CompletedWithin(cfg: Config, r: Receiver, now: int, limit: int)
    requires ReceiverOk(cfg.windowSize, r) && r.lastConfirmed <= limit && forall d :: d in r.chunks ==> d.End() <= limit
    ensures r.lastConfirmed + |Run(r)| <= MAX
    ensures var c := Completed(cfg, r, now); c.lastConfirmed <= limit && forall d :: d in c.chunks ==> d.End() <= limit
  {
    RunFits(cfg.windowSize, r);
    RunIsLongest(r.chunks, r.lastConfirmed);
    hide RunLength, Join, ReceiverOk;
    var k := RunLength(r.chunks, r.lastConfirmed);
    assert k > 0 ==> r.chunks[k - 1] in r.chunks;
  }

  lemma AnswerKeepsChunks(cfg: Config, r: Receiver, now: int)
    requires ReceiverOk(cfg.windowSize, r)
    ensures r.lastConfirmed + |Run(r)| <= MAX
    ensures var a, c := Answer(cfg, r, now).0, Completed(cfg, r, now); a.chunks == c.chunks && a.lastConfirmed == c.lastConfirmed
  {
    CompletedOk(cfg, r, now);
    hide Completed, Run, ReceiverOk, MissedRequests;
  }

  lemma StepStaysWithin(cfg: Config, s: System, e: Event)
    requires Inv(cfg, s) && Enabled(cfg, s, e) && WithinWindow(cfg, s)
    ensures WithinWindow(cfg, Apply(cfg, s, e))
  {
    InvMeansOk(cfg, s);
    if e.ReceiverUpdates? {
      UpdateIsAnswer(cfg, s, e.now);
      hide Apply, Answer, Inv, ReceiverOk, Completed, Run;
      AnswerKeepsChunks(cfg, s.receiver, e.now);
      CompletedWithin(cfg, s.receiver, e.now, s.sender.lastConfirmed + cfg.windowSize);
    } else if e.DataArrives? {
      assert MessageHolds(s.accepted, cfg.windowSize, s.sender.lastConfirmed, e.message);
      StoredWithin(s.receiver, ReceivingChunk(e.message.offset, e.message.data), s.sender.lastConfirmed + cfg.windowSize);
      hide Stored, Inv;
    } else if e.SenderUpdates? {
      hide ReceiverOk, Sending.SenderOk;
      SentKeepsConfirmed(cfg, s, e.now);
    } else {
      hide Inv, ReceiverOk;
    }
  }

  lemma SentKeepsConfirmed(cfg: Config, s: System, now: int)
    requires Inv(cfg, s) && Enabled(cfg, s, SenderUpdates(now))
    ensures var t := Apply(cfg, s, SenderUpdates(now));
            t.sender.lastConfirmed == s.sender.lastConfirmed && t.receiver == s.receiver
  {
    Sending.TimeoutOk(cfg, s.sender, now);
    var r := Sending.TimeoutHandled(cfg, s.sender, now);
    Sending.TransmitMeans(cfg, r, now);
    hide Inv, Sending.SenderOk, Sending.Transmit, Sending.NextSlice, Sending.CanSend;
  }

  /** Both hold after every run. */
  lemma {:induction false} RunStaysQuiet(cfg: Config, s: System, events: seq<Event>)
    requires Inv(cfg, s) && IsRun(cfg, s, events) && Quiet(s.receiver.requests) && WithinWindow(cfg, s)
    ensures Quiet(After(cfg, s, events).receiver.requests) && WithinWindow(cfg, After(cfg, s, events))
    decreases |events|
  {
    hide Inv, Enabled, Apply, Quiet, WithinWindow;
    if events == [] {
    } else {
      StepKeeps(cfg, s, events[0]);
      StepStaysQuiet(cfg, s, events[0]);
      StepStaysWithin(cfg, s, events[0]);
      RunStaysQuiet(cfg, Apply(cfg, s, events[0]), events[1..]);
    }
  }

  /** A delivery by this update is confirmed by a message that may arrive, and brings the sender to all that was delivered. */
  ghost predicate CatchesUp(cfg: Config, s: System, now: int)
    requires Inv(cfg, s)
  {
    var t := Apply(cfg, s, ReceiverUpdates(now));
    |t.delivered| > |s.delivered| ==>
      && Inv(cfg, t) && |t.delivered| - 1 <= MAX && Enabled(cfg, t, ConfirmArrives(|t.delivered| - 1))
      && Apply(cfg, t, ConfirmArrives(|t.delivered| - 1)).sender.lastConfirmed == |t.delivered|
  }

  ghost predicate AllDone(s: Sending.Sender) {
    forall f :: f in s.buffer.finished ==> f.1 == SendBuffer.Done
  }

  lemma ConfirmationCatchesUp(cfg: Config, s: System, now: int)
    requires Inv(cfg, s) && Quiet(s.receiver.requests) && WithinWindow(cfg, s) && OnlyDeliveredConfirmed(s)
    requires AllDone(s.sender) && !GivesUp(cfg, s, now)
    ensures CatchesUp(cfg, s, now)
  {
    var e := ReceiverUpdates(now);
    StepKeeps(cfg, s, e);
    StepStaysWithin(cfg, s, e);
    UpdateIsAnswer(cfg, s, now);
    var t := Apply(cfg, s, e);
    InvMeansOk(cfg, t);
    assert |s.delivered| == s.receiver.lastConfirmed;
    hide Inv, Apply, Enabled, Quiet, GivesUp, Sending.SenderOk, Answer;
    if |t.delivered| > |s.delivered| {
      var o := |t.delivered| - 1;
      DeliveryIsConfirmed(cfg, s, now, o);
      ConfirmGuardHolds(cfg, t, o);
      ConfirmBrings(cfg, t, o);
    }
  }

  lemma ConfirmBrings(cfg: Config, s: System, o: Offset)
    requires Inv(cfg, s) && Enabled(cfg, s, ConfirmArrives(o))
    requires s.sender.lastConfirmed <= o <= s.sender.lastConfirmed + cfg.windowSize
    ensures Apply(cfg, s, ConfirmArrives(o)).sender.lastConfirmed == o + 1
  {
    assert MessageHolds(s.accepted, cfg.windowSize, s.sender.lastConfirmed, Confirm(o));
    InvMeansOk(cfg, s);
    Sending.ConfirmedMeans(cfg, s.sender, o);
    hide Inv, Sending.SenderOk, Sending.Confirmed, Sending.Removes;
  }

  /**
    After every run without a straddling repeat, as long as nothing was rejected or stopped: a delivery that is
    answered reaches the sender.
   */
  lemma DeliveryReachesSender(cfg: Config, events: seq<Event>, now: int)
    requires Sending.ConfigOk(cfg)
    ensures Inv(cfg, INITIAL)
    ensures IsRun(cfg, INITIAL, events) && NeverStraddles(cfg, INITIAL, events) ==>
              var s := After(cfg, INITIAL, events);
              AllDone(s.sender) && !GivesUp(cfg, s, now) ==> CatchesUp(cfg, s, now)
  {
    InitialHolds(cfg);
    assert Quiet(INITIAL.receiver.requests) && WithinWindow(cfg, INITIAL) && OnlyDeliveredConfirmed(INITIAL);
    hide Inv, Apply, Enabled, Quiet, WithinWindow, OnlyDeliveredConfirmed, GivesUp, CatchesUp, AllDone;
    if IsRun(cfg, INITIAL, events) && NeverStraddles(cfg, INITIAL, events) {
      RunStaysQuiet(cfg, INITIAL, events);
      RunKeepsDelivered(cfg, INITIAL, events);
      var s := After(cfg, INITIAL, events);
      if AllDone(s.sender) && !GivesUp(cfg, s, now) {
        ConfirmationCatchesUp(cfg, s, now);
      }
    }
  }

  // The sender

  /**
    An update of the sender sends from the first byte of a chunk that waits longest when one timed out, and from
    where it was otherwise.  What it writes, if anything, starts there and carries the bytes accepted there.
   */
  lemma SenderUpdateMeans(cfg: Config, s: System, now: int) returns (from: Offset, m: Option<Message>)
    requires Inv(cfg, s) && Enabled(cfg, s, SenderUpdates(now))
    ensures Apply(cfg, s, SenderUpdates(now)).net == Emitted(s.net, m)
    ensures if Sending.TimedOut(cfg, s.sender, now)
            then exists c :: Sending.Oldest(s.sender.chunks, c) && from == c.begin else from == s.sender.lastSent
    ensures var r, t := s.sender.(lastSent := from), Apply(cfg, s, SenderUpdates(now)).sender;
            if Sending.CanSend(cfg, r) then from <= Sending.ChunkEnd(r) < MAX && Sending.Transmits(cfg, r, now, t, m)
            else t == r && m == None
    ensures m.Some? ==> (m.value.Send? || m.value.Repeat?) && m.value.offset == from && Carries(s.accepted, from, m.value.data)
  {
    Sending.TimeoutOk(cfg, s.sender, now);
    Sending.TimeoutResumes(cfg, s.sender, now);
    SenderUpdateKeeps(cfg, s, now);
    var r := Sending.TimeoutHandled(cfg, s.sender, now);
    Sending.TransmitMeans(cfg, r, now);
    from, m := r.lastSent, Sending.Transmit(cfg, r, now).1;
    hide Sending.TimedOut, Sending.Oldest, Sending.NextSlice, Sending.Transmit, Sending.SenderOk, Sending.CanSend, ReceiverOk,
         ReceiverHolds, SenderHolds, BufferReachesBack, ChunkList.OrderedByTime, ChunkList.SentBy, ChunkList.Covered, Sending.TimeoutHandled;
    var t := Apply(cfg, s, SenderUpdates(now));
    if m.Some? {
      assert m.value in t.net;
      assert MessageHolds(t.accepted, cfg.windowSize, t.sender.lastConfirmed, m.value);
    }
  }

  // What becomes of the blocks

  /** The blocks reported and then those still buffered: all blocks ever accepted. */
  ghost function AllBlocks(b: SendBuffer.BufferState): (r: seq<SendBuffer.SendingData>)
    ensures |r| == |b.finished| + |b.blocks|
  {
    seq(|b.finished|, i requires 0 <= i < |b.finished| => b.finished[i].0) + b.blocks
  }

  /** They are the stream, in order and without gaps, and one that ends below the confirmed offset is not buffered. */
  ghost predicate Accounted(w: nat, stream: seq<Byte>, s: Sending.Sender) {
    var all := AllBlocks(s.buffer);
    && SendBuffer.Contiguous(all, s.nextToAdd, w) && SendBuffer.Start(all, s.nextToAdd) == 0 && SendBuffer.Flatten(all) == stream
    && forall d :: d in s.buffer.blocks ==> s.lastConfirmed <= d.End()
  }

  lemma SameAccounts(w: nat, stream: seq<Byte>, s: Sending.Sender, t: Sending.Sender)
    requires Accounted(w, stream, s)
    requires t.buffer == s.buffer && t.nextToAdd == s.nextToAdd && t.lastConfirmed == s.lastConfirmed
    ensures Accounted(w, stream, t)
  {
  }

  lemma ReportedBelow(w: nat, stream: seq<Byte>, s: Sending.Sender)
    requires Accounted(w, stream, s)
    ensures var all := AllBlocks(s.buffer);
            && SendBuffer.Flatten(all) == stream && SendBuffer.Contiguous(all, s.nextToAdd, w)
            && forall i :: 0 <= i < |all| && all[i].End() < s.lastConfirmed ==> i < |s.buffer.finished|
  {
    var all, k := AllBlocks(s.buffer), |s.buffer.finished|;
    assert forall i :: k <= i < |all| ==> all[i] == s.buffer.blocks[i - k];
  }

  lemma RetireKeepsAll(b: SendBuffer.BufferState, o: nat, inclusive: bool, outcome: SendBuffer.Outcome)
    ensures AllBlocks(SendBuffer.Retire(b, o, inclusive, outcome)) == AllBlocks(b)
  {
    hide SendBuffer.Cut, SendBuffer.Flatten;
    var r, c := SendBuffer.Retire(b, o, inclusive, outcome), SendBuffer.Cut(b.blocks, o, inclusive);
    forall i | 0 <= i < |AllBlocks(b)|
      ensures AllBlocks(r)[i] == AllBlocks(b)[i]
    {
    }
  }

  lemma AcceptKeepsAccounted(cfg: Config, stream: seq<Byte>, s: Sending.Sender, bytes: seq<Byte>)
    requires Sending.SenderOk(cfg, s) && bytes != [] && Small(s.nextToAdd + |bytes|, cfg.windowSize)
    requires Sending.Fits(cfg, s, bytes) && Accounted(cfg.windowSize, stream, s)
    ensures Accounted(cfg.windowSize, stream + bytes, Sending.Accept(cfg, s, bytes))
  {
    var d, t := SendBuffer.SendingData(s.nextToAdd, bytes), Sending.Accept(cfg, s, bytes);
    assert AllBlocks(t.buffer) == AllBlocks(s.buffer) + [d];
    SendBuffer.AppendContiguous(AllBlocks(s.buffer), s.nextToAdd, cfg.windowSize, d);
  }

  lemma ConfirmKeepsAccounted(cfg: Config, stream: seq<Byte>, s: Sending.Sender, o: Offset)
    requires Sending.SenderOk(cfg, s) && o < s.nextToAdd && Accounted(cfg.windowSize, stream, s)
    ensures Accounted(cfg.windowSize, stream, Sending.Confirmed(cfg, s, o))
  {
    RetireKeepsAll(s.buffer, o, false, SendBuffer.Done);
    Sending.ConfirmedMeans(cfg, s, o);
    var c := SendBuffer.Cut(s.buffer.blocks, o, false);
    assert forall d :: d in s.buffer.blocks[c..] ==> d in s.buffer.blocks;
  }

  lemma AbandonKeepsAccounted(w: nat, stream: seq<Byte>, s: Sending.Sender, o: Offset, outcome: SendBuffer.Outcome)
    requires Accounted(w, stream, s)
    ensures Accounted(w, stream, Sending.Abandoned(s, o, outcome))
  {
    RetireKeepsAll(s.buffer, o, true, outcome);
    var c := SendBuffer.Cut(s.buffer.blocks, o, true);
    assert forall d :: d in s.buffer.blocks[c..] ==> d in s.buffer.blocks;
  }

  lemma TransmitKeepsAccounted(cfg: Config, stream: seq<Byte>, s: Sending.Sender, now: int)
    requires |Sending.NextSlice(cfg, s)| + s.lastSent <= MAX && Accounted(cfg.windowSize, stream, s)
    ensures Accounted(cfg.windowSize, stream, Sending.Transmit(cfg, s, now).0)
  {
    hide Sending.NextSlice, ChunkList.Registered, Sending.Abandoned, Sending.Counted;
    var data := Sending.NextSlice(cfg, s);
    if data != [] {
      var taken := Sending.Taken(s, data, now);
      assert Accounted(cfg.windowSize, stream, taken);
      AbandonKeepsAccounted(cfg.windowSize, stream, taken, taken.chunks[|taken.chunks| - 1].end, SendBuffer.Failed);
    }
  }

  lemma StepKeepsAccounted(cfg: Config, s: System, e: Event)
    requires Inv(cfg, s) && Enabled(cfg, s, e) && Accounted(cfg.windowSize, s.accepted, s.sender)
    ensures var t := Apply(cfg, s, e); Accounted(cfg.windowSize, t.accepted, t.sender)
  {
    hide Accounted, Sending.Confirmed, Sending.Abandoned, Sending.Transmit, Sending.NextSlice;
    InvMeansOk(cfg, s);
    match e
    case AppSends(bytes) =>
      if Sending.Fits(cfg, s.sender, bytes) {
        AcceptKeepsAccounted(cfg, s.accepted, s.sender, bytes);
      }
    case MaxDataSizeSet(size) => SameAccounts(cfg.windowSize, s.accepted, s.sender, s.sender.(maxDataSize := size));
    case SenderUpdates(now) =>
      SameAccounts(cfg.windowSize, s.accepted, s.sender, Sending.TimeoutHandled(cfg, s.sender, now));
      Sending.TimeoutOk(cfg, s.sender, now);
      Sending.TransmitOk(cfg, Sending.TimeoutHandled(cfg, s.sender, now), now);
      TransmitKeepsAccounted(cfg, s.accepted, Sending.TimeoutHandled(cfg, s.sender, now), now);
    case ConfirmArrives(o) =>
      assert MessageHolds(s.accepted, cfg.windowSize, s.sender.lastConfirmed, Confirm(o));
      ConfirmKeepsAccounted(cfg, s.accepted, s.sender, o);
    case RequestArrives(o) => SameAccounts(cfg.windowSize, s.accepted, s.sender, s.sender.(lastSent := o));
    case WriteFails(o) => AbandonKeepsAccounted(cfg.windowSize, s.accepted, s.sender, o, SendBuffer.Failed);
    case StopRequested(o) => AbandonKeepsAccounted(cfg.windowSize, s.accepted, s.sender, o, SendBuffer.Stopped);
    case DataArrives(m) =>
    case ReceiverUpdates(now) =>
  }

  lemma {:induction false} RunKeepsAccounted(cfg: Config, s: System, events: seq<Event>)
    requires Inv(cfg, s) && IsRun(cfg, s, events) && Accounted(cfg.windowSize, s.accepted, s.sender)
    ensures var t := After(cfg, s, events); Accounted(cfg.windowSize, t.accepted, t.sender)
    decreases |events|
  {
    hide Inv, Enabled, Apply, Accounted;
    if events == [] {
    } else {
      StepKeeps(cfg, s, events[0]);
      StepKeepsAccounted(cfg, s, events[0]);
      RunKeepsAccounted(cfg, Apply(cfg, s, events[0]), events[1..]);
    }
  }

  /**
    After every run the blocks reported and the blocks buffered are together all that was accepted, in order: no
    block is lost, reported twice or reported out of turn.  All that end below the confirmed offset are reported.
   */
  lemma EveryBlockIsAccountedFor(cfg: Config, events: seq<Event>)
    requires Sending.ConfigOk(cfg)
    ensures Inv(cfg, INITIAL)
    ensures IsRun(cfg, INITIAL, events) ==>
              var s := After(cfg, INITIAL, events);
              var all := AllBlocks(s.sender.buffer);
              && SendBuffer.Flatten(all) == s.accepted && SendBuffer.Contiguous(all, |s.accepted|, cfg.windowSize)
              && forall i :: 0 <= i < |all| && all[i].End() < s.sender.lastConfirmed ==> i < |s.sender.buffer.finished|
  {
    InitialHolds(cfg);
    if IsRun(cfg, INITIAL, events) {
      assert Accounted(cfg.windowSize, INITIAL.accepted, INITIAL.sender);
      var s := After(cfg, INITIAL, events);
      assert |s.accepted| == s.sender.nextToAdd;
      hide Accounted, Inv, AllBlocks, SendBuffer.Contiguous, SendBuffer.Flatten;
      RunKeepsAccounted(cfg, INITIAL, events);
      ReportedBelow(cfg.windowSize, s.accepted, s.sender);
    }
  }

  // Blocks that are never done

  ghost predicate DoneBefore(b: SendBuffer.BufferState, limit: int) {
    forall f :: f in b.finished && f.1 == SendBuffer.Done ==> f.0.End() < limit
  }

  lemma ConfirmKeepsDoneBefore(cfg: Config, s: Sending.Sender, o: Offset, limit: int)
    requires Sending.SenderOk(cfg, s) && o < limit && o < MAX && DoneBefore(s.buffer, limit)
    ensures DoneBefore(Sending.Confirmed(cfg, s, o).buffer, limit)
  {
    var blocks := s.buffer.blocks;
    var c := SendBuffer.Cut(blocks, o, false);
    SendBuffer.CutSplits(blocks, s.nextToAdd, cfg.windowSize, o, false);
    var gone := SendBuffer.Reported(blocks[..c], SendBuffer.Done);
    forall f | f in gone
      ensures f.0.End() < limit
    {
      var i :| 0 <= i < |gone| && gone[i] == f;
      assert f.0 == blocks[i] && SendBuffer.Retires(blocks[i], o, false);
    }
  }

  lemma AbandonKeepsDoneBefore(s: Sending.Sender, o: Offset, outcome: SendBuffer.Outcome, limit: int)
    requires DoneBefore(s.buffer, limit) && outcome != SendBuffer.Done
    ensures DoneBefore(Sending.Abandoned(s, o, outcome).buffer, limit)
  {
  }

  lemma TransmitKeepsDoneBefore(cfg: Config, s: Sending.Sender, now: int, limit: int)
    requires |Sending.NextSlice(cfg, s)| + s.lastSent <= MAX && DoneBefore(s.buffer, limit)
    ensures DoneBefore(Sending.Transmit(cfg, s, now).0.buffer, limit)
  {
    hide Sending.NextSlice, ChunkList.Registered, Sending.Abandoned, Sending.Counted;
    var data := Sending.NextSlice(cfg, s);
    if data != [] {
      var taken := Sending.Taken(s, data, now);
      AbandonKeepsDoneBefore(taken, taken.chunks[|taken.chunks| - 1].end, SendBuffer.Failed, limit);
    }
  }

  lemma StepKeepsDoneBefore(cfg: Config, s: System, e: Event)
    requires Inv(cfg, s) && Enabled(cfg, s, e) && DoneBefore(s.sender.buffer, |s.accepted|)
    ensures var t := Apply(cfg, s, e); DoneBefore(t.sender.buffer, |t.accepted|)
  {
    hide Sending.Confirmed, Sending.Abandoned, Sending.Transmit, Sending.NextSlice;
    InvMeansOk(cfg, s);
    match e
    case AppSends(bytes) =>
    case MaxDataSizeSet(size) =>
    case SenderUpdates(now) =>
      Sending.TimeoutOk(cfg, s.sender, now);
      Sending.TransmitOk(cfg, Sending.TimeoutHandled(cfg, s.sender, now), now);
      TransmitKeepsDoneBefore(cfg, Sending.TimeoutHandled(cfg, s.sender, now), now, |s.accepted|);
    case ConfirmArrives(o) =>
      assert MessageHolds(s.accepted, cfg.windowSize, s.sender.lastConfirmed, Confirm(o));
      ConfirmKeepsDoneBefore(cfg, s.sender, o, |s.accepted|);
    case RequestArrives(o) =>
    case WriteFails(o) => AbandonKeepsDoneBefore(s.sender, o, SendBuffer.Failed, |s.accepted|);
    case StopRequested(o) => AbandonKeepsDoneBefore(s.sender, o, SendBuffer.Stopped, |s.accepted|);
    case DataArrives(m) =>
    case ReceiverUpdates(now) =>
  }

  lemma {:induction false} RunKeepsDoneBefore(cfg: Config, s: System, events: seq<Event>)
    requires Inv(cfg, s) && IsRun(cfg, s, events) && DoneBefore(s.sender.buffer, |s.accepted|)
    ensures var t := After(cfg, s, events); DoneBefore(t.sender.buffer, |t.accepted|)
    decreases |events|
  {
    hide Inv, Enabled, Apply, DoneBefore;
    if events == [] {
    } else {
      StepKeeps(cfg, s, events[0]);
      StepKeepsDoneBefore(cfg, s, events[0]);
      RunKeepsDoneBefore(cfg, Apply(cfg, s, events[0]), events[1..]);
    }
  }

  /**
    The confirmation of its last byte does not finish a block: on every run a block is reported done only when
    something was accepted behind it.
   */
  lemma LastBlockIsNotDone(cfg: Config, events: seq<Event>)
    requires Sending.ConfigOk(cfg)
    ensures Inv(cfg, INITIAL)
    ensures IsRun(cfg, INITIAL, events) ==>
              var s := After(cfg, INITIAL, events);
              forall f :: f in s.sender.buffer.finished && f.1 == SendBuffer.Done ==> f.0.End() < |s.accepted|
  {
    InitialHolds(cfg);
    if IsRun(cfg, INITIAL, events) {
      assert DoneBefore(INITIAL.sender.buffer, |INITIAL.accepted|);
      RunKeepsDoneBefore(cfg, INITIAL, events);
    }
  }
}
