/**
  What holds over whole runs of a SafeStream, started with two fresh ends and an empty network.
 */
module Runs {
  import opened Bytes
  import opened SafeStreamTypes
  import opened Wrappers
  import SendBuffer
  import Sending
  import ChunkList
  import Receiving
  import opened Protocol

  /** Each event of the run may happen when it happens. */
  ghost predicate IsRun(cfg: Config, s: System, events: seq<Event>)
    requires Inv(cfg, s)
    decreases |events|
  {
    events != [] ==>
      && Enabled(cfg, s, events[0])
      && (StepKeeps(cfg, s, events[0]); IsRun(cfg, Apply(cfg, s, events[0]), events[1..]))
  }

  ghost function After(cfg: Config, s: System, events: seq<Event>): (r: System)
    requires Inv(cfg, s) && IsRun(cfg, s, events)
    ensures Inv(cfg, r)
    decreases |events|
  {
    if events == [] then s
    else
      StepKeeps(cfg, s, events[0]);
      After(cfg, Apply(cfg, s, events[0]), events[1..])
  }

  /** A run goes on with any event that may happen. */
  lemma {:induction false} RunExtends(cfg: Config, s: System, events: seq<Event>, e: Event)
    requires Inv(cfg, s) && IsRun(cfg, s, events) && Enabled(cfg, After(cfg, s, events), e)
    ensures IsRun(cfg, s, events + [e])
    ensures After(cfg, s, events + [e]) == Apply(cfg, After(cfg, s, events), e)
    decreases |events|
  {
    hide Inv, Enabled, Apply;
    var longer := events + [e];
    if events == [] {
      assert longer[1..] == [];
      StepKeeps(cfg, s, e);
    } else {
      assert longer[1..] == events[1..] + [e];
      StepKeeps(cfg, s, events[0]);
      RunExtends(cfg, Apply(cfg, s, events[0]), events[1..], e);
    }
  }

  lemma InitialHolds(cfg: Config)
    requires Sending.ConfigOk(cfg)
    ensures Inv(cfg, INITIAL)
  {
    assert INITIAL.accepted[..0] == [];
  }

  lemma DeliveryAppends(cfg: Config, s: System, e: Event)
    requires Inv(cfg, s) && Enabled(cfg, s, e)
    ensures s.delivered <= Apply(cfg, s, e).delivered && s.accepted <= Apply(cfg, s, e).accepted
  {
  }

  /** What was delivered stays delivered, and what was accepted stays accepted. */
  lemma {:induction false} RunAppends(cfg: Config, s: System, events: seq<Event>)
    requires Inv(cfg, s) && IsRun(cfg, s, events)
    ensures s.delivered <= After(cfg, s, events).delivered && s.accepted <= After(cfg, s, events).accepted
    decreases |events|
  {
    if events == [] {
    } else {
      StepKeeps(cfg, s, events[0]);
      DeliveryAppends(cfg, s, events[0]);
      RunAppends(cfg, Apply(cfg, s, events[0]), events[1..]);
    }
  }

  /**
    Reliable delivery: on every run, whatever is lost, repeated or reordered, the bytes handed to the
    receiver's application are a prefix of the bytes accepted by SendData.
   */
  lemma DeliveredIsPrefixOfAccepted(cfg: Config, events: seq<Event>)
    requires Sending.ConfigOk(cfg)
    ensures Inv(cfg, INITIAL)
    ensures IsRun(cfg, INITIAL, events) ==>
              After(cfg, INITIAL, events).delivered <= After(cfg, INITIAL, events).accepted
  {
    InitialHolds(cfg);
  }

  // Confirmations

  /** A Repeat that starts below the confirmed offset of the receiver and ends above it. */
  ghost predicate Straddles(s: System, e: Event) {
    && e.DataArrives? && e.message.Repeat?
    && e.message.offset < s.receiver.lastConfirmed < e.message.offset + |e.message.data|
  }

  ghost predicate NeverStraddles(cfg: Config, s: System, events: seq<Event>)
    requires Inv(cfg, s) && IsRun(cfg, s, events)
    decreases |events|
  {
    events != [] ==>
      && !Straddles(s, events[0])
      && (StepKeeps(cfg, s, events[0]); NeverStraddles(cfg, Apply(cfg, s, events[0]), events[1..]))
  }

  /** Every confirmation, given or under way, is of bytes delivered; so is every block reported done. */
  ghost predicate OnlyDeliveredConfirmed(s: System) {
    var limit := s.receiver.lastConfirmed;
    && s.sender.lastConfirmed <= limit
    && QueueBelow(s.receiver.confirmations, limit)
    && (forall o: nat :: Confirm(o) in s.net ==> o < limit)
    && DoneBelow(s.sender.buffer.finished, limit)
  }

  ghost predicate QueueBelow(offsets: seq<Offset>, limit: nat) {
    forall o :: o in offsets ==> o < limit
  }

  ghost predicate DoneBelow(finished: seq<(SendBuffer.SendingData, SendBuffer.Outcome)>, limit: nat) {
    forall f :: f in finished && f.1 == SendBuffer.Done ==> f.0.End() <= limit
  }

  /**
    ReceiveRepeat queues only confirmations of delivered bytes if and only if the Repeat does not
    straddle the confirmed offset.
   */
  lemma RepeatConfirmsDeliveredIff(cfg: Config, s: System, m: Message)
    requires Inv(cfg, s) && OnlyDeliveredConfirmed(s)
    requires Enabled(cfg, s, DataArrives(m)) && m.Repeat?
    ensures var t := Apply(cfg, s, DataArrives(m));
            QueueBelow(t.receiver.confirmations, t.receiver.lastConfirmed) <==> !Straddles(s, DataArrives(m))
  {
    assert MessageHolds(s.accepted, cfg.windowSize, s.sender.lastConfirmed, m);
    var w, r := cfg.windowSize, s.receiver;
    if !Receiving.IsNew(w, r, m.offset) {
      var last := m.offset + |m.data| - 1;
      assert Apply(cfg, s, DataArrives(m)).receiver.confirmations == r.confirmations + [last];
      assert last in r.confirmations + [last];
    }
  }

  /** Data that starts at or after the confirmed offset is never taken for a duplicate. */
  lemma NewDataIsNotDuplicate(cfg: Config, s: System, m: Message)
    requires Inv(cfg, s) && OnlyDeliveredConfirmed(s)
    requires Enabled(cfg, s, DataArrives(m)) && s.receiver.lastConfirmed <= m.offset
    ensures Receiving.IsNew(cfg.windowSize, s.receiver, m.offset)
  {
    assert MessageHolds(s.accepted, cfg.windowSize, s.sender.lastConfirmed, m);
  }

  lemma ConfirmKeepsDelivered(cfg: Config, s: System, o: Offset)
    requires Inv(cfg, s) && OnlyDeliveredConfirmed(s) && Enabled(cfg, s, ConfirmArrives(o))
    ensures OnlyDeliveredConfirmed(Apply(cfg, s, ConfirmArrives(o)))
  {
    var b := s.sender.buffer;
    var c := SendBuffer.Cut(b.blocks, o, false);
    SendBuffer.CutSplits(b.blocks, s.sender.nextToAdd, cfg.windowSize, o, false);
    var gone := SendBuffer.Reported(b.blocks[..c], SendBuffer.Done);
    forall f | f in gone
      ensures f.0.End() <= s.receiver.lastConfirmed
    {
      var i :| 0 <= i < |gone| && gone[i] == f;
      assert f.0 == b.blocks[i] && SendBuffer.Retires(b.blocks[i], o, false);
    }
  }

  lemma AbandonKeepsDone(b: SendBuffer.BufferState, o: nat, outcome: SendBuffer.Outcome, limit: nat)
    requires DoneBelow(b.finished, limit) && outcome != SendBuffer.Done
    ensures DoneBelow(SendBuffer.Retire(b, o, true, outcome).finished, limit)
  {
  }

  lemma SenderUpdateKeepsDone(cfg: Config, s: System, now: int)
    requires Inv(cfg, s) && OnlyDeliveredConfirmed(s) && Enabled(cfg, s, SenderUpdates(now))
    ensures OnlyDeliveredConfirmed(Apply(cfg, s, SenderUpdates(now)))
  {
    hide ChunkList.Registered;
    Sending.TimeoutOk(cfg, s.sender, now);
    var sender := Sending.TimeoutHandled(cfg, s.sender, now);
    Sending.TransmitOk(cfg, sender, now);
    var data := Sending.NextSlice(cfg, sender);
    if data != [] {
      var taken := Sending.Taken(sender, data, now);
      AbandonKeepsDone(sender.buffer, taken.chunks[|taken.chunks| - 1].end, SendBuffer.Failed, s.receiver.lastConfirmed);
    }
  }

  lemma ReceiverUpdateKeepsDelivered(cfg: Config, s: System, now: int)
    requires Inv(cfg, s) && OnlyDeliveredConfirmed(s) && Enabled(cfg, s, ReceiverUpdates(now))
    ensures OnlyDeliveredConfirmed(Apply(cfg, s, ReceiverUpdates(now)))
  {
    Receiving.CompletedOk(cfg, s.receiver, now);
    var r := Receiving.MissedChecked(cfg, Receiving.Completed(cfg, s.receiver, now), now);
    var ms := Receiving.Answered(r).1;
    assert QueueBelow(r.confirmations, r.lastConfirmed);
    forall o: nat | Confirm(o) in ms
      ensures o < r.lastConfirmed
    {
      assert o in r.confirmations;
    }
  }

  lemma StepKeepsDelivered(cfg: Config, s: System, e: Event)
    requires Inv(cfg, s) && OnlyDeliveredConfirmed(s) && Enabled(cfg, s, e) && !Straddles(s, e)
    ensures OnlyDeliveredConfirmed(Apply(cfg, s, e))
  {
    match e
    case AppSends(bytes) =>
    case MaxDataSizeSet(size) =>
    case SenderUpdates(now) => SenderUpdateKeepsDone(cfg, s, now);
    case ConfirmArrives(o) => ConfirmKeepsDelivered(cfg, s, o);
    case RequestArrives(o) =>
    case WriteFails(o) => AbandonKeepsDone(s.sender.buffer, o, SendBuffer.Failed, s.receiver.lastConfirmed);
    case StopRequested(o) => AbandonKeepsDone(s.sender.buffer, o, SendBuffer.Stopped, s.receiver.lastConfirmed);
    case DataArrives(m) =>
      if m.Repeat? {
        RepeatConfirmsDeliveredIff(cfg, s, m);
      }
    case ReceiverUpdates(now) => ReceiverUpdateKeepsDelivered(cfg, s, now);
  }

  lemma {:induction false} RunKeepsDelivered(cfg: Config, s: System, events: seq<Event>)
    requires Inv(cfg, s) && OnlyDeliveredConfirmed(s)
    requires IsRun(cfg, s, events) && NeverStraddles(cfg, s, events)
    ensures OnlyDeliveredConfirmed(After(cfg, s, events))
    decreases |events|
  {
    if events == [] {
    } else {
      StepKeeps(cfg, s, events[0]);
      StepKeepsDelivered(cfg, s, events[0]);
      RunKeepsDelivered(cfg, Apply(cfg, s, events[0]), events[1..]);
    }
  }

  /**
    On runs where no Repeat straddles, the sender never believes more confirmed than was delivered,
    every block reported done was delivered whole, and no new data is taken for a duplicate.
   */
  lemma ConfirmedIsDelivered(cfg: Config, events: seq<Event>)
    requires Sending.ConfigOk(cfg)
    ensures Inv(cfg, INITIAL)
    ensures IsRun(cfg, INITIAL, events) && NeverStraddles(cfg, INITIAL, events) ==>
              var s := After(cfg, INITIAL, events);
              && s.sender.lastConfirmed <= s.receiver.lastConfirmed == |s.delivered|
              && DoneBelow(s.sender.buffer.finished, |s.delivered|)
              && forall m :: m in s.net && (m.Send? || m.Repeat?) && |s.delivered| <= m.offset ==>
                   Receiving.IsNew(cfg.windowSize, s.receiver, m.offset)
  {
    InitialHolds(cfg);
    if IsRun(cfg, INITIAL, events) && NeverStraddles(cfg, INITIAL, events) {
      RunKeepsDelivered(cfg, INITIAL, events);
      var s := After(cfg, INITIAL, events);
      forall m | m in s.net && (m.Send? || m.Repeat?) && |s.delivered| <= m.offset
        ensures Receiving.IsNew(cfg.windowSize, s.receiver, m.offset)
      {
        NewDataIsNotDuplicate(cfg, s, m);
      }
    }
  }

  /**
    The condition on confirmations in Enabled costs nothing until something is rejected or stopped:
    up to then the sender's buffer cannot run more than a window ahead of the confirmed offset.
   */
  lemma ConfirmGuardHolds(cfg: Config, s: System, o: Offset)
    requires Inv(cfg, s) && Confirm(o) in s.net
    requires forall f :: f in s.sender.buffer.finished ==> f.1 == SendBuffer.Done
    ensures Enabled(cfg, s, ConfirmArrives(o))
  {
    SendBuffer.FlattenLength(s.sender.buffer.blocks, s.sender.nextToAdd, cfg.windowSize);
  }
}
