/**
  Two runs in which a SafeStream falls short of what its users may expect.  Both start with three bytes
  accepted, of which one is sent first.
 */
module Witnesses {
  import opened Bytes
  import opened SafeStreamTypes
  import opened Wrappers
  import opened SendBuffer
  import opened Sending
  import opened ChunkList
  import opened Receiving
  import opened Protocol
  import opened Runs
  import opened Blocking

  const CFG := Config(8, 8, 0, 0, 0, 5)

  const BLOCK := SendingData(0, [1, 2, 3])

  // The sender on its own

  /** A sender with that block, nothing confirmed. */
  ghost function Sender3(chunks: seq<SendingChunk>, sent: Offset, size: Offset): (s: Sender) {
    Sender(BufferState([BLOCK], 3, []), chunks, 0, 3, sent, size)
  }

  const FIRST := SendingChunk(0, 0, 1, 1)
  const SECOND := SendingChunk(1, 2, 1, 1)

  lemma BlockBytes()
    ensures Flatten([BLOCK]) == [1, 2, 3] && Start([BLOCK], 3) == 0
  {
    assert [BLOCK][1..] == [];
  }

  /** One byte is sent. */
  lemma FirstByteSent()
    ensures NextSlice(CFG, Sender3([], 0, 1)) == [1]
    ensures Transmit(CFG, Sender3([], 0, 1), 1) == (Sender3([FIRST], 1, 1), Some(Send(0, [1])))
  {
    BlockBytes();
    var s := Sender3([], 0, 1);
    assert NextSlice(CFG, s) == [1];
    assert Taken(s, [1], 1) == Sender3([SendingChunk(0, 0, 0, 1)], 1, 1);
    assert Counted([SendingChunk(0, 0, 0, 1)]) == [FIRST];
  }

  /** Then the other two. */
  lemma OtherBytesSent()
    ensures NextSlice(CFG, Sender3([FIRST], 1, 2)) == [2, 3]
    ensures Transmit(CFG, Sender3([FIRST], 1, 2), 1) == (Sender3([FIRST, SECOND], 3, 2), Some(Send(1, [2, 3])))
  {
    BlockBytes();
    var s := Sender3([FIRST], 1, 2);
    assert NextSlice(CFG, s) == [2, 3];
    var chunks := [FIRST, SendingChunk(1, 2, 0, 1)];
    assert Taken(s, [2, 3], 1) == Sender3(chunks, 3, 2);
    assert Counted(chunks) == [FIRST, SECOND];
  }

  /** Or, after a timeout, the first byte is repeated together with the second one. */
  lemma TwoBytesRepeated(chunks: seq<SendingChunk>)
    requires chunks == [FIRST] || chunks == [FIRST, SECOND]
    ensures NextSlice(CFG, Sender3(chunks, 0, 2)) == [1, 2]
    ensures var (s, m) := Transmit(CFG, Sender3(chunks, 0, 2), 2);
            m == Some(Repeat(1, 0, [1, 2])) && s.lastConfirmed == 0 && s.nextToAdd == 3
  {
    BlockBytes();
    var s := Sender3(chunks, 0, 2);
    assert NextSlice(CFG, s) == [1, 2];
    assert RegisteredCount(chunks, 0, 1) == 1;
  }

  // The receiver on its own

  ghost function Receiver3(confirmed: Offset, chunks: seq<ReceivingChunk>, confirmations: seq<Offset>, time: int): (r: Receiver) {
    Receiver(confirmed, chunks, confirmations, Requests([], [], false), time, time)
  }

  lemma FirstByteDelivered()
    ensures var r := Receiver3(0, [ReceivingChunk(0, [1])], [], 0);
            && Run(r) == [1] && Delivered(CFG, r, 1) == [1]
            && Completed(CFG, r, 1) == Receiver3(1, [], [0], 1).(oldestRepeatTime := 0)
  {
    var chunks := [ReceivingChunk(0, [1])];
    assert chunks[1..] == [] && chunks[..1] == chunks;
    assert RunLength(chunks, 0) == 1 && Join(chunks) == [1];
  }

  const LEFT := ReceivingChunk(0, [1, 2])
  const RIGHT := ReceivingChunk(1, [2, 3])

  lemma OverlappingStored()
    ensures var r := RepeatReceived(CFG.windowSize, INITIAL_RECEIVER, 0, [1, 2]);
            SendReceived(CFG.windowSize, r, 1, [2, 3]) == Receiver3(0, [LEFT, RIGHT], [], 0)
  {
    assert [LEFT][1..] == [] && [LEFT] + [RIGHT] == [LEFT, RIGHT];
  }

  lemma OverlappingBlocks()
    ensures var r := Receiver3(0, [LEFT, RIGHT], [], 0);
            !Throttled(CFG, r, 2) && !Blocked(r) && RunOverlaps(r)
  {
    var chunks := [LEFT, RIGHT];
    assert chunks[1..] == [RIGHT];
    assert RunLength([RIGHT], 2) == 0 && RunLength(chunks, 0) == 1;
  }

  // Steps of the system

  lemma Accepts(s: System, bytes: seq<Byte>)
    requires Inv(CFG, s) && bytes != [] && Small(s.sender.nextToAdd + |bytes|, CFG.windowSize) && Sending.Fits(CFG, s.sender, bytes)
    ensures Enabled(CFG, s, AppSends(bytes))
    ensures Apply(CFG, s, AppSends(bytes)) == s.(sender := Accept(CFG, s.sender, bytes), accepted := s.accepted + bytes)
  {
    hide Inv;
  }

  lemma SetsSize(s: System, size: Offset)
    requires Inv(CFG, s) && size <= CFG.windowSize
    ensures Enabled(CFG, s, MaxDataSizeSet(size))
    ensures Apply(CFG, s, MaxDataSizeSet(size)) == s.(sender := s.sender.(maxDataSize := size))
  {
    hide Inv;
  }

  lemma Updates(s: System, now: int, sender: Sender, sender': Sender, m: Message)
    requires Inv(CFG, s) && s.clock <= now && sender == TimeoutHandled(CFG, s.sender, now)
    requires |NextSlice(CFG, sender)| + sender.lastSent <= MAX && Transmit(CFG, sender, now) == (sender', Some(m))
    ensures Enabled(CFG, s, SenderUpdates(now))
    ensures Apply(CFG, s, SenderUpdates(now)) == s.(sender := sender', net := s.net + {m}, clock := now)
  {
    hide Inv, TimeoutHandled, Transmit, NextSlice;
  }

  lemma SendArrives(s: System, o: Offset, data: seq<Byte>)
    requires Inv(CFG, s) && Send(o, data) in s.net
    ensures Enabled(CFG, s, DataArrives(Send(o, data)))
    ensures Apply(CFG, s, DataArrives(Send(o, data))) == s.(receiver := SendReceived(CFG.windowSize, s.receiver, o, data))
  {
    hide Inv, SendReceived;
  }

  lemma RepeatArrives(s: System, n: nat, o: Offset, data: seq<Byte>)
    requires Inv(CFG, s) && Repeat(n, o, data) in s.net && data != [] && o + |data| <= MAX
    ensures Enabled(CFG, s, DataArrives(Repeat(n, o, data)))
    ensures Apply(CFG, s, DataArrives(Repeat(n, o, data)))
            == s.(receiver := RepeatReceived(CFG.windowSize, s.receiver, o, data))
  {
    hide Inv, RepeatReceived;
  }

  /** A receiver without missing chunks confirms what it delivers and what it was asked to confirm. */
  lemma Answers(s: System, now: int, r: Receiver)
    requires Inv(CFG, s) && s.receiver.lastConfirmed + |Run(s.receiver)| <= MAX && r == Completed(CFG, s.receiver, now)
    requires r.chunks == [] && r.requests == Requests([], [], false)
    ensures Enabled(CFG, s, ReceiverUpdates(now))
    ensures var t := Apply(CFG, s, ReceiverUpdates(now));
            && t.receiver.lastConfirmed == r.lastConfirmed && t.receiver.chunks == [] && t.receiver.confirmations == []
            && t.receiver.requests == r.requests && t.receiver.lastConfirmTime == r.lastConfirmTime
            && t.sender == s.sender && t.accepted == s.accepted && t.clock == s.clock && s.net <= t.net
            && forall o :: o in r.confirmations ==> Confirm(o) in t.net
  {
    hide Inv, Completed, Run, Delivered;
    var ms := Answered(MissedChecked(CFG, r, now)).1;
    forall o | o in r.confirmations
      ensures Confirm(o) in ms
    {
      var i :| 0 <= i < |r.confirmations| && r.confirmations[i] == o;
      assert ms[i] == Confirm(o);
    }
  }

  lemma ConfirmComes(s: System, o: Offset)
    requires Inv(CFG, s) && Confirm(o) in s.net && s.sender.lastConfirmed <= o < MAX && o <= CFG.windowSize
    requires s.sender.nextToAdd <= o + CFG.windowSize
    ensures Enabled(CFG, s, ConfirmArrives(o)) && Apply(CFG, s, ConfirmArrives(o)).receiver == s.receiver
    ensures Apply(CFG, s, ConfirmArrives(o)).sender.lastConfirmed == o + 1
  {
    hide Inv;
  }

  // The runs

  /** Three bytes are accepted and the first one is sent. */
  lemma Begin() returns (events: seq<Event>)
    ensures Inv(CFG, INITIAL) && IsRun(CFG, INITIAL, events)
    ensures After(CFG, INITIAL, events)
            == System([1, 2, 3], Sender3([FIRST], 1, 1), INITIAL_RECEIVER, [], {Send(0, [1])}, 1)
  {
    InitialHolds(CFG);
    hide Inv, Enabled, Apply, Transmit, NextSlice;
    Accepts(INITIAL, [1, 2, 3]);
    events := [];
    RunExtends(CFG, INITIAL, events, AppSends([1, 2, 3]));
    events := events + [AppSends([1, 2, 3])];
    var s := After(CFG, INITIAL, events);
    assert s.sender == Sender3([], 0, 0);
    SetsSize(s, 1);
    RunExtends(CFG, INITIAL, events, MaxDataSizeSet(1));
    events := events + [MaxDataSizeSet(1)];
    s := After(CFG, INITIAL, events);
    FirstByteSent();
    Updates(s, 1, Sender3([], 0, 1), Sender3([FIRST], 1, 1), Send(0, [1]));
    RunExtends(CFG, INITIAL, events, SenderUpdates(1));
    events := events + [SenderUpdates(1)];
    assert {} + {Send(0, [1])} == {Send(0, [1])};
  }

  /**
    The first byte is delivered and its confirmation lost.  Two bytes are then repeated as one chunk, which
    the receiver takes for a duplicate and confirms: the sender counts two bytes as confirmed, one was delivered.
   */
  lemma StraddlingRepeatOverconfirms() returns (events: seq<Event>)
    ensures Inv(CFG, INITIAL) && IsRun(CFG, INITIAL, events)
    ensures var s := After(CFG, INITIAL, events); s.sender.lastConfirmed > s.receiver.lastConfirmed
  {
    events := Begin();
    hide Inv, Enabled, Apply, Transmit, NextSlice, Completed, Run;
    var s := After(CFG, INITIAL, events);
    SendArrives(s, 0, [1]);
    RunExtends(CFG, INITIAL, events, DataArrives(Send(0, [1])));
    events := events + [DataArrives(Send(0, [1]))];
    s := After(CFG, INITIAL, events);
    assert s.receiver == Receiver3(0, [ReceivingChunk(0, [1])], [], 0);
    FirstByteDelivered();
    Answers(s, 1, Receiver3(1, [], [0], 1).(oldestRepeatTime := 0));
    RunExtends(CFG, INITIAL, events, ReceiverUpdates(1));
    events := events + [ReceiverUpdates(1)];
    events := RepeatConfirmed(events);
  }

  lemma RepeatConfirmed(before: seq<Event>) returns (events: seq<Event>)
    requires Inv(CFG, INITIAL) && IsRun(CFG, INITIAL, before)
    requires var s := After(CFG, INITIAL, before);
             && s.sender == Sender3([FIRST], 1, 1) && s.clock == 1
             && s.receiver.lastConfirmed == 1 && s.receiver.chunks == [] && s.receiver.confirmations == []
             && s.receiver.requests == Requests([], [], false) && s.receiver.lastConfirmTime == 1
    ensures IsRun(CFG, INITIAL, events)
    ensures var s := After(CFG, INITIAL, events); s.sender.lastConfirmed == 2 && s.receiver.lastConfirmed == 1
  {
    hide Inv, Enabled, Apply, Transmit, NextSlice, Completed, Run;
    var s := After(CFG, INITIAL, before);
    SetsSize(s, 2);
    RunExtends(CFG, INITIAL, before, MaxDataSizeSet(2));
    events := before + [MaxDataSizeSet(2)];
    s := After(CFG, INITIAL, events);
    TwoBytesRepeated([FIRST]);
    Updates(s, 2, Sender3([FIRST], 0, 2), Transmit(CFG, Sender3([FIRST], 0, 2), 2).0, Repeat(1, 0, [1, 2]));
    RunExtends(CFG, INITIAL, events, SenderUpdates(2));
    events := events + [SenderUpdates(2)];
    s := After(CFG, INITIAL, events);
    RepeatArrives(s, 1, 0, [1, 2]);
    RunExtends(CFG, INITIAL, events, DataArrives(Repeat(1, 0, [1, 2])));
    events := events + [DataArrives(Repeat(1, 0, [1, 2]))];
    s := After(CFG, INITIAL, events);
    assert s.receiver.confirmations == [1];
    NothingToDeliver(s.receiver, 2);
    Answers(s, 2, s.receiver);
    RunExtends(CFG, INITIAL, events, ReceiverUpdates(2));
    events := events + [ReceiverUpdates(2)];
    s := After(CFG, INITIAL, events);
    ConfirmComes(s, 1);
    RunExtends(CFG, INITIAL, events, ConfirmArrives(1));
    events := events + [ConfirmArrives(1)];
  }

  lemma NothingToDeliver(r: Receiver, now: int)
    requires r.chunks == []
    ensures Run(r) == [] && Completed(CFG, r, now) == r
  {
  }

  /**
    All bytes are sent in two chunks, and the first two are repeated as one chunk, which arrives first.
    The second chunk is stored behind it and overlaps it: the third byte is never delivered.
   */
  lemma OverlapBlocks() returns (events: seq<Event>)
    ensures Inv(CFG, INITIAL) && IsRun(CFG, INITIAL, events)
    ensures var s := After(CFG, INITIAL, events); Blocked(s.receiver) && |s.delivered| < |s.accepted|
  {
    events := Begin();
    hide Inv, Enabled, Apply, Transmit, NextSlice, RunOverlaps, RepeatReceived, SendReceived;
    var s := After(CFG, INITIAL, events);
    SetsSize(s, 2);
    RunExtends(CFG, INITIAL, events, MaxDataSizeSet(2));
    events := events + [MaxDataSizeSet(2)];
    s := After(CFG, INITIAL, events);
    OtherBytesSent();
    Updates(s, 1, Sender3([FIRST], 1, 2), Sender3([FIRST, SECOND], 3, 2), Send(1, [2, 3]));
    RunExtends(CFG, INITIAL, events, SenderUpdates(1));
    events := events + [SenderUpdates(1)];
    s := After(CFG, INITIAL, events);
    TwoBytesRepeated([FIRST, SECOND]);
    Updates(s, 2, Sender3([FIRST, SECOND], 0, 2), Transmit(CFG, Sender3([FIRST, SECOND], 0, 2), 2).0, Repeat(1, 0, [1, 2]));
    RunExtends(CFG, INITIAL, events, SenderUpdates(2));
    events := events + [SenderUpdates(2)];
    s := After(CFG, INITIAL, events);
    RepeatArrives(s, 1, 0, [1, 2]);
    RunExtends(CFG, INITIAL, events, DataArrives(Repeat(1, 0, [1, 2])));
    events := events + [DataArrives(Repeat(1, 0, [1, 2]))];
    s := After(CFG, INITIAL, events);
    SendArrives(s, 1, [2, 3]);
    RunExtends(CFG, INITIAL, events, DataArrives(Send(1, [2, 3])));
    events := events + [DataArrives(Send(1, [2, 3]))];
    events := DeliveryBlocks(events);
  }

  lemma DeliveryBlocks(before: seq<Event>) returns (events: seq<Event>)
    requires Inv(CFG, INITIAL) && IsRun(CFG, INITIAL, before)
    requires var s := After(CFG, INITIAL, before);
             && s.accepted == [1, 2, 3]
             && s.receiver == SendReceived(CFG.windowSize, RepeatReceived(CFG.windowSize, INITIAL_RECEIVER, 0, [1, 2]), 1, [2, 3])
    ensures IsRun(CFG, INITIAL, events)
    ensures var s := After(CFG, INITIAL, events); Blocked(s.receiver) && |s.delivered| < |s.accepted|
  {
    OverlappingStored();
    OverlappingBlocks();
    var s := After(CFG, INITIAL, before);
    hide Apply, RunOverlaps, SendReceived, RepeatReceived;
    StepBlocksIff(CFG, s, ReceiverUpdates(2));
    RunExtends(CFG, INITIAL, before, ReceiverUpdates(2));
    events := before + [ReceiverUpdates(2)];
  }
}
