/**
  When the receiver of a SafeStream stops delivering for good: its first stored chunk starts below the
  confirmed offset, and nothing removes it.
 */
module Blocking {
  import opened Bytes
  import opened SafeStreamTypes
  import opened Receiving
  import opened Protocol
  import opened Runs

  /** The first stored chunk starts below the confirmed offset. */
  ghost predicate Blocked(r: Receiver) {
    r.chunks != [] && r.chunks[0].offset < r.lastConfirmed
  }

  lemma BlockedStays(cfg: Config, s: System, e: Event)
    requires Inv(cfg, s) && Enabled(cfg, s, e) && Blocked(s.receiver)
    ensures Blocked(Apply(cfg, s, e).receiver) && Apply(cfg, s, e).delivered == s.delivered
  {
    if e.DataArrives? {
      assert MessageHolds(s.accepted, cfg.windowSize, s.sender.lastConfirmed, e.message);
    }
  }

  /** Once the receiver is blocked, nothing that can still happen makes it deliver again. */
  lemma {:induction false} BlockedForever(cfg: Config, s: System, events: seq<Event>)
    requires Inv(cfg, s) && IsRun(cfg, s, events) && Blocked(s.receiver)
    ensures Blocked(After(cfg, s, events).receiver) && After(cfg, s, events).delivered == s.delivered
    decreases |events|
  {
    if events == [] {
    } else {
      StepKeeps(cfg, s, events[0]);
      BlockedStays(cfg, s, events[0]);
      BlockedForever(cfg, Apply(cfg, s, events[0]), events[1..]);
    }
  }

  // How it gets blocked

  /** The run that can be delivered ends inside the chunk behind it. */
  ghost predicate RunOverlaps(r: Receiver) {
    var k := RunLength(r.chunks, r.lastConfirmed);
    0 < k < |r.chunks| && r.chunks[k].offset < r.chunks[k - 1].End()
  }

  /** A delivery blocks the receiver if and only if the run it delivers overlaps the next chunk. */
  lemma DeliveryBlocksIff(cfg: Config, r: Receiver, now: int)
    requires ReceiverOk(cfg.windowSize, r) && !Blocked(r) && !Throttled(cfg, r, now)
    ensures r.lastConfirmed + |Run(r)| <= MAX
    ensures Blocked(Completed(cfg, r, now)) <==> RunOverlaps(r)
  {
    RunFits(cfg.windowSize, r);
    RunIsLongest(r.chunks, r.lastConfirmed);
    hide RunLength, Join;
    var k := RunLength(r.chunks, r.lastConfirmed);
    assert r.chunks[..0] == [];
  }

  lemma StoringDoesNotBlock(w: nat, r: Receiver, c: ReceivingChunk)
    requires !Blocked(r) && IsNew(w, r, c.offset)
    ensures !Blocked(Stored(r, c))
  {
    hide Place, Inserted, Unexpect;
    InsertedAt(r.chunks, c);
  }

  lemma ThrottledStays(cfg: Config, r: Receiver, now: int)
    requires Throttled(cfg, r, now) && r.lastConfirmed + |Run(r)| <= MAX
    ensures Completed(cfg, r, now) == r
  {
  }

  /** Of all events, only such a delivery blocks a receiver that is not blocked yet. */
  lemma StepBlocksIff(cfg: Config, s: System, e: Event)
    requires Inv(cfg, s) && Enabled(cfg, s, e) && !Blocked(s.receiver)
    ensures Blocked(Apply(cfg, s, e).receiver) <==>
              e.ReceiverUpdates? && !Throttled(cfg, s.receiver, e.now) && RunOverlaps(s.receiver)
  {
    hide RunOverlaps, Sending.Transmit, Sending.TimeoutHandled, Sending.Confirmed, Stored, Completed;
    if e.DataArrives? {
      var m := e.message;
      assert MessageHolds(s.accepted, cfg.windowSize, s.sender.lastConfirmed, m);
      if IsNew(cfg.windowSize, s.receiver, m.offset) {
        StoringDoesNotBlock(cfg.windowSize, s.receiver, ReceivingChunk(m.offset, m.data));
      }
    } else if e.ReceiverUpdates? && Throttled(cfg, s.receiver, e.now) {
      RunFits(cfg.windowSize, s.receiver);
      ThrottledStays(cfg, s.receiver, e.now);
    } else if e.ReceiverUpdates? && !Throttled(cfg, s.receiver, e.now) {
      DeliveryBlocksIff(cfg, s.receiver, e.now);
    }
  }

  /** Each stored chunk ends before the next one starts, and all lie behind the confirmed offset. */
  ghost predicate Disjoint(r: Receiver) {
    && (forall i :: 0 < i < |r.chunks| ==> r.chunks[i - 1].End() <= r.chunks[i].offset)
    && (r.chunks != [] ==> r.lastConfirmed <= r.chunks[0].offset)
  }

  /** A position strictly inside a stored chunk. */
  ghost predicate StartsInside(r: Receiver, o: nat) {
    exists d :: d in r.chunks && d.offset < o < d.End()
  }

  /** Storing a chunk keeps the chunks apart if and only if it does not start inside one of them. */
  lemma StoringKeepsDisjointIff(w: nat, r: Receiver, c: ReceivingChunk)
    requires ReceiverOk(w, r) && Disjoint(r) && IsNew(w, r, c.offset) && ChunkOk(c, w)
    ensures Disjoint(Stored(r, c)) <==> !StartsInside(r, c.offset)
  {
    hide StartsInside, Place, Inserted, Unexpect;
    InsertedAt(r.chunks, c);
    InsideIff(w, r, c.offset);
  }

  /** Only the chunk in front of a position can have it inside. */
  lemma InsideIff(w: nat, r: Receiver, o: nat)
    requires ReceiverOk(w, r) && Disjoint(r)
    ensures var i := Place(r.chunks, o);
            StartsInside(r, o) <==> i > 0 && o < r.chunks[i - 1].End()
  {
    var i := Place(r.chunks, o);
    hide Place;
    forall j | 0 <= j < i - 1
      ensures r.chunks[j].End() < o
    {
      assert r.chunks[(j + 1) - 1].End() <= r.chunks[j + 1].offset;
    }
    assert forall j :: i <= j < |r.chunks| ==> o <= r.chunks[j].offset;
    if i > 0 && o < r.chunks[i - 1].End() {
      assert r.chunks[i - 1] in r.chunks;
    }
  }

  lemma InsertedAt(chunks: seq<ReceivingChunk>, c: ReceivingChunk)
    ensures var i, s := Place(chunks, c.offset), Inserted(chunks, c);
            if i < |chunks| && chunks[i].offset == c.offset then s == chunks
            else
              && |s| == |chunks| + 1
              && s[i] == (if i == |chunks| then c else Clip(c, chunks[i].offset))
              && (forall j :: 0 <= j < i ==> s[j] == chunks[j])
              && (forall j :: i < j < |s| ==> s[j] == chunks[j - 1])
  {
  }

  lemma CompletedStaysDisjoint(cfg: Config, r: Receiver, now: int)
    requires ReceiverOk(cfg.windowSize, r) && Disjoint(r)
    ensures r.lastConfirmed + |Run(r)| <= MAX && Disjoint(Completed(cfg, r, now))
  {
    RunFits(cfg.windowSize, r);
    RunIsLongest(r.chunks, r.lastConfirmed);
    hide RunLength, Join;
    var k := RunLength(r.chunks, r.lastConfirmed);
    assert r.chunks[..0] == [];
  }

  // Over whole runs

  /** The event brings a chunk that starts inside a stored one. */
  ghost predicate Overlaps(cfg: Config, s: System, e: Event) {
    e.DataArrives? && (e.message.Send? || e.message.Repeat?)
    && IsNew(cfg.windowSize, s.receiver, e.message.offset) && StartsInside(s.receiver, e.message.offset)
  }

  ghost predicate NeverOverlaps(cfg: Config, s: System, events: seq<Event>)
    requires Inv(cfg, s) && IsRun(cfg, s, events)
    decreases |events|
  {
    events != [] ==>
      && !Overlaps(cfg, s, events[0])
      && (StepKeeps(cfg, s, events[0]); NeverOverlaps(cfg, Apply(cfg, s, events[0]), events[1..]))
  }

  /** An event keeps the stored chunks apart if and only if it does not bring an overlapping one. */
  lemma StepKeepsDisjointIff(cfg: Config, s: System, e: Event)
    requires Inv(cfg, s) && Enabled(cfg, s, e) && Disjoint(s.receiver)
    ensures Disjoint(Apply(cfg, s, e).receiver) <==> !Overlaps(cfg, s, e)
  {
    hide StartsInside, Stored, Completed, Sending.Transmit, Sending.TimeoutHandled, Sending.Confirmed;
    if e.DataArrives? {
      var m := e.message;
      assert MessageHolds(s.accepted, cfg.windowSize, s.sender.lastConfirmed, m);
      if IsNew(cfg.windowSize, s.receiver, m.offset) {
        assert Sending.SenderOk(cfg, s.sender);
        StoringKeepsDisjointIff(cfg.windowSize, s.receiver, ReceivingChunk(m.offset, m.data));
      }
    } else if e.ReceiverUpdates? {
      CompletedStaysDisjoint(cfg, s.receiver, e.now);
    }
  }

  lemma {:induction false} RunStaysDisjoint(cfg: Config, s: System, events: seq<Event>)
    requires Inv(cfg, s) && Disjoint(s.receiver) && IsRun(cfg, s, events) && NeverOverlaps(cfg, s, events)
    ensures Disjoint(After(cfg, s, events).receiver)
    decreases |events|
  {
    hide Inv, Enabled, Apply, Disjoint, Overlaps;
    if events == [] {
    } else {
      StepKeeps(cfg, s, events[0]);
      StepKeepsDisjointIff(cfg, s, events[0]);
      RunStaysDisjoint(cfg, Apply(cfg, s, events[0]), events[1..]);
    }
  }

  /** On runs where no chunk that starts inside a stored one arrives, the receiver is never blocked. */
  lemma NeverBlocked(cfg: Config, events: seq<Event>)
    requires Sending.ConfigOk(cfg)
    ensures Inv(cfg, INITIAL)
    ensures IsRun(cfg, INITIAL, events) && NeverOverlaps(cfg, INITIAL, events) ==>
              !Blocked(After(cfg, INITIAL, events).receiver)
  {
    InitialHolds(cfg);
    if IsRun(cfg, INITIAL, events) && NeverOverlaps(cfg, INITIAL, events) {
      RunStaysDisjoint(cfg, INITIAL, events);
    }
  }
}
