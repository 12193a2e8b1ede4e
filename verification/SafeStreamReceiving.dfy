/**
  The receiving end.  Functions on Receiver say what each call does on stream positions; the class
  does it with ring offsets.
 */
module Receiving {
  import opened Bytes
  import opened SafeStreamTypes

  datatype ReceivingChunk = ReceivingChunk(offset: Offset, data: seq<Byte>) {
    ghost function End(): (e: nat) {
      offset + |data|
    }
  }

  datatype ExpectedChunk = ExpectedChunk(offset: Offset, repeatCount: Offset)

  /** The missing offsets asked for, the queue of repeat requests, and the sign of giving up. */
  datatype Requests = Requests(expected: seq<ExpectedChunk>, repeats: seq<Offset>, exceeded: bool)

  datatype Receiver = Receiver(lastConfirmed: Offset, chunks: seq<ReceivingChunk>, confirmations: seq<Offset>,
                               requests: Requests, lastConfirmTime: int, oldestRepeatTime: int)

  const INITIAL_RECEIVER := Receiver(0, [], [], Requests([], [], false), 0, 0)

  ghost predicate Sorted(chunks: seq<ReceivingChunk>) {
    forall i, j :: 0 <= i < j < |chunks| ==> chunks[i].offset < chunks[j].offset
  }

  ghost predicate ChunkOk(c: ReceivingChunk, w: nat) {
    0 < |c.data| <= w && Small(c.End(), w)
  }

  ghost predicate ChunksOk(chunks: seq<ReceivingChunk>, w: nat, limit: int) {
    && Sorted(chunks)
    && forall c :: c in chunks ==> ChunkOk(c, w) && c.offset < limit
  }

  ghost predicate ReceiverOk(w: nat, r: Receiver) {
    WindowOk(w) && Small(r.lastConfirmed, w) && ChunksOk(r.chunks, w, r.lastConfirmed + w)
  }

  // What the calls do

  ghost predicate IsNew(w: nat, r: Receiver, o: nat) {
    r.lastConfirmed <= o < r.lastConfirmed + w
  }

  /** The index of the first chunk at or after position o. */
  ghost function Place(chunks: seq<ReceivingChunk>, o: nat): (i: nat)
    ensures i <= |chunks|
    ensures i < |chunks| ==> o <= chunks[i].offset
    ensures forall j :: 0 <= j < i ==> chunks[j].offset < o
  {
    if chunks == [] || o <= chunks[0].offset then 0 else 1 + Place(chunks[1..], o)
  }

  /** The part of a chunk before position limit. */
  ghost function Clip(c: ReceivingChunk, limit: nat): (r: ReceivingChunk)
    requires c.offset <= limit
  {
    if c.End() > limit then c.(data := c.data[..limit - c.offset]) else c
  }

  ghost function Inserted(chunks: seq<ReceivingChunk>, c: ReceivingChunk): (r: seq<ReceivingChunk>) {
    var i := Place(chunks, c.offset);
    if i == |chunks| then chunks + [c]
    else if chunks[i].offset == c.offset then chunks
    else chunks[..i] + [Clip(c, chunks[i].offset)] + chunks[i..]
  }

  ghost function FirstExpected(expected: seq<ExpectedChunk>, o: Offset): (i: nat)
    ensures i <= |expected| && (i < |expected| ==> expected[i].offset == o)
  {
    if expected == [] || expected[0].offset == o then 0 else 1 + FirstExpected(expected[1..], o)
  }

  ghost function Unexpect(q: Requests, o: Offset): (r: Requests) {
    var i := FirstExpected(q.expected, o);
    if i < |q.expected| then q.(expected := q.expected[..i] + q.expected[i + 1..]) else q
  }

  /** AddDataChunk: an expectation is met only by a chunk that lands before another one. */
  ghost function Stored(r: Receiver, c: ReceivingChunk): (s: Receiver) {
    var i := Place(r.chunks, c.offset);
    r.(chunks := Inserted(r.chunks, c),
       requests := if i < |r.chunks| && r.chunks[i].offset != c.offset then Unexpect(r.requests, c.offset) else r.requests)
  }

  ghost function SendReceived(w: nat, r: Receiver, o: Offset, data: seq<Byte>): (s: Receiver) {
    if IsNew(w, r, o) then Stored(r, ReceivingChunk(o, data)) else r
  }

  ghost function RepeatReceived(w: nat, r: Receiver, o: Offset, data: seq<Byte>): (s: Receiver)
    requires data != [] && o + |data| <= MAX
  {
    if IsNew(w, r, o) then Stored(r, ReceivingChunk(o, data))
    else r.(confirmations := r.confirmations + [o + |data| - 1])
  }

  ghost function Join(chunks: seq<ReceivingChunk>): (d: seq<Byte>) {
    if chunks == [] then [] else chunks[0].data + Join(chunks[1..])
  }

  /** How many chunks at the front follow one another, starting at position from. */
  ghost function RunLength(chunks: seq<ReceivingChunk>, from: nat): (k: nat)
    ensures k <= |chunks|
  {
    if chunks == [] || chunks[0].offset != from then 0
    else 1 + RunLength(chunks[1..], chunks[0].End())
  }

  ghost function Run(r: Receiver): (d: seq<Byte>) {
    Join(r.chunks[..RunLength(r.chunks, r.lastConfirmed)])
  }

  ghost predicate Throttled(cfg: Config, r: Receiver, now: int) {
    r.lastConfirmTime + cfg.sendConfirmTimeout > now
  }

  /** CheckCompletedChains: the new state; what it delivers is Delivered. */
  ghost function Completed(cfg: Config, r: Receiver, now: int): (s: Receiver)
    requires r.lastConfirmed + |Run(r)| <= MAX
  {
    if Throttled(cfg, r, now) || Run(r) == [] then r
    else
      var next := r.lastConfirmed + |Run(r)|;
      r.(chunks := r.chunks[RunLength(r.chunks, r.lastConfirmed)..], confirmations := r.confirmations + [next - 1],
         lastConfirmed := next, lastConfirmTime := now)
  }

  ghost function Delivered(cfg: Config, r: Receiver, now: int): (d: seq<Byte>) {
    if Throttled(cfg, r, now) then [] else Run(r)
  }

  /** AddExpectedChunk. */
  ghost function Expect(cfg: Config, q: Requests, o: Offset): (r: Requests) {
    var i := FirstExpected(q.expected, o);
    if i == |q.expected| then Requests(q.expected + [ExpectedChunk(o, 0)], q.repeats + [o], q.exceeded)
    else
      var count := Cast16(q.expected[i].repeatCount + 1);
      var expected := q.expected[i := ExpectedChunk(o, count)];
      if count > cfg.maxRepeatCount then Requests(expected, q.repeats, true)
      else Requests(expected, q.repeats + [o], q.exceeded)
  }

  /** The position behind the chunks, or from when there are none. */
  ghost function Behind(chunks: seq<ReceivingChunk>, from: Offset): (e: nat) {
    if chunks == [] then from else chunks[|chunks| - 1].End()
  }

  ghost predicate EndsOk(chunks: seq<ReceivingChunk>) {
    forall c :: c in chunks ==> c.End() <= MAX
  }

  ghost function MissedRequests(cfg: Config, chunks: seq<ReceivingChunk>, from: Offset, q: Requests): (r: Requests)
    requires EndsOk(chunks)
  {
    if chunks == [] then q
    else
      var rest, c := chunks[..|chunks| - 1], chunks[|chunks| - 1];
      var r := MissedRequests(cfg, rest, from, q);
      if c.offset != Behind(rest, from) then Expect(cfg, r, Behind(rest, from)) else r
  }

  /** CheckMissedOffset. */
  ghost function MissedChecked(cfg: Config, r: Receiver, now: int): (s: Receiver)
    requires EndsOk(r.chunks)
  {
    if r.oldestRepeatTime + cfg.sendRepeatTimeout > now then r
    else r.(requests := MissedRequests(cfg, r.chunks, r.lastConfirmed, r.requests), oldestRepeatTime := now)
  }

  /** What CheckCompletedChains and CheckMissedOffset return. */
  ghost function ConfirmTime(cfg: Config, r: Receiver, now: int): (t: int) {
    if Throttled(cfg, r, now) then r.lastConfirmTime + cfg.sendConfirmTimeout else now
  }

  ghost function RepeatTime(cfg: Config, r: Receiver, now: int): (t: int) {
    if r.oldestRepeatTime + cfg.sendRepeatTimeout > now then r.oldestRepeatTime + cfg.sendRepeatTimeout else now
  }

  ghost function Confirms(offsets: seq<Offset>): (m: seq<Message>) {
    seq(|offsets|, i requires 0 <= i < |offsets| => Confirm(offsets[i]))
  }

  ghost function RequestRepeats(offsets: seq<Offset>): (m: seq<Message>) {
    seq(|offsets|, i requires 0 <= i < |offsets| => RequestRepeat(offsets[i]))
  }

  /** The end of Update: give up asking, or answer with everything queued. */
  ghost function Answered(r: Receiver): (a: (Receiver, seq<Message>)) {
    if r.requests.exceeded then (r.(requests := r.requests.(exceeded := false, repeats := [])), [])
    else (r.(confirmations := [], requests := r.requests.(repeats := [])),
          Confirms(r.confirmations) + RequestRepeats(r.requests.repeats))
  }

  // What holds of them

  lemma {:induction false} JoinConcat(a: seq<ReceivingChunk>, b: seq<ReceivingChunk>)
    ensures Join(a + b) == Join(a) + Join(b)
  {
    if a == [] {
      assert a + b == b;
    } else {
      assert (a + b)[1..] == a[1..] + b;
      JoinConcat(a[1..], b);
    }
  }

  /**
    The run is the longest one: each of its chunks starts where the bytes before it end, it ends
    where its bytes end, and the chunk behind it, if there is one, starts elsewhere.
   */
  lemma {:induction false} RunIsLongest(chunks: seq<ReceivingChunk>, from: nat)
    ensures var k := RunLength(chunks, from);
            && (forall i :: 0 <= i < k ==> chunks[i].offset == from + |Join(chunks[..i])|)
            && (k > 0 ==> chunks[k - 1].End() == from + |Join(chunks[..k])|)
            && (k < |chunks| ==> chunks[k].offset != from + |Join(chunks[..k])|)
  {
    var k := RunLength(chunks, from);
    if k == 0 {
    } else {
      var rest := chunks[1..];
      RunIsLongest(rest, chunks[0].End());
      forall i | 0 < i <= k
        ensures |Join(chunks[..i])| == |chunks[0].data| + |Join(rest[..i - 1])|
      {
        assert chunks[..i][1..] == rest[..i - 1];
      }
    }
  }

  lemma InsertedOk(w: nat, chunks: seq<ReceivingChunk>, limit: int, c: ReceivingChunk)
    requires ChunksOk(chunks, w, limit) && ChunkOk(c, w) && c.offset < limit
    ensures ChunksOk(Inserted(chunks, c), w, limit)
  {
    hide Place, ChunkOk;
    var i := Place(chunks, c.offset);
    if i < |chunks| && chunks[i].offset != c.offset {
      ClipOk(w, c, chunks[i].offset);
      SplitSorted(chunks, i, Clip(c, chunks[i].offset));
    }
  }

  lemma ClipOk(w: nat, c: ReceivingChunk, limit: nat)
    requires ChunkOk(c, w) && c.offset <= limit
    ensures Clip(c, limit).offset == c.offset && (c.offset < limit ==> ChunkOk(Clip(c, limit), w))
  {
  }

  lemma SplitSorted(chunks: seq<ReceivingChunk>, i: nat, c: ReceivingChunk)
    requires Sorted(chunks) && i < |chunks| && c.offset < chunks[i].offset
    requires forall j :: 0 <= j < i ==> chunks[j].offset < c.offset
    ensures Sorted(chunks[..i] + [c] + chunks[i..])
    ensures forall x :: x in chunks[..i] + [c] + chunks[i..] ==> x == c || x in chunks
  {
    var s := chunks[..i] + [c] + chunks[i..];
    assert forall j :: 0 <= j < i ==> s[j] == chunks[j];
    assert s[i] == c;
    assert forall j :: i < j < |s| ==> s[j] == chunks[j - 1];
  }

  /** The byte at position x is stored. */
  ghost predicate HasByte(chunks: seq<ReceivingChunk>, x: int) {
    exists c :: c in chunks && c.offset <= x < c.End()
  }

  /** Of size bytes at o that are no duplicate, those in front of all chunks that start behind o are added. */
  ghost predicate Adds(chunks: seq<ReceivingChunk>, o: nat, size: nat, x: int) {
    o <= x < o + size && forall d :: d in chunks ==> d.offset != o && (d.offset > o ==> x < d.offset)
  }

  lemma AddsIff(chunks: seq<ReceivingChunk>, c: ReceivingChunk, x: int)
    requires Sorted(chunks)
    ensures var i := Place(chunks, c.offset);
            Adds(chunks, c.offset, |c.data|, x) <==>
              && c.offset <= x < c.End()
              && (i < |chunks| ==> chunks[i].offset != c.offset && x < chunks[i].offset)
  {
    var i := Place(chunks, c.offset);
    hide Place;
    assert forall j :: i < j < |chunks| ==> chunks[i].offset < chunks[j].offset;
    if i < |chunks| {
      assert chunks[i] in chunks;
    }
  }

  lemma InsertedHas(a: seq<ReceivingChunk>, c: ReceivingChunk, b: seq<ReceivingChunk>, x: int)
    ensures HasByte(a + [c] + b, x) <==> HasByte(a + b, x) || c.offset <= x < c.End()
  {
    var s, r := a + [c] + b, a + b;
    assert forall d :: d in s <==> d in r || d == c;
    if c.offset <= x < c.End() {
      assert c in s;
    }
  }

  lemma ClipHas(c: ReceivingChunk, limit: nat, x: int)
    requires c.offset <= limit
    ensures var r := Clip(c, limit); r.offset <= x < r.End() <==> c.offset <= x < c.End() && x < limit
  {
  }

  lemma StoredBytes(chunks: seq<ReceivingChunk>, c: ReceivingChunk, x: int)
    requires Sorted(chunks)
    ensures HasByte(Inserted(chunks, c), x) <==> HasByte(chunks, x) || Adds(chunks, c.offset, |c.data|, x)
  {
    AddsIff(chunks, c, x);
    hide Place, Adds, Sorted, HasByte, Clip;
    var i := Place(chunks, c.offset);
    if i == |chunks| {
      LastHas(chunks, c, x);
    } else if chunks[i].offset != c.offset {
      ClipHas(c, chunks[i].offset, x);
      BeforeHas(chunks, i, Clip(c, chunks[i].offset), x);
    }
  }

  lemma LastHas(chunks: seq<ReceivingChunk>, c: ReceivingChunk, x: int)
    ensures HasByte(chunks + [c], x) <==> HasByte(chunks, x) || c.offset <= x < c.End()
  {
    hide HasByte;
    InsertedHas(chunks, c, [], x);
    assert chunks + [] == chunks && chunks + [c] + [] == chunks + [c];
  }

  lemma BeforeHas(chunks: seq<ReceivingChunk>, i: nat, c: ReceivingChunk, x: int)
    requires i <= |chunks|
    ensures HasByte(chunks[..i] + [c] + chunks[i..], x) <==> HasByte(chunks, x) || c.offset <= x < c.End()
  {
    hide HasByte;
    InsertedHas(chunks[..i], c, chunks[i..], x);
    assert chunks[..i] + chunks[i..] == chunks;
  }

  lemma AllStoredBytes(chunks: seq<ReceivingChunk>, c: ReceivingChunk)
    requires Sorted(chunks)
    ensures forall x :: HasByte(Inserted(chunks, c), x) <==> HasByte(chunks, x) || Adds(chunks, c.offset, |c.data|, x)
  {
    hide HasByte, Inserted, Adds, Sorted;
    forall x
      ensures HasByte(Inserted(chunks, c), x) <==> HasByte(chunks, x) || Adds(chunks, c.offset, |c.data|, x)
    {
      StoredBytes(chunks, c, x);
    }
  }

  lemma StoredOk(w: nat, r: Receiver, c: ReceivingChunk)
    requires ReceiverOk(w, r) && IsNew(w, r, c.offset) && ChunkOk(c, w)
    ensures ReceiverOk(w, Stored(r, c))
  {
    InsertedOk(w, r.chunks, r.lastConfirmed + w, c);
  }

  lemma RunFits(w: nat, r: Receiver)
    requires ReceiverOk(w, r)
    ensures Small(r.lastConfirmed + |Run(r)|, w)
    ensures Run(r) == [] <==> RunLength(r.chunks, r.lastConfirmed) == 0
  {
    RunIsLongest(r.chunks, r.lastConfirmed);
    var k := RunLength(r.chunks, r.lastConfirmed);
    assert r.chunks[..0] == [];
    if k > 0 {
      assert r.chunks[k - 1] in r.chunks;
      assert r.chunks[..k][0] in r.chunks;
    }
  }

  lemma ChunksFit(w: nat, r: Receiver)
    requires ReceiverOk(w, r)
    ensures EndsOk(r.chunks) && forall c :: c in r.chunks ==> |c.data| < MAX
  {
  }

  lemma CompletedOk(cfg: Config, r: Receiver, now: int)
    requires ReceiverOk(cfg.windowSize, r)
    ensures r.lastConfirmed + |Run(r)| <= MAX && ReceiverOk(cfg.windowSize, Completed(cfg, r, now))
  {
    RunFits(cfg.windowSize, r);
  }

  /**
    Unthrottled, CheckCompletedChains delivers the run, moves the confirmed offset on by its length,
    and leaves no chunk at the front that starts there.
   */
  lemma CompletedDeliversRun(cfg: Config, r: Receiver, now: int)
    requires ReceiverOk(cfg.windowSize, r) && !Throttled(cfg, r, now)
    ensures r.lastConfirmed + |Run(r)| <= MAX
    ensures var s := Completed(cfg, r, now);
            && s.lastConfirmed == r.lastConfirmed + |Delivered(cfg, r, now)|
            && (s.chunks != [] ==> s.chunks[0].offset != s.lastConfirmed)
            && r.chunks == r.chunks[..RunLength(r.chunks, r.lastConfirmed)] + s.chunks
  {
    hide RunLength, Join, ChunksOk, EndsOk;
    RunFits(cfg.windowSize, r);
    RunIsLongest(r.chunks, r.lastConfirmed);
    var k := RunLength(r.chunks, r.lastConfirmed);
    assert r.chunks[..0] == [] && r.chunks == r.chunks[..k] + r.chunks[k..];
  }

  /** A delivery confirms its last byte and nothing else; without one, nothing changes. */
  lemma CompletedConfirms(cfg: Config, r: Receiver, now: int)
    requires ReceiverOk(cfg.windowSize, r)
    ensures r.lastConfirmed + |Run(r)| <= MAX
    ensures var s, d := Completed(cfg, r, now), Delivered(cfg, r, now);
            && s.lastConfirmed == r.lastConfirmed + |d| && s.requests == r.requests && s.oldestRepeatTime == r.oldestRepeatTime
            && (d != [] ==> s.confirmations == r.confirmations + [r.lastConfirmed + |d| - 1] && s.lastConfirmTime == now)
            && (d == [] ==> s == r)
  {
    hide Run, ReceiverOk;
    RunFits(cfg.windowSize, r);
  }

  // Asking for what is missing

  /** A gap starts at p: the chunks before the i-th one end there, and that one starts elsewhere. */
  ghost predicate GapBefore(chunks: seq<ReceivingChunk>, from: Offset, i: int, p: int) {
    0 <= i < |chunks| && p == Behind(chunks[..i], from) && chunks[i].offset != p
  }

  ghost predicate GapAt(chunks: seq<ReceivingChunk>, from: Offset, p: int) {
    exists i :: GapBefore(chunks, from, i, p)
  }

  /** Where gaps start, in order. */
  ghost function Gaps(chunks: seq<ReceivingChunk>, from: Offset): (ps: seq<Offset>)
    requires EndsOk(chunks)
  {
    if chunks == [] then []
    else
      var rest, c := chunks[..|chunks| - 1], chunks[|chunks| - 1];
      Gaps(rest, from) + if c.offset != Behind(rest, from) then [Behind(rest, from)] else []
  }

  lemma {:induction false} GapsAre(chunks: seq<ReceivingChunk>, from: Offset, p: int)
    requires EndsOk(chunks)
    ensures p in Gaps(chunks, from) <==> GapAt(chunks, from, p)
  {
    if chunks == [] {
    } else {
      var k := |chunks| - 1;
      var rest := chunks[..k];
      GapsAre(rest, from, p);
      assert GapBefore(chunks, from, k, p) <==> chunks[k].offset != Behind(rest, from) && p == Behind(rest, from);
      forall i | 0 <= i < k
        ensures GapBefore(rest, from, i, p) <==> GapBefore(chunks, from, i, p)
      {
        assert rest[..i] == chunks[..i];
      }
      hide Behind;
      assert GapAt(chunks, from, p) <==> GapAt(rest, from, p) || GapBefore(chunks, from, k, p) by {
        hide GapBefore;
        LastGap(chunks, from, p);
      }
    }
  }

  lemma LastGap(chunks: seq<ReceivingChunk>, from: Offset, p: int)
    requires chunks != []
    requires forall i :: 0 <= i < |chunks| - 1 ==> (GapBefore(chunks[..|chunks| - 1], from, i, p) <==> GapBefore(chunks, from, i, p))
    ensures GapAt(chunks, from, p) <==>
              GapAt(chunks[..|chunks| - 1], from, p) || GapBefore(chunks, from, |chunks| - 1, p)
  {
    hide Behind;
    var rest := chunks[..|chunks| - 1];
    if GapAt(rest, from, p) {
      var i :| GapBefore(rest, from, i, p);
      assert GapBefore(chunks, from, i, p);
    }
    if GapAt(chunks, from, p) {
      var i :| GapBefore(chunks, from, i, p);
      assert i < |rest| ==> GapBefore(rest, from, i, p);
    }
  }

  /** How often an offset was asked for, as far as 16 bits tell. */
  ghost function Asked(q: Requests, p: Offset): (n: nat) {
    var i := FirstExpected(q.expected, p);
    if i < |q.expected| then q.expected[i].repeatCount + 1 else 0
  }

  ghost function AskedAgain(n: nat, k: nat): (r: nat) {
    if k == 0 then n else (n + k - 1) % 65536 + 1
  }

  /** The k-th request for p is one too many. */
  ghost predicate TooOften(cfg: Config, q: Requests, gaps: seq<Offset>, p: Offset, k: nat) {
    1 <= k <= multiset(gaps)[p] && (Asked(q, p) + k - 1) % 65536 > cfg.maxRepeatCount
  }

  ghost predicate AnyTooOften(cfg: Config, q: Requests, gaps: seq<Offset>) {
    exists p, k :: TooOften(cfg, q, gaps, p, k)
  }

  lemma {:induction false} FirstExpectedAfter(a: seq<ExpectedChunk>, e: ExpectedChunk, x: Offset)
    ensures FirstExpected(a + [e], x) == if FirstExpected(a, x) < |a| then FirstExpected(a, x)
                                         else if e.offset == x then |a| else |a| + 1
  {
    if a == [] {
      assert a + [e] == [e];
    } else {
      assert (a + [e])[1..] == a[1..] + [e];
      FirstExpectedAfter(a[1..], e, x);
    }
  }

  lemma {:induction false} FirstExpectedUpdated(a: seq<ExpectedChunk>, i: nat, e: ExpectedChunk, x: Offset)
    requires i < |a| && a[i].offset == e.offset
    ensures FirstExpected(a[i := e], x) == FirstExpected(a, x)
  {
    if a[0].offset == x {
    } else if i == 0 {
      assert a[i := e][1..] == a[1..];
    } else {
      assert a[i := e][1..] == a[1..][i - 1 := e];
      FirstExpectedUpdated(a[1..], i - 1, e, x);
    }
  }

  lemma ExpectCounts(cfg: Config, q: Requests, o: Offset, x: Offset)
    ensures Asked(Expect(cfg, q, o), x) == if x == o then Asked(q, x) % 65536 + 1 else Asked(q, x)
  {
    var r, i := Expect(cfg, q, o), FirstExpected(q.expected, o);
    if i == |q.expected| {
      FirstExpectedAfter(q.expected, ExpectedChunk(o, 0), x);
    } else {
      FirstExpectedUpdated(q.expected, i, r.expected[i], x);
      hide FirstExpected;
    }
  }

  /** AddExpectedChunk counts a request, and makes it unless there were too many. */
  lemma ExpectMeans(cfg: Config, q: Requests, o: Offset)
    ensures var r := Expect(cfg, q, o);
            && (forall x: Offset :: Asked(r, x) == if x == o then Asked(q, x) % 65536 + 1 else Asked(q, x))
            && (if Asked(q, o) % 65536 > cfg.maxRepeatCount then r.exceeded && r.repeats == q.repeats
                else r.exceeded == q.exceeded && r.repeats == q.repeats + [o])
  {
    var r := Expect(cfg, q, o);
    hide FirstExpected;
    forall x: Offset
      ensures Asked(r, x) == if x == o then Asked(q, x) % 65536 + 1 else Asked(q, x)
    {
      ExpectCounts(cfg, q, o, x);
    }
  }

  lemma MoreTooOften(cfg: Config, q: Requests, gaps: seq<Offset>, p: Offset)
    ensures AnyTooOften(cfg, q, gaps + [p]) <==>
              AnyTooOften(cfg, q, gaps) || (Asked(q, p) + multiset(gaps)[p]) % 65536 > cfg.maxRepeatCount
  {
    hide Asked;
    var more := gaps + [p];
    assert forall x :: multiset(more)[x] == multiset(gaps)[x] + if x == p then 1 else 0;
    if AnyTooOften(cfg, q, gaps) {
      var x, k :| TooOften(cfg, q, gaps, x, k);
      assert TooOften(cfg, q, more, x, k);
    }
    if (Asked(q, p) + multiset(gaps)[p]) % 65536 > cfg.maxRepeatCount {
      assert TooOften(cfg, q, more, p, multiset(gaps)[p] + 1);
    }
    if AnyTooOften(cfg, q, more) {
      var x, k :| TooOften(cfg, q, more, x, k);
      assert TooOften(cfg, q, gaps, x, k) || (x == p && k == multiset(gaps)[p] + 1);
    }
  }

  lemma AskedOnceMore(n: nat, k: nat)
    ensures AskedAgain(n, k) % 65536 == (n + k) % 65536 && AskedAgain(n, k + 1) == AskedAgain(n, k) % 65536 + 1
  {
  }

  /** Every gap is counted, and is asked for in its turn unless one of them is asked for too often. */
  ghost predicate AsksFor(cfg: Config, q: Requests, gaps: seq<Offset>, r: Requests) {
    && (forall p: Offset :: Asked(r, p) == AskedAgain(Asked(q, p), multiset(gaps)[p]))
    && (r.exceeded <==> q.exceeded || AnyTooOften(cfg, q, gaps))
    && (!r.exceeded ==> r.repeats == q.repeats + gaps)
  }

  lemma AsksForMore(cfg: Config, q: Requests, gaps: seq<Offset>, r: Requests, p: Offset)
    requires AsksFor(cfg, q, gaps, r)
    ensures AsksFor(cfg, q, gaps + [p], Expect(cfg, r, p))
  {
    hide Asked, Expect, AnyTooOften, AskedAgain;
    var more := gaps + [p];
    ExpectMeans(cfg, r, p);
    MoreTooOften(cfg, q, gaps, p);
    AskedOnceMore(Asked(q, p), multiset(gaps)[p]);
    assert forall x :: multiset(more)[x] == multiset(gaps)[x] + if x == p then 1 else 0;
    assert q.repeats + gaps + [p] == q.repeats + more;
  }

  lemma {:induction false} MissedMeans(cfg: Config, chunks: seq<ReceivingChunk>, from: Offset, q: Requests)
    requires EndsOk(chunks)
    ensures AsksFor(cfg, q, Gaps(chunks, from), MissedRequests(cfg, chunks, from, q))
  {
    hide Asked, Expect, AnyTooOften;
    if chunks == [] {
      NothingTooOften(cfg, q);
    } else {
      hide AsksFor;
      var rest := chunks[..|chunks| - 1];
      MissedMeans(cfg, rest, from, q);
      assert Gaps(rest, from) + [] == Gaps(rest, from);
      AsksForMore(cfg, q, Gaps(rest, from), MissedRequests(cfg, rest, from, q), Behind(rest, from));
    }
  }

  lemma NothingTooOften(cfg: Config, q: Requests)
    ensures !AnyTooOften(cfg, q, [])
  {
  }

  ghost predicate Distinct(expected: seq<ExpectedChunk>) {
    forall i, j :: 0 <= i < j < |expected| ==> expected[i].offset != expected[j].offset
  }

  lemma ExpectKeepsDistinct(cfg: Config, q: Requests, o: Offset)
    requires Distinct(q.expected)
    ensures Distinct(Expect(cfg, q, o).expected)
  {
    if FirstExpected(q.expected, o) == |q.expected| {
      NotExpected(q.expected, o);
    }
  }

  lemma {:induction false} NotExpected(expected: seq<ExpectedChunk>, o: Offset)
    ensures FirstExpected(expected, o) == |expected| <==> forall e :: e in expected ==> e.offset != o
  {
    if expected == [] {
    } else {
      NotExpected(expected[1..], o);
      assert expected == [expected[0]] + expected[1..];
    }
  }

  lemma {:induction false} FirstExpectedWithout(a: seq<ExpectedChunk>, i: nat, x: Offset)
    requires i < |a| && a[i].offset != x
    ensures FirstExpected(a[..i] + a[i + 1..], x) == if FirstExpected(a, x) < i then FirstExpected(a, x) else FirstExpected(a, x) - 1
  {
    var b := a[..i] + a[i + 1..];
    if i == 0 {
      assert b == a[1..];
    } else if a[0].offset == x {
    } else {
      assert b[1..] == a[1..][..i - 1] + a[1..][i..];
      FirstExpectedWithout(a[1..], i - 1, x);
    }
  }

  lemma DistinctWithout(a: seq<ExpectedChunk>, i: nat)
    requires i < |a| && Distinct(a)
    ensures var b := a[..i] + a[i + 1..]; Distinct(b) && forall e :: e in b ==> e.offset != a[i].offset
  {
    var b := a[..i] + a[i + 1..];
    assert forall j :: 0 <= j < |b| ==> b[j] == a[if j < i then j else j + 1];
  }

  /** An expectation that is met is forgotten, and no other. */
  lemma UnexpectMeans(q: Requests, o: Offset)
    requires Distinct(q.expected)
    ensures var r := Unexpect(q, o);
            && Distinct(r.expected) && r.repeats == q.repeats && r.exceeded == q.exceeded
            && forall x: Offset :: Asked(r, x) == if x == o then 0 else Asked(q, x)
  {
    var a, i := q.expected, FirstExpected(q.expected, o);
    hide FirstExpected, Distinct;
    if i < |a| {
      DistinctWithout(a, i);
      var b := a[..i] + a[i + 1..];
      NotExpected(b, o);
      forall x: Offset | x != o
        ensures Asked(Unexpect(q, o), x) == Asked(q, x)
      {
        FirstExpectedWithout(a, i, x);
        WithoutAt(a, i, FirstExpected(a, x));
      }
    }
  }

  lemma WithoutAt(a: seq<ExpectedChunk>, i: nat, j: nat)
    requires i < |a| && j <= |a| && j != i
    ensures var b, k := a[..i] + a[i + 1..], if j < i then j else j - 1; if j < |a| then k < |b| && b[k] == a[j] else k == |b|
  {
  }

  /** A chunk that is no duplicate lands in front of another one. */
  ghost predicate LandsBefore(chunks: seq<ReceivingChunk>, o: nat) {
    (exists d :: d in chunks && d.offset > o) && forall d :: d in chunks ==> d.offset != o
  }

  lemma LandsBeforeIff(chunks: seq<ReceivingChunk>, o: nat)
    requires Sorted(chunks)
    ensures var i := Place(chunks, o); i < |chunks| && chunks[i].offset != o <==> LandsBefore(chunks, o)
  {
    var i := Place(chunks, o);
    hide Place;
    if i < |chunks| {
      assert chunks[i] in chunks;
      assert forall j :: i < j < |chunks| ==> o < chunks[j].offset;
    }
  }

  /** A chunk that fills a gap in front of another one ends the requests for its offset, and changes no other. */
  lemma StoredForgets(r: Receiver, c: ReceivingChunk)
    requires Sorted(r.chunks) && Distinct(r.requests.expected)
    ensures var q := Stored(r, c).requests;
            && Distinct(q.expected) && q.repeats == r.requests.repeats && q.exceeded == r.requests.exceeded
            && forall x: Offset :: Asked(q, x) == if LandsBefore(r.chunks, c.offset) && x == c.offset then 0 else Asked(r.requests, x)
  {
    LandsBeforeIff(r.chunks, c.offset);
    UnexpectMeans(r.requests, c.offset);
    hide Place, Unexpect, Asked, Distinct, Inserted, LandsBefore;
  }

  lemma {:induction false} MissedKeepsDistinct(cfg: Config, chunks: seq<ReceivingChunk>, from: Offset, q: Requests)
    requires EndsOk(chunks) && Distinct(q.expected)
    ensures Distinct(MissedRequests(cfg, chunks, from, q).expected)
  {
    hide Distinct, Expect;
    if chunks == [] {
    } else {
      var rest := chunks[..|chunks| - 1];
      MissedKeepsDistinct(cfg, rest, from, q);
      ExpectKeepsDistinct(cfg, MissedRequests(cfg, rest, from, q), Behind(rest, from));
    }
  }

  // The code

  /** find_if with the distance test of AddDataChunk. */
  method FindPlace(chunks: seq<ReceivingChunk>, w: Offset, offset: Offset) returns (it: nat)
    requires WindowOk(w) && Small(offset, w)
    requires forall c :: c in chunks ==> Small(c.offset, w) && c.offset <= offset + w
    ensures it == Place(chunks, offset)
  {
    it := 0;
    while it < |chunks| && Distance(offset, chunks[it].offset) > w
      invariant it <= |chunks| && Place(chunks, offset) == it + Place(chunks[it..], offset)
    {
      assert chunks[it] in chunks;
      assert chunks[it..][1..] == chunks[it + 1..];
      it := it + 1;
    }
    if it < |chunks| {
      assert chunks[it] in chunks;
    }
  }

  method FindExpected(expected: seq<ExpectedChunk>, offset: Offset) returns (it: nat)
    ensures it == FirstExpected(expected, offset)
  {
    it := 0;
    while it < |expected| && expected[it].offset != offset
      invariant it <= |expected| && FirstExpected(expected, offset) == it + FirstExpected(expected[it..], offset)
    {
      assert expected[it..][1..] == expected[it + 1..];
      it := it + 1;
    }
  }

  /** The first loop of CheckCompletedChains. */
  method FindRun(chunks: seq<ReceivingChunk>, from: Offset) returns (it: nat, next: Offset)
    requires EndsOk(chunks)
    requires forall c :: c in chunks ==> |c.data| < MAX
    ensures it == RunLength(chunks, from) && next == if it == 0 then from else chunks[it - 1].End()
  {
    it, next := 0, from;
    while it < |chunks| && next == chunks[it].offset
      invariant it <= |chunks| && RunLength(chunks, from) == it + RunLength(chunks[it..], next)
      invariant next == if it == 0 then from else chunks[it - 1].End()
    {
      assert chunks[it] in chunks;
      assert chunks[it..][1..] == chunks[it + 1..];
      next := Plus(chunks[it].offset, Cast16(|chunks[it].data|));
      it := it + 1;
    }
  }

  method JoinChunks(chunks: seq<ReceivingChunk>) returns (data: seq<Byte>)
    ensures data == Join(chunks)
  {
    data := [];
    var i := 0;
    while i < |chunks|
      invariant i <= |chunks| && data + Join(chunks[i..]) == Join(chunks)
    {
      assert chunks[i..][1..] == chunks[i + 1..];
      data := data + chunks[i].data;
      i := i + 1;
    }
  }

  /** The middle of CheckCompletedChains: the joined run, the chunks left, and where the run ends. */
  method TakeRun(chunks: seq<ReceivingChunk>, from: Offset)
    returns (data: seq<Byte>, rest: seq<ReceivingChunk>, next: Offset)
    requires EndsOk(chunks)
    requires forall c :: c in chunks ==> |c.data| < MAX
    ensures var k := RunLength(chunks, from);
            data == Join(chunks[..k]) && rest == chunks[k..] && next == from + |data|
  {
    RunIsLongest(chunks, from);
    var it;
    it, next := FindRun(chunks, from);
    data := JoinChunks(chunks[..it]);
    rest := chunks[it..];
  }

  /** The insertion of AddDataChunk, and whether the chunk landed before another one. */
  method InsertChunk(chunks: seq<ReceivingChunk>, w: Offset, chunk: ReceivingChunk)
    returns (r: seq<ReceivingChunk>, between: bool)
    requires WindowOk(w) && ChunkOk(chunk, w)
    requires forall c :: c in chunks ==> Small(c.offset, w) && c.offset <= chunk.offset + w
    ensures r == Inserted(chunks, chunk)
    ensures var i := Place(chunks, chunk.offset);
            between <==> i < |chunks| && chunks[i].offset != chunk.offset
  {
    var it := FindPlace(chunks, w, chunk.offset);
    if it == |chunks| {
      return chunks + [chunk], false;
    }
    if chunk.offset == chunks[it].offset {
      return chunks, false;
    }
    assert chunks[it] in chunks;
    var overlap := Distance(chunks[it].offset, Plus(chunk.offset, Cast16(|chunk.data|)));
    if 0 < overlap <= w {
      var clipped := ReceivingChunk(chunk.offset, chunk.data[..Distance(chunk.offset, chunks[it].offset)]);
      return chunks[..it] + [clipped] + chunks[it..], true;
    }
    return chunks[..it] + [chunk] + chunks[it..], true;
  }

  class SafeStreamReceiving {
    const config: Config
    var lastConfirmed: Offset
    var chunks: seq<ReceivingChunk>
    var confirmations: seq<Offset>
    var requests: Requests
    var lastConfirmTime: int
    var oldestRepeatTime: int

    ghost function State(): (r: Receiver)
      reads this
    {
      Receiver(lastConfirmed, chunks, confirmations, requests, lastConfirmTime, oldestRepeatTime)
    }

    ghost predicate Valid()
      reads this
    {
      ReceiverOk(config.windowSize, State())
    }

    constructor (config: Config)
      requires WindowOk(config.windowSize)
      ensures Valid() && this.config == config && State() == INITIAL_RECEIVER
    {
      this.config := config;
      lastConfirmed, chunks, confirmations, lastConfirmTime, oldestRepeatTime := 0, [], [], 0, 0;
      requests := Requests([], [], false);
    }

    method ReceiveSend(offset: Offset, data: seq<Byte>)
      requires Valid() && ChunkOk(ReceivingChunk(offset, data), config.windowSize)
      modifies this
      ensures Valid() && State() == SendReceived(config.windowSize, old(State()), offset, data)
      ensures if lastConfirmed <= offset < lastConfirmed + config.windowSize
              then forall x :: HasByte(chunks, x) <==> HasByte(old(chunks), x) || Adds(old(chunks), offset, |data|, x)
              else State() == old(State())
    {
      if Distance(lastConfirmed, offset) >= config.windowSize {
        return;
      }
      AddDataChunk(ReceivingChunk(offset, data));
    }

    method ReceiveRepeat(offset: Offset, data: seq<Byte>)
      requires Valid() && ChunkOk(ReceivingChunk(offset, data), config.windowSize)
      modifies this
      ensures Valid() && State() == RepeatReceived(config.windowSize, old(State()), offset, data)
      ensures if lastConfirmed <= offset < lastConfirmed + config.windowSize
              then forall x :: HasByte(chunks, x) <==> HasByte(old(chunks), x) || Adds(old(chunks), offset, |data|, x)
              else chunks == old(chunks) && confirmations == old(confirmations) + [offset + |data| - 1]
    {
      if Distance(lastConfirmed, offset) >= config.windowSize {
        confirmations := confirmations + [Plus(offset, Cast16(|data| - 1))];
        return;
      }
      AddDataChunk(ReceivingChunk(offset, data));
    }

    method AddDataChunk(chunk: ReceivingChunk)
      requires Valid() && IsNew(config.windowSize, State(), chunk.offset) && ChunkOk(chunk, config.windowSize)
      modifies this
      ensures Valid() && State() == Stored(old(State()), chunk)
      ensures forall x :: HasByte(chunks, x) <==> HasByte(old(chunks), x) || Adds(old(chunks), chunk.offset, |chunk.data|, x)
    {
      StoredOk(config.windowSize, State(), chunk);
      AllStoredBytes(chunks, chunk);
      var inserted, between := InsertChunk(chunks, config.windowSize, chunk);
      chunks := inserted;
      if between {
        var ex := FindExpected(requests.expected, chunk.offset);
        if ex < |requests.expected| {
          requests := requests.(expected := requests.expected[..ex] + requests.expected[ex + 1..]);
        }
      }
    }

    /** Until the time returned nothing can be delivered. */
    method CheckCompletedChains(now: int) returns (delivered: seq<Byte>, wake: int)
      requires Valid()
      modifies this
      ensures Valid() && delivered == Delivered(config, old(State()), now)
      ensures wake == ConfirmTime(config, old(State()), now) && forall t :: now <= t < wake ==> Throttled(config, State(), t)
      ensures old(lastConfirmed) + |Run(old(State()))| <= MAX && State() == Completed(config, old(State()), now)
      ensures lastConfirmed == old(lastConfirmed) + |delivered|
      ensures delivered != [] ==> confirmations == old(confirmations) + [lastConfirmed - 1] && lastConfirmTime == now
      ensures delivered == [] ==> State() == old(State())
      ensures old(lastConfirmTime) + config.sendConfirmTimeout <= now ==> chunks == [] || chunks[0].offset != lastConfirmed
    {
      hide RunLength, Join, ChunksOk;
      CompletedOk(config, State(), now);
      CompletedConfirms(config, State(), now);
      if !Throttled(config, State(), now) {
        CompletedDeliversRun(config, State(), now);
      }
      if lastConfirmTime + config.sendConfirmTimeout > now {
        return [], lastConfirmTime + config.sendConfirmTimeout;
      }
      wake := now;
      RunFits(config.windowSize, State());
      ChunksFit(config.windowSize, State());
      var next: Offset;
      delivered, chunks, next := TakeRun(chunks, lastConfirmed);
      if next != lastConfirmed {
        confirmations := confirmations + [Minus(next, 1)];
        lastConfirmed := next;
        lastConfirmTime := now;
      }
    }

    method AddExpectedChunk(offset: Offset)
      modifies this`requests
      ensures requests == Expect(config, old(requests), offset)
    {
      var ex := FindExpected(requests.expected, offset);
      if ex < |requests.expected| {
        var count := Cast16(requests.expected[ex].repeatCount + 1);
        requests := requests.(expected := requests.expected[ex := ExpectedChunk(offset, count)]);
        if count > config.maxRepeatCount {
          requests := requests.(exceeded := true);
          return;
        }
      } else {
        requests := requests.(expected := requests.expected + [ExpectedChunk(offset, 0)]);
      }
      requests := requests.(repeats := requests.repeats + [offset]);
    }

    /** Until the time returned nothing is asked for. */
    method CheckMissedOffset(now: int) returns (wake: int)
      requires Valid()
      modifies this`requests, this`oldestRepeatTime
      ensures Valid() && EndsOk(chunks) && State() == MissedChecked(config, old(State()), now)
      ensures if old(oldestRepeatTime) + config.sendRepeatTimeout <= now
              then AsksFor(config, old(requests), Gaps(chunks, lastConfirmed), requests) && oldestRepeatTime == now
              else State() == old(State())
      ensures wake == RepeatTime(config, old(State()), now)
      ensures forall t :: now <= t < wake ==> MissedChecked(config, State(), t) == State()
    {
      hide Expect, Sorted, AsksFor, Gaps;
      ChunksFit(config.windowSize, State());
      MissedMeans(config, chunks, lastConfirmed, requests);
      if oldestRepeatTime + config.sendRepeatTimeout > now {
        wake := oldestRepeatTime + config.sendRepeatTimeout;
        assert EndsOk(chunks);
        return;
      }
      wake := now;
      var next, i := lastConfirmed, 0;
      while i < |chunks|
        invariant i <= |chunks| && next == Behind(chunks[..i], lastConfirmed)
        invariant requests == MissedRequests(config, chunks[..i], lastConfirmed, old(requests))
      {
        assert chunks[i] in chunks;
        assert chunks[..i + 1][..i] == chunks[..i];
        if chunks[i].offset != next {
          AddExpectedChunk(next);
        }
        next := Plus(chunks[i].offset, Cast16(|chunks[i].data|));
        i := i + 1;
      }
      assert chunks[..i] == chunks;
      oldestRepeatTime := now;
    }

    /** The end of Update, with MakeResponse. */
    method Respond() returns (messages: seq<Message>, failed: bool)
      requires Valid()
      modifies this
      ensures Valid() && (State(), messages) == Answered(old(State())) && failed == old(requests.exceeded)
      ensures if failed then messages == [] && confirmations == old(confirmations)
              else
                && confirmations == [] && |messages| == |old(confirmations)| + |old(requests.repeats)|
                && (forall i :: 0 <= i < |old(confirmations)| ==> messages[i] == Confirm(old(confirmations)[i]))
                && forall i :: 0 <= i < |old(requests.repeats)| ==>
                     messages[|old(confirmations)| + i] == RequestRepeat(old(requests.repeats)[i])
    {
      messages := [];
      failed := requests.exceeded;
      if requests.exceeded {
        requests := requests.(exceeded := false, repeats := []);
        return;
      }
      var i := 0;
      while i < |confirmations|
        invariant i <= |confirmations| && messages == Confirms(confirmations[..i])
        invariant State() == old(State())
      {
        messages := messages + [Confirm(confirmations[i])];
        i := i + 1;
      }
      var confirms := messages;
      i := 0;
      while i < |requests.repeats|
        invariant i <= |requests.repeats| && messages == confirms + RequestRepeats(requests.repeats[..i])
        invariant State() == old(State())
      {
        messages := messages + [RequestRepeat(requests.repeats[i])];
        i := i + 1;
      }
      assert confirmations[..|confirmations|] == confirmations;
      assert requests.repeats[..i] == requests.repeats;
      confirmations := [];
      requests := requests.(repeats := []);
    }

    /** failed is the error of the action: something was asked for too often. */
    method Update(now: int) returns (delivered: seq<Byte>, messages: seq<Message>, failed: bool, wake: int)
      requires Valid()
      modifies this
      ensures Valid() && delivered == Delivered(config, old(State()), now)
      ensures old(lastConfirmed) + |Run(old(State()))| <= MAX && EndsOk(Completed(config, old(State()), now).chunks)
      ensures var r := MissedChecked(config, Completed(config, old(State()), now), now);
              (State(), messages) == Answered(r) && failed == r.requests.exceeded
      ensures var c, r := ConfirmTime(config, old(State()), now), RepeatTime(config, old(State()), now);
              wake == if r < c then r else c
    {
      var confirmTime, repeatTime;
      delivered, confirmTime := CheckCompletedChains(now);
      repeatTime := CheckMissedOffset(now);
      wake := if repeatTime < confirmTime then repeatTime else confirmTime;
      messages, failed := Respond();
    }
  }
}
