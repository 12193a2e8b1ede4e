/**
  The chunks sent and not yet confirmed, oldest send first.  Functions on stream positions say what
  Register and RemoveUpTo do; the class does it with ring offsets.
 */
module ChunkList {
  import opened Bytes
  import opened SafeStreamTypes

  datatype SendingChunk = SendingChunk(begin: Offset, end: Offset, repeatCount: Offset, sendTime: int) {
    ghost predicate Has(x: int) {
      begin <= x <= end
    }
  }

  ghost predicate ChunkOk(c: SendingChunk, w: nat) {
    c.begin <= c.end < c.begin + w && Small(c.end, w)
  }

  ghost predicate ChunksOk(chunks: seq<SendingChunk>, w: nat) {
    forall c :: c in chunks ==> ChunkOk(c, w)
  }

  ghost predicate Covered(chunks: seq<SendingChunk>, x: int) {
    exists c :: c in chunks && c.Has(x)
  }

  ghost predicate OrderedByTime(chunks: seq<SendingChunk>) {
    forall i, j :: 0 <= i < j < |chunks| ==> chunks[i].sendTime <= chunks[j].sendTime
  }

  ghost predicate SentBy(chunks: seq<SendingChunk>, now: int) {
    forall c :: c in chunks ==> c.sendTime <= now
  }

  // What Register does

  /** The index of the first chunk that begins in [b, e], or the length of the list. */
  ghost function FirstIn(chunks: seq<SendingChunk>, b: int, e: int): (i: nat)
    ensures i <= |chunks|
    ensures i < |chunks| ==> b <= chunks[i].begin <= e
  {
    if chunks == [] || b <= chunks[0].begin <= e then 0 else 1 + FirstIn(chunks[1..], b, e)
  }

  ghost predicate Overlaps(c: SendingChunk, b: int, e: int) {
    b <= c.begin <= e || b <= c.end <= e
  }

  /** What is left of a chunk beside [b, e]; a chunk that contains [b, e] inside is left alone. */
  ghost function Trim(c: SendingChunk, b: Offset, e: Offset): (r: seq<SendingChunk>) {
    if b <= c.begin <= e then (if c.end <= e then [] else if e < MAX then [c.(begin := e + 1)] else [])
    else if b <= c.end <= e then (if b > 0 then [c.(end := b - 1)] else [])
    else [c]
  }

  ghost function TrimAll(chunks: seq<SendingChunk>, b: Offset, e: Offset): (r: seq<SendingChunk>) {
    if chunks == [] then []
    else TrimAll(chunks[..|chunks| - 1], b, e) + Trim(chunks[|chunks| - 1], b, e)
  }

  function MinCount(x: Offset, y: Offset): (r: Offset) {
    if x <= y then x else y
  }

  /** The repeat count of the merged chunk: that of first, lowered to that of the last chunk overlapped. */
  ghost function MergedCount(chunks: seq<SendingChunk>, b: Offset, e: Offset, first: Offset): (r: Offset) {
    if chunks == [] then first
    else
      var c := chunks[|chunks| - 1];
      if Overlaps(c, b, e) then MinCount(first, c.repeatCount)
      else MergedCount(chunks[..|chunks| - 1], b, e, first)
  }

  /** What Register leaves of the other chunks. */
  ghost function Others(chunks: seq<SendingChunk>, b: Offset, e: Offset): (r: seq<SendingChunk>) {
    var f := FirstIn(chunks, b, e);
    if f == |chunks| then chunks
    else if chunks[f].begin == b && chunks[f].end == e then chunks[..f] + chunks[f + 1..]
    else TrimAll(chunks, b, e)
  }

  ghost function RegisteredCount(chunks: seq<SendingChunk>, b: Offset, e: Offset): (r: Offset) {
    var f := FirstIn(chunks, b, e);
    if f == |chunks| then 0
    else if chunks[f].begin == b && chunks[f].end == e then chunks[f].repeatCount
    else MergedCount(chunks, b, e, chunks[f].repeatCount)
  }

  ghost function Registered(chunks: seq<SendingChunk>, b: Offset, e: Offset, now: int): (r: seq<SendingChunk>)
    ensures |r| > 0
  {
    Others(chunks, b, e) + [SendingChunk(b, e, RegisteredCount(chunks, b, e), now)]
  }

  // What RemoveUpTo does

  ghost function Drop(c: SendingChunk, o: Offset): (r: seq<SendingChunk>) {
    if c.end < o then []
    else if c.begin <= o then (if o == c.end then [] else [c.(begin := o)])
    else [c]
  }

  ghost function RemovedUpTo(chunks: seq<SendingChunk>, o: Offset): (r: seq<SendingChunk>) {
    if chunks == [] then [] else RemovedUpTo(chunks[..|chunks| - 1], o) + Drop(chunks[|chunks| - 1], o)
  }

  // Properties

  lemma SplitLast(chunks: seq<SendingChunk>)
    requires chunks != []
    ensures chunks == chunks[..|chunks| - 1] + [chunks[|chunks| - 1]]
  {
  }

  lemma CoveredConcat(a: seq<SendingChunk>, b: seq<SendingChunk>, x: int)
    ensures Covered(a + b, x) <==> Covered(a, x) || Covered(b, x)
  {
    if Covered(a, x) {
      var c :| c in a && c.Has(x);
      assert c in a + b;
    } else if Covered(b, x) {
      var c :| c in b && c.Has(x);
      assert c in a + b;
    }
  }

  lemma CoveredOne(c: SendingChunk, x: int)
    ensures Covered([c], x) <==> c.Has(x)
  {
    assert c in [c];
  }

  lemma {:induction false} TrimKeepsCoverage(chunks: seq<SendingChunk>, b: Offset, e: Offset, w: nat, x: int)
    requires ChunksOk(chunks, w) && b <= e && Small(e, w)
    ensures ChunksOk(TrimAll(chunks, b, e), w)
    ensures Covered(TrimAll(chunks, b, e), x) || b <= x <= e <==> Covered(chunks, x) || b <= x <= e
  {
    if chunks == [] {
    } else {
      var rest, c := chunks[..|chunks| - 1], chunks[|chunks| - 1];
      SplitLast(chunks);
      assert ChunkOk(c, w);
      TrimKeepsCoverage(rest, b, e, w, x);
      CoveredConcat(TrimAll(rest, b, e), Trim(c, b, e), x);
      CoveredConcat(rest, [c], x);
      CoveredOne(c, x);
      if Trim(c, b, e) != [] {
        CoveredOne(Trim(c, b, e)[0], x);
      }
    }
  }

  lemma OthersKeepCoverage(chunks: seq<SendingChunk>, b: Offset, e: Offset, w: nat, x: int)
    requires ChunksOk(chunks, w) && b <= e && Small(e, w)
    ensures ChunksOk(Others(chunks, b, e), w)
    ensures Covered(Others(chunks, b, e), x) || b <= x <= e <==> Covered(chunks, x) || b <= x <= e
  {
    TrimKeepsCoverage(chunks, b, e, w, x);
    var f := FirstIn(chunks, b, e);
    if f < |chunks| && chunks[f].begin == b && chunks[f].end == e {
      var before, after := chunks[..f], chunks[f + 1..];
      assert chunks == before + ([chunks[f]] + after);
      CoveredConcat(before, after, x);
      CoveredConcat(before, [chunks[f]] + after, x);
      CoveredConcat([chunks[f]], after, x);
      CoveredOne(chunks[f], x);
    }
  }

  /** Register adds exactly the new range to what is covered, and no chunk becomes empty. */
  lemma RegisterCoverage(chunks: seq<SendingChunk>, b: Offset, e: Offset, now: int, w: nat, x: int)
    requires ChunksOk(chunks, w) && b <= e < b + w && Small(e, w)
    ensures ChunksOk(Registered(chunks, b, e, now), w)
    ensures Covered(Registered(chunks, b, e, now), x) <==> Covered(chunks, x) || b <= x <= e
  {
    var latest := SendingChunk(b, e, RegisteredCount(chunks, b, e), now);
    OthersKeepCoverage(chunks, b, e, w, x);
    CoveredConcat(Others(chunks, b, e), [latest], x);
    CoveredOne(latest, x);
  }

  /**
    RemoveUpTo(o) keeps the covered bytes after o.  It also keeps the byte at o itself, although that
    byte is confirmed, exactly when some chunk holds it and goes on past it.
   */
  lemma {:induction false} RemoveUpToCoverage(chunks: seq<SendingChunk>, o: Offset, w: nat, x: int)
    requires ChunksOk(chunks, w)
    ensures ChunksOk(RemovedUpTo(chunks, o), w)
    ensures Covered(RemovedUpTo(chunks, o), x) <==>
              (x > o && Covered(chunks, x)) || (x == o && exists c :: c in chunks && c.begin <= o < c.end)
  {
    if chunks == [] {
    } else {
      var rest, c := chunks[..|chunks| - 1], chunks[|chunks| - 1];
      SplitLast(chunks);
      assert ChunkOk(c, w);
      RemoveUpToCoverage(rest, o, w, x);
      CoveredConcat(RemovedUpTo(rest, o), Drop(c, o), x);
      CoveredConcat(rest, [c], x);
      CoveredOne(c, x);
      if Drop(c, o) != [] {
        CoveredOne(Drop(c, o)[0], x);
      }
    }
  }

  /** A chunk sent later, or what is left of it, may follow. */
  lemma TimesGoOn(a: seq<SendingChunk>, left: seq<SendingChunk>, time: int, now: int)
    requires OrderedByTime(a) && SentBy(a, time) && time <= now
    requires |left| <= 1 && (left != [] ==> left[0].sendTime == time)
    ensures OrderedByTime(a + left) && SentBy(a + left, now)
  {
    assert forall i :: 0 <= i < |a| ==> a[i] in a;
  }

  lemma {:induction false} TrimKeepsTimes(chunks: seq<SendingChunk>, b: Offset, e: Offset, now: int)
    requires OrderedByTime(chunks) && SentBy(chunks, now)
    ensures OrderedByTime(TrimAll(chunks, b, e)) && SentBy(TrimAll(chunks, b, e), now)
  {
    if chunks == [] {
    } else {
      var rest, c := chunks[..|chunks| - 1], chunks[|chunks| - 1];
      assert SentBy(rest, c.sendTime) && c in chunks;
      TrimKeepsTimes(rest, b, e, c.sendTime);
      hide OrderedByTime, SentBy;
      TimesGoOn(TrimAll(rest, b, e), Trim(c, b, e), c.sendTime, now);
    }
  }

  lemma {:induction false} RemoveKeepsTimes(chunks: seq<SendingChunk>, o: Offset, now: int)
    requires OrderedByTime(chunks) && SentBy(chunks, now)
    ensures OrderedByTime(RemovedUpTo(chunks, o)) && SentBy(RemovedUpTo(chunks, o), now)
  {
    if chunks == [] {
    } else {
      var rest, c := chunks[..|chunks| - 1], chunks[|chunks| - 1];
      assert SentBy(rest, c.sendTime) && c in chunks;
      RemoveKeepsTimes(rest, o, c.sendTime);
      hide OrderedByTime, SentBy;
      TimesGoOn(RemovedUpTo(rest, o), Drop(c, o), c.sendTime, now);
    }
  }

  // The repeat count of a registered chunk

  ghost predicate BeginsIn(c: SendingChunk, b: int, e: int) {
    b <= c.begin <= e
  }

  /** A range in which no chunk begins was not sent before. */
  lemma {:induction false} CountOfNew(chunks: seq<SendingChunk>, b: Offset, e: Offset)
    requires forall c :: c in chunks ==> !BeginsIn(c, b, e)
    ensures FirstIn(chunks, b, e) == |chunks| && RegisteredCount(chunks, b, e) == 0
  {
    if chunks == [] {
    } else {
      assert !BeginsIn(chunks[0], b, e);
      CountOfNew(chunks[1..], b, e);
    }
  }

  lemma {:induction false} FirstInIs(chunks: seq<SendingChunk>, b: Offset, e: Offset, f: nat)
    requires f < |chunks| && BeginsIn(chunks[f], b, e) && forall j :: 0 <= j < f ==> !BeginsIn(chunks[j], b, e)
    ensures FirstIn(chunks, b, e) == f
  {
    if f == 0 {
    } else {
      assert !BeginsIn(chunks[0], b, e);
      FirstInIs(chunks[1..], b, e, f - 1);
    }
  }

  lemma {:induction false} MergedCountIs(chunks: seq<SendingChunk>, b: Offset, e: Offset, first: Offset, l: nat)
    requires l < |chunks| && Overlaps(chunks[l], b, e) && forall j :: l < j < |chunks| ==> !Overlaps(chunks[j], b, e)
    ensures MergedCount(chunks, b, e, first) == if first <= chunks[l].repeatCount then first else chunks[l].repeatCount
  {
    if l == |chunks| - 1 {
    } else {
      MergedCountIs(chunks[..|chunks| - 1], b, e, first, l);
    }
  }

  /**
    With f the first chunk that begins in [b, e] and l the last one that overlaps it: the same range keeps
    its count, a merged one has the lower count of these two, whatever was sent between them.
   */
  lemma CountOfMerged(chunks: seq<SendingChunk>, b: Offset, e: Offset, f: nat, l: nat)
    requires f < |chunks| && BeginsIn(chunks[f], b, e) && forall j :: 0 <= j < f ==> !BeginsIn(chunks[j], b, e)
    requires l < |chunks| && Overlaps(chunks[l], b, e) && forall j :: l < j < |chunks| ==> !Overlaps(chunks[j], b, e)
    ensures var x, y := chunks[f].repeatCount, chunks[l].repeatCount;
            RegisteredCount(chunks, b, e) == if (chunks[f].begin == b && chunks[f].end == e) || x <= y then x else y
  {
    FirstInIs(chunks, b, e, f);
    MergedCountIs(chunks, b, e, chunks[f].repeatCount, l);
  }

  /** Apart from the chunk registered, none begins in its range, unless that range was listed already. */
  lemma {:induction false} TrimmedBeginOutside(chunks: seq<SendingChunk>, b: Offset, e: Offset)
    requires b <= e
    ensures forall c :: c in TrimAll(chunks, b, e) ==> !BeginsIn(c, b, e)
  {
    if chunks == [] {
    } else {
      TrimmedBeginOutside(chunks[..|chunks| - 1], b, e);
    }
  }

  /**
    When a chunk begins in [b, e], and the first that does is not this range itself, all chunks are cut back to
    what lies beside [b, e], except for one that goes past it on both sides.
   */
  lemma {:induction false} TrimmedLieBeside(chunks: seq<SendingChunk>, b: Offset, e: Offset, x: int)
    requires b <= x <= e && (forall c :: c in chunks ==> c.begin <= c.end)
    ensures forall c :: c in TrimAll(chunks, b, e) && c.Has(x) ==> c.begin < b && e < c.end
  {
    if chunks == [] {
    } else {
      TrimmedLieBeside(chunks[..|chunks| - 1], b, e, x);
      assert chunks[|chunks| - 1].begin <= chunks[|chunks| - 1].end;
    }
  }

  lemma RegisterTrims(chunks: seq<SendingChunk>, b: Offset, e: Offset, now: int, f: nat, x: int)
    requires b <= x <= e && (forall c :: c in chunks ==> c.begin <= c.end)
    requires f < |chunks| && BeginsIn(chunks[f], b, e) && forall j :: 0 <= j < f ==> !BeginsIn(chunks[j], b, e)
    requires chunks[f].begin != b || chunks[f].end != e
    ensures var r := Registered(chunks, b, e, now);
            forall i :: 0 <= i < |r| - 1 && r[i].Has(x) ==> r[i].begin < b && e < r[i].end
  {
    FirstInIs(chunks, b, e, f);
    TrimmedLieBeside(chunks, b, e, x);
    var rest, r := TrimAll(chunks, b, e), Registered(chunks, b, e, now);
    assert forall i :: 0 <= i < |rest| ==> r[i] == rest[i] && rest[i] in rest;
  }

  /** So a count can fall: a range sent count times is taken for one sent once, because a part of it was. */
  lemma CountFalls(count: Offset, t: int)
    requires count > 0
    ensures RegisteredCount([SendingChunk(3, 5, 1, t), SendingChunk(0, 9, count, t)], 0, 9) == 1
  {
    var chunks := [SendingChunk(3, 5, 1, t), SendingChunk(0, 9, count, t)];
    CountOfMerged(chunks, 0, 9, 0, 1);
  }

  /** The list stays ordered by send time: what was just sent goes last. */
  lemma RegisterKeepsTimes(chunks: seq<SendingChunk>, b: Offset, e: Offset, now: int)
    requires OrderedByTime(chunks) && SentBy(chunks, now)
    ensures OrderedByTime(Registered(chunks, b, e, now)) && SentBy(Registered(chunks, b, e, now), now)
  {
    TrimKeepsTimes(chunks, b, e, now);
    var rest, r := Others(chunks, b, e), Registered(chunks, b, e, now);
    assert OrderedByTime(rest) && SentBy(rest, now);
    hide OrderedByTime, SentBy, Others;
    TimesGoOn(rest, [r[|r| - 1]], now, now);
  }

  /** So looking at the front finds a timeout whenever there is one. */
  lemma FrontTimesOutFirst(chunks: seq<SendingChunk>, timeout: int, now: int)
    requires OrderedByTime(chunks)
    ensures (exists c :: c in chunks && c.sendTime + timeout < now) <==>
            chunks != [] && chunks[0].sendTime + timeout < now
  {
    if c :| c in chunks && c.sendTime + timeout < now {
      var i :| 0 <= i < |chunks| && chunks[i] == c;
      assert chunks[0].sendTime <= chunks[i].sendTime;
    }
  }

  // The code

  /** find_if over the chunks with the range test of Register. */
  method FindFirst(chunks: seq<SendingChunk>, range: OffsetRange) returns (i: nat)
    requires WindowOk(range.windowSize) && ChunksOk(chunks, range.windowSize)
    requires range.begin <= range.end < range.begin + range.windowSize && Small(range.end, range.windowSize)
    ensures i == FirstIn(chunks, range.begin, range.end)
  {
    i := 0;
    while i < |chunks| && !range.InRange(chunks[i].begin)
      invariant i <= |chunks|
      invariant FirstIn(chunks, range.begin, range.end) == i + FirstIn(chunks[i..], range.begin, range.end)
    {
      assert ChunkOk(chunks[i], range.windowSize);
      assert chunks[i..][1..] == chunks[i + 1..];
      i := i + 1;
    }
    if i < |chunks| {
      assert ChunkOk(chunks[i], range.windowSize);
    }
  }

  /** remove_if with the lambda that trims the chunks overlapped by a new one. */
  method TrimOverlapped(chunks: seq<SendingChunk>, range: OffsetRange, first: Offset)
    returns (kept: seq<SendingChunk>, repeatCount: Offset)
    requires WindowOk(range.windowSize) && ChunksOk(chunks, range.windowSize)
    requires range.begin <= range.end < range.begin + range.windowSize && Small(range.end, range.windowSize)
    ensures kept == TrimAll(chunks, range.begin, range.end)
    ensures repeatCount == MergedCount(chunks, range.begin, range.end, first)
  {
    kept, repeatCount := [], first;
    var i := 0;
    while i < |chunks|
      invariant i <= |chunks|
      invariant kept == TrimAll(chunks[..i], range.begin, range.end)
      invariant repeatCount == MergedCount(chunks[..i], range.begin, range.end, first)
    {
      var chunk := chunks[i];
      assert ChunkOk(chunk, range.windowSize);
      assert chunks[..i + 1][..i] == chunks[..i];
      if range.InRange(chunk.begin) {
        repeatCount := MinCount(first, chunk.repeatCount);
        if !range.InRange(chunk.end) {
          kept := kept + [chunk.(begin := Plus(range.end, 1))];
        }
      } else {
        if range.InRange(chunk.end) {
          repeatCount := MinCount(first, chunk.repeatCount);
          chunk := chunk.(end := Minus(range.begin, 1));
        }
        kept := kept + [chunk];
      }
      i := i + 1;
    }
    assert chunks[..i] == chunks;
  }

  /** remove_if with the lambda of RemoveUpTo. */
  method DropUpTo(chunks: seq<SendingChunk>, w: Offset, offset: Offset) returns (kept: seq<SendingChunk>)
    requires WindowOk(w) && Small(offset, w)
    requires forall c :: c in chunks ==> ChunkOk(c, w) && c.end <= offset + w
    ensures kept == RemovedUpTo(chunks, offset)
  {
    kept := [];
    var i := 0;
    while i < |chunks|
      invariant i <= |chunks|
      invariant kept == RemovedUpTo(chunks[..i], offset)
    {
      var chunk := chunks[i];
      assert chunk in chunks;
      assert chunks[..i + 1][..i] == chunks[..i];
      var range := OffsetRange(chunk.begin, chunk.end, w);
      if !range.Before(offset) {
        if range.InRange(offset) {
          chunk := chunk.(begin := offset);
          if chunk.begin != chunk.end {
            kept := kept + [chunk];
          }
        } else {
          kept := kept + [chunk];
        }
      }
      i := i + 1;
    }
    assert chunks[..i] == chunks;
  }

  class SendingChunkList {
    const windowSize: Offset
    var chunks: seq<SendingChunk>

    ghost predicate Valid()
      reads this
    {
      WindowOk(windowSize) && ChunksOk(chunks, windowSize)
    }

    constructor (windowSize: Offset)
      ensures this.windowSize == windowSize && chunks == []
    {
      this.windowSize := windowSize;
      chunks := [];
    }

    /** The registered chunk is the last one. */
    method Register(begin: Offset, end: Offset, sendTime: int) returns (chunk: SendingChunk)
      requires Valid() && begin <= end < begin + windowSize && Small(end, windowSize)
      modifies this
      ensures Valid() && chunks == Registered(old(chunks), begin, end, sendTime)
      ensures chunk == chunks[|chunks| - 1]
    {
      RegisterCoverage(chunks, begin, end, sendTime, windowSize, 0);
      var range := OffsetRange(begin, end, windowSize);
      var it := FindFirst(chunks, range);
      if it == |chunks| {
        chunk := SendingChunk(begin, end, 0, sendTime);
        chunks := chunks + [chunk];
      } else if begin == chunks[it].begin && end == chunks[it].end {
        chunk := chunks[it].(sendTime := sendTime);
        chunks := chunks[..it] + chunks[it + 1..] + [chunk];
      } else {
        var kept, count := TrimOverlapped(chunks, range, chunks[it].repeatCount);
        chunk := SendingChunk(begin, end, count, sendTime);
        chunks := kept + [chunk];
      }
    }

    method RemoveUpTo(offset: Offset)
      requires Valid() && Small(offset, windowSize)
      requires forall c :: c in chunks ==> c.end <= offset + windowSize
      modifies this
      ensures Valid() && chunks == RemovedUpTo(old(chunks), offset)
    {
      RemoveUpToCoverage(chunks, offset, windowSize, 0);
      chunks := DropUpTo(chunks, windowSize, offset);
    }
  }
}
