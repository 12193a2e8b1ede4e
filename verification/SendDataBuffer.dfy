/**
  The send buffer: the blocks accepted by SendData and not yet confirmed, rejected or stopped.
  BufferState and its functions say what the buffer does on stream positions; the class does it
  with ring offsets.
 */
module SendBuffer {
  import opened Bytes
  import opened SafeStreamTypes

  datatype Outcome = Done | Failed | Stopped

  datatype SendingData = SendingData(offset: Offset, data: seq<Byte>) {
    function GetOffsetRange(w: Offset): (r: OffsetRange) {
      OffsetRange(offset, Plus(offset, Cast16(|data| - 1)), w)
    }

    ghost function End(): (e: nat) {
      offset + |data|
    }
  }

  /** blocks still buffered, the byte count kept beside them, and the outcomes already reported */
  datatype BufferState = BufferState(blocks: seq<SendingData>, bufferSize: int,
                                     finished: seq<(SendingData, Outcome)>)

  ghost function Flatten(blocks: seq<SendingData>): (f: seq<Byte>) {
    if blocks == [] then [] else blocks[0].data + Flatten(blocks[1..])
  }

  ghost function Start(blocks: seq<SendingData>, next: nat): (s: nat) {
    if blocks == [] then next else blocks[0].offset
  }

  /** Non-empty blocks without gaps, the last one ending at next. */
  ghost predicate Contiguous(blocks: seq<SendingData>, next: nat, w: nat) {
    blocks != [] ==>
      && 0 < |blocks[0].data| <= w
      && blocks[0].End() == Start(blocks[1..], next)
      && Contiguous(blocks[1..], next, w)
  }

  ghost predicate BufferOk(b: BufferState, w: nat, next: nat) {
    && WindowOk(w) && Small(next, w)
    && Contiguous(b.blocks, next, w)
    && b.bufferSize == |Flatten(b.blocks)|
  }

  /** Confirm retires blocks that end before the byte at o; Reject and Stop also the one holding it. */
  ghost predicate Retires(d: SendingData, o: nat, inclusive: bool) {
    if inclusive then d.offset <= o else d.End() <= o
  }

  /** How many blocks are retired: they stand at the front. */
  ghost function Cut(blocks: seq<SendingData>, o: nat, inclusive: bool): (c: nat)
    ensures c <= |blocks|
  {
    if blocks == [] || !Retires(blocks[0], o, inclusive) then 0 else 1 + Cut(blocks[1..], o, inclusive)
  }

  ghost function Reported(gone: seq<SendingData>, outcome: Outcome): (r: seq<(SendingData, Outcome)>) {
    seq(|gone|, i requires 0 <= i < |gone| => (gone[i], outcome))
  }

  ghost function Retire(b: BufferState, o: nat, inclusive: bool, outcome: Outcome): (r: BufferState) {
    var c := Cut(b.blocks, o, inclusive);
    BufferState(b.blocks[c..], |Flatten(b.blocks[c..])|, b.finished + Reported(b.blocks[..c], outcome))
  }

  ghost function Append(b: BufferState, d: SendingData): (r: BufferState) {
    BufferState(b.blocks + [d], b.bufferSize + |d.data|, b.finished)
  }

  function Min(a: int, b: int): (r: int) {
    if a <= b then a else b
  }

  /** The bytes from position o on, at most n of them; nothing when o is not buffered. */
  ghost function Slice(b: BufferState, next: nat, o: nat, n: nat): (r: seq<Byte>) {
    var start := Start(b.blocks, next);
    if start <= o < next && start + |Flatten(b.blocks)| == next then Flatten(b.blocks)[o - start..Min(o + n, next) - start] else []
  }

  lemma {:induction false} FlattenLength(blocks: seq<SendingData>, next: nat, w: nat)
    requires Contiguous(blocks, next, w)
    ensures Start(blocks, next) + |Flatten(blocks)| == next
  {
    if blocks == [] {
    } else {
      FlattenLength(blocks[1..], next, w);
    }
  }

  lemma {:induction false} FlattenConcat(a: seq<SendingData>, b: seq<SendingData>)
    ensures Flatten(a + b) == Flatten(a) + Flatten(b)
  {
    if a == [] {
      assert a + b == b;
    } else {
      assert (a + b)[1..] == a[1..] + b;
      FlattenConcat(a[1..], b);
    }
  }

  /** The blocks that must go are exactly the first ones, and the rest stays without gaps. */
  lemma {:induction false} CutSplits(blocks: seq<SendingData>, next: nat, w: nat, o: nat, inclusive: bool)
    requires Contiguous(blocks, next, w)
    ensures Contiguous(blocks[Cut(blocks, o, inclusive)..], next, w)
    ensures forall i :: 0 <= i < |blocks| ==> (Retires(blocks[i], o, inclusive) <==> i < Cut(blocks, o, inclusive))
  {
    if blocks == [] {
    } else if Retires(blocks[0], o, inclusive) {
      CutSplits(blocks[1..], next, w, o, inclusive);
      assert blocks[1..][Cut(blocks[1..], o, inclusive)..] == blocks[Cut(blocks, o, inclusive)..];
    } else {
      assert blocks[0..] == blocks;
      NothingRetired(blocks, next, w, o, inclusive);
    }
  }

  lemma {:induction false} NothingRetired(blocks: seq<SendingData>, next: nat, w: nat, o: nat, inclusive: bool)
    requires Contiguous(blocks, next, w)
    requires blocks != [] ==> !Retires(blocks[0], o, inclusive)
    ensures forall i :: 0 <= i < |blocks| ==> !Retires(blocks[i], o, inclusive)
  {
    if blocks == [] {
    } else {
      NothingRetired(blocks[1..], next, w, o, inclusive);
    }
  }

  lemma {:induction false} AppendContiguous(blocks: seq<SendingData>, next: nat, w: nat, d: SendingData)
    requires Contiguous(blocks, next, w) && d.offset == next && 0 < |d.data| <= w
    ensures Contiguous(blocks + [d], next + |d.data|, w)
    ensures Flatten(blocks + [d]) == Flatten(blocks) + d.data
    ensures Start(blocks + [d], next + |d.data|) == Start(blocks, next)
  {
    if blocks == [] {
      assert blocks + [d] == [d];
    } else {
      assert (blocks + [d])[1..] == blocks[1..] + [d];
      AppendContiguous(blocks[1..], next, w, d);
    }
  }

  lemma {:induction false} BlockBounds(blocks: seq<SendingData>, next: nat, w: nat, i: nat)
    requires Contiguous(blocks, next, w) && i < |blocks|
    ensures Start(blocks, next) <= blocks[i].offset && 0 < |blocks[i].data| <= w && blocks[i].End() <= next
    ensures blocks[i].End() == if i + 1 < |blocks| then blocks[i + 1].offset else next
    ensures i + 1 < |blocks| ==> 0 < |blocks[i + 1].data|
  {
    if i > 0 {
      BlockBounds(blocks[1..], next, w, i - 1);
    } else if |blocks| > 1 {
      BlockBounds(blocks[1..], next, w, 0);
    } else {
      assert blocks[1..] == [];
    }
    FlattenLength(blocks[1..], next, w);
  }

  /** The tests of remove_if on ring offsets decide Retires, if offset is at most a window behind next. */
  lemma RetiresByRing(blocks: seq<SendingData>, next: nat, w: Offset, i: nat, o: Offset, inclusive: bool)
    requires WindowOk(w) && Small(next, w) && Contiguous(blocks, next, w) && i < |blocks|
    requires o < next <= o + w
    ensures var range := blocks[i].GetOffsetRange(w);
            range.Before(o) || (inclusive && range.InRange(o)) <==> Retires(blocks[i], o, inclusive)
  {
    BlockBounds(blocks, next, w, i);
  }

  /** A block that is retired is reported and leaves the buffer; any other block stays. */
  lemma RetiresBlock(b: BufferState, w: nat, next: nat, o: nat, inclusive: bool, outcome: Outcome, d: SendingData)
    requires BufferOk(b, w, next) && d in b.blocks
    ensures var r := Retire(b, o, inclusive, outcome);
            if Retires(d, o, inclusive) then (d, outcome) in r.finished && d !in r.blocks else d in r.blocks
  {
    var c := Cut(b.blocks, o, inclusive);
    var i :| 0 <= i < |b.blocks| && b.blocks[i] == d;
    CutSplits(b.blocks, next, w, o, inclusive);
    if i < c {
      assert Reported(b.blocks[..c], outcome)[i] == (d, outcome);
    } else {
      assert b.blocks[c..][i - c] == d;
    }
  }

  /** The bytes of all that start at stream position start hold data at position p. */
  ghost predicate Holds(all: seq<Byte>, start: nat, p: nat, data: seq<Byte>) {
    && start <= p && p - start + |data| <= |all|
    && forall k :: 0 <= k < |data| ==> data[k] == all[p - start + k]
  }

  lemma HoldsMore(all: seq<Byte>, start: nat, p: nat, chunk: seq<Byte>, b: SendingData, d: nat, size: nat)
    requires Holds(all, start, p, chunk) && Holds(all, start, b.offset, b.data)
    requires b.offset + d == p + |chunk| && d + size <= |b.data|
    ensures Holds(all, start, p, chunk + b.data[d..d + size])
  {
  }

  lemma {:induction false} BlockPlace(blocks: seq<SendingData>, next: nat, w: nat, i: nat)
    requires Contiguous(blocks, next, w) && i < |blocks|
    ensures Holds(Flatten(blocks), Start(blocks, next), blocks[i].offset, blocks[i].data)
  {
    if i == 0 {
    } else {
      BlockPlace(blocks[1..], next, w, i - 1);
      assert blocks[1..][i - 1] == blocks[i];
    }
  }

  lemma SliceHeld(b: BufferState, next: nat, o: nat, n: nat, chunk: seq<Byte>)
    requires Start(b.blocks, next) + |Flatten(b.blocks)| == next
    requires o < next && |chunk| == Min(n, next - o) && Holds(Flatten(b.blocks), Start(b.blocks, next), o, chunk)
    ensures chunk == Slice(b, next, o, n)
  {
  }

  /** remove_if has passed i blocks, and the first cut of them go. */
  ghost predicate Sifted(blocks: seq<SendingData>, cut: nat, outcome: Outcome, i: nat,
                         kept: seq<SendingData>, gone: seq<(SendingData, Outcome)>, size: int)
  {
    && i <= |blocks| && cut <= |blocks|
    && if i <= cut
       then kept == [] && gone == Reported(blocks[..i], outcome) && size == |Flatten(blocks[i..])|
       else kept == blocks[cut..i] && gone == Reported(blocks[..cut], outcome) && size == |Flatten(blocks[cut..])|
  }

  lemma SiftStep(blocks: seq<SendingData>, cut: nat, outcome: Outcome, i: nat,
                 kept: seq<SendingData>, gone: seq<(SendingData, Outcome)>, size: int)
    requires i < |blocks| && Sifted(blocks, cut, outcome, i, kept, gone, size)
    ensures if i < cut
            then Sifted(blocks, cut, outcome, i + 1, kept, gone + [(blocks[i], outcome)], size - |blocks[i].data|)
            else Sifted(blocks, cut, outcome, i + 1, kept + [blocks[i]], gone, size)
  {
    assert blocks[i..][1..] == blocks[i + 1..];
    if i < cut {
      assert gone + [(blocks[i], outcome)] == Reported(blocks[..i + 1], outcome);
    }
  }

  /** list::remove_if with the lambda of Confirm, Reject or Stop. */
  method RemoveIf(blocks: seq<SendingData>, bufferSize: int, w: Offset, offset: Offset, inclusive: bool,
                  outcome: Outcome, ghost next: nat)
    returns (kept: seq<SendingData>, gone: seq<(SendingData, Outcome)>, size: int)
    requires BufferOk(BufferState(blocks, bufferSize, []), w, next) && offset < next <= offset + w
    ensures BufferState(kept, size, gone) == Retire(BufferState(blocks, bufferSize, []), offset, inclusive, outcome)
  {
    ghost var cut := Cut(blocks, offset, inclusive);
    CutSplits(blocks, next, w, offset, inclusive);
    var i := 0;
    kept, gone, size := [], [], bufferSize;
    while i < |blocks|
      invariant Sifted(blocks, cut, outcome, i, kept, gone, size)
    {
      var range := blocks[i].GetOffsetRange(w);
      RetiresByRing(blocks, next, w, i, offset, inclusive);
      SiftStep(blocks, cut, outcome, i, kept, gone, size);
      if range.Before(offset) || (inclusive && range.InRange(offset)) {
        size := size - |blocks[i].data|;
        gone := gone + [(blocks[i], outcome)];
      } else {
        kept := kept + [blocks[i]];
      }
      i := i + 1;
    }
    assert blocks[cut..|blocks|] == blocks[cut..];
  }

  class SendDataBuffer {
    const windowSize: Offset
    var blocks: seq<SendingData>
    var bufferSize: int
    var finished: seq<(SendingData, Outcome)>

    ghost function State(): (b: BufferState)
      reads this
    {
      BufferState(blocks, bufferSize, finished)
    }

    ghost predicate Valid(next: nat)
      reads this
    {
      BufferOk(State(), windowSize, next)
    }

    constructor (windowSize: Offset)
      ensures this.windowSize == windowSize && State() == BufferState([], 0, [])
    {
      this.windowSize := windowSize;
      blocks, bufferSize, finished := [], 0, [];
    }

    method AddData(data: SendingData, ghost next: nat)
      requires Valid(next) && data.offset == next
      requires 0 < |data.data| <= windowSize && Small(next + |data.data|, windowSize)
      modifies this
      ensures Valid(next + |data.data|) && State() == Append(old(State()), data)
    {
      AppendContiguous(blocks, next, windowSize, data);
      bufferSize := bufferSize + |data.data|;
      blocks := blocks + [data];
    }

    /** The first block whose range holds the offset. */
    method FindBlock(offset: Offset, ghost next: nat) returns (it: nat)
      requires Valid(next) && offset <= next
      ensures if Start(blocks, next) <= offset < next
              then it < |blocks| && blocks[it].offset <= offset < blocks[it].End()
              else it == |blocks|
    {
      it := 0;
      while it < |blocks| && !blocks[it].GetOffsetRange(windowSize).InRange(offset)
        invariant it <= |blocks|
        invariant Start(blocks, next) <= offset ==> (if it < |blocks| then blocks[it].offset else next) <= offset
      {
        BlockBounds(blocks, next, windowSize, it);
        it := it + 1;
      }
      if it < |blocks| {
        BlockBounds(blocks, next, windowSize, it);
      }
    }

    method GetSlice(offset: Offset, maxSize: nat, ghost next: nat) returns (chunk: seq<Byte>)
      requires Valid(next) && offset <= next && 0 < maxSize
      ensures chunk == Slice(State(), next, offset, maxSize)
    {
      FlattenLength(blocks, next, windowSize);
      chunk := [];
      var remaining, current := maxSize, offset;
      var it := FindBlock(offset, next);
      if it == |blocks| {
        return;
      }
      ghost var all, start := Flatten(blocks), Start(blocks, next);
      while it < |blocks|
        invariant it <= |blocks| && remaining == maxSize - |chunk| > 0
        invariant current == offset + |chunk| && Holds(all, start, offset, chunk)
        invariant if it < |blocks| then blocks[it].offset <= current < blocks[it].End() else current == next
      {
        BlockBounds(blocks, next, windowSize, it);
        BlockPlace(blocks, next, windowSize, it);
        var d := Distance(blocks[it].offset, current);
        var size := Min(|blocks[it].data| - d, remaining);
        HoldsMore(all, start, offset, chunk, blocks[it], d, size);
        chunk := chunk + blocks[it].data[d..d + size];
        remaining := remaining - size;
        current := Plus(current, Cast16(size));
        it := it + 1;
        if remaining == 0 {
          break;
        }
      }
      SliceHeld(State(), next, offset, maxSize, chunk);
    }

    method Confirm(offset: Offset, ghost next: nat)
      requires Valid(next) && offset < next <= offset + windowSize
      modifies this
      ensures Valid(next) && State() == Retire(old(State()), offset, false, Done)
    {
      CutSplits(blocks, next, windowSize, offset, false);
      var kept, gone, size := RemoveIf(blocks, bufferSize, windowSize, offset, false, Done, next);
      blocks, bufferSize, finished := kept, size, finished + gone;
    }

    method Reject(offset: Offset, ghost next: nat)
      requires Valid(next) && offset < next <= offset + windowSize
      modifies this
      ensures Valid(next) && State() == Retire(old(State()), offset, true, Failed)
    {
      CutSplits(blocks, next, windowSize, offset, true);
      var kept, gone, size := RemoveIf(blocks, bufferSize, windowSize, offset, true, Failed, next);
      blocks, bufferSize, finished := kept, size, finished + gone;
    }

    method Stop(offset: Offset, ghost next: nat)
      requires Valid(next) && offset < next <= offset + windowSize
      modifies this
      ensures Valid(next) && State() == Retire(old(State()), offset, true, Stopped)
    {
      CutSplits(blocks, next, windowSize, offset, true);
      var kept, gone, size := RemoveIf(blocks, bufferSize, windowSize, offset, true, Stopped, next);
      blocks, bufferSize, finished := kept, size, finished + gone;
    }
  }
}
