/**
  Offsets, offset ranges, records and messages shared by the two ends of a SafeStream.
 */
module SafeStreamTypes {
  import opened Bytes
  import R = RingIndex

  const MAX: nat := 65535

  /** A value held by RingIndex<uint16_t>. */
  type Offset = x: nat | x <= MAX

  /** The cast to uint16_t. */
  function Cast16(n: int): (r: Offset) {
    if 0 <= n <= MAX then n else n % 65536
  }

  /** operator+, operator- and Distance of RingIndex<uint16_t>; a step by MAX is no step. */
  function Plus(o: Offset, d: Offset): (r: Offset)
  {
    if d == MAX then o else if o + d <= MAX then o + d else o + d - MAX - 1
  }

  function Minus(o: Offset, d: Offset): (r: Offset)
  {
    if d == MAX then o else if d <= o then o - d else MAX - (d - o)
  }

  function Distance(a: Offset, b: Offset): (r: Offset)
  {
    if a <= b then b - a else MAX - a + b
  }

  lemma OperatorsOfRingIndex(a: Offset, b: Offset)
    ensures Plus(a, b) == if b > 0 then R.Clockwise(MAX, a, b) else a
    ensures Minus(a, b) == if b > 0 then R.CounterClockwise(MAX, a, b) else a
    ensures Distance(a, b) == R.Distance(MAX, a, b)
  {
  }

  /** A closed range of offsets, compared with the help of a window size. */
  datatype OffsetRange = OffsetRange(begin: Offset, end: Offset, windowSize: Offset) {
    predicate InRange(o: Offset) {
      Distance(begin, o) <= windowSize && Distance(o, end) <= windowSize
    }

    predicate Before(o: Offset) {
      Distance(o, end) > windowSize
    }

    predicate After(o: Offset) {
      Distance(begin, o) > windowSize
    }
  }

  /** Two positions no further apart than w. */
  predicate Near(a: int, b: int, w: int) {
    a - w <= b <= a + w
  }

  /**
    With 2 * window below MAX and no wrap, comparisons of near offsets are comparisons of integers,
    and an offset is in exactly one of the three relations to a range.
   */
  lemma RangeOrderIsIntegerOrder(r: OffsetRange, o: Offset)
    requires 2 * r.windowSize < MAX
    requires r.begin <= r.end <= r.begin + r.windowSize
    requires Near(r.begin, o, r.windowSize) && Near(r.end, o, r.windowSize)
    ensures r.InRange(o) <==> r.begin <= o <= r.end
    ensures r.Before(o) <==> r.end < o
    ensures r.After(o) <==> o < r.begin
    ensures r.InRange(o) || r.Before(o) || r.After(o)
    ensures !(r.InRange(o) && r.Before(o)) && !(r.InRange(o) && r.After(o)) && !(r.Before(o) && r.After(o))
  {
  }

  datatype Config = Config(bufferCapacity: Offset, windowSize: Offset,
                           waitConfirmTimeout: int, sendConfirmTimeout: int, sendRepeatTimeout: int,
                           maxRepeatCount: Offset)

  /** The messages the two ends exchange. */
  datatype Message =
    | Send(offset: nat, data: seq<Byte>)
    | Repeat(repeatCount: nat, offset: nat, data: seq<Byte>)
    | Confirm(offset: nat)
    | RequestRepeat(offset: nat)

  /** The part of the configuration that makes ring comparisons exact. */
  predicate WindowOk(w: nat) {
    0 < w && 2 * w < MAX
  }

  /** Positions that may be compared with a window w without meeting the end of the ring. */
  predicate Small(p: int, w: nat) {
    0 <= p < MAX - w
  }
}
