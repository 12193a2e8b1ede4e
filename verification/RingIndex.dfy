/**
  RingIndex: an index on a ring, with clockwise and counter-clockwise steps and the clockwise
  distance between two indices.  The steps do not agree on the size of the ring: Clockwise
  counts max + 1 places, CounterClockwise and Distance count max.
 */
module RingIndex {
  import opened Arithmetic

  function Clockwise(max: nat, value: nat, steps: nat): (r: nat)
    requires 0 < max && value <= max
    ensures r <= max
  {
    var d := steps % max;
    if max - d < value then d - (max - value) - 1 else value + d
  }

  function CounterClockwise(max: nat, value: nat, steps: nat): (r: nat)
    requires 0 < max && value <= max
    ensures r <= max
  {
    var d := steps % max;
    if value < d then max - (d - value) else value - d
  }

  function Distance(max: nat, value: nat, other: nat): (r: nat)
    requires value <= max && other <= max
    ensures r <= max
  {
    var a, b := max - value, max - other;
    if a >= b then a - b else a + other
  }

  /** Clockwise is addition on a ring of max + 1 places. */
  lemma ClockwiseAdds(max: nat, v: nat, d: nat)
    requires v <= max && d < max
    ensures Clockwise(max, v, d) == (v + d) % (max + 1)
  {
    SmallModulus(d, max);
    if v + d <= max {
      SmallModulus(v + d, max + 1);
    } else {
      OneTurn(v + d - (max + 1), max + 1);
    }
  }

  /** Distance to the place reached is one short exactly when the walk passed the end of the ring. */
  lemma DistanceAfterClockwise(max: nat, v: nat, d: nat)
    requires v <= max && d < max
    ensures Distance(max, v, Clockwise(max, v, d)) == if v + d <= max then d else d - 1
  {
    SmallModulus(d, max);
  }

  /** Walking back returns to the start exactly when the walk did not pass the end of the ring. */
  lemma CounterClockwiseUndoes(max: nat, v: nat, d: nat)
    requires v <= max && d < max
    ensures CounterClockwise(max, Clockwise(max, v, d), d) == v <==> v + d <= max
  {
    SmallModulus(d, max);
  }
}
