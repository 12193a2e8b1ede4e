/**
  Maps in binary streams whose keys are not all different.
 */
module StreamMaps {
  import opened Bytes
  import opened Sequences
  import opened MStream
  import opened StreamCuts

  /** The i-th entry is the first one with its key, and the key was not read before. */
  ghost predicate NewEntry(read: seq<Value>, vs: seq<Value>, i: int) {
    && 0 <= i < |vs| && vs[i].Both? && !HasKey(read, vs[i].first)
    && forall j :: 0 <= j < i && vs[j].Both? ==> vs[j].first != vs[i].first
  }

  /** The entries are among those read before and those written, have different keys, and include each first one. */
  ghost predicate FirstWins(read: seq<Value>, vs: seq<Value>, entries: seq<Value>) {
    && DistinctKeys(entries) && (forall x :: x in read ==> x in entries)
    && (forall x :: x in entries ==> x in read || x in vs)
    && forall i :: NewEntry(read, vs, i) ==> vs[i] in entries
  }

  lemma NothingWritten(read: seq<Value>)
    requires DistinctKeys(read)
    ensures FirstWins(read, [], read)
  {
  }

  lemma EmplacedDistinct(read: seq<Value>, x: Value, y: Value)
    requires DistinctKeys(read)
    ensures DistinctKeys(Emplaced(read, x, y))
  {
  }

  lemma FirstWinsOn(read: seq<Value>, vs: seq<Value>, entries: seq<Value>)
    requires vs != [] && vs[0].Both? && FirstWins(Emplaced(read, vs[0].first, vs[0].second), vs[1..], entries)
    ensures FirstWins(read, vs, entries)
  {
    var more := Emplaced(read, vs[0].first, vs[0].second);
    assert vs[0] == Both(vs[0].first, vs[0].second) && forall i :: 0 < i < |vs| ==> vs[i] == vs[1..][i - 1];
    forall i | NewEntry(read, vs, i)
      ensures vs[i] in entries
    {
      if i == 0 {
        assert vs[0] in more;
      } else {
        assert NewEntry(more, vs[1..], i - 1);
      }
    }
  }

  /** When a key is written more than once, its first value is read. */
  lemma {:induction false} FirstEntryWins(sz: SizeType, a: Type, b: Type, read: seq<Value>, vs: seq<Value>, rest: seq<Byte>)
    requires EntriesFit(sz, a, b, vs) && DistinctKeys(read)
    ensures var (entries, r) := DecodeEntries(sz, a, b, |vs|, Reader(Entries(sz, a, b, vs) + rest, true), read);
            r == Reader(rest, true) && FirstWins(read, vs, entries)
    decreases |vs|
  {
    hide Encode, Decode, Fits, FirstWins, Entries, DecodeEntries, Emplaced, DistinctKeys, EntriesFit;
    if vs == [] {
      assert Entries(sz, a, b, vs) + rest == rest;
      NoneOfEntries(sz, a, b, Reader(rest, true), read);
      NothingWritten(read);
    } else {
      EntryFits(sz, a, b, vs);
      EntriesParts(sz, a, b, vs);
      var x, y, others := vs[0].first, vs[0].second, Entries(sz, a, b, vs[1..]);
      var xs, ys := Encode(sz, a, x), Encode(sz, b, y);
      Regroup(xs, ys + others, rest);
      Regroup(ys, others, rest);
      RoundTrip(sz, a, x, ys + (others + rest), true);
      RoundTrip(sz, b, y, others + rest, true);
      NextOfEntries(sz, a, b, |vs|, Reader(xs + (ys + (others + rest)), true), read);
      EmplacedDistinct(read, x, y);
      FirstEntryWins(sz, a, b, Emplaced(read, x, y), vs[1..], rest);
      FirstWinsOn(read, vs, DecodeEntries(sz, a, b, |vs| - 1, Reader(others + rest, true), Emplaced(read, x, y)).0);
    }
  }
}
