/**
  Packed: integers stored in one, two, four or eight bytes.  Level k stores the type of 2^k bytes;
  the values of a level that its own codes do not need announce a value of the next level.
 */
module PackedInt {
  import opened Bytes
  import opened Arithmetic
  import opened Sequences

  type Level = k: nat | k <= 3

  /** How many values the type of a level has, and in how many bytes they are written. */
  function Base(k: Level): (r: nat) {
    if k == 0 then 0x100 else if k == 1 then 0x1_0000 else if k == 2 then 0x1_0000_0000 else 0x1_0000_0000_0000_0000
  }

  function Width(k: Level): (r: nat) {
    if k == 0 then 1 else if k == 1 then 2 else if k == 2 then 4 else 8
  }

  /** 2 to half the digits of the type. */
  function P(k: Level): (r: nat) {
    if k == 0 then 0x10 else if k == 1 then 0x100 else if k == 2 then 0x1_0000 else 0x1_0000_0000
  }

  // The limits of a level, for a first range that holds [0, m] in one byte

  type FirstMax = m: nat | m <= 254

  function BorrowCount(k: Level, m: FirstMax): (r: nat) {
    if k == 0 then 255 - m else P(k - 1)
  }

  function MaxStored(k: Level, m: FirstMax): (r: int) {
    if k == 0 then 256
    else MaxStored(k - 1, m) - BorrowCount(k - 1, m) + BorrowCount(k - 1, m) * Base(k - 1)
  }

  function Upper(k: Level, m: FirstMax): (r: int) {
    if k == 0 then 255 - BorrowCount(0, m) + 1 else MaxStored(k, m) - P(k - 1)
  }

  lemma LimitValues(m: FirstMax)
    ensures Upper(0, m) == m + 1 && MaxStored(0, m) == 256
    ensures MaxStored(1, m) == 256 + (255 - m) * 255 && Upper(1, m) == MaxStored(1, m) - 0x10
    ensures MaxStored(2, m) == MaxStored(1, m) + 0x10 * 0xffff && Upper(2, m) == MaxStored(2, m) - 0x100
    ensures MaxStored(3, m) == MaxStored(2, m) + 0x100 * 0xffff_ffff && Upper(3, m) == MaxStored(3, m) - 0x1_0000
  {
  }

  /**
    How the limits fit together: the codes of a level that it does not use itself are those borrowed,
    and every code fits its type.
   */
  lemma LimitsFit(k: Level, m: FirstMax)
    ensures 0 < Upper(k, m) && Upper(k, m) + BorrowCount(k, m) == MaxStored(k, m) <= Base(k)
    ensures 0 < BorrowCount(k, m) && Base(k) == Pow256(Width(k))
    ensures k > 0 ==> Upper(k - 1, m) <= Upper(k, m)
  {
    LimitValues(m);
    assert Pow256(2) == 0x1_0000;
    assert Pow256(4) == 0x1_0000_0000 by { assert Pow256(4) == 0x1_0000 * Pow256(2); }
    assert Pow256(8) == 0x1_0000_0000_0000_0000 by {
      assert Pow256(6) == 0x1_0000 * Pow256(4);
      assert Pow256(8) == 0x1_0000 * Pow256(6);
    }
  }

  /** Each borrowed code is good for a whole type of values. */
  lemma BorrowedCodes(k: Level, m: FirstMax)
    requires k > 0
    ensures MaxStored(k, m) == Upper(k - 1, m) + BorrowCount(k - 1, m) * Base(k - 1)
  {
    LimitsFit(k - 1, m);
  }

  // Serialize and Deserialize

  /** The high half of a value above the limit of the level below, shifted past that limit; and the low half. */
  function HighPart(k: Level, m: FirstMax, v: nat): (r: nat)
    requires k > 0 && v >= Upper(k - 1, m)
    ensures r < Base(k - 1)
  {
    LimitsFit(k - 1, m);
    ((v - Upper(k - 1, m)) / Base(k - 1) + Upper(k - 1, m)) % Base(k - 1)
  }

  function LowPart(k: Level, m: FirstMax, v: nat): (r: nat)
    requires k > 0 && v >= Upper(k - 1, m)
  {
    (v - Upper(k - 1, m)) % Base(k - 1)
  }

  function Encode(k: Level, m: FirstMax, v: nat): (r: seq<Byte>)
    requires v < Base(k)
    decreases k
  {
    if k == 0 then [v]
    else
      LimitsFit(k - 1, m);
      if v >= Upper(k - 1, m)
      then Encode(k - 1, m, HighPart(k, m, v)) + ToBytes(LowPart(k, m, v), Width(k - 1))
      else Encode(k - 1, m, v)
  }

  /** No carries what is left in the stream when the bytes do not suffice. */
  datatype Decoded = No(rest: seq<Byte>) | Finished(value: nat, rest: seq<Byte>) | Next(value: nat, rest: seq<Byte>)

  function Decode(k: Level, m: FirstMax, s: seq<Byte>): (r: Decoded)
    decreases k
  {
    if k == 0 then
      if s == [] then No(s)
      else if s[0] >= Upper(0, m) then LimitsFit(0, m); Next(s[0] - Upper(0, m), s[1..])
      else Finished(s[0], s[1..])
    else
      match Decode(k - 1, m, s)
      case No(rest) => No(rest)
      case Finished(v, rest) => Finished(v, rest)
      case Next(high, rest) =>
        if |rest| < Width(k - 1) then No(rest)
        else
          LimitsFit(k - 1, m);
          LimitsFit(k, m);
          var v := high * Base(k - 1) + FromBytes(rest[..Width(k - 1)]) + Upper(k - 1, m);
          if v >= Upper(k, m) then Next(v - Upper(k, m), rest[Width(k - 1)..])
          else Finished(v, rest[Width(k - 1)..])
  }

  /** What a level does with what the level below has read. */
  lemma NextLevel(k: Level, m: FirstMax, s: seq<Byte>)
    requires k > 0 && Upper(k - 1, m) >= 0
    ensures var d := Decode(k - 1, m, s);
            Decode(k, m, s) ==
            if !d.Next? then d
            else if |d.rest| < Width(k - 1) then No(d.rest)
            else
              var v := d.value * Base(k - 1) + FromBytes(d.rest[..Width(k - 1)]) + Upper(k - 1, m);
              if v >= Upper(k, m) then LimitsFit(k, m); Next(v - Upper(k, m), d.rest[Width(k - 1)..])
              else Finished(v, d.rest[Width(k - 1)..])
  {
  }

  lemma {:induction false} DecodeShrinks(k: Level, m: FirstMax, s: seq<Byte>)
    ensures |Decode(k, m, s).rest| <= |s|
    decreases k
  {
    if k == 0 {
    } else {
      DecodeShrinks(k - 1, m, s);
    }
  }

  /** How a value is cut for the level below, and that the cut loses nothing. */
  lemma Cut(k: Level, m: FirstMax, v: nat)
    requires k > 0 && Upper(k - 1, m) <= v < MaxStored(k, m)
    ensures var b, u := Base(k - 1), Upper(k - 1, m);
            var high, low := (v - u) / b, (v - u) % b;
            && v < Base(k) && high < BorrowCount(k - 1, m) && low < b && v == high * b + low + u
            && high + u < MaxStored(k - 1, m) && (high + u) % b == high + u
  {
    hide Base, Upper, MaxStored, BorrowCount, Width, Pow256;
    LimitsFit(k, m);
    LimitsFit(k - 1, m);
    BorrowedCodes(k, m);
    DivMod(v - Upper(k - 1, m), Base(k - 1), BorrowCount(k - 1, m));
    SmallModulus((v - Upper(k - 1, m)) / Base(k - 1) + Upper(k - 1, m), Base(k - 1));
  }

  function Reading(k: Level, m: FirstMax, v: int, rest: seq<Byte>): (r: Decoded)
    requires v >= 0
  {
    if v >= Upper(k, m) then LimitsFit(k, m); Next(v - Upper(k, m), rest) else Finished(v, rest)
  }

  lemma DecodeLow(k: Level, m: FirstMax, s: seq<Byte>, high: nat, low: seq<Byte>, rest: seq<Byte>)
    requires k > 0 && Decode(k - 1, m, s) == Next(high, low + rest) && |low| == Width(k - 1)
    ensures 0 <= high * Base(k - 1) + FromBytes(low) + Upper(k - 1, m)
    ensures Decode(k, m, s) == Reading(k, m, high * Base(k - 1) + FromBytes(low) + Upper(k - 1, m), rest)
  {
    LimitsFit(k - 1, m);
    NextLevel(k, m, s);
    hide Decode, Base, Upper, FromBytes, Width, Pow256;
    Parted(low, rest);
  }

  /** Every value a level can store is read back, as finished or as announcing the next level. */
  lemma {:induction false} RoundTrip(k: Level, m: FirstMax, v: nat, rest: seq<Byte>)
    requires v < MaxStored(k, m)
    ensures v < Base(k) && Decode(k, m, Encode(k, m, v) + rest) == Reading(k, m, v, rest)
    decreases k
  {
    LimitsFit(k, m);
    if k == 0 {
    } else {
      LimitsFit(k - 1, m);
      var b, u := Base(k - 1), Upper(k - 1, m);
      if v >= u {
        Cut(k, m, v);
        RoundTripStep(k, m, v, (v - u) / b, (v - u) % b, rest);
      } else {
        RoundTrip(k - 1, m, v, rest);
      }
    }
  }

  lemma EncodeCut(k: Level, m: FirstMax, v: nat, high: nat, low: nat)
    requires k > 0 && Upper(k - 1, m) <= v < Base(k)
    requires high == (v - Upper(k - 1, m)) / Base(k - 1) && low == (v - Upper(k - 1, m)) % Base(k - 1)
    requires 0 <= high + Upper(k - 1, m) == (high + Upper(k - 1, m)) % Base(k - 1)
    ensures high + Upper(k - 1, m) < Base(k - 1)
    ensures Encode(k, m, v) == Encode(k - 1, m, high + Upper(k - 1, m)) + ToBytes(low, Width(k - 1))
  {
  }

  lemma {:induction false} RoundTripStep(k: Level, m: FirstMax, v: nat, high: nat, low: nat, rest: seq<Byte>)
    requires k > 0 && Upper(k - 1, m) <= v < MaxStored(k, m) && v < Base(k)
    requires high == (v - Upper(k - 1, m)) / Base(k - 1) && low == (v - Upper(k - 1, m)) % Base(k - 1)
    requires v == high * Base(k - 1) + low + Upper(k - 1, m) && low < Base(k - 1)
    requires (high + Upper(k - 1, m)) % Base(k - 1) == high + Upper(k - 1, m) < MaxStored(k - 1, m)
    ensures Decode(k, m, Encode(k, m, v) + rest) == Reading(k, m, v, rest)
    decreases k, 0
  {
    hide Base, Width, Upper, MaxStored, BorrowCount, Encode, Decode, ToBytes, FromBytes, Pow256;
    LimitsFit(k - 1, m);
    var u, lows := Upper(k - 1, m), ToBytes(low, Width(k - 1));
    EncodeCut(k, m, v, high, low);
    FromToBytes(low, Width(k - 1));
    RoundTrip(k - 1, m, high + u, lows + rest);
    var s := Encode(k, m, v) + rest;
    assert s == Encode(k - 1, m, high + u) + (lows + rest);
    DecodeLow(k, m, s, high, lows, rest);
  }

  /** The value a reading stands for on its level. */
  function Code(k: Level, m: FirstMax, r: Decoded): (v: int)
    requires !r.No?
  {
    if r.Finished? then r.value else r.value + Upper(k, m)
  }

  /** The bytes read are the encoding of the code read. */
  ghost predicate IsCanonical(k: Level, m: FirstMax, s: seq<Byte>)
    requires !Decode(k, m, s).No?
  {
    var r := Decode(k, m, s);
    var v := Code(k, m, r);
    0 <= v < MaxStored(k, m) && v < Base(k) && r == Reading(k, m, v, r.rest) && s == Encode(k, m, v) + r.rest
  }

  /** Whatever is read without running out of bytes was written that way. */
  lemma {:induction false} Canonical(k: Level, m: FirstMax, s: seq<Byte>)
    requires !Decode(k, m, s).No?
    ensures IsCanonical(k, m, s)
    decreases k
  {
    hide IsCanonical, Decode;
    LevelsRead(k, m, s);
    if k == 0 {
      FirstIsCanonical(m, s);
    } else {
      Canonical(k - 1, m, s);
      if Decode(k - 1, m, s).Next? {
        NextIsCanonical(k, m, s);
      } else {
        SameIsCanonical(k, m, s);
      }
    }
  }

  lemma FirstIsCanonical(m: FirstMax, s: seq<Byte>)
    requires !Decode(0, m, s).No? && s != []
    ensures IsCanonical(0, m, s)
  {
    hide Base, Upper, MaxStored, BorrowCount, Decode, Encode;
    LimitsFit(0, m);
    FirstLevel(m, s);
  }

  lemma NextIsCanonical(k: Level, m: FirstMax, s: seq<Byte>)
    requires k > 0 && !Decode(k, m, s).No? && Decode(k - 1, m, s).Next? && IsCanonical(k - 1, m, s)
    ensures IsCanonical(k, m, s)
  {
    hide Base, Upper, MaxStored, BorrowCount, Width, Pow256, Decode, Encode;
    LevelsRead(k, m, s);
    LimitsFit(k, m);
    LimitsFit(k - 1, m);
    var r := Decode(k - 1, m, s);
    var v := CanonicalStep(k, m, s, r.value, r.rest);
  }

  lemma SameIsCanonical(k: Level, m: FirstMax, s: seq<Byte>)
    requires k > 0 && !Decode(k, m, s).No? && !Decode(k - 1, m, s).No? && !Decode(k - 1, m, s).Next? && IsCanonical(k - 1, m, s)
    ensures IsCanonical(k, m, s)
  {
    hide Base, Upper, MaxStored, BorrowCount, Width, Pow256, Decode, Encode;
    LevelsRead(k, m, s);
    LimitsFit(k, m);
    LimitsFit(k - 1, m);
    LowerCode(k, m, Decode(k - 1, m, s).value);
  }

  /** What must have been read on the level below. */
  lemma LevelsRead(k: Level, m: FirstMax, s: seq<Byte>)
    requires !Decode(k, m, s).No?
    ensures k == 0 ==> s != []
    ensures k > 0 ==> var r := Decode(k - 1, m, s);
                      !r.No? && (if r.Next? then |r.rest| >= Width(k - 1) else Decode(k, m, s) == r)
  {
  }

  lemma FirstLevel(m: FirstMax, s: seq<Byte>)
    requires s != []
    ensures Decode(0, m, s) == Reading(0, m, s[0], s[1..]) && s[0] < MaxStored(0, m) && s[0] < Base(0)
    ensures Encode(0, m, s[0]) + s[1..] == s
  {
  }

  lemma LowerCode(k: Level, m: FirstMax, v: nat)
    requires k > 0 && v < Upper(k - 1, m)
    ensures v < Upper(k, m) && v < Base(k) && v < Base(k - 1) && Encode(k, m, v) == Encode(k - 1, m, v)
  {
    LimitsFit(k, m);
    LimitsFit(k - 1, m);
  }

  lemma JoinFits(k: Level, m: FirstMax, high: nat, low: nat)
    requires k > 0 && high < BorrowCount(k - 1, m) && low < Base(k - 1)
    ensures var v := high * Base(k - 1) + low + Upper(k - 1, m);
            && Upper(k - 1, m) <= v < MaxStored(k, m)
            && (v - Upper(k - 1, m)) / Base(k - 1) == high && (v - Upper(k - 1, m)) % Base(k - 1) == low
  {
    hide Base, Upper, MaxStored, BorrowCount, Width, Pow256;
    BorrowedCodes(k, m);
    JoinInRange(high, low, Base(k - 1), BorrowCount(k - 1, m), Upper(k - 1, m));
  }

  lemma JoinInRange(h: nat, l: nat, b: nat, q: nat, u: int)
    requires l < b && h < q
    ensures var v := h * b + l + u;
            u <= v < u + q * b && (v - u) / b == h && (v - u) % b == l
  {
    DivModBack(h, l, b);
    assert (h + 1) * b <= q * b;
    assert h * b + l + u - u == h * b + l;
  }

  lemma CanonicalStep(k: Level, m: FirstMax, s: seq<Byte>, high: nat, rest: seq<Byte>) returns (v: nat)
    requires k > 0 && Decode(k - 1, m, s) == Next(high, rest) && |rest| >= Width(k - 1)
    requires high + Upper(k - 1, m) < MaxStored(k - 1, m) && high + Upper(k - 1, m) < Base(k - 1)
    requires s == Encode(k - 1, m, high + Upper(k - 1, m)) + rest
    ensures v < MaxStored(k, m) && v < Base(k) && Decode(k, m, s) == Reading(k, m, v, rest[Width(k - 1)..])
    ensures s == Encode(k, m, v) + rest[Width(k - 1)..]
  {
    hide Base, Width, Upper, MaxStored, BorrowCount, Encode, Decode, FromBytes, Pow256;
    LimitsFit(k, m);
    LimitsFit(k - 1, m);
    var lows, rest' := rest[..Width(k - 1)], rest[Width(k - 1)..];
    assert rest == lows + rest';
    DecodeLow(k, m, s, high, lows, rest');
    v := high * Base(k - 1) + FromBytes(lows) + Upper(k - 1, m);
    JoinFits(k, m, high, FromBytes(lows));
    SmallModulus(high + Upper(k - 1, m), Base(k - 1));
    EncodeCut(k, m, v, high, FromBytes(lows));
    ToFromBytes(lows);
  }

  /** Reading back gives the value exactly for the values below the upper limit. */
  lemma RoundTripIff(k: Level, m: FirstMax, v: nat, rest: seq<Byte>)
    requires v < Base(k)
    ensures Decode(k, m, Encode(k, m, v) + rest) == Finished(v, rest) <==> v < Upper(k, m)
  {
    LimitsFit(k, m);
    var s := Encode(k, m, v) + rest;
    if v < Upper(k, m) {
      RoundTrip(k, m, v, rest);
    } else if Decode(k, m, s).Finished? {
      Canonical(k, m, s);
    }
  }

  /** No code is the beginning of another. */
  lemma PrefixFree(k: Level, m: FirstMax, v: nat, v': nat)
    requires v < Upper(k, m) && v' < Upper(k, m)
    ensures v < Base(k) && v' < Base(k)
    ensures Encode(k, m, v) <= Encode(k, m, v') ==> v == v'
  {
    hide Base, Upper, MaxStored, BorrowCount, Width, Pow256, Encode, Decode;
    LimitsFit(k, m);
    if Encode(k, m, v) <= Encode(k, m, v') {
      var tail := Encode(k, m, v')[|Encode(k, m, v)|..];
      assert Encode(k, m, v) + tail == Encode(k, m, v') + [];
      RoundTrip(k, m, v, tail);
      RoundTrip(k, m, v', []);
    }
  }

  /** A code cut short is reported as not read. */
  lemma StrictPrefixIsNotRead(k: Level, m: FirstMax, v: nat, n: nat)
    requires v < Upper(k, m)
    ensures v < Base(k)
    ensures n < |Encode(k, m, v)| ==> Decode(k, m, Encode(k, m, v)[..n]).No?
  {
    hide Base, Upper, MaxStored, BorrowCount, Width, Pow256, Encode, Decode;
    LimitsFit(k, m);
    var all := Encode(k, m, v);
    if n < |all| && !Decode(k, m, all[..n]).No? {
      Canonical(k, m, all[..n]);
      var r := Decode(k, m, all[..n]);
      var v' := Code(k, m, r);
      assert Encode(k, m, v') + (r.rest + all[n..]) == all + [];
      RoundTrip(k, m, v', r.rest + all[n..]);
      RoundTrip(k, m, v, []);
    }
  }

  /** The level that writes v: the lowest whose limit is above it. */
  function LevelOf(k: Level, m: FirstMax, v: nat): (j: Level)
    ensures j <= k
    decreases k
  {
    if k == 0 || v >= Upper(k - 1, m) then k else LevelOf(k - 1, m, v)
  }

  lemma {:induction false} EncodedLength(k: Level, m: FirstMax, v: nat)
    requires v < MaxStored(k, m)
    ensures v < Base(k) && |Encode(k, m, v)| == Width(LevelOf(k, m, v))
    decreases k
  {
    LimitsFit(k, m);
    if k == 0 {
    } else {
      hide Encode, Base, Upper, MaxStored, BorrowCount, Width, Pow256;
      LimitsFit(k - 1, m);
      if v >= Upper(k - 1, m) {
        var code := LongerByWidth(k, m, v);
        EncodedLength(k - 1, m, code);
        LowerLevel(k, m, code);
      } else {
        FromLevelBelow(k, m, v);
        EncodedLength(k - 1, m, v);
      }
    }
  }

  /** A code of one level is one of the level below with as many bytes again. */
  lemma LongerByWidth(k: Level, m: FirstMax, v: nat) returns (code: nat)
    requires k > 0 && Upper(k - 1, m) <= v < MaxStored(k, m)
    ensures v < Base(k) && Upper(k - 1, m) <= code < MaxStored(k - 1, m) && code < Base(k - 1)
    ensures |Encode(k, m, v)| == |Encode(k - 1, m, code)| + Width(k - 1)
  {
    hide Encode, Base, Upper, MaxStored, BorrowCount, Width, Pow256;
    LimitsFit(k - 1, m);
    Cut(k, m, v);
    var high, low := (v - Upper(k - 1, m)) / Base(k - 1), (v - Upper(k - 1, m)) % Base(k - 1);
    EncodeCut(k, m, v, high, low);
    code := high + Upper(k - 1, m);
  }

  lemma LowerLevel(k: Level, m: FirstMax, v: nat)
    requires k > 0 && v >= Upper(k - 1, m)
    ensures LevelOf(k - 1, m, v) == k - 1 && 2 * Width(k - 1) == Width(k)
  {
    LimitsFit(k - 1, m);
  }

  lemma {:induction false} LevelsGrow(k: Level, m: FirstMax, v: nat, v': nat)
    requires v <= v'
    ensures LevelOf(k, m, v) <= LevelOf(k, m, v')
    decreases k
  {
    if k == 0 {
    } else {
      LevelsGrow(k - 1, m, v, v');
    }
  }

  /** Greater values never take fewer bytes. */
  lemma LengthGrows(k: Level, m: FirstMax, v: nat, v': nat)
    requires v <= v' < MaxStored(k, m)
    ensures v' < Base(k) && |Encode(k, m, v)| <= |Encode(k, m, v')|
  {
    LimitsFit(k, m);
    EncodedLength(k, m, v);
    EncodedLength(k, m, v');
    LevelsGrow(k, m, v, v');
  }

  /** The ranges the class is documented with: in 1, 2 and 4 bytes, the rest in 8. */
  lemma DocumentedRanges(v: nat)
    requires v < Upper(3, 250)
    ensures v < Base(3)
    ensures |Encode(3, 250, v)| == if v <= 250 then 1 else if v <= 1514 then 2 else if v <= 1049834 then 4 else 8
  {
    DocumentedLimits();
    LimitsFit(3, 250);
    EncodedLength(3, 250, v);
  }

  /** A small value is its own code; behind it, the first byte counts from 251 up how many times 256 fit. */
  lemma ShortCodes(v: nat)
    requires v <= 1514
    ensures Encode(3, 250, v) == if v <= 250 then [v] else [251 + (v - 251) / 256, (v - 251) % 256]
  {
    hide Encode, Upper, MaxStored, BorrowCount, Width, P;
    DocumentedLimits();
    FromLevelBelow(3, 250, v);
    FromLevelBelow(2, 250, v);
    if v <= 250 {
      FromLevelBelow(1, 250, v);
      OneByteCode(250, v);
    } else {
      TwoByteCodes(v);
    }
  }

  lemma DocumentedLimits()
    ensures Upper(0, 250) == 251 && Upper(1, 250) == 1515 && Upper(2, 250) == 1049835
  {
    LimitValues(250);
  }

  lemma FromLevelBelow(k: Level, m: FirstMax, v: nat)
    requires k > 0 && v < Upper(k - 1, m)
    ensures v < Base(k - 1) < Base(k) && Encode(k, m, v) == Encode(k - 1, m, v)
  {
    LimitsFit(k - 1, m);
  }

  lemma TwoByteCodes(v: nat)
    requires 250 < v <= 1514
    ensures Encode(1, 250, v) == [251 + (v - 251) / 256, (v - 251) % 256]
  {
    DocumentedLimits();
    LimitsFit(1, 250);
    hide Encode, Upper, MaxStored, BorrowCount, ToBytes;
    Cut(1, 250, v);
    var high, low := (v - 251) / 256, (v - 251) % 256;
    EncodeCut(1, 250, v, high, low);
    OneByte(low);
    OneByteCode(250, high + 251);
  }

  lemma OneByteCode(m: FirstMax, v: nat)
    requires v < Base(0)
    ensures Encode(0, m, v) == [v]
  {
  }

  lemma OneByte(b: Byte)
    ensures ToBytes(b, 1) == [b]
  {
  }
}
