/**
  CRC-32 (section 8 of RFC 1952): the register is updated a byte at a time with a table, and the table and
  the updates are what dividing by the reflected polynomial a bit at a time gives.
 */
module Crc32 {
  import opened Wrappers

  const INITIAL_VALUE: bv32 := 0xFFFF_FFFF
  const XOR_VALUE: bv32 := 0xFFFF_FFFF
  const POLYNOMIAL: bv32 := 0xEDB8_8320

  /** One of sixteen. */
  function Pick(i: bv8, a0: bv32, a1: bv32, a2: bv32, a3: bv32, a4: bv32, a5: bv32, a6: bv32, a7: bv32,
                a8: bv32, a9: bv32, a10: bv32, a11: bv32, a12: bv32, a13: bv32, a14: bv32, a15: bv32): (r: bv32)
  {
    if i < 8 then
      if i < 4 then if i < 2 then if i == 0 then a0 else a1 else if i == 2 then a2 else a3
      else if i < 6 then if i == 4 then a4 else a5 else if i == 6 then a6 else a7
    else if i < 12 then if i < 10 then if i == 8 then a8 else a9 else if i == 10 then a10 else a11
    else if i < 14 then if i == 12 then a12 else a13 else if i == 14 then a14 else a15
  }

  /** The table. */
  function Table(i: bv8): (r: bv32) {
    if i < 16 then Pick(i,
      0x00000000, 0x77073096, 0xee0e612c, 0x990951ba, 0x076dc419, 0x706af48f, 0xe963a535, 0x9e6495a3,
      0x0edb8832, 0x79dcb8a4, 0xe0d5e91e, 0x97d2d988, 0x09b64c2b, 0x7eb17cbd, 0xe7b82d07, 0x90bf1d91)
    else if i < 32 then Pick(i - 16,
      0x1db71064, 0x6ab020f2, 0xf3b97148, 0x84be41de, 0x1adad47d, 0x6ddde4eb, 0xf4d4b551, 0x83d385c7,
      0x136c9856, 0x646ba8c0, 0xfd62f97a, 0x8a65c9ec, 0x14015c4f, 0x63066cd9, 0xfa0f3d63, 0x8d080df5)
    else if i < 48 then Pick(i - 32,
      0x3b6e20c8, 0x4c69105e, 0xd56041e4, 0xa2677172, 0x3c03e4d1, 0x4b04d447, 0xd20d85fd, 0xa50ab56b,
      0x35b5a8fa, 0x42b2986c, 0xdbbbc9d6, 0xacbcf940, 0x32d86ce3, 0x45df5c75, 0xdcd60dcf, 0xabd13d59)
    else if i < 64 then Pick(i - 48,
      0x26d930ac, 0x51de003a, 0xc8d75180, 0xbfd06116, 0x21b4f4b5, 0x56b3c423, 0xcfba9599, 0xb8bda50f,
      0x2802b89e, 0x5f058808, 0xc60cd9b2, 0xb10be924, 0x2f6f7c87, 0x58684c11, 0xc1611dab, 0xb6662d3d)
    else if i < 80 then Pick(i - 64,
      0x76dc4190, 0x01db7106, 0x98d220bc, 0xefd5102a, 0x71b18589, 0x06b6b51f, 0x9fbfe4a5, 0xe8b8d433,
      0x7807c9a2, 0x0f00f934, 0x9609a88e, 0xe10e9818, 0x7f6a0dbb, 0x086d3d2d, 0x91646c97, 0xe6635c01)
    else if i < 96 then Pick(i - 80,
      0x6b6b51f4, 0x1c6c6162, 0x856530d8, 0xf262004e, 0x6c0695ed, 0x1b01a57b, 0x8208f4c1, 0xf50fc457,
      0x65b0d9c6, 0x12b7e950, 0x8bbeb8ea, 0xfcb9887c, 0x62dd1ddf, 0x15da2d49, 0x8cd37cf3, 0xfbd44c65)
    else if i < 112 then Pick(i - 96,
      0x4db26158, 0x3ab551ce, 0xa3bc0074, 0xd4bb30e2, 0x4adfa541, 0x3dd895d7, 0xa4d1c46d, 0xd3d6f4fb,
      0x4369e96a, 0x346ed9fc, 0xad678846, 0xda60b8d0, 0x44042d73, 0x33031de5, 0xaa0a4c5f, 0xdd0d7cc9)
    else if i < 128 then Pick(i - 112,
      0x5005713c, 0x270241aa, 0xbe0b1010, 0xc90c2086, 0x5768b525, 0x206f85b3, 0xb966d409, 0xce61e49f,
      0x5edef90e, 0x29d9c998, 0xb0d09822, 0xc7d7a8b4, 0x59b33d17, 0x2eb40d81, 0xb7bd5c3b, 0xc0ba6cad)
    else if i < 144 then Pick(i - 128,
      0xedb88320, 0x9abfb3b6, 0x03b6e20c, 0x74b1d29a, 0xead54739, 0x9dd277af, 0x04db2615, 0x73dc1683,
      0xe3630b12, 0x94643b84, 0x0d6d6a3e, 0x7a6a5aa8, 0xe40ecf0b, 0x9309ff9d, 0x0a00ae27, 0x7d079eb1)
    else if i < 160 then Pick(i - 144,
      0xf00f9344, 0x8708a3d2, 0x1e01f268, 0x6906c2fe, 0xf762575d, 0x806567cb, 0x196c3671, 0x6e6b06e7,
      0xfed41b76, 0x89d32be0, 0x10da7a5a, 0x67dd4acc, 0xf9b9df6f, 0x8ebeeff9, 0x17b7be43, 0x60b08ed5)
    else if i < 176 then Pick(i - 160,
      0xd6d6a3e8, 0xa1d1937e, 0x38d8c2c4, 0x4fdff252, 0xd1bb67f1, 0xa6bc5767, 0x3fb506dd, 0x48b2364b,
      0xd80d2bda, 0xaf0a1b4c, 0x36034af6, 0x41047a60, 0xdf60efc3, 0xa867df55, 0x316e8eef, 0x4669be79)
    else if i < 192 then Pick(i - 176,
      0xcb61b38c, 0xbc66831a, 0x256fd2a0, 0x5268e236, 0xcc0c7795, 0xbb0b4703, 0x220216b9, 0x5505262f,
      0xc5ba3bbe, 0xb2bd0b28, 0x2bb45a92, 0x5cb36a04, 0xc2d7ffa7, 0xb5d0cf31, 0x2cd99e8b, 0x5bdeae1d)
    else if i < 208 then Pick(i - 192,
      0x9b64c2b0, 0xec63f226, 0x756aa39c, 0x026d930a, 0x9c0906a9, 0xeb0e363f, 0x72076785, 0x05005713,
      0x95bf4a82, 0xe2b87a14, 0x7bb12bae, 0x0cb61b38, 0x92d28e9b, 0xe5d5be0d, 0x7cdcefb7, 0x0bdbdf21)
    else if i < 224 then Pick(i - 208,
      0x86d3d2d4, 0xf1d4e242, 0x68ddb3f8, 0x1fda836e, 0x81be16cd, 0xf6b9265b, 0x6fb077e1, 0x18b74777,
      0x88085ae6, 0xff0f6a70, 0x66063bca, 0x11010b5c, 0x8f659eff, 0xf862ae69, 0x616bffd3, 0x166ccf45)
    else if i < 240 then Pick(i - 224,
      0xa00ae278, 0xd70dd2ee, 0x4e048354, 0x3903b3c2, 0xa7672661, 0xd06016f7, 0x4969474d, 0x3e6e77db,
      0xaed16a4a, 0xd9d65adc, 0x40df0b66, 0x37d83bf0, 0xa9bcae53, 0xdebb9ec5, 0x47b2cf7f, 0x30b5ffe9)
    else Pick(i - 240,
      0xbdbdf21c, 0xcabac28a, 0x53b39330, 0x24b4a3a6, 0xbad03605, 0xcdd70693, 0x54de5729, 0x23d967bf,
      0xb3667a2e, 0xc4614ab8, 0x5d681b02, 0x2a6f2b94, 0xb40bbe37, 0xc30c8ea1, 0x5a05df1b, 0x2d02ef8d)
  }

  // A bit at a time

  /** Shifts the register by one bit, and subtracts the polynomial when the bit shifted out is set. */
  function BitStep(c: bv32): (r: bv32) {
    if c & 1 == 1 then (c >> 1) ^ POLYNOMIAL else c >> 1
  }

  function EightSteps(c: bv32): (r: bv32) {
    BitStep(BitStep(BitStep(BitStep(BitStep(BitStep(BitStep(BitStep(c))))))))
  }

  lemma ShiftXor(a: bv32, b: bv32)
    ensures (a ^ b) >> 1 == (a >> 1) ^ (b >> 1)
  {
  }

  lemma Regroup(a: bv32, b: bv32, p: bv32)
    ensures (a ^ p) ^ (b ^ p) == a ^ b && (a ^ p) ^ b == (a ^ b) ^ p && a ^ (b ^ p) == (a ^ b) ^ p
  {
  }

  lemma LowBit(a: bv32, b: bv32)
    ensures (a ^ b) & 1 == 1 <==> (a & 1 == 1) != (b & 1 == 1)
  {
  }

  /** A step is linear: it turns sums, which are exclusive ors here, into sums. */
  lemma StepLinear(a: bv32, b: bv32)
    ensures BitStep(a ^ b) == BitStep(a) ^ BitStep(b)
  {
    ShiftXor(a, b);
    LowBit(a, b);
    Regroup(a >> 1, b >> 1, POLYNOMIAL);
  }

  /** The sum of two registers. */
  function Xor(a: bv32, b: bv32): (r: bv32) {
    a ^ b
  }

  lemma XorAssociative(a: bv32, b: bv32, c: bv32)
    ensures Xor(Xor(a, b), c) == Xor(a, Xor(b, c))
  {
  }

  lemma StepXor(a: bv32, b: bv32)
    ensures BitStep(Xor(a, b)) == Xor(BitStep(a), BitStep(b))
  {
    hide BitStep;
    StepLinear(a, b);
  }

  lemma EightXor(a: bv32, b: bv32)
    ensures EightSteps(Xor(a, b)) == Xor(EightSteps(a), EightSteps(b))
  {
    hide BitStep, Xor;
    StepXor(a, b);
    var a1, b1 := BitStep(a), BitStep(b);
    StepXor(a1, b1);
    var a2, b2 := BitStep(a1), BitStep(b1);
    StepXor(a2, b2);
    var a3, b3 := BitStep(a2), BitStep(b2);
    StepXor(a3, b3);
    var a4, b4 := BitStep(a3), BitStep(b3);
    StepXor(a4, b4);
    var a5, b5 := BitStep(a4), BitStep(b4);
    StepXor(a5, b5);
    var a6, b6 := BitStep(a5), BitStep(b5);
    StepXor(a6, b6);
    var a7, b7 := BitStep(a6), BitStep(b6);
    StepXor(a7, b7);
  }

  // The table

  function Part(i: bv8, m: bv8, k: bv32): (r: bv32) {
    if i & m == m then k else 0
  }

  function Sum8(a: bv32, b: bv32, c: bv32, d: bv32, e: bv32, f: bv32, g: bv32, h: bv32): (r: bv32) {
    Xor(Xor(Xor(Xor(Xor(Xor(Xor(a, b), c), d), e), f), g), h)
  }

  /** The sum of the remainders of the bits of an index. */
  function Sum(i: bv8): (r: bv32) {
    Sum8(Part(i, 1, 0x77073096), Part(i, 2, 0xee0e612c), Part(i, 4, 0x076dc419), Part(i, 8, 0x0edb8832),
         Part(i, 16, 0x1db71064), Part(i, 32, 0x3b6e20c8), Part(i, 64, 0x76dc4190), Part(i, 128, 0xedb88320))
  }

  lemma LowTableIsSum(i: bv8)
    requires i & 0x80 == 0
    ensures Table(i) == Sum(i)
  {
  }

  lemma HighTableIsSum(i: bv8)
    requires i & 0x80 == 0x80
    ensures Table(i) == Sum(i)
  {
  }

  lemma OneOf(i: bv8)
    ensures i & 0x80 == 0 || i & 0x80 == 0x80
  {
  }

  lemma PartSteps(i: bv8, m: bv8, k: bv32)
    requires EightSteps(m as bv32) == k
    ensures EightSteps(Part(i, m, m as bv32)) == Part(i, m, k)
  {
    assert EightSteps(0) == 0;
  }

  lemma BitSteps()
    ensures EightSteps(1) == 0x77073096 && EightSteps(2) == 0xee0e612c && EightSteps(4) == 0x076dc419
    ensures EightSteps(8) == 0x0edb8832 && EightSteps(16) == 0x1db71064 && EightSteps(32) == 0x3b6e20c8
    ensures EightSteps(64) == 0x76dc4190 && EightSteps(128) == 0xedb88320
  {
  }

  lemma LowNibble(i: bv8)
    ensures (i & 0xF) as bv32 == Xor(Xor(Xor(Part(i, 1, 1), Part(i, 2, 2)), Part(i, 4, 4)), Part(i, 8, 8))
  {
  }

  lemma HighNibble(i: bv8)
    ensures (i & 0xF0) as bv32 == Xor(Xor(Xor(Part(i, 16, 16), Part(i, 32, 32)), Part(i, 64, 64)), Part(i, 128, 128))
  {
  }

  lemma Nibbles(i: bv8)
    ensures i as bv32 == Xor((i & 0xF) as bv32, (i & 0xF0) as bv32)
  {
  }

  lemma SumOfBits(i: bv8)
    ensures i as bv32 == Sum8(Part(i, 1, 1), Part(i, 2, 2), Part(i, 4, 4), Part(i, 8, 8),
                              Part(i, 16, 16), Part(i, 32, 32), Part(i, 64, 64), Part(i, 128, 128))
  {
    hide Xor, Part;
    Nibbles(i);
    LowNibble(i);
    HighNibble(i);
    var low := Xor(Xor(Xor(Part(i, 1, 1), Part(i, 2, 2)), Part(i, 4, 4)), Part(i, 8, 8));
    var e, f, g, h := Part(i, 16, 16), Part(i, 32, 32), Part(i, 64, 64), Part(i, 128, 128);
    XorAssociative(low, e, f);
    XorAssociative(low, Xor(e, f), g);
    XorAssociative(low, Xor(Xor(e, f), g), h);
  }

  lemma StepsAreSum(i: bv8)
    ensures EightSteps(i as bv32) == Sum(i)
  {
    hide EightSteps, Part, Sum8;
    BitSteps();
    PartSteps(i, 1, 0x77073096);
    PartSteps(i, 2, 0xee0e612c);
    PartSteps(i, 4, 0x076dc419);
    PartSteps(i, 8, 0x0edb8832);
    PartSteps(i, 16, 0x1db71064);
    PartSteps(i, 32, 0x3b6e20c8);
    PartSteps(i, 64, 0x76dc4190);
    PartSteps(i, 128, 0xedb88320);
    SumOfBits(i);
    EightSum(Part(i, 1, 1), Part(i, 2, 2), Part(i, 4, 4), Part(i, 8, 8),
             Part(i, 16, 16), Part(i, 32, 32), Part(i, 64, 64), Part(i, 128, 128));
  }

  lemma EightSum(a: bv32, b: bv32, c: bv32, d: bv32, e: bv32, f: bv32, g: bv32, h: bv32)
    ensures EightSteps(Sum8(a, b, c, d, e, f, g, h)) ==
            Sum8(EightSteps(a), EightSteps(b), EightSteps(c), EightSteps(d),
                 EightSteps(e), EightSteps(f), EightSteps(g), EightSteps(h))
  {
    hide EightSteps, Xor;
    var s := Xor(a, b);
    EightXor(a, b);
    EightXor(s, c);
    s := Xor(s, c);
    EightXor(s, d);
    s := Xor(s, d);
    EightXor(s, e);
    s := Xor(s, e);
    EightXor(s, f);
    s := Xor(s, f);
    EightXor(s, g);
    s := Xor(s, g);
    EightXor(s, h);
  }

  /** Each entry of the table is the remainder of its index. */
  lemma TableIsRemainder(i: bv8)
    ensures Table(i) == EightSteps(i as bv32)
  {
    hide Table, EightSteps, Sum;
    StepsAreSum(i);
    OneOf(i);
    if i & 0x80 == 0 {
      LowTableIsSum(i);
    } else {
      HighTableIsSum(i);
    }
  }

  // A byte at a time

  function Low(c: bv32): (r: bv8) {
    (c & 0xFF) as bv8
  }

  function High(c: bv32): (r: bv32) {
    c & 0xFFFF_FF00
  }

  function Wide(b: bv8): (r: bv32) {
    b as bv32
  }

  function Rest(c: bv32): (r: bv32) {
    c >> 8
  }

  /** The update of the register with one byte. */
  function ByteStep(c: bv32, b: bv8): (r: bv32) {
    (c >> 8) ^ Table(Low(c) ^ b)
  }

  /** Eight steps from a register with a clear low byte only shift. */
  lemma EightShift(c: bv32)
    ensures EightSteps(High(c)) == Rest(c)
  {
  }

  lemma WideXor(a: bv8, b: bv8)
    ensures Wide(a ^ b) == Xor(Wide(a), Wide(b))
  {
  }

  lemma HighAndLow(c: bv32)
    ensures c == Xor(High(c), Wide(Low(c)))
  {
  }

  lemma SplitLow(c: bv32, b: bv8)
    ensures Xor(c, Wide(b)) == Xor(High(c), Wide(Low(c) ^ b))
  {
    hide Xor, High, Wide, Low;
    HighAndLow(c);
    XorAssociative(High(c), Wide(Low(c)), Wide(b));
    WideXor(Low(c), b);
  }

  lemma WideTable(i: bv8)
    ensures Table(i) == EightSteps(Wide(i))
  {
    hide Table, EightSteps;
    TableIsRemainder(i);
  }

  lemma ByteStepXor(c: bv32, b: bv8)
    ensures ByteStep(c, b) == Xor(Rest(c), Table(Low(c) ^ b))
  {
    hide Table;
  }

  /** The table's update is eight steps of a bit. */
  lemma ByteIsEightSteps(c: bv32, b: bv8)
    ensures ByteStep(c, b) == EightSteps(Xor(c, Wide(b)))
  {
    hide Table, EightSteps, Low, High, Wide, Rest, Xor, ByteStep;
    var i := Low(c) ^ b;
    ByteStepXor(c, b);
    WideTable(i);
    EightShift(c);
    EightXor(High(c), Wide(i));
    SplitLow(c, b);
  }

  function Update(c: bv32, bytes: seq<bv8>): (r: bv32) {
    if bytes == [] then c else ByteStep(Update(c, bytes[..|bytes| - 1]), bytes[|bytes| - 1])
  }

  // Division

  /** Feeds one bit of the message to the register. */
  function Feed(c: bv32, bit: bool): (r: bv32) {
    BitStep(Xor(c, Bit(bit)))
  }

  function Divide(c: bv32, bits: seq<bool>): (r: bv32) {
    if bits == [] then c else Feed(Divide(c, bits[..|bits| - 1]), bits[|bits| - 1])
  }

  function BitOf(b: bv32): (bit: bool) {
    b & 1 == 1
  }

  function NextBits(x: bv32, n: nat): (r: seq<bool>)
    ensures |r| == n
    decreases n
  {
    if n == 0 then [] else [BitOf(x)] + NextBits(Half(x), n - 1)
  }

  /** The bits of a byte, the lowest first. */
  function ByteBits(b: bv8): (r: seq<bool>) {
    NextBits(Wide(b), 8)
  }

  function Bits(bytes: seq<bv8>): (r: seq<bool>) {
    if bytes == [] then [] else Bits(bytes[..|bytes| - 1]) + ByteBits(bytes[|bytes| - 1])
  }

  function Half(b: bv32): (r: bv32) {
    b >> 1
  }

  function Bit(bit: bool): (r: bv32) {
    if bit then 1 else 0
  }

  function Even(b: bv32): (r: bv32) {
    b & 0xFFFF_FFFE
  }

  /** The part of a byte that is not fed yet is only shifted. */
  lemma FeedShifts(c: bv32, b: bv32)
    ensures BitStep(Xor(c, b)) == Xor(Feed(c, BitOf(b)), Half(b))
  {
    hide BitStep, Xor, Bit, Half, Even, BitOf;
    SplitBit(c, b);
    StepXor(Xor(c, Bit(BitOf(b))), Even(b));
    EvenStep(b);
  }

  lemma SplitBit(c: bv32, b: bv32)
    ensures Xor(c, b) == Xor(Xor(c, Bit(BitOf(b))), Even(b))
  {
  }

  lemma EvenStep(b: bv32)
    ensures BitStep(Even(b)) == Half(b)
  {
  }

  lemma {:induction false} DivideConcat(c: bv32, a: seq<bool>, b: seq<bool>)
    ensures Divide(c, a + b) == Divide(Divide(c, a), b)
  {
    if b == [] {
      assert a + b == a;
    } else {
      var k := |b| - 1;
      DivideConcat(c, a, b[..k]);
      assert (a + b)[..|a + b| - 1] == a + b[..k];
    }
  }

  function Steps(c: bv32, n: nat): (r: bv32)
    decreases n
  {
    if n == 0 then c else Steps(BitStep(c), n - 1)
  }

  function Halves(x: bv32, n: nat): (r: bv32)
    decreases n
  {
    if n == 0 then x else Halves(Half(x), n - 1)
  }

  /** n steps with all of x are n steps with a bit of x each, and the rest of x. */
  lemma {:induction false} StepsFeed(c: bv32, x: bv32, n: nat)
    ensures Steps(Xor(c, x), n) == Xor(Divide(c, NextBits(x, n)), Halves(x, n))
    decreases n
  {
    hide BitStep, Xor, Half, BitOf, Feed;
    if n == 0 {
    } else {
      var bit := BitOf(x);
      FeedShifts(c, x);
      StepsFeed(Feed(c, bit), Half(x), n - 1);
      DivideConcat(c, [bit], NextBits(Half(x), n - 1));
      assert [bit][..0] == [];
      assert Divide(c, [bit]) == Feed(Divide(c, []), bit);
    }
  }

  lemma ByteShiftedOut(b: bv8)
    ensures Halves(Wide(b), 8) == 0
  {
    hide Half, Wide;
    var x := Wide(b);
    assert Halves(x, 8) == Halves(Half(x), 7) == Halves(Half(Half(x)), 6);
    var y := Half(Half(x));
    assert Halves(y, 6) == Halves(Half(y), 5) == Halves(Half(Half(y)), 4);
    var z := Half(Half(y));
    assert Halves(z, 4) == Halves(Half(z), 3) == Halves(Half(Half(z)), 2);
    EightHalves(b);
  }

  lemma EightHalves(b: bv8)
    ensures Half(Half(Half(Half(Half(Half(Half(Half(Wide(b))))))))) == 0
  {
  }

  lemma StepsAreEight(c: bv32)
    ensures Steps(c, 8) == EightSteps(c)
  {
    hide BitStep;
    assert Steps(c, 8) == Steps(BitStep(c), 7) == Steps(BitStep(BitStep(c)), 6);
    var d := BitStep(BitStep(c));
    assert Steps(d, 6) == Steps(BitStep(d), 5) == Steps(BitStep(BitStep(d)), 4);
    var e := BitStep(BitStep(d));
    assert Steps(e, 4) == Steps(BitStep(e), 3) == Steps(BitStep(BitStep(e)), 2);
  }

  lemma XorNothing(c: bv32)
    ensures Xor(c, 0) == c
  {
  }

  /** Eight steps with a whole byte are eight steps with a bit each. */
  lemma EightStepsFeed(c: bv32, b: bv8)
    ensures EightSteps(Xor(c, Wide(b))) == Divide(c, ByteBits(b))
  {
    hide Xor, Wide, Steps, Halves, NextBits, Divide, EightSteps;
    StepsAreEight(Xor(c, Wide(b)));
    StepsFeed(c, Wide(b), 8);
    ByteShiftedOut(b);
    XorNothing(Divide(c, ByteBits(b)));
  }

  /** The register after a message is the remainder of its bits, fed one by one. */
  lemma {:induction false} UpdateIsDivision(c: bv32, bytes: seq<bv8>)
    ensures Update(c, bytes) == Divide(c, Bits(bytes))
  {
    if bytes == [] {
    } else {
      hide ByteStep, EightSteps, ByteBits, Feed, Xor, Wide;
      var k := |bytes| - 1;
      UpdateIsDivision(c, bytes[..k]);
      ByteIsEightSteps(Update(c, bytes[..k]), bytes[k]);
      EightStepsFeed(Update(c, bytes[..k]), bytes[k]);
      DivideConcat(c, Bits(bytes[..k]), ByteBits(bytes[k]));
    }
  }

  /** A concatenation is read by two updates, one after the other. */
  lemma {:induction false} UpdateConcat(c: bv32, a: seq<bv8>, b: seq<bv8>)
    ensures Update(c, a + b) == Update(Update(c, a), b)
  {
    hide ByteStep;
    if b == [] {
      assert a + b == a;
    } else {
      var k := |b| - 1;
      UpdateConcat(c, a, b[..k]);
      assert (a + b)[..|a + b| - 1] == a + b[..k];
    }
  }

  // The three forms

  /** from_buffer. */
  method FromBuffer(buffer: Option<seq<bv8>>, curr: bv32) returns (r: bv32)
    ensures r == Update(curr, if buffer.Some? then buffer.value else [])
  {
    hide ByteStep;
    r := curr;
    if buffer.Some? {
      var bytes := buffer.value;
      for i := 0 to |bytes|
        invariant r == Update(curr, bytes[..i])
      {
        assert bytes[..i + 1][..i] == bytes[..i];
        r := ByteStep(r, bytes[i]);
      }
      assert bytes[..|bytes|] == bytes;
    }
  }

  /** The characters of a string before the first NUL. */
  function Text(memory: seq<bv8>): (r: seq<bv8>)
    requires 0 in memory
    ensures |r| < |memory| && r == memory[..|r|] && memory[|r|] == 0 && 0 !in r
  {
    if memory[0] == 0 then [] else [memory[0]] + Text(memory[1..])
  }

  /** from_string, of what lies in memory from the pointer on. */
  method FromString(memory: Option<seq<bv8>>, curr: bv32) returns (r: bv32)
    requires memory.Some? ==> 0 in memory.value
    ensures r == Update(curr, if memory.Some? then Text(memory.value) else [])
  {
    hide ByteStep;
    r := curr;
    if memory.Some? {
      var str := memory.value;
      ghost var text := Text(str);
      var i := 0;
      while str[i] != 0
        invariant i <= |text| && r == Update(curr, text[..i])
        decreases |text| - i
      {
        assert i < |text|;
        assert text[..i + 1][..i] == text[..i];
        r := ByteStep(r, str[i]);
        i := i + 1;
      }
      assert i == |text| && text[..i] == text;
    }
  }

  /** The recursion of from_literal, over the characters and the NUL at the end. */
  function Aux(str: seq<bv8>, index: nat, curr: bv32, prev: bv32): (r: bv32)
    requires index <= |str|
    decreases |str| - index
  {
    if |str| == 1 && index == 0 then XOR_VALUE
    else if index == |str| then prev
    else Aux(str, index + 1, ByteStep(curr, str[index]), curr)
  }

  function FromLiteral(str: seq<bv8>): (r: bv32) {
    Aux(str, 0, INITIAL_VALUE, INITIAL_VALUE)
  }

  lemma {:induction false} AuxIsUpdate(str: seq<bv8>, index: nat, curr: bv32, prev: bv32)
    requires 0 < index <= |str| && curr == Update(INITIAL_VALUE, str[..index]) && prev == Update(INITIAL_VALUE, str[..index - 1])
    ensures Aux(str, index, curr, prev) == Update(INITIAL_VALUE, str[..|str| - 1])
    decreases |str| - index
  {
    hide ByteStep;
    if index == |str| {
    } else {
      assert str[..index + 1][..index] == str[..index];
      AuxIsUpdate(str, index + 1, ByteStep(curr, str[index]), curr);
    }
  }

  /** A literal is read up to the NUL at its end, the empty literal included. */
  lemma LiteralIsUpdate(text: seq<bv8>)
    ensures FromLiteral(text + [0]) == Update(INITIAL_VALUE, text)
  {
    hide ByteStep;
    var str := text + [0];
    if text != [] {
      assert str[..0] == [] && str[..1] == [str[0]] && [str[0]][..0] == [];
      AuxIsUpdate(str, 1, ByteStep(INITIAL_VALUE, str[0]), INITIAL_VALUE);
      assert str[..|str| - 1] == text;
    }
  }

  /** A string is read up to the first NUL, whatever lies behind it. */
  lemma {:induction false} TextOfLiteral(text: seq<bv8>, more: seq<bv8>)
    requires 0 !in text
    ensures Text(text + [0] + more) == text
  {
    var memory := text + [0] + more;
    if text == [] {
    } else {
      TextOfLiteral(text[1..], more);
      assert memory[1..] == text[1..] + [0] + more;
    }
  }

  /** On text without NUL the literal, the string and the buffer form give the same. */
  lemma FormsAgree(text: seq<bv8>, more: seq<bv8>)
    requires 0 !in text
    ensures 0 in text + [0] + more
    ensures FromLiteral(text + [0]) == Update(INITIAL_VALUE, Text(text + [0] + more)) == Update(INITIAL_VALUE, text)
  {
    assert (text + [0] + more)[|text|] == 0;
    TextOfLiteral(text, more);
    LiteralIsUpdate(text);
  }

  function Checksum(str: seq<bv8>): (r: bv32) {
    FromLiteral(str) ^ XOR_VALUE
  }

  /** An update along given registers. */
  lemma {:induction false} UpdateAlong(regs: seq<bv32>, bytes: seq<bv8>)
    requires |regs| == |bytes| + 1 && forall i :: 0 <= i < |bytes| ==> ByteStep(regs[i], bytes[i]) == regs[i + 1]
    ensures Update(regs[0], bytes) == regs[|bytes|]
  {
    hide ByteStep;
    if bytes == [] {
    } else {
      UpdateAlong(regs[..|bytes|], bytes[..|bytes| - 1]);
    }
  }

  lemma HelloStart()
    ensures ByteStep(0xFFFF_FFFF, 72) == 0x55FA_D9D0
    ensures ByteStep(0x55FA_D9D0, 101) == 0xBB5E_BDDA
    ensures ByteStep(0xBB5E_BDDA, 108) == 0x22B9_4804
    ensures ByteStep(0x22B9_4804, 108) == 0x434B_5022
  {
  }

  lemma HelloMiddle()
    ensures ByteStep(0x434B_5022, 111) == 0x082E_767D
    ensures ByteStep(0x082E_767D, 32) == 0x15D2_033F
    ensures ByteStep(0x15D2_033F, 119) == 0x7812_1BA1
    ensures ByteStep(0x7812_1BA1, 111) == 0x7CA4_FDAC
  {
  }

  lemma HelloEnd()
    ensures ByteStep(0x7CA4_FDAC, 114) == 0x6117_5B2E
    ensures ByteStep(0x6117_5B2E, 108) == 0x98B3_37E7
    ensures ByteStep(0x98B3_37E7, 100) == 0x7429_61AD
  {
  }

  const HELLO: seq<bv8> := [72, 101, 108, 108, 111, 32, 119, 111, 114, 108, 100]

  const REGISTERS: seq<bv32> :=
    [0xFFFF_FFFF, 0x55FA_D9D0, 0xBB5E_BDDA, 0x22B9_4804, 0x434B_5022, 0x082E_767D,
     0x15D2_033F, 0x7812_1BA1, 0x7CA4_FDAC, 0x6117_5B2E, 0x98B3_37E7, 0x7429_61AD]

  lemma HelloRead()
    ensures Update(INITIAL_VALUE, HELLO) == 0x7429_61AD
  {
    hide Update, ByteStep;
    HelloStart();
    HelloMiddle();
    HelloEnd();
    UpdateAlong(REGISTERS, HELLO);
  }

  /** The checksums that the source states: of "", of "A" and of "Hello world". */
  lemma KnownChecksums()
    ensures Checksum([0]) == 0 && Checksum([65, 0]) == 0xD3D9_9E8B && Checksum(HELLO + [0]) == 0x8BD6_9E52
  {
    LiteralIsUpdate([]);
    LiteralIsUpdate([65]);
    LiteralIsUpdate(HELLO);
    assert [] + [0] == [0 as bv8] && [65] + [0] == [65 as bv8, 0];
    assert Update(INITIAL_VALUE, [65]) == ByteStep(Update(INITIAL_VALUE, []), 65);
    HelloRead();
  }
}
