/** CRC-32C itself, section 12.1 of RFC 3720: the tables are those of the polynomial, so the loops
    of Crc compute it. */
module Crc32c {

  import opened Crc
  import opened CrcTables

  // ---------------------------------------------------------------- the polynomial

  /** The reflected polynomial. */
  const POLY: Word := 0x82f63b78

  /** One bit: shift it out, and subtract the polynomial when it was a one. */
  function Step(c: Word): Word {
    (c >> 1) ^ (if c & 1 == 1 then POLY else 0)
  }

  const XOR: Plus := (a: Word, b: Word) => Xor(a, b)
  const STEP: Map := (c: Word) => Step(c)

  /** The register after `data`, one bit at a time. */
  ghost function Register(l: Word, data: seq<bv8>): Word {
    if data == [] then l else Times(STEP, 8, Xor(Register(l, data[..|data| - 1]), data[|data| - 1] as Word))
  }

  const ONES: Word := 0xffffffff

  /** The CRC-32C of `data` after bytes whose CRC-32C is `crc`. */
  ghost function Checksum(crc: Word, data: seq<bv8>): Word {
    Xor(Register(Xor(crc, ONES), data), ONES)
  }

  // ---------------------------------------------------------------- linearity

  lemma ShiftXor(x: Word, y: Word)
    ensures (x ^ y) >> 1 == (x >> 1) ^ (y >> 1)
  {
  }

  lemma LowBit(x: Word, y: Word)
    ensures (x & 1 == 0 || x & 1 == 1) && (x ^ y) & 1 == (x & 1) ^ (y & 1)
  {
  }

  lemma XorSwap(a: Word, b: Word, p: Word)
    ensures (a ^ p) ^ (b ^ p) == a ^ b && (a ^ b) ^ p == a ^ (b ^ p) && (a ^ b) ^ p == (a ^ p) ^ b
  {
  }

  lemma XorZero(a: Word)
    ensures a ^ 0 == a
  {
  }

  lemma XorLaws(a: Word, b: Word, c: Word)
    ensures (a ^ b) ^ c == a ^ (b ^ c) && a ^ b == b ^ a && 0 ^ a == a
  {
  }

  lemma StepPlus(x: Word, y: Word)
    ensures Step(x ^ y) == Step(x) ^ Step(y)
  {
    ShiftXor(x, y);
    LowBit(x, y);
    LowBit(y, x);
    var a, b := x >> 1, y >> 1;
    XorSwap(a, b, POLY);
    XorZero(a);
    XorZero(b);
    XorZero(a ^ b);
  }

  lemma StepXor(x: Word, y: Word)
    ensures Step(Xor(x, y)) == Xor(Step(x), Step(y))
  {
    StepPlus(x, y);
  }

  lemma StepIsLinear()
    ensures Linear(XOR, STEP)
  {
    forall a: Word, b: Word {:trigger Pair(a, b)} | Pair(a, b)
      ensures STEP(XOR(a, b)) == XOR(STEP(a), STEP(b))
    {
      StepXor(a, b);
    }
  }

  /** `n` zero bits. */
  ghost function Bits(n: nat, x: Word): Word {
    Times(STEP, n, x)
  }

  lemma BitsXor(n: nat, x: Word, y: Word)
    ensures Bits(n, Xor(x, y)) == Xor(Bits(n, x), Bits(n, y))
  {
    StepIsLinear();
    TimesLinear(XOR, STEP, n, x, y);
  }

  lemma {:induction false} BitsOfZero(n: nat)
    ensures Bits(n, 0) == 0
  {
    if n > 0 { BitsOfZero(n - 1); }
  }

  // ---------------------------------------------------------------- a byte, as the sum of its bits

  lemma SumOfFour(plus: Plus, f: Map, p0: Word, p1: Word, p2: Word, p3: Word)
    requires Linear(plus, f)
    ensures f(plus(p0, plus(p1, plus(p2, p3)))) == plus(f(p0), plus(f(p1), plus(f(p2), f(p3))))
  {
    assert Pair(p0, plus(p1, plus(p2, p3)));
    assert Pair(p1, plus(p2, p3));
    assert Pair(p2, p3);
  }

  /** A word with a single bit of the low byte set. */
  ghost predicate OneBit(m: Word) {
    m == 1 || m == 2 || m == 4 || m == 8 || m == 16 || m == 32 || m == 64 || m == 128
  }

  lemma BitIsOrNot(x: Word, m: Word)
    requires OneBit(m)
    ensures x & m == 0 || x & m == m
  {
  }

  /** One bit of a word through a map. */
  lemma BitPicks(f: Map, x: Word, m: Word, b: Word)
    requires OneBit(m) && f(0) == 0 && f(m) == b
    ensures f(x & m) == Pick(x, m, b)
  {
    BitIsOrNot(x, m);
  }

  lemma SumIsXor(q0: Word, q1: Word, q2: Word, q3: Word)
    ensures q0 ^ (q1 ^ (q2 ^ q3)) == Xor(q0, Xor(q1, Xor(q2, q3)))
  {
  }

  lemma Flatten(q0: Word, q1: Word, q2: Word, q3: Word)
    ensures Sum(q0, q1, q2, q3) == Xor(q0, Xor(q1, Xor(q2, q3)))
  {
    SumIsXor(q0, q1, q2, q3);
  }

  lemma LowNibble(x: Word)
    ensures x & 15 == Sum(x & 1, x & 2, x & 4, x & 8)
  {
  }

  lemma HighNibble(x: Word)
    ensures x & 240 == Sum(x & 16, x & 32, x & 64, x & 128)
  {
  }

  ghost predicate Images(f: Map, b0: Word, b1: Word, b2: Word, b3: Word, b4: Word, b5: Word, b6: Word, b7: Word) {
    && f(0) == 0 && f(1) == b0 && f(2) == b1 && f(4) == b2 && f(8) == b3
    && f(16) == b4 && f(32) == b5 && f(64) == b6 && f(128) == b7
  }

  /** A linear map on a sum of four, from its values on each. */
  lemma SumMaps(f: Map, x: Word, p0: Word, p1: Word, p2: Word, p3: Word, q0: Word, q1: Word, q2: Word, q3: Word)
    requires Linear(XOR, f) && x == Sum(p0, p1, p2, p3)
    requires f(p0) == q0 && f(p1) == q1 && f(p2) == q2 && f(p3) == q3
    ensures f(x) == Sum(q0, q1, q2, q3)
  {
    Flatten(p0, p1, p2, p3);
    Flatten(q0, q1, q2, q3);
    SumOfFour(XOR, f, p0, p1, p2, p3);
  }

  lemma LowMix(f: Map, x: Word, b0: Word, b1: Word, b2: Word, b3: Word)
    requires Linear(XOR, f) && f(0) == 0 && f(1) == b0 && f(2) == b1 && f(4) == b2 && f(8) == b3
    ensures f(x & 15) == Four(x, 1, 2, 4, 8, b0, b1, b2, b3)
  {
    BitPicks(f, x, 1, b0);
    BitPicks(f, x, 2, b1);
    BitPicks(f, x, 4, b2);
    BitPicks(f, x, 8, b3);
    LowNibble(x);
    SumMaps(f, x & 15, x & 1, x & 2, x & 4, x & 8, Pick(x, 1, b0), Pick(x, 2, b1), Pick(x, 4, b2), Pick(x, 8, b3));
  }

  lemma HighMix(f: Map, x: Word, b4: Word, b5: Word, b6: Word, b7: Word)
    requires Linear(XOR, f) && f(0) == 0 && f(16) == b4 && f(32) == b5 && f(64) == b6 && f(128) == b7
    ensures f(x & 240) == Four(x, 16, 32, 64, 128, b4, b5, b6, b7)
  {
    BitPicks(f, x, 16, b4);
    BitPicks(f, x, 32, b5);
    BitPicks(f, x, 64, b6);
    BitPicks(f, x, 128, b7);
    HighNibble(x);
    SumMaps(f, x & 240, x & 16, x & 32, x & 64, x & 128, Pick(x, 16, b4), Pick(x, 32, b5), Pick(x, 64, b6), Pick(x, 128, b7));
  }

  lemma TwoNibbles(x: Word)
    requires x & 0xff == x
    ensures x == Xor(x & 15, x & 240)
  {
  }

  /** A linear map on a byte, from its values on the bits. */
  lemma ByteMix(f: Map, x: Word, b0: Word, b1: Word, b2: Word, b3: Word, b4: Word, b5: Word, b6: Word, b7: Word)
    requires Linear(XOR, f) && Images(f, b0, b1, b2, b3, b4, b5, b6, b7) && x & 0xff == x
    ensures f(x) == Mix(x, b0, b1, b2, b3, b4, b5, b6, b7)
  {
    TwoNibbles(x);
    LowMix(f, x, b0, b1, b2, b3);
    HighMix(f, x, b4, b5, b6, b7);
    assert Pair(x & 15, x & 240);
  }

  // ---------------------------------------------------------------- the byte table

  lemma OneMore(n: nat, c: Word)
    ensures Times(STEP, n + 1, c) == Step(Times(STEP, n, c))
  {
  }

  lemma EightSteps(c: Word)
    ensures Bits(8, c) == Step(Step(Step(Step(Step(Step(Step(Step(c))))))))
  {
    OneMore(0, c);
    OneMore(1, c);
    OneMore(2, c);
    OneMore(3, c);
    OneMore(4, c);
    OneMore(5, c);
    OneMore(6, c);
    OneMore(7, c);
  }

  lemma ByteShifts(c: Word)
    requires c & 0xff == 0
    ensures Bits(8, c) == c >> 8
  {
    EightSteps(c);
    StepsShift(c);
  }

  lemma StepsShift(c: Word)
    requires c & 0xff == 0
    ensures Step(Step(Step(Step(Step(Step(Step(Step(c)))))))) == c >> 8
  {
  }

  const BYTE: Map := (c: Word) => Times(STEP, 8, c)

  lemma ByteImages()
    ensures Images(BYTE, 0xf26b8303, 0xe13b70f7, 0xc79a971f, 0x8ad958cf, 0x105ec76f, 0x20bd8ede, 0x417b1dbc, 0x82f63b78)
  {
    BitsOfZero(8);
    EightSteps(1);
    EightSteps(2);
    EightSteps(4);
    EightSteps(8);
    EightSteps(16);
    EightSteps(32);
    EightSteps(64);
    EightSteps(128);
  }

  lemma BitsAreLinear(n: nat, f: Map)
    requires forall c: Word {:trigger f(c)} :: f(c) == Bits(n, c)
    ensures Linear(XOR, f)
  {
    forall a: Word, b: Word {:trigger Pair(a, b)} | Pair(a, b)
      ensures f(XOR(a, b)) == XOR(f(a), f(b))
    {
      BitsXor(n, a, b);
    }
  }

  lemma AByte(c: bv8)
    ensures (c as Word) & 0xff == c as Word
  {
  }

  /** kByteExtensionTable holds the effect of eight steps on each byte. */
  lemma ByteEntry(c: bv8)
    ensures ByteTable(c) == Bits(8, c as Word)
  {
    BitsAreLinear(8, BYTE);
    ByteImages();
    AByte(c);
    ByteMix(BYTE, c as Word, 0xf26b8303, 0xe13b70f7, 0xc79a971f, 0x8ad958cf, 0x105ec76f, 0x20bd8ede, 0x417b1dbc, 0x82f63b78);
    ByteMixes(c);
  }

  /** STEP1's use of the table: the effect of a zero byte. */
  function Advance(l: Word): Word {
    Xor(ByteTable(Low(l)), Right(l))
  }

  const ACT: Map := (l: Word) => Advance(l)

  function Low(l: Word): bv8 {
    (l & 0xff) as bv8
  }

  function Rest(l: Word): Word {
    l & 0xffffff00
  }

  function Right(l: Word): Word {
    l >> 8
  }

  lemma LowAndRest(l: Word)
    ensures l == Xor(Low(l) as Word, Rest(l))
  {
  }

  lemma RestHasNoLow(l: Word)
    ensures Rest(l) & 0xff == 0 && Rest(l) >> 8 == Right(l)
  {
  }

  lemma RestShifts(l: Word)
    ensures Bits(8, Rest(l)) == Right(l)
  {
    RestHasNoLow(l);
    ByteShifts(Rest(l));
  }

  lemma ByteThenRest(l: Word, c: bv8, low: Word, high: Word, t: Word)
    requires l == Xor(low, high) && c as Word == low && Bits(8, high) == t
    ensures Bits(8, l) == Xor(ByteTable(c), t)
  {
    BitsXor(8, low, high);
    ByteEntry(c);
  }

  lemma ActIsByte(l: Word)
    ensures ACT(l) == Bits(8, l)
  {
    LowAndRest(l);
    RestShifts(l);
    ByteThenRest(l, Low(l), Low(l) as Word, Rest(l), Right(l));
  }

  lemma ActTimes(n: nat, x: Word)
    ensures Times(ACT, n, x) == Bits(8 * n, x)
  {
    forall c: Word {:trigger Input(c)} | Input(c)
      ensures ACT(c) == Times(STEP, 8, c)
    {
      ActIsByte(c);
    }
    TimesTimes(ACT, STEP, 8, n, x);
  }

  // ---------------------------------------------------------------- the stride tables

  lemma EightMore(n: nat, x: Word, v: Word)
    requires Bits(n, x) == v
    ensures Bits(n + 8, x) == Step(Step(Step(Step(Step(Step(Step(Step(v))))))))
  {
    TimesAdd(STEP, 8, n, x);
    EightSteps(v);
  }

  lemma LastBitAfterFourBytes(x: Word)
    requires x == 0x80000000
    ensures Bits(32, x) == 0x82f63b78
  {
    EightMore(0, x, 0x80000000);
    EightMore(8, x, 0x00800000);
    EightMore(16, x, 0x00008000);
    EightMore(24, x, 0x00000080);
  }

  lemma LastBitAfterEightBytes(x: Word)
    requires x == 0x80000000
    ensures Bits(64, x) == 0x6ea2d55c
  {
    LastBitAfterFourBytes(x);
    EightMore(32, x, 0x82f63b78);
    EightMore(40, x, 0xfbc3faf9);
    EightMore(48, x, 0x8b277743);
    EightMore(56, x, 0x52a0c93f);
  }

  lemma LastBitAfterTwelveBytes(x: Word)
    requires x == 0x80000000
    ensures Bits(96, x) == 0xa66805eb
  {
    LastBitAfterEightBytes(x);
    EightMore(64, x, 0x6ea2d55c);
    EightMore(72, x, 0x1c08b7d6);
    EightMore(80, x, 0xf56e0ef4);
    EightMore(88, x, 0x34019664);
  }

  /** Sixteen zero bytes after the last bit of a word. */
  lemma LastBit(x: Word)
    requires x == 0x80000000
    ensures Bits(128, x) == 0x18b8ea18
  {
    LastBitAfterTwelveBytes(x);
    EightMore(96, x, 0xa66805eb);
    EightMore(104, x, 0x7a1f6b24);
    EightMore(112, x, 0xe75d06aa);
    EightMore(120, x, 0xc94ec098);
  }

  lemma BitBefore(x: Word, v: Word)
    requires Bits(128, x) == v
    ensures Bits(128, Step(x)) == Step(v)
  {
    TimesAdd(STEP, 128, 1, x);
    OneMore(0, x);
    OneMore(128, x);
  }

  lemma Stride0Basis()
    ensures Bits(128, 0x01000000) == 0x30d23865 && Bits(128, 0x02000000) == 0x61a470ca && Bits(128, 0x04000000) == 0xc348e194 && Bits(128, 0x08000000) == 0x837db5d9
    ensures Bits(128, 0x10000000) == 0x03171d43 && Bits(128, 0x20000000) == 0x062e3a86 && Bits(128, 0x40000000) == 0x0c5c750c && Bits(128, 0x80000000) == 0x18b8ea18
  {
    LastBit(0x80000000);
    BitBefore(0x80000000, 0x18b8ea18);
    BitBefore(0x40000000, 0x0c5c750c);
    BitBefore(0x20000000, 0x062e3a86);
    BitBefore(0x10000000, 0x03171d43);
    BitBefore(0x08000000, 0x837db5d9);
    BitBefore(0x04000000, 0xc348e194);
    BitBefore(0x02000000, 0x61a470ca);
  }

  lemma Stride1Basis()
    ensures Bits(128, 0x00010000) == 0x54075546 && Bits(128, 0x00020000) == 0xa80eaa8c && Bits(128, 0x00040000) == 0x55f123e9 && Bits(128, 0x00080000) == 0xabe247d2
    ensures Bits(128, 0x00100000) == 0x5228f955 && Bits(128, 0x00200000) == 0xa451f2aa && Bits(128, 0x00400000) == 0x4d4f93a5 && Bits(128, 0x00800000) == 0x9a9f274a
  {
    Stride0Basis();
    BitBefore(0x01000000, 0x30d23865);
    BitBefore(0x00800000, 0x9a9f274a);
    BitBefore(0x00400000, 0x4d4f93a5);
    BitBefore(0x00200000, 0xa451f2aa);
    BitBefore(0x00100000, 0x5228f955);
    BitBefore(0x00080000, 0xabe247d2);
    BitBefore(0x00040000, 0x55f123e9);
    BitBefore(0x00020000, 0xa80eaa8c);
  }

  lemma Stride2Basis()
    ensures Bits(128, 0x00000100) == 0x678efd01 && Bits(128, 0x00000200) == 0xcf1dfa02 && Bits(128, 0x00000400) == 0x9bd782f5 && Bits(128, 0x00000800) == 0x3243731b
    ensures Bits(128, 0x00001000) == 0x6486e636 && Bits(128, 0x00002000) == 0xc90dcc6c && Bits(128, 0x00004000) == 0x97f7ee29 && Bits(128, 0x00008000) == 0x2a03aaa3
  {
    Stride1Basis();
    BitBefore(0x00010000, 0x54075546);
    BitBefore(0x00008000, 0x2a03aaa3);
    BitBefore(0x00004000, 0x97f7ee29);
    BitBefore(0x00002000, 0xc90dcc6c);
    BitBefore(0x00001000, 0x6486e636);
    BitBefore(0x00000800, 0x3243731b);
    BitBefore(0x00000400, 0x9bd782f5);
    BitBefore(0x00000200, 0xcf1dfa02);
  }

  lemma Stride3Basis()
    ensures Bits(128, 0x00000001) == 0xf20c0dfe && Bits(128, 0x00000002) == 0xe1f46d0d && Bits(128, 0x00000004) == 0xc604aceb && Bits(128, 0x00000008) == 0x89e52f27
    ensures Bits(128, 0x00000010) == 0x162628bf && Bits(128, 0x00000020) == 0x2c4c517e && Bits(128, 0x00000040) == 0x5898a2fc && Bits(128, 0x00000080) == 0xb13145f8
  {
    Stride2Basis();
    BitBefore(0x00000100, 0x678efd01);
    BitBefore(0x00000080, 0xb13145f8);
    BitBefore(0x00000040, 0x5898a2fc);
    BitBefore(0x00000020, 0x2c4c517e);
    BitBefore(0x00000010, 0x162628bf);
    BitBefore(0x00000008, 0x89e52f27);
    BitBefore(0x00000004, 0xc604aceb);
    BitBefore(0x00000002, 0xe1f46d0d);
  }

  function Up8(x: Word): Word {
    x << 8
  }

  function Up16(x: Word): Word {
    x << 16
  }

  function Up24(x: Word): Word {
    x << 24
  }

  const UP0: Map := (x: Word) => x
  const UP8: Map := (x: Word) => Up8(x)
  const UP16: Map := (x: Word) => Up16(x)
  const UP24: Map := (x: Word) => Up24(x)

  lemma Up0IsLinear()
    ensures Linear(XOR, UP0)
  {
  }

  lemma Up8Plus(x: Word, y: Word)
    ensures Up8(x ^ y) == Up8(x) ^ Up8(y)
  {
  }

  lemma Up8Xor(x: Word, y: Word)
    ensures Up8(Xor(x, y)) == Xor(Up8(x), Up8(y))
  {
    Up8Plus(x, y);
  }

  lemma Up8IsLinear()
    ensures Linear(XOR, UP8)
  {
    forall a: Word, b: Word {:trigger Pair(a, b)} | Pair(a, b)
      ensures UP8(XOR(a, b)) == XOR(UP8(a), UP8(b))
    {
      Up8Xor(a, b);
    }
  }

  lemma Up16Plus(x: Word, y: Word)
    ensures Up16(x ^ y) == Up16(x) ^ Up16(y)
  {
  }

  lemma Up16Xor(x: Word, y: Word)
    ensures Up16(Xor(x, y)) == Xor(Up16(x), Up16(y))
  {
    Up16Plus(x, y);
  }

  lemma Up16IsLinear()
    ensures Linear(XOR, UP16)
  {
    forall a: Word, b: Word {:trigger Pair(a, b)} | Pair(a, b)
      ensures UP16(XOR(a, b)) == XOR(UP16(a), UP16(b))
    {
      Up16Xor(a, b);
    }
  }

  lemma Up24Plus(x: Word, y: Word)
    ensures Up24(x ^ y) == Up24(x) ^ Up24(y)
  {
  }

  lemma Up24Xor(x: Word, y: Word)
    ensures Up24(Xor(x, y)) == Xor(Up24(x), Up24(y))
  {
    Up24Plus(x, y);
  }

  lemma Up24IsLinear()
    ensures Linear(XOR, UP24)
  {
    forall a: Word, b: Word {:trigger Pair(a, b)} | Pair(a, b)
      ensures UP24(XOR(a, b)) == XOR(UP24(a), UP24(b))
    {
      Up24Xor(a, b);
    }
  }

  /** Sixteen zero bytes after a word moved up: linear, like both steps. */
  ghost predicate IsAfter(f: Map, up: Map) {
    forall x: Word {:trigger f(x)} :: f(x) == Bits(128, up(x))
  }

  lemma AfterIsLinear(f: Map, up: Map)
    requires Linear(XOR, up) && IsAfter(f, up)
    ensures Linear(XOR, f)
  {
    forall a: Word, b: Word {:trigger Pair(a, b)} | Pair(a, b)
      ensures f(XOR(a, b)) == XOR(f(a), f(b))
    {
      BitsXor(128, up(a), up(b));
    }
  }

  /** A byte through it, from its values on the bits of a byte. */
  lemma AfterMixes(f: Map, up: Map, c: bv8, b0: Word, b1: Word, b2: Word, b3: Word, b4: Word, b5: Word, b6: Word, b7: Word)
    requires Linear(XOR, up) && IsAfter(f, up) && Images(f, b0, b1, b2, b3, b4, b5, b6, b7)
    ensures f(c as Word) == Mix(c as Word, b0, b1, b2, b3, b4, b5, b6, b7)
  {
    AfterIsLinear(f, up);
    AByte(c);
    ByteMix(f, c as Word, b0, b1, b2, b3, b4, b5, b6, b7);
  }

  ghost const AFTER0: Map := (x: Word) => Bits(128, x)
  ghost const AFTER8: Map := (x: Word) => Bits(128, Up8(x))
  ghost const AFTER16: Map := (x: Word) => Bits(128, Up16(x))
  ghost const AFTER24: Map := (x: Word) => Bits(128, Up24(x))

  lemma Stride0Entry(c: bv8)
    ensures Stride0Table(c) == Bits(128, Up24(c as Word))
  {
    BitsOfZero(128);
    Stride0Basis();
    Up24IsLinear();
    AfterMixes(AFTER24, UP24, c, 0x30d23865, 0x61a470ca, 0xc348e194, 0x837db5d9, 0x03171d43, 0x062e3a86, 0x0c5c750c, 0x18b8ea18);
    Stride0Mixes(c);
  }

  lemma Stride1Entry(c: bv8)
    ensures Stride1Table(c) == Bits(128, Up16(c as Word))
  {
    BitsOfZero(128);
    Stride1Basis();
    Up16IsLinear();
    AfterMixes(AFTER16, UP16, c, 0x54075546, 0xa80eaa8c, 0x55f123e9, 0xabe247d2, 0x5228f955, 0xa451f2aa, 0x4d4f93a5, 0x9a9f274a);
    Stride1Mixes(c);
  }

  lemma Stride2Entry(c: bv8)
    ensures Stride2Table(c) == Bits(128, Up8(c as Word))
  {
    BitsOfZero(128);
    Stride2Basis();
    Up8IsLinear();
    AfterMixes(AFTER8, UP8, c, 0x678efd01, 0xcf1dfa02, 0x9bd782f5, 0x3243731b, 0x6486e636, 0xc90dcc6c, 0x97f7ee29, 0x2a03aaa3);
    Stride2Mixes(c);
  }

  lemma Stride3Entry(c: bv8)
    ensures Stride3Table(c) == Bits(128, c as Word)
  {
    BitsOfZero(128);
    Stride3Basis();
    Up0IsLinear();
    AfterMixes(AFTER0, UP0, c, 0xf20c0dfe, 0xe1f46d0d, 0xc604aceb, 0x89e52f27, 0x162628bf, 0x2c4c517e, 0x5898a2fc, 0xb13145f8);
    Stride3Mixes(c);
  }

  function Piece(x: Word, k: nat): bv8 {
    if k == 0 then (x & 0xff) as bv8
    else if k == 1 then ((x >> 8) & 0xff) as bv8
    else if k == 2 then ((x >> 16) & 0xff) as bv8
    else (x >> 24) as bv8
  }

  /** STEP4's use of the tables: the effect of sixteen zero bytes. */
  function Sixteen(x: Word): Word {
    Xor(Stride3Table(Piece(x, 0)), Xor(Stride2Table(Piece(x, 1)), Xor(Stride1Table(Piece(x, 2)), Stride0Table(Piece(x, 3)))))
  }

  const STRIDE: Map := (x: Word) => Sixteen(x)

  lemma WordIsItsBytes(x: Word)
    ensures x == Sum(Piece(x, 0) as Word, Up8(Piece(x, 1) as Word), Up16(Piece(x, 2) as Word), Up24(Piece(x, 3) as Word))
  {
  }

  lemma StrideIsSixteen(x: Word)
    ensures STRIDE(x) == Bits(128, x)
  {
    var p0, p1, p2, p3 := Piece(x, 0) as Word, Up8(Piece(x, 1) as Word), Up16(Piece(x, 2) as Word), Up24(Piece(x, 3) as Word);
    WordIsItsBytes(x);
    Flatten(p0, p1, p2, p3);
    BitsXor(128, p2, p3);
    BitsXor(128, p1, Xor(p2, p3));
    BitsXor(128, p0, Xor(p1, Xor(p2, p3)));
    Stride3Entry(Piece(x, 0));
    Stride2Entry(Piece(x, 1));
    Stride1Entry(Piece(x, 2));
    Stride0Entry(Piece(x, 3));
  }

  // ---------------------------------------------------------------- the laws

  /** A byte moved up by `k` bytes. */
  function At(b: bv8, k: nat): Word {
    if k == 0 then b as Word else if k == 1 then (b as Word) << 8 else if k == 2 then (b as Word) << 16 else (b as Word) << 24
  }

  const AT: (bv8, nat) -> Word := (b: bv8, k: nat) => At(b, k)
  const OPS: Ops := Ops(XOR, ACT, STRIDE, AT, 0)

  lemma XorIsPlus(a: Word, b: Word, c: Word)
    ensures Xor(Xor(a, b), c) == Xor(a, Xor(b, c)) && Xor(a, b) == Xor(b, a) && Xor(0, a) == a
  {
    XorLaws(a, b, c);
  }

  lemma ActMovesDown(b: bv8, k: nat)
    requires 0 < k < 4
    ensures Advance(At(b, k)) == At(b, k - 1)
  {
  }

  lemma StrideActs(a: Word)
    ensures STRIDE(a) == Times(ACT, 16, a)
  {
    StrideIsSixteen(a);
    ActTimes(16, a);
  }

  lemma OpsAdd()
    ensures Adds(OPS)
  {
    forall a: Word, b: Word, c: Word {:trigger Tri(a, b, c)} | Tri(a, b, c)
      ensures XOR(XOR(a, b), c) == XOR(a, XOR(b, c)) && XOR(a, b) == XOR(b, a) && XOR(0, a) == a && STRIDE(a) == Times(ACT, 16, a)
    {
      XorIsPlus(a, b, c);
      StrideActs(a);
    }
  }

  lemma OpsMove()
    ensures MovesDown(OPS)
  {
    forall b: bv8, k: nat {:trigger Shift(b, k)} | Shift(b, k) && 0 < k < 4
      ensures ACT(AT(b, k)) == AT(b, k - 1)
    {
      ActMovesDown(b, k);
    }
  }

  lemma OpsAreLawful()
    ensures Laws(OPS)
  {
    OpsAdd();
    ActIsLinear();
    OpsMove();
  }

  lemma ActIsLinear()
    ensures Linear(XOR, ACT)
  {
    forall a: Word, b: Word {:trigger Pair(a, b)} | Pair(a, b)
      ensures ACT(XOR(a, b)) == XOR(ACT(a), ACT(b))
    {
      ActIsByte(a);
      ActIsByte(b);
      ActIsByte(Xor(a, b));
      BitsXor(8, a, b);
    }
  }

  // ---------------------------------------------------------------- Extend

  lemma {:induction false} FoldIsRegister(l: Word, data: seq<bv8>)
    ensures Fold(OPS, l, data) == Register(l, data)
    decreases |data|
  {
    if data != [] {
      FoldIsRegister(l, data[..|data| - 1]);
      ActIsByte(Xor(Register(l, data[..|data| - 1]), data[|data| - 1] as Word));
    }
  }

  /** Extend computes the CRC-32C for every starting checksum, length and alignment. */
  method Extend(crc: Word, data: seq<bv8>, align: nat) returns (r: Word)
    requires align < 4
    ensures r == Checksum(crc, data)
  {
    OpsAreLawful();
    var l := ExtendBody(OPS, Xor(crc, ONES), data, align);
    FoldIsRegister(Xor(crc, ONES), data);
    r := Xor(l, ONES);
  }

  lemma {:induction false} RegisterBoth(l: Word, a: seq<bv8>, b: seq<bv8>)
    ensures Register(l, a + b) == Register(Register(l, a), b)
  {
    FoldBoth(OPS, l, a, b);
    FoldIsRegister(l, a + b);
    FoldIsRegister(l, a);
    FoldIsRegister(Register(l, a), b);
  }

  lemma XorTwice(a: Word, b: Word)
    ensures Xor(Xor(a, b), b) == a
  {
  }

  /** Checksums compose over concatenation. */
  lemma ExtendComposes(crc: Word, a: seq<bv8>, b: seq<bv8>)
    ensures Checksum(Checksum(crc, a), b) == Checksum(crc, a + b)
  {
    XorTwice(Register(Xor(crc, ONES), a), ONES);
    RegisterBoth(Xor(crc, ONES), a, b);
  }

  /** The log writer extends a stored checksum of the record's type by its payload; the reader
      sums the header's type byte and the payload in one go, wherever the buffer starts. */
  method TypeChecksumMatches(kind: bv8, payload: seq<bv8>, writerAlign: nat, readerAlign: nat) returns (written: Word, read: Word)
    requires writerAlign < 4 && readerAlign < 4
    ensures written == read == Checksum(0, [kind] + payload)
  {
    var stored := Extend(0, [kind], 0);
    written := Extend(stored, payload, writerAlign);
    read := Extend(0, [kind] + payload, readerAlign);
    ExtendComposes(0, [kind], payload);
  }
}
