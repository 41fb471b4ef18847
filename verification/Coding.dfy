/** Byte strings and the fixed-width and variable-width integers of coding.cc. */
module Coding {

  type Byte = b: int | 0 <= b < 256

  const WORD: int := 0x1_0000_0000
  const DWORD: int := 0x1_0000_0000_0000_0000

  type Word = w: int | 0 <= w < WORD

  type Bytes = seq<Byte>

  // ---------------------------------------------------------------- marks

  // Codecs are passed around as function values, with a fact that says what they are at every input.
  // Such a fact is put to use only at inputs that carry a mark, one predicate for each type of input,
  // which holds of all of them: asserting the mark applies the fact there, and nowhere else.

  predicate Ix(i: int) {
    i >= 0
  }

  predicate IsInput(s: Bytes) {
    |s| >= 0
  }

  // ---------------------------------------------------------------- fixed-width integers

  /** The low `n` bytes of a number, lowest first. */
  function LittleEndian(w: nat, n: nat): (r: Bytes)
    ensures |r| == n
  {
    if n == 0 then [] else [w % 256] + LittleEndian(w / 256, n - 1)
  }

  function FromLittleEndian(s: Bytes): nat {
    if s == [] then 0 else s[0] + 256 * FromLittleEndian(s[1..])
  }

  function Pow256(n: nat): nat {
    if n == 0 then 1 else 256 * Pow256(n - 1)
  }

  lemma {:induction false} LittleEndianRoundTrip(w: nat, n: nat)
    requires w < Pow256(n)
    ensures FromLittleEndian(LittleEndian(w, n)) == w
    decreases n
  {
    if n > 0 {
      LittleEndianRoundTrip(w / 256, n - 1);
      assert LittleEndian(w, n)[1..] == LittleEndian(w / 256, n - 1);
    }
  }

  lemma {:induction false} LittleEndianUnique(s: Bytes)
    ensures FromLittleEndian(s) < Pow256(|s|) && LittleEndian(FromLittleEndian(s), |s|) == s
    decreases |s|
  {
    if s != [] {
      LittleEndianUnique(s[1..]);
      assert s == [s[0]] + s[1..];
    }
  }

  lemma Powers()
    ensures Pow256(4) == WORD && Pow256(8) == DWORD
  {
    assert Pow256(2) == 65536 && Pow256(4) == 65536 * Pow256(2);
    assert Pow256(6) == 65536 * Pow256(4) && Pow256(8) == 65536 * Pow256(6);
  }

  /** EncodeFixed32 and EncodeFixed64. */
  function Fixed32(w: Word): (r: Bytes)
    ensures |r| == 4
  {
    LittleEndian(w, 4)
  }

  function DecodeFixed32(s: Bytes): Word
    requires |s| == 4
  {
    LittleEndianUnique(s);
    Powers();
    FromLittleEndian(s)
  }

  function Fixed64(w: nat): (r: Bytes)
    ensures |r| == 8
  {
    LittleEndian(w, 8)
  }

  function DecodeFixed64(s: Bytes): nat
    requires |s| == 8
  {
    FromLittleEndian(s)
  }

  lemma Fixed32RoundTrip(w: Word)
    ensures DecodeFixed32(Fixed32(w)) == w
  {
    Powers();
    LittleEndianRoundTrip(w, 4);
  }

  lemma Fixed64RoundTrip(w: nat)
    requires w < DWORD
    ensures DecodeFixed64(Fixed64(w)) == w
  {
    Powers();
    LittleEndianRoundTrip(w, 8);
  }

  // ---------------------------------------------------------------- stored checksums

  /** crc32c::Mask: rotate right by 15 bits and add a constant. */
  function Mask(crc: Word): Word {
    (crc / 0x8000 + (crc % 0x8000) * 0x2_0000 + 0xa282ead8) % WORD
  }

  /** crc32c::Unmask. */
  function Unmask(m: Word): Word {
    var rot := (m - 0xa282ead8) % WORD;
    rot / 0x2_0000 + (rot % 0x2_0000) * 0x8000
  }

  lemma UnmaskMask(crc: Word)
    ensures Unmask(Mask(crc)) == crc
  {
    var rot := crc / 0x8000 + (crc % 0x8000) * 0x2_0000;
    assert 0 <= rot < WORD;
    assert (Mask(crc) - 0xa282ead8) % WORD == rot;
  }

  lemma MaskUnmask(m: Word)
    ensures Mask(Unmask(m)) == m
  {
    var rot := (m - 0xa282ead8) % WORD;
    var hi, lo := rot / 0x2_0000, rot % 0x2_0000;
    assert 0 <= hi < 0x8000 && 0 <= lo < 0x2_0000;
    assert Unmask(m) / 0x8000 == lo && Unmask(m) % 0x8000 == hi;
  }

  /** The reader's comparison of checksums is a comparison of the stored bytes. */
  lemma StoredChecksum(stored: seq<Byte>, crc: Word)
    requires |stored| == 4
    ensures Unmask(DecodeFixed32(stored)) == crc <==> stored == Fixed32(Mask(crc))
  {
    Fixed32RoundTrip(Mask(crc));
    UnmaskMask(crc);
    LittleEndianUnique(stored);
    MaskUnmask(DecodeFixed32(stored));
  }

  // ---------------------------------------------------------------- parsing

  /** What a parser makes of the front of its input. */
  datatype Parsed<T> = Malformed | Got(value: T, rest: Bytes)

  // ---------------------------------------------------------------- varints

  /** Seven bits a byte, lowest first; the high bit says that more follow. */
  function Varint(v: nat): (r: Bytes)
    ensures |r| >= 1
    decreases v
  {
    if v < 128 then [v] else [128 + v % 128] + Varint(v / 128)
  }

  /** Reading at most `max` bytes. */
  function GetVarint(s: Bytes, max: nat): (r: Parsed<nat>)
    ensures r.Got? ==> |r.rest| < |s|
  {
    if s == [] || max == 0 then Malformed
    else if s[0] < 128 then Got(s[0], s[1..])
    else
      match GetVarint(s[1..], max - 1)
      case Malformed => Malformed
      case Got(v, rest) => Got(s[0] - 128 + 128 * v, rest)
  }

  function Pow128(k: nat): nat {
    if k == 0 then 1 else 128 * Pow128(k - 1)
  }

  lemma {:induction false} VarintLength(v: nat, k: nat)
    requires k >= 1 && v < Pow128(k)
    ensures |Varint(v)| <= k
  {
    if v >= 128 { VarintLength(v / 128, k - 1); }
  }

  lemma {:induction false} VarintRoundTrip(v: nat, max: nat, rest: Bytes)
    requires |Varint(v)| <= max
    ensures GetVarint(Varint(v) + rest, max) == Got(v, rest)
    decreases v
  {
    var s := Varint(v) + rest;
    if v >= 128 {
      VarintRoundTrip(v / 128, max - 1, rest);
      assert s[1..] == Varint(v / 128) + rest;
    } else {
      assert s[1..] == rest;
    }
  }

  /** EncodeVarint64's loop. */
  method PutVarint(dst: Bytes, value: nat) returns (r: Bytes)
    ensures r == dst + Varint(value)
  {
    r := dst;
    var v := value;
    while v >= 128
      invariant r + Varint(v) == dst + Varint(value)
    {
      ghost var tail := Varint(v / 128);
      assert Varint(v) == [128 + v % 128] + tail;
      assert r + ([128 + v % 128] + tail) == r + [128 + v % 128] + tail;
      r := r + [128 + v % 128];
      v := v / 128;
    }
    r := r + [v];
  }

  ghost function Scaled(p: Parsed<nat>, weight: nat, plus: nat): Parsed<nat> {
    if p.Malformed? then Malformed else Got(plus + weight * p.value, p.rest)
  }

  /** The loop of GetVarint32Ptr and GetVarint64Ptr, which allow 5 and 10 bytes. */
  method ReadVarint(s: Bytes, max: nat) returns (r: Parsed<nat>)
    ensures r == GetVarint(s, max)
  {
    var i: nat, result: nat, weight: nat := 0, 0, 1;
    while i < max && i < |s|
      invariant i <= max && i <= |s|
      invariant Scaled(GetVarint(s[i..], max - i), weight, result) == GetVarint(s, max)
    {
      ReadStep(s, i, max, weight, result);
      var part := weight * (s[i] as int % 128);
      if s[i] < 128 {
        return Got(result + part, s[i + 1..]);
      }
      result := result + part;
      weight := weight * 128;
      i := i + 1;
    }
    r := Malformed;
  }

  lemma ReadStep(s: Bytes, i: nat, max: nat, weight: nat, result: nat)
    requires i < max && i < |s|
    ensures var part := weight * (s[i] as int % 128);
            Scaled(GetVarint(s[i..], max - i), weight, result) ==
            if s[i] < 128 then Got(result + part, s[i + 1..])
            else Scaled(GetVarint(s[i + 1..], max - i - 1), weight * 128, result + part)
  {
    assert s[i..][1..] == s[i + 1..];
    var p := GetVarint(s[i + 1..], max - i - 1);
    if s[i] >= 128 && p.Got? { Distribute(result, weight, s[i] as int % 128, p.value); }
  }

  lemma Distribute(a: nat, w: nat, b: nat, v: nat)
    ensures a + w * (b + 128 * v) == a + w * b + (w * 128) * v
  {
    assert w * (b + 128 * v) == w * b + w * (128 * v);
  }

  /** 32-bit values take at most five bytes, 64-bit values at most ten. */
  lemma VarintFits(v: nat)
    ensures v < WORD ==> |Varint(v)| <= 5
    ensures v < DWORD ==> |Varint(v)| <= 10
  {
    assert Pow128(5) == 0x8_0000_0000;
    assert Pow128(10) == Pow128(5) * Pow128(5) by {
      assert Pow128(6) == 128 * Pow128(5) && Pow128(7) == 128 * Pow128(6) && Pow128(8) == 128 * Pow128(7);
      assert Pow128(9) == 128 * Pow128(8) && Pow128(10) == 128 * Pow128(9);
    }
    if v < WORD { VarintLength(v, 5); }
    if v < DWORD { VarintLength(v, 10); }
  }

  function GetVarint32(s: Bytes): (r: Parsed<nat>)
    ensures r.Got? ==> |r.rest| < |s| && r.value < WORD
  {
    match GetVarint(s, 5)
    case Malformed => Malformed
    case Got(v, rest) => Got(v % WORD, rest)     // the shift drops what does not fit
  }

  function GetVarint64(s: Bytes): (r: Parsed<nat>)
    ensures r.Got? ==> |r.rest| < |s| && r.value < DWORD
  {
    match GetVarint(s, 10)
    case Malformed => Malformed
    case Got(v, rest) => Got(v % DWORD, rest)
  }

  lemma SmallMod(v: nat, m: nat)
    requires v < m
    ensures v % m == v
  {
  }

  lemma Varint32RoundTrip(v: nat, rest: Bytes)
    requires v < WORD
    ensures GetVarint32(Varint(v) + rest) == Got(v, rest)
  {
    assert |Varint(v)| <= 5 by { VarintFits(v); }
    VarintRoundTrip(v, 5, rest);
    SmallMod(v, WORD);
  }

  lemma Varint64RoundTrip(v: nat, rest: Bytes)
    requires v < DWORD
    ensures GetVarint64(Varint(v) + rest) == Got(v, rest)
  {
    assert |Varint(v)| <= 10 by { VarintFits(v); }
    VarintRoundTrip(v, 10, rest);
    SmallMod(v, DWORD);
  }

  // ---------------------------------------------------------------- length-prefixed slices

  function Prefixed(s: Bytes): Bytes {
    Varint(|s|) + s
  }

  function GetPrefixed(s: Bytes): (r: Parsed<Bytes>)
    ensures r.Got? ==> |r.rest| < |s| && |r.value| < |s|
  {
    match GetVarint32(s)
    case Malformed => Malformed
    case Got(n, rest) => if n <= |rest| then Got(rest[..n], rest[n..]) else Malformed
  }

  lemma PrefixedRoundTrip(s: Bytes, rest: Bytes)
    requires |s| < WORD
    ensures GetPrefixed(Prefixed(s) + rest) == Got(s, rest)
  {
    assert Prefixed(s) + rest == Varint(|s|) + (s + rest);
    Varint32RoundTrip(|s|, s + rest);
    assert (s + rest)[..|s|] == s && (s + rest)[|s|..] == rest;
  }

  // ---------------------------------------------------------------- items one after the other

  function Flat<T>(enc: T -> Bytes, xs: seq<T>): Bytes {
    if xs == [] then [] else Flat(enc, xs[..|xs| - 1]) + enc(xs[|xs| - 1])
  }

  lemma {:induction false} FlatBoth<T>(enc: T -> Bytes, a: seq<T>, b: seq<T>)
    ensures Flat(enc, a + b) == Flat(enc, a) + Flat(enc, b)
    decreases |b|
  {
    if b == [] {
      assert a + b == a;
    } else {
      var t, x := b[..|b| - 1], b[|b| - 1];
      FlatBoth(enc, a, t);
      assert (a + b)[..|a + b| - 1] == a + t && (a + b)[|a + b| - 1] == x;
      assert Flat(enc, a) + (Flat(enc, t) + enc(x)) == Flat(enc, a) + Flat(enc, t) + enc(x);
    }
  }

  lemma FlatMore<T>(enc: T -> Bytes, before: seq<T>, xs: seq<T>, i: nat)
    requires i < |xs|
    ensures Flat(enc, before + xs[..i + 1]) == Flat(enc, before + xs[..i]) + enc(xs[i])
  {
    assert (before + xs[..i + 1])[..|before| + i] == before + xs[..i];
  }

  // ---------------------------------------------------------------- reading items until the end

  type Parser<T> = Bytes -> Parsed<T>

  /** The items read, and whether the input was nothing but items. */
  datatype Walk<T> = Walk(items: seq<T>, ok: bool)

  ghost predicate Shrinks<T>(get: Parser<T>) {
    forall s :: get(s).Got? ==> |get(s).rest| < |s|
  }

  ghost function ParseAll<T>(get: Parser<T>, s: Bytes, done: seq<T>): Walk<T>
    requires Shrinks(get)
    decreases |s|
  {
    if s == [] then Walk(done, true)
    else
      match get(s)
      case Malformed => Walk(done, false)
      case Got(x, rest) => ParseAll(get, rest, done + [x])
  }

  /** An item is read back whatever follows it. */
  ghost predicate ItemReadsBack<T>(enc: T -> Bytes, get: Parser<T>, x: T) {
    enc(x) != [] && forall rest :: get(enc(x) + rest) == Got(x, rest)
  }

  lemma {:induction false} FlatParses<T>(enc: T -> Bytes, get: Parser<T>, xs: seq<T>, rest: Bytes, done: seq<T>)
    requires Shrinks(get) && forall x :: x in xs ==> ItemReadsBack(enc, get, x)
    ensures ParseAll(get, Flat(enc, xs) + rest, done) == ParseAll(get, rest, done + xs)
    decreases |xs|
  {
    if xs == [] {
      assert Flat(enc, xs) + rest == rest && done + xs == done;
    } else {
      var init, x := xs[..|xs| - 1], xs[|xs| - 1];
      assert Flat(enc, xs) + rest == Flat(enc, init) + (enc(x) + rest);
      FlatParses(enc, get, init, enc(x) + rest, done);
      assert ItemReadsBack(enc, get, x);
      assert done + init + [x] == done + xs;
    }
  }
}
