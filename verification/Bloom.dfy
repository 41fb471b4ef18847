/** The Bloom filter policy of bloom.cc, for any 32-bit hash function. */
module Bloom {
  import opened Coding
  import opened FilterBlock

  type Hash = Bytes -> Word32

  type Word32 = Coding.Word

  // ---------------------------------------------------------------- bits

  predicate Bit(x: nat, k: nat) {
    if k == 0 then x % 2 == 1 else Bit(x / 2, k - 1)
  }

  /** `x | (1 << k)`. */
  function SetBit(x: nat, k: nat): nat {
    if k == 0 then x / 2 * 2 + 1 else SetBit(x / 2, k - 1) * 2 + x % 2
  }

  function Pow2(n: nat): nat {
    if n == 0 then 1 else 2 * Pow2(n - 1)
  }

  lemma {:induction false} SetBitFits(x: nat, k: nat, w: nat)
    requires k < w && x < Pow2(w)
    ensures SetBit(x, k) < Pow2(w)
    decreases k
  {
    if k > 0 { SetBitFits(x / 2, k - 1, w - 1); }
  }

  lemma {:induction false} SetBitSets(x: nat, k: nat)
    ensures Bit(SetBit(x, k), k)
    decreases k
  {
    if k > 0 { SetBitSets(x / 2, k - 1); }
  }

  lemma {:induction false} SetBitKeeps(x: nat, k: nat, j: nat)
    requires Bit(x, j)
    ensures Bit(SetBit(x, k), j)
    decreases k
  {
    if k > 0 && j > 0 { SetBitKeeps(x / 2, k - 1, j - 1); }
  }

  // ---------------------------------------------------------------- the bit array

  predicate BitAt(a: Bytes, p: nat)
    requires p < 8 * |a|
  {
    Bit(a[p / 8], p % 8)
  }

  function SetBitAt(a: Bytes, p: nat): (r: Bytes)
    requires p < 8 * |a|
    ensures |r| == |a|
  {
    SetBitFits(a[p / 8], p % 8, 8);
    assert Pow2(4) == 16 && Pow2(8) == 16 * Pow2(4);
    a[p / 8 := SetBit(a[p / 8], p % 8)]
  }

  ghost predicate KeepsBits(a: Bytes, b: Bytes) {
    |a| == |b| && forall p :: 0 <= p < 8 * |a| && BitAt(a, p) ==> BitAt(b, p)
  }

  lemma SetBitAtKeeps(a: Bytes, p: nat)
    requires p < 8 * |a|
    ensures KeepsBits(a, SetBitAt(a, p)) && BitAt(SetBitAt(a, p), p)
  {
    SetBitSets(a[p / 8], p % 8);
    forall q | 0 <= q < 8 * |a| && BitAt(a, q) ensures BitAt(SetBitAt(a, p), q) {
      if q / 8 == p / 8 { SetBitKeeps(a[p / 8], p % 8, q % 8); }
    }
  }

  // ---------------------------------------------------------------- probes

  /** The step of the double hashing: the hash rotated right by 17 bits. */
  function Delta(h: Word32): Word32 {
    h / 0x2_0000 + h % 0x2_0000 * 0x8000
  }

  /** Set `n` bits from hash `h` on. */
  function SetProbes(a: Bytes, h: Word32, delta: Word32, n: nat): (r: Bytes)
    requires |a| > 0
    ensures |r| == |a|
    decreases n
  {
    if n == 0 then a else SetProbes(SetBitAt(a, h % (8 * |a|)), (h + delta) % WORD, delta, n - 1)
  }

  predicate HasProbes(a: Bytes, h: Word32, delta: Word32, n: nat)
    requires |a| > 0
    decreases n
  {
    n == 0 || (BitAt(a, h % (8 * |a|)) && HasProbes(a, (h + delta) % WORD, delta, n - 1))
  }

  lemma {:induction false} KeepsProbes(a: Bytes, b: Bytes, h: Word32, delta: Word32, n: nat)
    requires |a| > 0 && KeepsBits(a, b) && HasProbes(a, h, delta, n)
    ensures HasProbes(b, h, delta, n)
    decreases n
  {
    if n > 0 { KeepsProbes(a, b, (h + delta) % WORD, delta, n - 1); }
  }

  lemma {:induction false} SetProbesSets(a: Bytes, h: Word32, delta: Word32, n: nat)
    requires |a| > 0
    ensures KeepsBits(a, SetProbes(a, h, delta, n)) && HasProbes(SetProbes(a, h, delta, n), h, delta, n)
    decreases n
  {
    if n > 0 {
      var p := h % (8 * |a|);
      var b := SetBitAt(a, p);
      SetBitAtKeeps(a, p);
      SetProbesSets(b, (h + delta) % WORD, delta, n - 1);
    }
  }

  // ---------------------------------------------------------------- the policy

  function ArraySize(n: nat, bitsPerKey: nat): (bytes: nat)
    ensures bytes >= 8
  {
    var bits := n * bitsPerKey;
    ((if bits < 64 then 64 else bits) + 7) / 8
  }

  function Fill(hash: Hash, a: Bytes, keys: seq<Bytes>, k: nat): (r: Bytes)
    requires |a| > 0
    ensures |r| == |a|
  {
    if keys == [] then a
    else
      var h := hash(keys[|keys| - 1]);
      SetProbes(Fill(hash, a, keys[..|keys| - 1], k), h, Delta(h), k)
  }

  /** The filter of some keys: the bit array and the number of probes. */
  function FilterOf(hash: Hash, bitsPerKey: nat, k: Byte, keys: seq<Bytes>): Bytes {
    Fill(hash, seq(ArraySize(|keys|, bitsPerKey), _ => 0), keys, k) + [k]
  }

  /** The inner loop of CreateFilter. */
  method AddKey(start: Bytes, hashed: Word32, k: nat) returns (a: Bytes)
    requires |start| > 0
    ensures a == SetProbes(start, hashed, Delta(hashed), k)
  {
    a := start;
    var h: Word32 := hashed;
    var delta := Delta(h);
    for j := 0 to k
      invariant |a| == |start| && SetProbes(a, h, delta, k - j) == SetProbes(start, hashed, delta, k)
    {
      a := SetBitAt(a, h % (8 * |a|));
      h := (h + delta) % WORD;
    }
  }

  /** CreateFilter. */
  method CreateFilter(hash: Hash, bitsPerKey: nat, k: Byte, keys: seq<Bytes>) returns (filter: Bytes)
    ensures filter == FilterOf(hash, bitsPerKey, k, keys)
  {
    var a: Bytes := seq(ArraySize(|keys|, bitsPerKey), _ => 0);
    ghost var zeros := a;
    for i := 0 to |keys|
      invariant |a| == |zeros| && a == Fill(hash, zeros, keys[..i], k)
    {
      assert keys[..i + 1][..i] == keys[..i];
      a := AddKey(a, hash(keys[i]), k);
    }
    assert keys[..|keys|] == keys;
    filter := a + [k];
  }

  predicate Matches(hash: Hash, key: Bytes, filter: Bytes) {
    if |filter| < 2 then false
    else
      var k, h := filter[|filter| - 1], hash(key);
      k > 30 || HasProbes(filter[..|filter| - 1], h, Delta(h), k)
  }

  /** KeyMayMatch. */
  method KeyMayMatch(hash: Hash, key: Bytes, filter: Bytes) returns (r: bool)
    ensures r == Matches(hash, key, filter)
  {
    if |filter| < 2 { return false; }
    var a, k := filter[..|filter| - 1], filter[|filter| - 1];
    if k > 30 { return true; }
    var h: Word32 := hash(key);
    var delta := Delta(h);
    ghost var goal := HasProbes(a, h, delta, k);
    for j := 0 to k
      invariant HasProbes(a, h, delta, k - j) == goal
    {
      if !BitAt(a, h % (8 * |a|)) { return false; }
      h := (h + delta) % WORD;
    }
    r := true;
  }

  lemma {:induction false} FillSets(hash: Hash, a: Bytes, keys: seq<Bytes>, k: nat, i: nat)
    requires |a| > 0 && i < |keys|
    ensures var h := hash(keys[i]); HasProbes(Fill(hash, a, keys, k), h, Delta(h), k)
    decreases |keys|
  {
    var init, h := keys[..|keys| - 1], hash(keys[|keys| - 1]);
    var before := Fill(hash, a, init, k);
    SetProbesSets(before, h, Delta(h), k);
    if i < |keys| - 1 {
      FillSets(hash, a, init, k, i);
      KeepsProbes(before, Fill(hash, a, keys, k), hash(keys[i]), Delta(hash(keys[i])), k);
    }
  }

  // ---------------------------------------------------------------- which bits, and when a key matches

  lemma {:induction false} SetBitIs(x: nat, k: nat, j: nat)
    ensures Bit(SetBit(x, k), j) <==> Bit(x, j) || j == k
    decreases k
  {
    if k == 0 {
      Halve(x / 2, 1);
    } else {
      Halve(SetBit(x / 2, k - 1), x % 2);
      if j > 0 { SetBitIs(x / 2, k - 1, j - 1); }
    }
  }

  lemma Halve(x: nat, b: nat)
    requires b < 2
    ensures (x * 2 + b) / 2 == x && (x * 2 + b) % 2 == b
  {
  }

  lemma SetBitAtIs(a: Bytes, p: nat, q: nat)
    requires p < 8 * |a| && q < 8 * |a|
    ensures BitAt(SetBitAt(a, p), q) <==> BitAt(a, q) || q == p
  {
    if q / 8 == p / 8 { SetBitIs(a[p / 8], p % 8, q % 8); }
  }

  /** The hash value of probe `j`. */
  function Hashed(h: Word32, delta: Word32, j: nat): Word32 {
    (h + j * delta) % WORD
  }

  lemma AddOn(x: nat, y: nat)
    ensures (x % WORD + y) % WORD == (x + y) % WORD
  {
  }

  lemma HashedOn(h: Word32, delta: Word32, j: nat)
    ensures Hashed((h + delta) % WORD, delta, j) == Hashed(h, delta, j + 1)
  {
    AddOn(h + delta, j * delta);
    assert (j + 1) * delta == j * delta + delta;
  }

  /** The bit of probe `j` for a hash. */
  function Probe(h: Word32, delta: Word32, j: nat, bits: nat): nat
    requires bits > 0
  {
    Hashed(h, delta, j) % bits
  }

  ghost predicate Probes(h: Word32, delta: Word32, n: nat, bits: nat, p: nat)
    requires bits > 0
  {
    exists j :: 0 <= j < n && Probe(h, delta, j, bits) == p
  }

  lemma ProbesOn(h: Word32, delta: Word32, n: nat, bits: nat, p: nat)
    requires bits > 0 && n > 0
    ensures Probes(h, delta, n, bits, p) <==> p == h % bits || Probes((h + delta) % WORD, delta, n - 1, bits, p)
  {
    assert Probe(h, delta, 0, bits) == h % bits;
    var h' := (h + delta) % WORD;
    if j :| 0 <= j < n && Probe(h, delta, j, bits) == p {
      if j > 0 {
        HashedOn(h, delta, j - 1);
        assert Probe(h', delta, j - 1, bits) == p;
      }
    }
    if j :| 0 <= j < n - 1 && Probe(h', delta, j, bits) == p {
      HashedOn(h, delta, j);
      assert Probe(h, delta, j + 1, bits) == p;
    }
  }

  lemma {:induction false} SetProbesIs(a: Bytes, h: Word32, delta: Word32, n: nat, p: nat)
    requires p < 8 * |a|
    ensures BitAt(SetProbes(a, h, delta, n), p) <==> BitAt(a, p) || Probes(h, delta, n, 8 * |a|, p)
    decreases n
  {
    if n > 0 {
      var bits := 8 * |a|;
      SetBitAtIs(a, h % bits, p);
      SetProbesIs(SetBitAt(a, h % bits), (h + delta) % WORD, delta, n - 1, p);
      ProbesOn(h, delta, n, bits, p);
    }
  }

  lemma {:induction false} HasProbesIs(a: Bytes, h: Word32, delta: Word32, n: nat)
    requires |a| > 0
    ensures HasProbes(a, h, delta, n) <==> forall p :: 0 <= p < 8 * |a| && Probes(h, delta, n, 8 * |a|, p) ==> BitAt(a, p)
    decreases n
  {
    if n > 0 {
      HasProbesIs(a, (h + delta) % WORD, delta, n - 1);
      forall p: nat | p < 8 * |a| ensures Probes(h, delta, n, 8 * |a|, p) <==> p == h % (8 * |a|) || Probes((h + delta) % WORD, delta, n - 1, 8 * |a|, p) {
        ProbesOn(h, delta, n, 8 * |a|, p);
      }
    }
  }

  /** One of the probes of one of the keys is for this bit. */
  ghost predicate SomeProbe(hash: Hash, keys: seq<Bytes>, k: nat, bits: nat, p: nat)
    requires bits > 0
  {
    exists key :: key in keys && Probes(hash(key), Delta(hash(key)), k, bits, p)
  }

  lemma {:induction false} FillIs(hash: Hash, a: Bytes, keys: seq<Bytes>, k: nat, p: nat)
    requires p < 8 * |a|
    ensures BitAt(Fill(hash, a, keys, k), p) <==> BitAt(a, p) || SomeProbe(hash, keys, k, 8 * |a|, p)
    decreases |keys|
  {
    if keys != [] {
      var init, last := keys[..|keys| - 1], keys[|keys| - 1];
      FillIs(hash, a, init, k, p);
      SetProbesIs(Fill(hash, a, init, k), hash(last), Delta(hash(last)), k, p);
      assert keys == init + [last];
      assert forall key :: key in keys <==> key in init || key == last;
    }
  }

  /** Exactly the bits some key probes are set, and the last byte is the number of probes. */
  lemma FilterBits(hash: Hash, bitsPerKey: nat, k: Byte, keys: seq<Bytes>, p: nat)
    requires p < 8 * ArraySize(|keys|, bitsPerKey)
    ensures var f, n := FilterOf(hash, bitsPerKey, k, keys), ArraySize(|keys|, bitsPerKey);
            && |f| == n + 1 && f[n] == k && (BitAt(f[..n], p) <==> SomeProbe(hash, keys, k, 8 * n, p))
  {
    var n := ArraySize(|keys|, bitsPerKey);
    var zeros := seq(n, _ => 0);
    FillIs(hash, zeros, keys, k, p);
    ZeroHasNoBit(p % 8);
    assert FilterOf(hash, bitsPerKey, k, keys)[..n] == Fill(hash, zeros, keys, k);
  }

  lemma {:induction false} ZeroHasNoBit(j: nat)
    ensures !Bit(0, j)
  {
    if j > 0 { ZeroHasNoBit(j - 1); }
  }

  /** The array has the bits asked for, at least 64, in as few bytes as hold them. */
  lemma ArrayHolds(n: nat, bitsPerKey: nat)
    ensures var bytes, bits := ArraySize(n, bitsPerKey), n * bitsPerKey;
            8 * bytes >= bits && 8 * bytes >= 64 && (8 * (bytes - 1) < bits || 8 * (bytes - 1) < 64)
  {
  }

  /** A key matches exactly when all its probes hit set bits, or the filter is of a kind not known. */
  lemma MatchesIff(hash: Hash, key: Bytes, filter: Bytes)
    requires |filter| >= 2 && filter[|filter| - 1] <= 30
    ensures var a, k, h := filter[..|filter| - 1], filter[|filter| - 1], hash(key);
            Matches(hash, key, filter) <==> forall j :: 0 <= j < k ==> BitAt(a, Probe(h, Delta(h), j, 8 * |a|))
  {
    var a, k, h := filter[..|filter| - 1], filter[|filter| - 1], hash(key);
    HasProbesIs(a, h, Delta(h), k);
    forall j | 0 <= j < k ensures Probes(h, Delta(h), k, 8 * |a|, Probe(h, Delta(h), j, 8 * |a|)) {}
  }

  /** A Bloom filter matches every key it was made from, for any hash function, filter size and
      number of probes. */
  lemma FilterMatches(hash: Hash, bitsPerKey: nat, k: Byte, keys: seq<Bytes>, key: Bytes)
    requires key in keys
    ensures Matches(hash, key, FilterOf(hash, bitsPerKey, k, keys))
  {
    var i :| 0 <= i < |keys| && keys[i] == key;
    var zeros := seq(ArraySize(|keys|, bitsPerKey), _ => 0);
    FillSets(hash, zeros, keys, k, i);
    var filter := FilterOf(hash, bitsPerKey, k, keys);
    assert filter[..|filter| - 1] == Fill(hash, zeros, keys, k);
  }

  /** The policy is sound. */
  lemma BloomIsSound(hash: Hash, bitsPerKey: nat, k: Byte, create: Create<Bytes>, may: May<Bytes>)
    requires forall keys :: create(keys) == FilterOf(hash, bitsPerKey, k, keys)
    requires forall key, filter :: may(key, filter) == Matches(hash, key, filter)
    ensures Sound(create, may)
  {
    forall keys: seq<Bytes>, key | key in keys ensures may(key, create(keys)) { FilterMatches(hash, bitsPerKey, k, keys, key); }
  }

  /** Why the policy goes with a comparator that tells all strings apart: a string the comparator takes
      for another may hash elsewhere, and the other's filter then hides it. */
  lemma BloomTellsApart(a: Bytes, b: Bytes) returns (hash: Hash)
    requires a != b
    ensures !Matches(hash, b, FilterOf(hash, 1, 1, [a]))
  {
    hash := (key: Bytes) => if key == a then 0 else 1;
    var zeros := seq(8, _ => 0);
    assert ArraySize(1, 1) == 8;
    assert [a][..0] == [];
    var bits := SetBitAt(zeros, 0);
    assert Fill(hash, zeros, [a], 1) == SetProbes(zeros, 0, Delta(0), 1) == bits;
    assert bits[0] == 1;
    assert !BitAt(bits, 1);
    var filter := FilterOf(hash, 1, 1, [a]);
    assert filter[..8] == bits;
  }
}
