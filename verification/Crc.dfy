/** CRC-32C by four interleaved strides: crc32c.cc. The loops are proved for any linear byte step
    over any commutative addition; CrcTables shows that the polynomial and the tables are one. */
module Crc {

  type Word = bv32

  /** Addition (exclusive or), the effect of one zero byte, the effect of sixteen, and a byte
      shifted left by some bytes. */
  datatype Ops = Ops(plus: (Word, Word) -> Word, act: Word -> Word, stride: Word -> Word, at: (bv8, nat) -> Word, zero: Word)

  // Marks: the laws of the operations are used only at the words these are asserted of.

  predicate Input(c: Word) {
    c == c
  }

  predicate Pair(a: Word, b: Word) {
    a == a && b == b
  }

  predicate Tri(a: Word, b: Word, c: Word) {
    a == a && b == b && c == c
  }

  predicate Shift(b: bv8, k: nat) {
    b == b && k >= 0
  }

  type Plus = (Word, Word) -> Word
  type Map = Word -> Word

  /** A map applied `n` times. */
  function Times(f: Map, n: nat, x: Word): Word {
    if n == 0 then x else f(Times(f, n - 1, x))
  }

  ghost predicate Linear(plus: Plus, f: Map) {
    forall a: Word, b: Word {:trigger Pair(a, b)} :: Pair(a, b) ==> f(plus(a, b)) == plus(f(a), f(b))
  }

  lemma {:induction false} TimesLinear(plus: Plus, f: Map, n: nat, x: Word, y: Word)
    requires Linear(plus, f)
    ensures Times(f, n, plus(x, y)) == plus(Times(f, n, x), Times(f, n, y))
    decreases n
  {
    if n > 0 {
      TimesLinear(plus, f, n - 1, x, y);
      assert Pair(Times(f, n - 1, x), Times(f, n - 1, y));
    }
  }

  lemma {:induction false} TimesAdd(f: Map, m: nat, n: nat, x: Word)
    ensures Times(f, m, Times(f, n, x)) == Times(f, m + n, x)
    decreases m
  {
    if m > 0 { TimesAdd(f, m - 1, n, x); }
  }

  lemma {:induction false} TimesTimes(f: Map, g: Map, k: nat, n: nat, x: Word)
    requires forall c: Word {:trigger Input(c)} :: Input(c) ==> f(c) == Times(g, k, c)
    ensures Times(f, n, x) == Times(g, k * n, x)
    decreases n
  {
    if n > 0 {
      TimesTimes(f, g, k, n - 1, x);
      assert Input(Times(f, n - 1, x));
      TimesAdd(g, k, k * (n - 1), x);
      assert k + k * (n - 1) == k * n;
    } else {
      assert k * n == 0;
    }
  }

  /** `n` zero bytes. */
  ghost function Act(o: Ops, n: nat, x: Word): Word {
    Times(o.act, n, x)
  }

  /** Addition is associative and commutative, with a zero, and a stride is sixteen zero bytes. */
  ghost predicate Adds(o: Ops) {
    forall a: Word, b: Word, c: Word {:trigger Tri(a, b, c)} :: Tri(a, b, c) ==>
      && o.plus(o.plus(a, b), c) == o.plus(a, o.plus(b, c)) && o.plus(a, b) == o.plus(b, a) && o.plus(o.zero, a) == a
      && o.stride(a) == Act(o, 16, a)
  }

  /** A zero byte moves a byte down. */
  ghost predicate MovesDown(o: Ops) {
    forall b: bv8, k: nat {:trigger Shift(b, k)} :: Shift(b, k) && 0 < k < 4 ==> o.act(o.at(b, k)) == o.at(b, k - 1)
  }

  ghost predicate Laws(o: Ops) {
    Adds(o) && Linear(o.plus, o.act) && MovesDown(o)
  }

  // ---------------------------------------------------------------- the checksum, byte by byte

  ghost function Take(o: Ops, l: Word, b: bv8): Word {
    o.act(o.plus(l, o.at(b, 0)))
  }

  ghost function Fold(o: Ops, l: Word, data: seq<bv8>): Word {
    if data == [] then l else Take(o, Fold(o, l, data[..|data| - 1]), data[|data| - 1])
  }

  lemma {:induction false} FoldBoth(o: Ops, l: Word, a: seq<bv8>, b: seq<bv8>)
    ensures Fold(o, l, a + b) == Fold(o, Fold(o, l, a), b)
    decreases |b|
  {
    if b == [] {
      assert a + b == a;
    } else {
      FoldBoth(o, l, a, b[..|b| - 1]);
      assert (a + b)[..|a + b| - 1] == a + b[..|b| - 1];
    }
  }

  // ---------------------------------------------------------------- linear algebra

  lemma ActLinear(o: Ops, n: nat, x: Word, y: Word)
    requires Laws(o)
    ensures Act(o, n, o.plus(x, y)) == o.plus(Act(o, n, x), Act(o, n, y))
  {
    TimesLinear(o.plus, o.act, n, x, y);
  }

  lemma ActAdd(o: Ops, m: nat, n: nat, x: Word)
    ensures Act(o, m, Act(o, n, x)) == Act(o, m + n, x)
  {
    TimesAdd(o.act, m, n, x);
  }

  /** ReadUint32LE. */
  function WordOf(o: Ops, a: bv8, b: bv8, c: bv8, d: bv8): Word {
    o.plus(o.at(a, 0), o.plus(o.at(b, 1), o.plus(o.at(c, 2), o.at(d, 3))))
  }

  /** Moving the first byte of a word into the sum. */
  lemma Peel(o: Ops, l: Word, x: Word, rest: Word)
    requires Laws(o)
    ensures o.act(o.plus(l, o.plus(x, rest))) == o.plus(o.act(o.plus(l, x)), o.act(rest))
  {
    assert Tri(l, x, rest) && Pair(o.plus(l, x), rest);
  }

  lemma ActPlus(o: Ops, x: Word, y: Word)
    requires Laws(o)
    ensures o.act(o.plus(x, y)) == o.plus(o.act(x), o.act(y))
  {
    assert Pair(x, y);
  }

  /** Four bytes at once. */
  lemma TakesWord(o: Ops, l: Word, a: bv8, b: bv8, c: bv8, d: bv8)
    requires Laws(o)
    ensures Take(o, Take(o, Take(o, Take(o, l, a), b), c), d) == Act(o, 4, o.plus(l, WordOf(o, a, b, c, d)))
  {
    assert Shift(b, 1) && Shift(c, 2) && Shift(c, 1) && Shift(d, 3) && Shift(d, 2) && Shift(d, 1);
    var cd := o.plus(o.at(c, 2), o.at(d, 3));
    Peel(o, l, o.at(a, 0), o.plus(o.at(b, 1), cd));
    ActPlus(o, o.at(b, 1), cd);
    ActPlus(o, o.at(c, 2), o.at(d, 3));
    var l1 := Take(o, l, a);
    var cd1 := o.plus(o.at(c, 1), o.at(d, 2));
    Peel(o, l1, o.at(b, 0), cd1);
    ActPlus(o, o.at(c, 1), o.at(d, 2));
    var l2 := Take(o, l1, b);
    Peel(o, l2, o.at(c, 0), o.at(d, 1));
    ActFour(o, o.plus(l, WordOf(o, a, b, c, d)));
  }

  lemma ActFour(o: Ops, x: Word)
    ensures Act(o, 4, x) == o.act(o.act(o.act(o.act(x))))
  {
    assert Times(o.act, 2, x) == o.act(Times(o.act, 1, x)) == o.act(o.act(x));
    assert Times(o.act, 3, x) == o.act(Times(o.act, 2, x));
  }

  lemma FoldStep(o: Ops, l: Word, data: seq<bv8>, i: nat)
    requires i < |data|
    ensures Fold(o, l, data[..i + 1]) == Take(o, Fold(o, l, data[..i]), data[i])
  {
    assert data[..i + 1][..i] == data[..i];
  }

  lemma FoldsWord(o: Ops, l: Word, data: seq<bv8>, i: nat)
    requires Laws(o) && i + 4 <= |data|
    ensures Fold(o, l, data[..i + 4]) == Act(o, 4, o.plus(Fold(o, l, data[..i]), WordOf(o, data[i], data[i + 1], data[i + 2], data[i + 3])))
  {
    FoldStep(o, l, data, i);
    FoldStep(o, l, data, i + 1);
    FoldStep(o, l, data, i + 2);
    FoldStep(o, l, data, i + 3);
    TakesWord(o, Fold(o, l, data[..i]), data[i], data[i + 1], data[i + 2], data[i + 3]);
  }

  // ---------------------------------------------------------------- four strides

  /** What four partial results stand for: the combination at the end of Extend. */
  ghost function Pending(o: Ops, a: Word, b: Word, c: Word, d: Word): Word {
    Act(o, 4, o.plus(Act(o, 4, o.plus(Act(o, 4, o.plus(Act(o, 4, a), b)), c)), d))
  }

  /** The same as a sum: each result moved past the words after it. */
  ghost function Spread(o: Ops, a: Word, b: Word, c: Word, d: Word): Word {
    o.plus(Act(o, 16, a), o.plus(Act(o, 12, b), o.plus(Act(o, 8, c), Act(o, 4, d))))
  }

  lemma Move(o: Ops, n: nat, x: Word, y: Word)
    requires Laws(o)
    ensures Act(o, 4, o.plus(Act(o, n, x), y)) == o.plus(Act(o, n + 4, x), Act(o, 4, y))
  {
    ActLinear(o, 4, Act(o, n, x), y);
    ActAdd(o, 4, n, x);
  }

  lemma Reassoc(o: Ops, a: Word, b: Word, c: Word)
    requires Laws(o)
    ensures o.plus(o.plus(a, b), c) == o.plus(a, o.plus(b, c)) && o.plus(a, b) == o.plus(b, a)
  {
    assert Tri(a, b, c);
  }

  lemma PendingSpreads(o: Ops, a: Word, b: Word, c: Word, d: Word)
    requires Laws(o)
    ensures Pending(o, a, b, c, d) == Spread(o, a, b, c, d)
  {
    var p1 := o.plus(Act(o, 8, a), Act(o, 4, b));
    Move(o, 4, a, b);
    ActLinear(o, 4, p1, c);
    ActLinear(o, 4, Act(o, 8, a), Act(o, 4, b));
    ActAdd(o, 4, 8, a);
    ActAdd(o, 4, 4, b);
    var p2 := o.plus(o.plus(Act(o, 12, a), Act(o, 8, b)), Act(o, 4, c));
    assert Act(o, 4, o.plus(p1, c)) == p2;
    ActLinear(o, 4, p2, d);
    ActLinear(o, 4, o.plus(Act(o, 12, a), Act(o, 8, b)), Act(o, 4, c));
    ActLinear(o, 4, Act(o, 12, a), Act(o, 8, b));
    ActAdd(o, 4, 12, a);
    ActAdd(o, 4, 8, b);
    ActAdd(o, 4, 4, c);
    var x, y, z, w := Act(o, 16, a), Act(o, 12, b), Act(o, 8, c), Act(o, 4, d);
    Reassoc(o, o.plus(x, y), z, w);
    Reassoc(o, x, y, o.plus(z, w));
  }

  /** STEP4 and the rotation of the four results take in one word. */
  lemma StrideTakesWord(o: Ops, a: Word, b: Word, c: Word, d: Word, w: Word)
    requires Laws(o)
    ensures Pending(o, b, c, d, o.plus(w, o.stride(a))) == Act(o, 4, o.plus(Pending(o, a, b, c, d), w))
  {
    var s := Act(o, 16, a);
    assert Tri(a, a, a);
    PendingSpreads(o, b, c, d, o.plus(w, s));
    PendingSpreads(o, a, b, c, d);
    var x, y, z := Act(o, 12, b), Act(o, 8, c), Act(o, 4, d);
    SpreadSum(o, s, x, y, z, w);
    ActLinear(o, 4, x, o.plus(y, o.plus(z, o.plus(w, s))));
    ActLinear(o, 4, y, o.plus(z, o.plus(w, s)));
    ActLinear(o, 4, z, o.plus(w, s));
    ActAdd(o, 4, 12, b);
    ActAdd(o, 4, 8, c);
    ActAdd(o, 4, 4, d);
  }

  /** Moving the first term of a sum to its end. */
  lemma SpreadSum(o: Ops, s: Word, x: Word, y: Word, z: Word, w: Word)
    requires Laws(o)
    ensures o.plus(o.plus(s, o.plus(x, o.plus(y, z))), w) == o.plus(x, o.plus(y, o.plus(z, o.plus(w, s))))
  {
    var yz := o.plus(y, z);
    Reassoc(o, s, o.plus(x, yz), w);
    Reassoc(o, o.plus(x, yz), w, s);
    Reassoc(o, s, o.plus(o.plus(x, yz), w), s);
    Reassoc(o, x, yz, o.plus(w, s));
    Reassoc(o, y, z, o.plus(w, s));
  }

  // ---------------------------------------------------------------- the loops

  function Load(o: Ops, data: seq<bv8>, p: nat): Word
    requires p + 4 <= |data|
  {
    WordOf(o, data[p], data[p + 1], data[p + 2], data[p + 3])
  }

  /** STEP1, until `p` reaches `stop`. */
  method Bytes(o: Ops, start: Word, ghost from: Word, data: seq<bv8>, p: nat, stop: nat) returns (l: Word)
    requires p <= stop <= |data| && start == Fold(o, from, data[..p])
    ensures l == Fold(o, from, data[..stop])
  {
    l := start;
    for i := p to stop
      invariant l == Fold(o, from, data[..i])
    {
      FoldStep(o, from, data, i);
      l := o.act(o.plus(l, o.at(data[i], 0)));
    }
  }

  /** STEP4W. */
  method Step4W(o: Ops, l: Word, w: Word) returns (r: Word)
    ensures r == Act(o, 4, o.plus(w, l))
  {
    r := o.plus(w, l);
    ghost var x := r;
    for i := 0 to 4
      invariant r == Times(o.act, i, x)
    {
      r := o.act(r);
    }
  }

  /** The first sixteen bytes become four partial results. */
  lemma LoadsStrides(o: Ops, from: Word, data: seq<bv8>, p: nat)
    requires Laws(o) && p + 16 <= |data|
    ensures Pending(o, o.plus(Load(o, data, p), Fold(o, from, data[..p])), Load(o, data, p + 4), Load(o, data, p + 8), Load(o, data, p + 12)) ==
            Fold(o, from, data[..p + 16])
  {
    FoldsWord(o, from, data, p);
    FoldsWord(o, from, data, p + 4);
    FoldsWord(o, from, data, p + 8);
    FoldsWord(o, from, data, p + 12);
    assert Tri(Load(o, data, p), Fold(o, from, data[..p]), o.zero);
  }

  /** One word through the first of four strides. */
  lemma WordMovesOn(o: Ops, from: Word, data: seq<bv8>, p: nat, a: Word, b: Word, c: Word, d: Word)
    requires Laws(o) && p + 4 <= |data| && Pending(o, a, b, c, d) == Fold(o, from, data[..p])
    ensures Pending(o, b, c, d, o.plus(Load(o, data, p), o.stride(a))) == Fold(o, from, data[..p + 4])
  {
    FoldsWord(o, from, data, p);
    StrideTakesWord(o, a, b, c, d, Load(o, data, p));
  }

  /** The four results stand for the first `p` bytes. */
  ghost predicate Holds(o: Ops, from: Word, data: seq<bv8>, p: nat, c: Strands)
    requires p <= |data|
  {
    Pending(o, c.0, c.1, c.2, c.3) == Fold(o, from, data[..p])
  }

  type Strands = (Word, Word, Word, Word)

  /** STEP4 on the first result, and the rotation. */
  method TakeWord(o: Ops, ghost from: Word, data: seq<bv8>, p: nat, c: Strands) returns (r: Strands)
    requires Laws(o) && p + 4 <= |data| && Holds(o, from, data, p, c)
    ensures Holds(o, from, data, p + 4, r)
  {
    WordMovesOn(o, from, data, p, c.0, c.1, c.2, c.3);
    r := (c.1, c.2, c.3, o.plus(Load(o, data, p), o.stride(c.0)));
  }

  /** STEP16: each result takes one word, which brings the rotation back to its start. */
  method TakeSwath(o: Ops, ghost from: Word, data: seq<bv8>, p: nat, c: Strands) returns (r: Strands)
    requires Laws(o) && p + 16 <= |data| && Holds(o, from, data, p, c)
    ensures Holds(o, from, data, p + 16, r)
  {
    r := TakeWord(o, from, data, p, c);
    r := TakeWord(o, from, data, p + 4, r);
    r := TakeWord(o, from, data, p + 8, r);
    r := TakeWord(o, from, data, p + 12, r);
  }

  /** One 16-byte swath at a time. */
  method Swaths(o: Ops, ghost from: Word, data: seq<bv8>, first: nat, start: Strands) returns (c: Strands, p: nat)
    requires Laws(o) && first <= |data| && Holds(o, from, data, first, start)
    ensures first <= p <= |data| && |data| - p < 16 && Holds(o, from, data, p, c)
  {
    c, p := start, first;
    while |data| - p >= 16
      invariant first <= p <= |data| && Holds(o, from, data, p, c)
    {
      c := TakeSwath(o, from, data, p, c);
      p := p + 16;
    }
  }

  /** One word at a time. */
  method Words(o: Ops, ghost from: Word, data: seq<bv8>, first: nat, start: Strands) returns (c: Strands, p: nat)
    requires Laws(o) && first <= |data| && Holds(o, from, data, first, start)
    ensures first <= p <= |data| && |data| - p < 4 && Holds(o, from, data, p, c)
  {
    c, p := start, first;
    while |data| - p >= 4
      invariant first <= p <= |data| && Holds(o, from, data, p, c)
    {
      c := TakeWord(o, from, data, p, c);
      p := p + 4;
    }
  }

  /** The middle of Extend: whole words through four strides, combined at the end. */
  method Strides(o: Ops, start: Word, ghost from: Word, data: seq<bv8>, first: nat) returns (l: Word, p: nat)
    requires Laws(o) && first + 16 <= |data| && start == Fold(o, from, data[..first])
    ensures first <= p <= |data| && |data| - p < 4 && l == Fold(o, from, data[..p])
  {
    var c := Start(o, start, from, data, first);
    c, p := Swaths(o, from, data, first + 16, c);
    c, p := Words(o, from, data, p, c);
    l := Combine(o, c);
  }

  method Start(o: Ops, start: Word, ghost from: Word, data: seq<bv8>, p: nat) returns (c: Strands)
    requires Laws(o) && p + 16 <= |data| && start == Fold(o, from, data[..p])
    ensures Holds(o, from, data, p + 16, c)
  {
    LoadsStrides(o, from, data, p);
    c := (o.plus(Load(o, data, p), start), Load(o, data, p + 4), Load(o, data, p + 8), Load(o, data, p + 12));
  }

  method Combine(o: Ops, c: Strands) returns (l: Word)
    requires Laws(o)
    ensures l == Pending(o, c.0, c.1, c.2, c.3)
  {
    l := o.zero;
    Reassoc(o, c.0, l, l);
    assert Tri(c.0, c.0, c.0);
    l := Step4W(o, l, c.0);
    Reassoc(o, c.1, l, l);
    l := Step4W(o, l, c.1);
    Reassoc(o, c.2, l, l);
    l := Step4W(o, l, c.2);
    Reassoc(o, c.3, l, l);
    l := Step4W(o, l, c.3);
  }

  /** Extend between its two inversions, for data that starts `align` bytes before a word
      boundary: the result is that of going byte by byte. */
  method ExtendBody(o: Ops, start: Word, data: seq<bv8>, align: nat) returns (l: Word)
    requires Laws(o) && align < 4
    ensures l == Fold(o, start, data)
  {
    l := start;
    var p := 0;
    assert data[..0] == [];
    if align <= |data| {
      l := Bytes(o, l, start, data, p, align);
      p := align;
    }
    if |data| - p >= 16 {
      l, p := Strides(o, l, start, data, p);
    }
    l := Bytes(o, l, start, data, p, |data|);
    assert data[..|data|] == data;
  }
}
