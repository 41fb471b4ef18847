/** Index keys: the bytewise comparator's separators (comparator.cc) and the internal ones built
    on them (dbformat.cc). */
module Separators {
  import opened Coding
  import opened Keys

  /** Slice::compare: bytes as unsigned numbers, a prefix before the longer string. */
  predicate BytesLess(a: Bytes, b: Bytes) {
    if b == [] then false
    else if a == [] then true
    else a[0] < b[0] || (a[0] == b[0] && BytesLess(a[1..], b[1..]))
  }

  lemma {:induction false} LessAt(a: Bytes, b: Bytes, d: nat)
    requires d < |a| && d < |b| && a[..d] == b[..d] && a[d] < b[d]
    ensures BytesLess(a, b)
    decreases d
  {
    if d > 0 {
      assert a[0] == a[..d][0] == b[..d][0] == b[0];
      assert a[1..][..d - 1] == a[..d][1..] && b[1..][..d - 1] == b[..d][1..];
      LessAt(a[1..], b[1..], d - 1);
    }
  }

  /** How many leading bytes two strings share. */
  function Common(a: Bytes, b: Bytes): (d: nat)
    ensures d <= |a| && d <= |b| && a[..d] == b[..d] && (d < |a| && d < |b| ==> a[d] != b[d])
  {
    if a == [] || b == [] || a[0] != b[0] then 0
    else
      var d := Common(a[1..], b[1..]);
      assert a[..d + 1] == [a[0]] + a[1..][..d] && b[..d + 1] == [b[0]] + b[1..][..d];
      d + 1
  }

  /** The first byte that differs, one higher, if that stays below the limit. */
  function Shortest(start: Bytes, limit: Bytes): Bytes {
    var d := Common(start, limit);
    if d < |start| && d < |limit| && start[d] < 255 && start[d] + 1 < limit[d] then start[..d] + [start[d] + 1] else start
  }

  /** Unchanged, or strictly between and no longer. */
  lemma ShortestIsBetween(start: Bytes, limit: Bytes)
    ensures var r := Shortest(start, limit); r == start || (BytesLess(start, r) && BytesLess(r, limit) && |r| <= |start|)
  {
    var r, d := Shortest(start, limit), Common(start, limit);
    if r != start {
      assert r[..d] == start[..d] == limit[..d];
      LessAt(start, r, d);
      LessAt(r, limit, d);
    }
  }

  lemma {:induction false} CommonIs(a: Bytes, b: Bytes, d: nat)
    requires d <= |a| && d <= |b| && a[..d] == b[..d] && (d < |a| && d < |b| ==> a[d] != b[d])
    ensures Common(a, b) == d
    decreases d
  {
    if d > 0 {
      assert a[..d][0] == b[..d][0];
      assert a[1..][..d - 1] == a[..d][1..] && b[1..][..d - 1] == b[..d][1..];
      CommonIs(a[1..], b[1..], d - 1);
    }
  }

  /** `d` is the first place where the strings differ. */
  ghost predicate FirstDiffers(a: Bytes, b: Bytes, d: nat) {
    d < |a| && d < |b| && a[..d] == b[..d] && a[d] != b[d]
  }

  lemma DiffersAt(a: Bytes, b: Bytes, d: nat)
    requires FirstDiffers(a, b, d)
    ensures Common(a, b) == d
  {
    CommonIs(a, b, d);
  }

  /** The bytewise FindShortestSeparator. */
  method FindShortestSeparator(start: Bytes, limit: Bytes) returns (r: Bytes)
    ensures r == Shortest(start, limit)
    ensures r == start || (BytesLess(start, r) && BytesLess(r, limit) && |r| <= |start|)
    ensures forall d: nat :: FirstDiffers(start, limit, d) ==> r == if start[d] < 255 && start[d] + 1 < limit[d] then start[..d] + [start[d] + 1] else start
  {
    forall d: nat | FirstDiffers(start, limit, d) ensures Common(start, limit) == d { DiffersAt(start, limit, d); }
    r := start;
    var d := 0;
    while d < |start| && d < |limit| && start[d] == limit[d]
      invariant d <= |start| && d <= |limit| && start[..d] == limit[..d]
    {
      assert start[..d + 1] == start[..d] + [start[d]] && limit[..d + 1] == limit[..d] + [limit[d]];
      d := d + 1;
    }
    CommonIs(start, limit, d);
    ShortestIsBetween(start, limit);
    if d < |start| && d < |limit| && start[d] < 255 && start[d] + 1 < limit[d] {
      r := start[..d] + [start[d] + 1];
    }
  }

  /** The first byte below 0xff, one higher. */
  function Successor(key: Bytes): Bytes {
    if key == [] then []
    else if key[0] != 255 then [key[0] + 1]
    else [key[0]] + Successor(key[1..])
  }

  /** Unchanged only for a run of 0xff bytes. */
  lemma {:induction false} SuccessorIsAfter(key: Bytes)
    ensures Successor(key) == key || (BytesLess(key, Successor(key)) && |Successor(key)| <= |key|)
    ensures Successor(key) == key ==> forall i :: 0 <= i < |key| ==> key[i] == 255
    decreases |key|
  {
    if key != [] && key[0] == 255 {
      SuccessorIsAfter(key[1..]);
      assert key == [key[0]] + key[1..];
    }
  }

  lemma {:induction false} SuccessorAt(key: Bytes, i: nat)
    requires i <= |key| && (forall j :: 0 <= j < i ==> key[j] == 255) && (i < |key| ==> key[i] != 255)
    ensures Successor(key) == if i < |key| then key[..i] + [key[i] + 1] else key
    decreases |key|
  {
    if i > 0 {
      SuccessorAt(key[1..], i - 1);
      assert key == [key[0]] + key[1..];
      assert i < |key| ==> key[..i] == [key[0]] + key[1..][..i - 1];
    }
  }

  /** The bytewise FindShortSuccessor. */
  method FindShortSuccessor(key: Bytes) returns (r: Bytes)
    ensures r == Successor(key)
    ensures r == key || (BytesLess(key, r) && |r| <= |key|)
    ensures r == key ==> forall i :: 0 <= i < |key| ==> key[i] == 255
    ensures forall i :: 0 <= i < |key| && key[i] != 255 && (forall j :: 0 <= j < i ==> key[j] == 255) ==> r == key[..i] + [key[i] + 1]
  {
    forall i | 0 <= i < |key| && key[i] != 255 && (forall j :: 0 <= j < i ==> key[j] == 255) ensures Successor(key) == key[..i] + [key[i] + 1] {
      SuccessorAt(key, i);
    }
    SuccessorIsAfter(key);
    for i := 0 to |key|
      invariant forall j :: 0 <= j < i ==> key[j] == 255
    {
      if key[i] != 255 {
        SuccessorAt(key, i);
        return key[..i] + [key[i] + 1];
      }
    }
    SuccessorAt(key, |key|);
    r := key;
  }

  lemma {:induction false} BytesTrichotomy(a: Bytes, b: Bytes)
    requires a != b
    ensures BytesLess(a, b) || BytesLess(b, a)
    decreases |a|
  {
    if a != [] && b != [] && a[0] == b[0] {
      assert a == [a[0]] + a[1..] && b == [b[0]] + b[1..];
      BytesTrichotomy(a[1..], b[1..]);
    }
  }

  // ---------------------------------------------------------------- internal keys

  /** An index key between two blocks: the last key of the first, or a user key strictly between
      them with the highest tag, so that no entry for either user key is cut off. */
  predicate SeparatorOk(last: IKey, sep: IKey, next: IKey) {
    sep == last || (last.user < sep.user < next.user && sep.sn == MAX_SEQ && sep.kind.Value?)
  }

  predicate SuccessorOk(last: IKey, sep: IKey) {
    sep == last || (last.user < sep.user && sep.sn == MAX_SEQ && sep.kind.Value?)
  }

  // ---------------------------------------------------------------- any user comparator

  type Rank = Bytes -> real
  type Shortener = (Bytes, Bytes) -> Bytes

  /** What Comparator::FindShortestSeparator owes: a string from start up to the limit, or start itself
      when it is not below the limit. */
  ghost predicate IsShortest(rank: Rank, shortest: Shortener) {
    forall a, b :: if rank(a) < rank(b) then rank(a) <= rank(shortest(a, b)) < rank(b) else shortest(a, b) == a
  }

  /** What Comparator::FindShortSuccessor owes. */
  ghost predicate IsSuccessor(rank: Rank, successor: Bytes -> Bytes) {
    forall a :: rank(a) <= rank(successor(a))
  }

  /** An internal key before its user key is ranked. */
  datatype ByteKey = ByteKey(user: Bytes, sn: nat, kind: Kind)

  function Ranked(rank: Rank, k: ByteKey): IKey {
    IKey(rank(k.user), k.sn, k.kind)
  }

  /** InternalKeyComparator::FindShortestSeparator. */
  function InternalShortest(rank: Rank, shortest: Shortener, start: ByteKey, limit: ByteKey): ByteKey {
    var tmp := shortest(start.user, limit.user);
    if |tmp| < |start.user| && rank(start.user) < rank(tmp) then ByteKey(tmp, MAX_SEQ, Value) else start
  }

  /** The key itself, or a shorter user key strictly between under the highest tag. */
  lemma InternalSeparator(rank: Rank, shortest: Shortener, start: ByteKey, limit: ByteKey)
    requires IsShortest(rank, shortest)
    ensures SeparatorOk(Ranked(rank, start), Ranked(rank, InternalShortest(rank, shortest, start, limit)), Ranked(rank, limit))
    ensures |InternalShortest(rank, shortest, start, limit).user| <= |start.user|
  {
    assert rank(start.user) < rank(limit.user) || shortest(start.user, limit.user) == start.user;
  }

  /** InternalKeyComparator::FindShortSuccessor. */
  function InternalNext(rank: Rank, successor: Bytes -> Bytes, key: ByteKey): ByteKey {
    var tmp := successor(key.user);
    if |tmp| < |key.user| && rank(key.user) < rank(tmp) then ByteKey(tmp, MAX_SEQ, Value) else key
  }

  /** The key itself, or a shorter, greater user key under the highest tag. */
  lemma InternalSuccessor(rank: Rank, successor: Bytes -> Bytes, key: ByteKey)
    ensures SuccessorOk(Ranked(rank, key), Ranked(rank, InternalNext(rank, successor, key)))
    ensures |InternalNext(rank, successor, key).user| <= |key.user|
  {
  }

  // ---------------------------------------------------------------- the bytewise comparator

  /** A rank that follows the bytewise order: the bytes as digits after the point, in base 257. */
  function BytewiseRank(b: Bytes): (r: real)
    ensures 0.0 <= r < 1.0
  {
    if b == [] then 0.0 else (b[0] as real + 1.0 + BytewiseRank(b[1..])) / 257.0
  }

  lemma {:induction false} RankFollows(a: Bytes, b: Bytes)
    requires BytesLess(a, b)
    ensures BytewiseRank(a) < BytewiseRank(b)
    decreases |a|
  {
    if a != [] && a[0] == b[0] { RankFollows(a[1..], b[1..]); }
  }

  /** Under the bytewise comparator different strings have different ranks. */
  lemma RankIsInjective(a: Bytes, b: Bytes)
    ensures BytewiseRank(a) == BytewiseRank(b) <==> a == b
    ensures BytewiseRank(a) < BytewiseRank(b) <==> BytesLess(a, b)
  {
    if BytesLess(a, b) { RankFollows(a, b); }
    if BytesLess(b, a) { RankFollows(b, a); }
    if a != b { BytesTrichotomy(a, b); } else { NotLess(a); }
  }

  lemma {:induction false} NotLess(a: Bytes)
    ensures !BytesLess(a, a)
  {
    if a != [] { NotLess(a[1..]); }
  }

  /** The bytewise separator and successor keep the comparator's contract. */
  lemma BytewiseKeepsContract(shortest: Shortener, successor: Bytes -> Bytes)
    requires (forall a, b :: shortest(a, b) == Shortest(a, b)) && forall a :: successor(a) == Successor(a)
    ensures IsShortest(BytewiseRank, shortest) && IsSuccessor(BytewiseRank, successor)
  {
    forall a, b
      ensures if BytewiseRank(a) < BytewiseRank(b) then BytewiseRank(a) <= BytewiseRank(shortest(a, b)) < BytewiseRank(b) else shortest(a, b) == a
    {
      var r := Shortest(a, b);
      ShortestIsBetween(a, b);
      if r != a {
        RankFollows(a, r);
        RankFollows(r, b);
      }
    }
    forall a ensures BytewiseRank(a) <= BytewiseRank(successor(a)) {
      SuccessorIsAfter(a);
      if Successor(a) != a { RankFollows(a, Successor(a)); }
    }
  }
}
