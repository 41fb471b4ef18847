/** The filter block of a table: filter_block.cc. One filter for every 2KB of file offset, over
    any filter policy. */
module FilterBlock {
  import opened Coding
  import opened Block

  const BASE_LG: Byte := 11
  const BASE := 2048

  type Create<!K> = seq<K> -> Bytes
  type May<!K> = (K, Bytes) -> bool

  /** What a policy owes: a filter matches every key it was made from. */
  ghost predicate Sound<K(!new)>(create: Create<K>, may: May<K>) {
    forall ks: seq<K>, k :: k in ks ==> may(k, create(ks))
  }

  /** The bytes of the filter of a group of keys; an empty group has none. */
  ghost predicate Makes<K(!new)>(make: seq<K> -> Bytes, create: Create<K>) {
    make([]) == [] && forall ks :: ks != [] ==> make(ks) == create(ks)
  }

  class FilterBlockBuilder<K(!new)> {
    const create: Create<K>
    ghost const make: seq<K> -> Bytes
    var keys: seq<K>
    var result: Bytes
    var offsets: seq<nat>
    ghost var groups: seq<seq<K>>

    ghost predicate Ok()
      reads this
    {
      Makes(make, create) && Built(make, groups, result, offsets)
    }

    constructor (create: Create<K>, ghost make: seq<K> -> Bytes)
      requires Makes(make, create)
      ensures Ok() && groups == [] && keys == [] && this.create == create && this.make == make
    {
      this.create, this.make := create, make;
      keys, result, offsets := [], [], [];
      groups := [];
    }

    method AddKey(k: K)
      requires Ok()
      modifies this`keys
      ensures Ok() && keys == old(keys) + [k]
    {
      keys := keys + [k];
    }

    method GenerateFilter()
      requires Ok()
      modifies this
      ensures Ok() && groups == old(groups) + [old(keys)] && keys == []
    {
      BuiltMore(make, groups, result, offsets, keys);
      offsets := offsets + [|result|];
      if keys != [] { result := result + create(keys); }
      groups, keys := groups + [keys], [];
    }

    /** A block is about to start at this offset: keys from now on go into its filter. */
    method StartBlock(offset: nat)
      requires Ok() && offset / BASE >= |groups|
      modifies this
      ensures Ok() && |groups| == offset / BASE && old(groups) <= groups
      ensures if old(|groups|) == |groups| then keys == old(keys) else keys == [] && groups[old(|groups|)] == old(keys)
    {
      var index := offset / BASE;
      while index > |offsets|
        invariant Ok() && old(groups) <= groups && |groups| <= index
        invariant if old(|groups|) == |groups| then keys == old(keys) else keys == [] && groups[old(|groups|)] == old(keys)
        decreases index - |offsets|
      {
        GenerateFilter();
      }
    }

    /** The whole filter block. */
    method Finish(fix: WordCodec) returns (contents: Bytes)
      requires Ok() && IsFixed32(fix)
      modifies this
      ensures Ok() && (if old(keys) == [] then groups == old(groups) else groups == old(groups) + [old(keys)])
      ensures contents == Contents(fix, result, offsets)
    {
      if keys != [] { GenerateFilter(); }
      var words := WriteWords(fix, offsets);
      contents := result + words + fix(|result|) + [BASE_LG];
    }
  }

  /** Filters one after the other, and where each starts. */
  ghost predicate Built<K(!new)>(make: seq<K> -> Bytes, groups: seq<seq<K>>, result: Bytes, offsets: seq<nat>) {
    && result == Flat(make, groups) && |offsets| == |groups|
    && forall i :: 0 <= i < |groups| ==> offsets[i] == |Flat(make, groups[..i])|
  }

  lemma BuiltMore<K(!new)>(make: seq<K> -> Bytes, groups: seq<seq<K>>, result: Bytes, offsets: seq<nat>, ks: seq<K>)
    requires Built(make, groups, result, offsets)
    ensures Built(make, groups + [ks], result + make(ks), offsets + [|result|])
    ensures make([]) == [] && ks == [] ==> result + make(ks) == result
  {
    var groups' := groups + [ks];
    assert groups'[..|groups|] == groups;
    forall i | 0 <= i < |groups'| ensures (offsets + [|result|])[i] == |Flat(make, groups'[..i])| {
      assert groups'[..i] == groups[..i];
      assert groups[..|groups|] == groups;
    }
  }

  ghost function Contents(fix: WordCodec, result: Bytes, offsets: seq<nat>): Bytes {
    result + Flat(fix, offsets) + fix(|result|) + [BASE_LG]
  }

  // ---------------------------------------------------------------- reading

  /** The right shift of a number by `n` bits. */
  function Shifted(x: nat, n: nat): nat
    decreases n
  {
    if n == 0 then x else Shifted(x / 2, n - 1)
  }

  function Word(c: Bytes, at: nat): nat
    requires at + 4 <= |c|
  {
    FromLittleEndian(c[at..at + 4])
  }

  /** The number of offsets between `at` and the last five of `n` bytes. */
  function Slots(n: nat, at: nat): nat
    requires at + 5 <= n
  {
    (n - 5 - at) / 4
  }

  lemma SlotFits(n: nat, at: nat, index: nat)
    requires at + 5 <= n && index < Slots(n, at)
    ensures at + index * 4 + 8 <= n - 1
  {
  }

  /** The filter between two neighbouring offsets. */
  function FilterAt<K>(may: May<K>, c: Bytes, arrayAt: nat, at: nat, key: K): bool
    requires arrayAt <= at && at + 8 <= |c|
  {
    var start, limit := Word(c, at), Word(c, at + 4);
    if start <= limit <= arrayAt then may(key, c[start..limit]) else start != limit
  }

  /** FilterBlockReader::KeyMayMatch; anything odd counts as a match. */
  function KeyMayMatch<K>(may: May<K>, c: Bytes, offset: nat, key: K): bool {
    if |c| < 5 then true
    else
      var arrayAt, index := Word(c, |c| - 5), Shifted(offset, c[|c| - 1]);
      if arrayAt > |c| - 5 || index >= Slots(|c|, arrayAt) then true
      else
        SlotFits(|c|, arrayAt, index);
        FilterAt(may, c, arrayAt, arrayAt + index * 4, key)
  }

  lemma WordReads(fix: WordCodec, c: Bytes, at: nat, w: nat)
    requires IsFixed32(fix) && at + 4 <= |c| && c[at..at + 4] == fix(w) && w < WORD
    ensures Word(c, at) == w
  {
    FixedReads(fix, w);
  }

  /** The offset array of a finished block, closed by its own offset. */
  lemma OffsetReads(fix: WordCodec, result: Bytes, offsets: seq<nat>, c: Bytes, i: nat)
    requires IsFixed32(fix) && c == Contents(fix, result, offsets) && i <= |offsets| && |c| < WORD
    requires forall k :: 0 <= k < |offsets| ==> offsets[k] <= |result|
    ensures |c| == |result| + 4 * |offsets| + 5
    ensures Word(c, |result| + i * 4) == if i < |offsets| then offsets[i] else |result|
  {
    WordsSize(fix, offsets);
    var words, at := Flat(fix, offsets), |result| + i * 4;
    if i < |offsets| {
      WordAt(fix, offsets, i);
      assert c[at..at + 4] == words[4 * i..4 * i + 4];
      WordReads(fix, c, at, offsets[i]);
    } else {
      assert c[at..at + 4] == fix(|result|);
      WordReads(fix, c, at, |result|);
    }
  }

  lemma {:induction false} FlatGrows<T>(enc: T -> Bytes, xs: seq<T>, i: nat)
    requires i <= |xs|
    ensures Flat(enc, xs[..i]) <= Flat(enc, xs)
    decreases |xs|
  {
    if i < |xs| {
      FlatGrows(enc, xs[..|xs| - 1], i);
      assert xs[..|xs| - 1][..i] == xs[..i];
    } else {
      assert xs[..i] == xs;
    }
  }

  /** The slice between two offsets is one filter. */
  lemma FilterSlice<K(!new)>(make: seq<K> -> Bytes, groups: seq<seq<K>>, i: nat)
    requires i < |groups|
    ensures var a, b, all := |Flat(make, groups[..i])|, |Flat(make, groups[..i + 1])|, Flat(make, groups);
            a <= b <= |all| && all[a..b] == make(groups[i])
  {
    assert groups[..i + 1][..i] == groups[..i];
    FlatGrows(make, groups, i + 1);
  }

  lemma ShiftedBy11(x: nat)
    ensures Shifted(x, 11) == x / BASE
  {
    ShiftedBy2(x, 9);
    ShiftedBy2(x / 4, 7);
    ShiftedBy2(x / 4 / 4, 5);
    ShiftedBy2(x / 4 / 4 / 4, 3);
    ShiftedBy2(x / 4 / 4 / 4 / 4, 1);
  }

  lemma ShiftedBy2(x: nat, n: nat)
    ensures Shifted(x, n + 2) == Shifted(x / 4, n)
  {
  }

  /** What the reader looks at when the block is well-formed. */
  lemma LooksAt<K(!new)>(may: May<K>, c: Bytes, offset: nat, key: K, arrayAt: nat, index: nat, start: nat, limit: nat)
    requires |c| >= 5 && arrayAt <= |c| - 5 && Word(c, |c| - 5) == arrayAt && c[|c| - 1] == BASE_LG
    requires index == offset / BASE && index < Slots(|c|, arrayAt) && arrayAt + index * 4 + 8 <= |c| - 1
    requires Word(c, arrayAt + index * 4) == start && Word(c, arrayAt + index * 4 + 4) == limit && start <= limit <= arrayAt
    ensures KeyMayMatch(may, c, offset, key) == may(key, c[start..limit])
  {
    ShiftedBy11(offset);
  }

  /** The two neighbouring offsets of a filter. */
  lemma FilterWords<K(!new)>(make: seq<K> -> Bytes, fix: WordCodec, groups: seq<seq<K>>, result: Bytes, offsets: seq<nat>, c: Bytes, i: nat)
    requires IsFixed32(fix) && Built(make, groups, result, offsets) && c == Contents(fix, result, offsets) && |c| < WORD && i < |groups|
    ensures |c| == |result| + 4 * |offsets| + 5 && Word(c, |c| - 5) == |result|
    ensures Word(c, |result| + i * 4) == |Flat(make, groups[..i])| && Word(c, |result| + i * 4 + 4) == |Flat(make, groups[..i + 1])|
  {
    assert groups[..|groups|] == groups;
    Bounds(make, groups, result, offsets);
    OffsetReads(fix, result, offsets, c, |offsets|);
    OffsetReads(fix, result, offsets, c, i);
    OffsetReads(fix, result, offsets, c, i + 1);
  }

  /** A lookup asks the filter of the 2KB its offset is in, and answers as that filter does. */
  lemma AnswersAsFilter<K(!new)>(may: May<K>, make: seq<K> -> Bytes, fix: WordCodec, groups: seq<seq<K>>,
                                 result: Bytes, offsets: seq<nat>, c: Bytes, i: nat, offset: nat, key: K)
    requires IsFixed32(fix) && Built(make, groups, result, offsets)
    requires c == Contents(fix, result, offsets) && |c| < WORD && i < |groups| && offset / BASE == i
    ensures KeyMayMatch(may, c, offset, key) == may(key, make(groups[i]))
  {
    var start, limit := |Flat(make, groups[..i])|, |Flat(make, groups[..i + 1])|;
    FilterWords(make, fix, groups, result, offsets, c, i);
    FilterSlice(make, groups, i);
    assert c[start..limit] == result[start..limit] == make(groups[i]);
    LooksAt(may, c, offset, key, |result|, i, start, limit);
  }

  /** No false negatives: a key that went into a filter matches at every offset of its 2KB. */
  lemma NoFalseNegative<K(!new)>(create: Create<K>, may: May<K>, make: seq<K> -> Bytes, fix: WordCodec, groups: seq<seq<K>>,
                                 result: Bytes, offsets: seq<nat>, c: Bytes, i: nat, offset: nat, key: K)
    requires Sound(create, may) && Makes(make, create) && IsFixed32(fix) && Built(make, groups, result, offsets)
    requires c == Contents(fix, result, offsets) && |c| < WORD
    requires i < |groups| && key in groups[i] && offset / BASE == i
    ensures KeyMayMatch(may, c, offset, key)
  {
    AnswersAsFilter(may, make, fix, groups, result, offsets, c, i, offset, key);
    assert make(groups[i]) == create(groups[i]);
  }

  lemma Bounds<K(!new)>(make: seq<K> -> Bytes, groups: seq<seq<K>>, result: Bytes, offsets: seq<nat>)
    requires Built(make, groups, result, offsets)
    ensures forall k :: 0 <= k < |offsets| ==> offsets[k] <= |result|
  {
    forall k | 0 <= k < |offsets| ensures offsets[k] <= |result| { FlatGrows(make, groups, k); }
  }
}
