/** Building a table and looking a key up in it: table_builder.cc and Table::InternalGet. */
module Table {
  import opened Keys
  import opened Files
  import opened Versions
  import opened Separators
  import opened Coding
  import opened Block
  import T = TwoLevel
  import F = FilterBlock

  /** A finished table: its data blocks with their file offsets, an index key for each, and what
      its filter says about a user key at a block offset. */
  datatype Contents = Contents(blocks: seq<seq<Entry>>, offs: seq<nat>, index: seq<IKey>)

  type Filter = (nat, UserKey) -> bool

  function First(b: seq<Entry>): IKey
    requires b != []
  {
    b[0].key
  }

  function Last(b: seq<Entry>): IKey
    requires b != []
  {
    b[|b| - 1].key
  }

  ghost function All(t: Contents): seq<Entry> {
    T.Concat(t.blocks, |t.blocks|)
  }

  ghost predicate IndexOk(t: Contents) {
    && |t.index| == |t.blocks| == |t.offs|
    && (forall b :: 0 <= b < |t.blocks| ==> t.blocks[b] != [] && Sorted(t.blocks[b]) && SuccessorOk(Last(t.blocks[b]), t.index[b]))
    && (forall a, b :: 0 <= a < b < |t.blocks| ==>
          t.blocks[a] != [] && t.blocks[b] != [] && Before(Last(t.blocks[a]), First(t.blocks[b]))
          && SeparatorOk(Last(t.blocks[a]), t.index[a], First(t.blocks[b])))
  }

  /** The filter never hides a user key that is in the block. */
  ghost predicate FilterOk(t: Contents, may: Filter) {
    |t.offs| == |t.blocks| && forall b, e :: 0 <= b < |t.blocks| && e in t.blocks[b] ==> may(t.offs[b], e.key.user)
  }

  ghost predicate SmallSequences(t: Contents) {
    forall b, e :: 0 <= b < |t.blocks| && e in t.blocks[b] ==> e.key.sn <= MAX_SEQ
  }

  // ---------------------------------------------------------------- looking up

  lemma {:induction false} ProbeSkips(a: seq<Entry>, b: seq<Entry>, k: IKey)
    requires forall e :: e in a ==> Less(e.key, k)
    ensures Probe(a + b, k) == Probe(b, k)
    decreases |a|
  {
    if a == [] {
      assert a + b == b;
    } else {
      assert (a + b)[1..] == a[1..] + b;
      ProbeSkips(a[1..], b, k);
    }
  }

  lemma {:induction false} ProbeStops(a: seq<Entry>, b: seq<Entry>, k: IKey)
    requires a != [] && !Less(Last(a), k)
    ensures Probe(a + b, k) == Probe(a, k)
    decreases |a|
  {
    if Less(a[0].key, k) {
      assert (a + b)[1..] == a[1..] + b;
      ProbeStops(a[1..], b, k);
    }
  }

  lemma {:induction false} ProbeFromBlock(es: seq<Entry>, k: IKey)
    ensures Probe(es, k).Some? ==> Probe(es, k).value in es && Probe(es, k).value.key.user == k.user
    decreases |es|
  {
    if es != [] && Less(es[0].key, k) { ProbeFromBlock(es[1..], k); }
  }

  ghost function Rest(t: Contents, b: nat): seq<Entry>
    requires b <= |t.blocks|
    decreases |t.blocks| - b
  {
    if b == |t.blocks| then [] else t.blocks[b] + Rest(t, b + 1)
  }

  lemma {:induction false} ConcatSplits(t: Contents, b: nat)
    requires b <= |t.blocks|
    ensures All(t) == T.Concat(t.blocks, b) + Rest(t, b)
    decreases |t.blocks| - b
  {
    if b < |t.blocks| { ConcatSplits(t, b + 1); }
  }

  lemma {:induction false} InConcat(blocks: seq<seq<Entry>>, n: nat, e: Entry) returns (b: nat)
    requires n <= |blocks| && e in T.Concat(blocks, n)
    ensures b < n && e in blocks[b]
  {
    if e in blocks[n - 1] {
      b := n - 1;
    } else {
      b := InConcat(blocks, n - 1, e);
    }
  }

  lemma {:induction false} BlockIsPart(blocks: seq<seq<Entry>>, n: nat, b: nat)
    requires b < n <= |blocks|
    ensures forall e :: e in blocks[b] ==> e in T.Concat(blocks, n)
    decreases n
  {
    if b < n - 1 { BlockIsPart(blocks, n - 1, b); }
  }

  lemma LastIsLast(b: seq<Entry>, e: Entry)
    requires Sorted(b) && e in b
    ensures e == b[|b| - 1] || Before(e.key, Last(b))
  {
  }

  /** Everything before the block the index points at is before the key. */
  lemma SkippedBlocks(t: Contents, b: nat, k: IKey)
    requires IndexOk(t) && SmallSequences(t) && b <= |t.blocks| && forall a :: 0 <= a < b ==> Less(t.index[a], k)
    ensures forall e :: e in T.Concat(t.blocks, b) ==> Less(e.key, k)
  {
    forall e | e in T.Concat(t.blocks, b) ensures Less(e.key, k) {
      var a := InConcat(t.blocks, b, e);
      LastIsLast(t.blocks[a], e);
      assert SuccessorOk(Last(t.blocks[a]), t.index[a]);
    }
  }

  /** A key past the end of its block, but not past its index key, is in no later block either. */
  lemma PastTheBlock(t: Contents, b: nat, k: IKey)
    requires IndexOk(t) && b < |t.blocks| && !Less(t.index[b], k) && Less(Last(t.blocks[b]), k) && k.sn <= MAX_SEQ
    ensures Probe(Rest(t, b + 1), k) == None
  {
    if b + 1 < |t.blocks| {
      assert SeparatorOk(Last(t.blocks[b]), t.index[b], First(t.blocks[b + 1]));
    }
  }

  /** Index keys, filter and one block give the answer of a scan of the whole table. */
  lemma BlockAnswers(t: Contents, b: nat, k: IKey)
    requires IndexOk(t) && SmallSequences(t) && b < |t.blocks| && k.sn <= MAX_SEQ
    requires !Less(t.index[b], k) && forall a :: 0 <= a < b ==> Less(t.index[a], k)
    ensures Probe(All(t), k) == Probe(t.blocks[b], k)
  {
    ConcatSplits(t, b);
    SkippedBlocks(t, b, k);
    ProbeSkips(T.Concat(t.blocks, b), Rest(t, b), k);
    if Less(Last(t.blocks[b]), k) {
      forall e | e in t.blocks[b] ensures Less(e.key, k) { LastIsLast(t.blocks[b], e); }
      ProbeSkips(t.blocks[b], Rest(t, b + 1), k);
      PastTheBlock(t, b, k);
      assert t.blocks[b] + [] == t.blocks[b];
      ProbeSkips(t.blocks[b], [], k);
    } else {
      ProbeStops(t.blocks[b], Rest(t, b + 1), k);
    }
  }

  /** The index and filter half of Table::InternalGet: the one block that can hold the answer, if any. */
  method FindBlock(t: Contents, may: Filter, k: IKey) returns (r: Option<nat>)
    requires IndexOk(t) && FilterOk(t, may) && SmallSequences(t) && k.sn <= MAX_SEQ
    ensures r.None? ==> Probe(All(t), k) == None
    ensures r.Some? ==> r.value < |t.blocks| && Probe(All(t), k) == Probe(t.blocks[r.value], k)
  {
    var b := 0;
    while b < |t.index| && Less(t.index[b], k)
      invariant b <= |t.index| && forall a :: 0 <= a < b ==> Less(t.index[a], k)
    {
      b := b + 1;
    }
    if b == |t.index| {
      SkippedBlocks(t, b, k);
      assert All(t) + [] == All(t);
      ProbeSkips(All(t), [], k);
      return None;
    }
    BlockAnswers(t, b, k);
    if !may(t.offs[b], k.user) {
      ProbeFromBlock(t.blocks[b], k);
      return None;
    }
    r := Some(b);
  }

  /** Table::InternalGet with SaveValue: index, filter, block. */
  method InternalGet(t: Contents, may: Filter, k: IKey) returns (r: Option<Entry>)
    requires IndexOk(t) && FilterOk(t, may) && SmallSequences(t) && k.sn <= MAX_SEQ
    ensures r == Probe(All(t), k)
  {
    var b := FindBlock(t, may, k);
    r := if b.None? then None else Probe(t.blocks[b.value], k);
  }

  /** The two-level iterator of such a table is the cursor on the concatenation. */
  lemma TableIsIndexed(t: Contents)
    requires IndexOk(t) && SmallSequences(t)
    ensures T.Indexed(t.index, t.blocks)
  {
    forall b, x | 0 <= b < |t.blocks| && 0 <= x < |t.blocks[b]| ensures !Less(t.index[b], t.blocks[b][x].key) {
      LastIsLast(t.blocks[b], t.blocks[b][x]);
      assert SuccessorOk(Last(t.blocks[b]), t.index[b]);
    }
    forall a, b, x | 0 <= a < b < |t.blocks| && 0 <= x < |t.blocks[b]| ensures Less(t.index[a], t.blocks[b][x].key) {
      assert SeparatorOk(Last(t.blocks[a]), t.index[a], First(t.blocks[b]));
      assert x > 0 ==> Before(t.blocks[b][0].key, t.blocks[b][x].key);
    }
  }

  // ---------------------------------------------------------------- building

  type Sep = (IKey, IKey) -> IKey
  type Succ = IKey -> IKey

  ghost predicate IsSep(sep: Sep) {
    forall a, b {:trigger sep(a, b)} :: Before(a, b) ==> SeparatorOk(a, sep(a, b), b)
  }

  ghost predicate IsSucc(succ: Succ) {
    forall a {:trigger succ(a)} :: SuccessorOk(a, succ(a))
  }

  /** The key that follows block `a`: the first of the next block, or of the one being filled. */
  function Following(blocks: seq<seq<Entry>>, data: seq<Entry>, a: nat): Option<IKey> {
    if a + 1 < |blocks| then (if blocks[a + 1] != [] then Some(First(blocks[a + 1])) else None)
    else if data != [] then Some(First(data)) else None
  }

  /** The index keys written so far separate each block from what follows it. */
  ghost predicate BuildOk(blocks: seq<seq<Entry>>, offs: seq<nat>, index: seq<IKey>, pending: bool, data: seq<Entry>, last: Option<IKey>) {
    && |offs| == |blocks| && (forall b :: 0 <= b < |blocks| ==> blocks[b] != [])
    && |index| == (if pending then |blocks| - 1 else |blocks|)
    && (pending ==> data == [] && blocks != []) && (!pending && blocks != [] ==> data != [])
    && (forall a {:trigger Ix(a)} :: Ix(a) && a < |index| ==>
          Following(blocks, data, a).Some? && SeparatorOk(Last(blocks[a]), index[a], Following(blocks, data, a).value))
    && last == (if data != [] then Some(Last(data)) else if blocks != [] then Some(Last(blocks[|blocks| - 1])) else None)
  }

  /** Every user key is in the filter of its block's offset, made or in the making. */
  ghost predicate FilterHas(groups: seq<seq<UserKey>>, keys: seq<UserKey>, offset: nat, u: UserKey) {
    var i := offset / F.BASE;
    if i < |groups| then u in groups[i] else i == |groups| && u in keys
  }

  ghost predicate AllFiltered(groups: seq<seq<UserKey>>, keys: seq<UserKey>, blocks: seq<seq<Entry>>, offs: seq<nat>) {
    |offs| == |blocks| && forall b, e :: 0 <= b < |blocks| && e in blocks[b] ==> FilterHas(groups, keys, offs[b], e.key.user)
  }

  ghost predicate StateOk(blocks: seq<seq<Entry>>, offs: seq<nat>, index: seq<IKey>, pending: bool, data: seq<Entry>, last: Option<IKey>,
                          offset: nat, groups: seq<seq<UserKey>>, keys: seq<UserKey>) {
    && BuildOk(blocks, offs, index, pending, data, last) && |groups| == offset / F.BASE
    && AllFiltered(groups, keys, blocks, offs) && forall e :: e in data ==> e.key.user in keys
  }

  class TableBuilder {
    const size: seq<Entry> -> nat       // CurrentSizeEstimate of a data block
    const written: seq<Entry> -> nat    // what WriteBlock appends for it
    const blockSize: nat
    const sep: Sep
    const succ: Succ
    const filter: F.FilterBlockBuilder<UserKey>
    var blocks: seq<seq<Entry>>
    var offs: seq<nat>
    var index: seq<IKey>
    var pending: bool
    var data: seq<Entry>
    var last: Option<IKey>
    var offset: nat

    ghost predicate Ok()
      reads this, filter
    {
      && IsSep(sep) && IsSucc(succ) && filter.Ok()
      && StateOk(blocks, offs, index, pending, data, last, offset, filter.groups, filter.keys)
      && Sorted(Added())
    }

    /** The entries added so far. */
    ghost function Added(): seq<Entry>
      reads this
    {
      T.Concat(blocks, |blocks|) + data
    }

    constructor (size: seq<Entry> -> nat, written: seq<Entry> -> nat, blockSize: nat, sep: Sep, succ: Succ, filter: F.FilterBlockBuilder<UserKey>)
      requires IsSep(sep) && IsSucc(succ) && filter.Ok() && filter.groups == [] && filter.keys == []
      ensures Ok() && Added() == [] && last == None && this.filter == filter
    {
      this.size, this.written, this.blockSize, this.sep, this.succ, this.filter := size, written, blockSize, sep, succ, filter;
      blocks, offs, index, pending, data, last, offset := [], [], [], false, [], None, 0;
    }

    /** The first half of Add: the index key held back until this key was known, the entry, and
        its user key for the filter. */
    method Put(e: Entry)
      requires Ok() && (last.Some? ==> Before(last.value, e.key))
      modifies this, filter
      ensures Ok() && Added() == old(Added()) + [e] && last == Some(e.key)
    {
      AddKeepsSorted(blocks, offs, index, pending, data, last, e);
      var index' := if pending then index + [sep(last.value, e.key)] else index;
      AddKeepsState(blocks, offs, index, pending, data, last, offset, filter.groups, filter.keys, e, sep);
      assert T.Concat(blocks, |blocks|) + (data + [e]) == T.Concat(blocks, |blocks|) + data + [e];
      filter.AddKey(e.key.user);
      index, pending, last, data := index', false, Some(e.key), data + [e];
    }

    method Add(e: Entry)
      requires Ok() && (last.Some? ==> Before(last.value, e.key))
      modifies this, filter
      ensures Ok() && Added() == old(Added()) + [e] && last == Some(e.key)
    {
      Put(e);
      if size(data) >= blockSize {
        Flush();
      }
    }

    /** Flush: the data block is written, and its index key held back. */
    method Flush()
      requires Ok()
      modifies this, filter
      ensures Ok() && data == [] && Added() == old(Added()) && last == old(last) && index == old(index)
      ensures pending == (blocks != [])
    {
      if data == [] { return; }
      ghost var groups, keys := filter.groups, filter.keys;
      var next := offset + written(data);
      DivGrows(offset, next);
      filter.StartBlock(next);
      FlushKeepsState(blocks, offs, index, data, last, offset, groups, keys, next, filter.groups, filter.keys);
      ConcatMore(blocks, data);
      blocks, offs, data := blocks + [data], offs + [offset], [];
      offset, pending := next, true;
    }

    /** Finish: the last block, the last index key, and the filter block. */
    method Finish(fix: WordCodec) returns (t: Contents, filterBytes: Bytes)
      requires Ok() && IsFixed32(fix)
      modifies this, filter
      ensures IndexOk(t) && All(t) == old(Added())
      ensures filter.Ok() && filterBytes == F.Contents(fix, filter.result, filter.offsets) && InFilters(filter.groups, t)
    {
      Flush();
      assert T.Concat(blocks, |blocks|) + [] == T.Concat(blocks, |blocks|);
      if pending {
        FinishedIndex(blocks, offs, index, last, succ);
        index := index + [succ(last.value)];
        pending := false;
      }
      t := Contents(blocks, offs, index);
      FinishedFilters(filter.groups, filter.keys, t);
      filterBytes := filter.Finish(fix);
    }
  }

  /** Blocks of a sorted concatenation are sorted, and follow each other. */
  lemma BlocksInOrder(blocks: seq<seq<Entry>>, a: nat, x: nat, b: nat, y: nat)
    requires Sorted(T.Concat(blocks, |blocks|)) && a < |blocks| && b < |blocks| && x < |blocks[a]| && y < |blocks[b]|
    requires a < b || (a == b && x < y)
    ensures Before(blocks[a][x].key, blocks[b][y].key)
  {
    var n := |blocks|;
    T.ConcatAt(blocks, n, a, x);
    T.ConcatAt(blocks, n, b, y);
    if a < b { T.OffsetGrows(blocks, a, b); }
  }

  lemma SortedBlock(blocks: seq<seq<Entry>>, b: nat)
    requires Sorted(T.Concat(blocks, |blocks|)) && b < |blocks|
    ensures Sorted(blocks[b])
  {
    forall x, y | 0 <= x < y < |blocks[b]| ensures Before(blocks[b][x].key, blocks[b][y].key) { BlocksInOrder(blocks, b, x, b, y); }
  }

  lemma EndsInOrder(blocks: seq<seq<Entry>>, a: nat, b: nat)
    requires Sorted(T.Concat(blocks, |blocks|)) && a < b < |blocks| && blocks[a] != [] && blocks[a + 1] != [] && blocks[b] != []
    ensures Before(Last(blocks[a]), First(blocks[b])) && (a + 1 == b || Before(First(blocks[a + 1]), First(blocks[b])))
  {
    BlocksInOrder(blocks, a, |blocks[a]| - 1, b, 0);
    if a + 1 < b { BlocksInOrder(blocks, a + 1, 0, b, 0); }
  }

  lemma SeparatesNext(blocks: seq<seq<Entry>>, offs: seq<nat>, index: seq<IKey>, last: Option<IKey>, a: nat)
    requires BuildOk(blocks, offs, index, true, [], last) && a + 1 < |blocks|
    ensures blocks[a] != [] && blocks[a + 1] != [] && a < |index| && SeparatorOk(Last(blocks[a]), index[a], First(blocks[a + 1]))
  {
    assert Ix(a);
  }

  lemma SeparatesLater(l: IKey, k: IKey, f: IKey, f': IKey)
    requires SeparatorOk(l, k, f) && (f == f' || Before(f, f'))
    ensures SeparatorOk(l, k, f')
  {
  }

  lemma BlocksApart(blocks: seq<seq<Entry>>, offs: seq<nat>, index: seq<IKey>, last: Option<IKey>, a: nat, b: nat)
    requires BuildOk(blocks, offs, index, true, [], last) && Sorted(T.Concat(blocks, |blocks|)) && a < b < |blocks|
    ensures blocks[a] != [] && blocks[b] != [] && a < |index|
    ensures Before(Last(blocks[a]), First(blocks[b])) && SeparatorOk(Last(blocks[a]), index[a], First(blocks[b]))
  {
    SeparatesNext(blocks, offs, index, last, a);
    EndsInOrder(blocks, a, b);
    SeparatesLater(Last(blocks[a]), index[a], First(blocks[a + 1]), First(blocks[b]));
  }

  /** With the last index key, the index of a finished table is complete. */
  lemma FinishedIndex(blocks: seq<seq<Entry>>, offs: seq<nat>, index: seq<IKey>, last: Option<IKey>, succ: Succ)
    requires BuildOk(blocks, offs, index, true, [], last) && IsSucc(succ) && Sorted(T.Concat(blocks, |blocks|))
    ensures IndexOk(Contents(blocks, offs, index + [succ(last.value)]))
  {
    var t := Contents(blocks, offs, index + [succ(last.value)]);
    forall b | 0 <= b < |blocks| ensures Sorted(blocks[b]) && SuccessorOk(Last(blocks[b]), t.index[b]) {
      assert Ix(b);
      SortedBlock(blocks, b);
    }
    forall a, b | 0 <= a < b < |blocks|
      ensures Before(Last(blocks[a]), First(blocks[b])) && SeparatorOk(Last(blocks[a]), t.index[a], First(blocks[b]))
    {
      BlocksApart(blocks, offs, index, last, a, b);
      assert t.index[a] == index[a];
    }
  }

  /** When no key is left over, every user key is in a finished filter. */
  ghost predicate InFilters(groups: seq<seq<UserKey>>, t: Contents) {
    && |t.offs| == |t.blocks|
    && forall b, e :: 0 <= b < |t.blocks| && e in t.blocks[b] ==>
         var i := t.offs[b] / F.BASE; i < |groups| && e.key.user in groups[i]
  }

  lemma FinishedFilters(groups: seq<seq<UserKey>>, keys: seq<UserKey>, t: Contents)
    requires AllFiltered(groups, keys, t.blocks, t.offs)
    ensures InFilters(if keys == [] then groups else groups + [keys], t)
  {
    var groups' := if keys == [] then groups else groups + [keys];
    forall b, e: Entry | 0 <= b < |t.blocks| && e in t.blocks[b]
      ensures var i := t.offs[b] / F.BASE; i < |groups'| && e.key.user in groups'[i]
    {
      assert FilterHas(groups, keys, t.offs[b], e.key.user);
    }
  }

  /** The finished filter block hides none of the table's user keys. */
  lemma FilterHidesNothing(t: Contents, may: Filter, policy: F.May<UserKey>, create: F.Create<UserKey>, make: seq<UserKey> -> Bytes,
                           fix: WordCodec, groups: seq<seq<UserKey>>, result: Bytes, offsets: seq<nat>, c: Bytes)
    requires InFilters(groups, t) && F.Sound(create, policy) && F.Makes(make, create) && IsFixed32(fix)
    requires F.Built(make, groups, result, offsets) && c == F.Contents(fix, result, offsets) && |c| < WORD
    requires forall o: nat, u {:trigger may(o, u)} :: may(o, u) == F.KeyMayMatch(policy, c, o, u)
    ensures FilterOk(t, may)
  {
    forall b, e: Entry | 0 <= b < |t.blocks| && e in t.blocks[b] ensures may(t.offs[b], e.key.user) {
      F.NoFalseNegative(create, policy, make, fix, groups, result, offsets, c, t.offs[b] / F.BASE, t.offs[b], e.key.user);
    }
  }

  /** The reader's view of a filter block. */
  function MayOf(policy: F.May<UserKey>, filter: Bytes): Filter {
    (o: nat, u: UserKey) => F.KeyMayMatch(policy, filter, o, u)
  }

  /** Build a table from any increasing entries. */
  method Build(es: seq<Entry>, size: seq<Entry> -> nat, written: seq<Entry> -> nat, blockSize: nat, sep: Sep, succ: Succ,
               create: F.Create<UserKey>, policy: F.May<UserKey>, fix: WordCodec, ghost make: seq<UserKey> -> Bytes)
    returns (t: Contents, filter: Bytes)
    requires Sorted(es) && forall e :: e in es ==> e.key.sn <= MAX_SEQ
    requires IsSep(sep) && IsSucc(succ) && F.Sound(create, policy) && F.Makes(make, create) && IsFixed32(fix)
    ensures IndexOk(t) && All(t) == es && SmallSequences(t)
    ensures |filter| < WORD ==> FilterOk(t, MayOf(policy, filter))
  {
    var fb := new F.FilterBlockBuilder(create, make);
    var tb := new TableBuilder(size, written, blockSize, sep, succ, fb);
    AddAll(tb, es);
    t, filter := tb.Finish(fix);
    AllIsSmall(t, es);
    if |filter| < WORD {
      FilterHidesNothing(t, MayOf(policy, filter), policy, create, make, fix, fb.groups, fb.result, fb.offsets, filter);
    }
  }

  /** Build a table from any increasing entries, and look a key up through index, filter and
      block: the answer is that of a scan of the entries. */
  method BuildAndGet(es: seq<Entry>, k: IKey, size: seq<Entry> -> nat, written: seq<Entry> -> nat, blockSize: nat, sep: Sep, succ: Succ,
                     create: F.Create<UserKey>, policy: F.May<UserKey>, fix: WordCodec, ghost make: seq<UserKey> -> Bytes)
    returns (filter: Bytes, r: Option<Entry>)
    requires Sorted(es) && (forall e :: e in es ==> e.key.sn <= MAX_SEQ) && k.sn <= MAX_SEQ
    requires IsSep(sep) && IsSucc(succ) && F.Sound(create, policy) && F.Makes(make, create) && IsFixed32(fix)
    ensures |filter| < WORD ==> r == Probe(es, k)
  {
    var t;
    t, filter := Build(es, size, written, blockSize, sep, succ, create, policy, fix, make);
    r := None;
    if |filter| < WORD { r := InternalGet(t, MayOf(policy, filter), k); }
  }

  method AddAll(tb: TableBuilder, es: seq<Entry>)
    requires tb.Ok() && tb.Added() == [] && tb.last == None && Sorted(es)
    modifies tb, tb.filter
    ensures tb.Ok() && tb.Added() == es
  {
    for i := 0 to |es|
      invariant tb.Ok() && tb.Added() == es[..i] && tb.last == (if i == 0 then None else Some(es[i - 1].key))
    {
      assert es[..i + 1] == es[..i] + [es[i]];
      tb.Add(es[i]);
    }
    assert es[..|es|] == es;
  }

  lemma {:induction false} InAll(blocks: seq<seq<Entry>>, n: nat, b: nat, e: Entry)
    requires b < n <= |blocks| && e in blocks[b]
    ensures e in T.Concat(blocks, n)
  {
    if b < n - 1 { InAll(blocks, n - 1, b, e); }
  }

  lemma AllIsSmall(t: Contents, es: seq<Entry>)
    requires All(t) == es && forall e :: e in es ==> e.key.sn <= MAX_SEQ
    ensures SmallSequences(t)
  {
    forall b, e: Entry | 0 <= b < |t.blocks| && e in t.blocks[b] ensures e.key.sn <= MAX_SEQ {
      InAll(t.blocks, |t.blocks|, b, e);
    }
  }

  lemma AddKeepsSorted(blocks: seq<seq<Entry>>, offs: seq<nat>, index: seq<IKey>, pending: bool, data: seq<Entry>, last: Option<IKey>, e: Entry)
    requires BuildOk(blocks, offs, index, pending, data, last) && (last.Some? ==> Before(last.value, e.key))
    requires Sorted(T.Concat(blocks, |blocks|) + data)
    ensures Sorted(T.Concat(blocks, |blocks|) + data + [e])
  {
    var all := T.Concat(blocks, |blocks|) + data;
    if all != [] {
      SortedMore(all, e);
    }
  }

  lemma SortedMore(data: seq<Entry>, e: Entry)
    requires Sorted(data) && data != [] && Before(Last(data), e.key)
    ensures Sorted(data + [e])
  {
    forall i, j | 0 <= i < j < |data + [e]| ensures Before((data + [e])[i].key, (data + [e])[j].key) {
      if i < |data| - 1 { assert Before(data[i].key, data[|data| - 1].key); }
    }
  }

  lemma AddKeepsState(blocks: seq<seq<Entry>>, offs: seq<nat>, index: seq<IKey>, pending: bool, data: seq<Entry>, last: Option<IKey>,
                      offset: nat, groups: seq<seq<UserKey>>, keys: seq<UserKey>, e: Entry, sep: Sep)
    requires StateOk(blocks, offs, index, pending, data, last, offset, groups, keys)
    requires IsSep(sep) && (last.Some? ==> Before(last.value, e.key))
    ensures StateOk(blocks, offs, if pending then index + [sep(last.value, e.key)] else index, false, data + [e], Some(e.key),
                    offset, groups, keys + [e.key.user])
  {
    AddKeepsBuild(blocks, offs, index, pending, data, last, e, sep);
    forall b, x: Entry | 0 <= b < |blocks| && x in blocks[b] ensures FilterHas(groups, keys + [e.key.user], offs[b], x.key.user) {
      assert FilterHas(groups, keys, offs[b], x.key.user);
    }
  }

  lemma FlushKeepsState(blocks: seq<seq<Entry>>, offs: seq<nat>, index: seq<IKey>, data: seq<Entry>, last: Option<IKey>,
                        offset: nat, groups: seq<seq<UserKey>>, keys: seq<UserKey>, next: nat, groups': seq<seq<UserKey>>, keys': seq<UserKey>)
    requires data != [] && StateOk(blocks, offs, index, false, data, last, offset, groups, keys)
    requires groups <= groups' && |groups'| == next / F.BASE
    requires if |groups| == |groups'| then keys' == keys else keys' == [] && groups'[|groups|] == keys
    ensures StateOk(blocks + [data], offs + [offset], index, true, [], last, next, groups', keys')
  {
    FlushKeepsBuild(blocks, offs, index, data, last, offset);
    FlushKeepsFilter(groups, keys, groups', keys', blocks, offs, data, offset);
  }

  lemma DivGrows(a: nat, b: nat)
    requires a <= b
    ensures a / F.BASE <= b / F.BASE
  {
  }

  lemma {:induction false} ConcatPrefix(a: seq<seq<Entry>>, b: seq<seq<Entry>>, n: nat)
    requires a <= b && n <= |a|
    ensures T.Concat(a, n) == T.Concat(b, n)
  {
    if n > 0 { ConcatPrefix(a, b, n - 1); }
  }

  lemma ConcatMore(blocks: seq<seq<Entry>>, data: seq<Entry>)
    ensures T.Concat(blocks + [data], |blocks| + 1) == T.Concat(blocks, |blocks|) + data
  {
    ConcatPrefix(blocks, blocks + [data], |blocks|);
  }

  lemma FlushKeepsFilter(groups: seq<seq<UserKey>>, keys: seq<UserKey>, groups': seq<seq<UserKey>>, keys': seq<UserKey>,
                         blocks: seq<seq<Entry>>, offs: seq<nat>, data: seq<Entry>, offset: nat)
    requires AllFiltered(groups, keys, blocks, offs) && |groups| == offset / F.BASE && (forall e :: e in data ==> e.key.user in keys)
    requires groups <= groups'
    requires if |groups| == |groups'| then keys' == keys else keys' == [] && groups'[|groups|] == keys
    ensures AllFiltered(groups', keys', blocks + [data], offs + [offset])
  {
    var blocks', offs' := blocks + [data], offs + [offset];
    forall b, e: Entry | 0 <= b < |blocks'| && e in blocks'[b] ensures FilterHas(groups', keys', offs'[b], e.key.user) {
      if b < |blocks| { assert FilterHas(groups, keys, offs[b], e.key.user); }
    }
  }

  lemma AddKeepsBuild(blocks: seq<seq<Entry>>, offs: seq<nat>, index: seq<IKey>, pending: bool, data: seq<Entry>, last: Option<IKey>,
                      e: Entry, sep: Sep)
    requires BuildOk(blocks, offs, index, pending, data, last) && IsSep(sep) && (last.Some? ==> Before(last.value, e.key))
    ensures BuildOk(blocks, offs, if pending then index + [sep(last.value, e.key)] else index, false, data + [e], Some(e.key))
  {
    var index' := if pending then index + [sep(last.value, e.key)] else index;
    forall a | 0 <= a < |index'|
      ensures Following(blocks, data + [e], a).Some? && SeparatorOk(Last(blocks[a]), index'[a], Following(blocks, data + [e], a).value)
    {
      assert Ix(a);
    }
  }

  lemma FlushKeepsBuild(blocks: seq<seq<Entry>>, offs: seq<nat>, index: seq<IKey>, data: seq<Entry>, last: Option<IKey>, offset: nat)
    requires data != [] && BuildOk(blocks, offs, index, false, data, last)
    ensures BuildOk(blocks + [data], offs + [offset], index, true, [], last)
  {
    forall a | 0 <= a < |index|
      ensures Following(blocks + [data], [], a).Some? && SeparatorOk(Last((blocks + [data])[a]), index[a], Following(blocks + [data], [], a).value)
    {
      assert Ix(a);
    }
  }
}
