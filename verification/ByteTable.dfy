/** Tables over bytes: the bytewise comparator's separators, the Bloom policy, and data blocks in
    their prefix-compressed form, put into the table of module Table. */
module ByteTable {
  import opened Keys
  import opened Files
  import opened Versions
  import opened Coding
  import opened Separators
  import Bl = Bloom
  import BI = BlockIter
  import Bk = Block
  import F = FilterBlock
  import T = Table

  /** The string of a rank, for ranks of strings. */
  type Unrank = real -> Bytes

  predicate IsRank(unrank: Unrank, u: UserKey) {
    BytewiseRank(unrank(u)) == u
  }

  function Unranked(unrank: Unrank, k: IKey): ByteKey {
    ByteKey(unrank(k.user), k.sn, k.kind)
  }

  // ---------------------------------------------------------------- separators

  function ByteSep(unrank: Unrank, a: IKey, b: IKey): IKey {
    if IsRank(unrank, a.user) && IsRank(unrank, b.user)
    then Ranked(BytewiseRank, InternalShortest(BytewiseRank, Shortest, Unranked(unrank, a), Unranked(unrank, b)))
    else a
  }

  function ByteSucc(unrank: Unrank, a: IKey): IKey {
    if IsRank(unrank, a.user) then Ranked(BytewiseRank, InternalNext(BytewiseRank, Successor, Unranked(unrank, a))) else a
  }

  /** The internal comparator over the bytewise one gives index keys of the kind tables need. */
  lemma ByteIndexKeys(unrank: Unrank, sep: T.Sep, succ: T.Succ)
    requires (forall a, b {:trigger sep(a, b)} :: sep(a, b) == ByteSep(unrank, a, b)) && forall a {:trigger succ(a)} :: succ(a) == ByteSucc(unrank, a)
    ensures T.IsSep(sep) && T.IsSucc(succ)
  {
    BytewiseKeepsContract(Shortest, Successor);
    forall a, b | Before(a, b) ensures SeparatorOk(a, sep(a, b), b) {
      if IsRank(unrank, a.user) && IsRank(unrank, b.user) {
        InternalSeparator(BytewiseRank, Shortest, Unranked(unrank, a), Unranked(unrank, b));
        assert Ranked(BytewiseRank, Unranked(unrank, a)) == a && Ranked(BytewiseRank, Unranked(unrank, b)) == b;
      }
    }
    forall a ensures SuccessorOk(a, succ(a)) {
      if IsRank(unrank, a.user) {
        InternalSuccessor(BytewiseRank, Successor, Unranked(unrank, a));
        assert Ranked(BytewiseRank, Unranked(unrank, a)) == a;
      }
    }
  }

  // ---------------------------------------------------------------- filters

  function Strings(unrank: Unrank, us: seq<UserKey>): seq<Bytes> {
    seq(|us|, i requires 0 <= i < |us| => unrank(us[i]))
  }

  /** The Bloom policy, on the strings of the ranks. */
  ghost predicate IsBloom(unrank: Unrank, hash: Bl.Hash, bitsPerKey: nat, k: Byte, create: F.Create<UserKey>, policy: F.May<UserKey>) {
    && (forall us {:trigger create(us)} :: create(us) == Bl.FilterOf(hash, bitsPerKey, k, Strings(unrank, us)))
    && forall u, f {:trigger policy(u, f)} :: policy(u, f) == Bl.Matches(hash, unrank(u), f)
  }

  lemma BloomIsSoundForRanks(unrank: Unrank, hash: Bl.Hash, bitsPerKey: nat, k: Byte, create: F.Create<UserKey>, policy: F.May<UserKey>)
    requires IsBloom(unrank, hash, bitsPerKey, k, create, policy)
    ensures F.Sound(create, policy)
  {
    forall us: seq<UserKey>, u | u in us ensures policy(u, create(us)) {
      var i :| 0 <= i < |us| && us[i] == u;
      assert Strings(unrank, us)[i] == unrank(u);
      Bl.FilterMatches(hash, bitsPerKey, k, Strings(unrank, us), unrank(u));
    }
  }

  // ---------------------------------------------------------------- data blocks

  /** An internal key as stored: user key, sequence number and type. */
  function KeyBytes(k: ByteKey): Bytes
    requires k.sn <= MAX_SEQ
  {
    k.user + Fixed64(Tag(IKey(0.0, k.sn, k.kind)))
  }

  /** ParseInternalKey. */
  function ParseKey(b: Bytes): ByteKey
    requires |b| >= 8
  {
    var tag := DecodeFixed64(b[|b| - 8..]);
    ByteKey(b[..|b| - 8], tag / 256, if tag % 256 == 0 then Deletion else Value)
  }

  lemma KeyRoundTrip(k: ByteKey)
    requires k.sn <= MAX_SEQ
    ensures |KeyBytes(k)| >= 8 && ParseKey(KeyBytes(k)) == k
  {
    var tag := Tag(IKey(0.0, k.sn, k.kind));
    Fixed64RoundTrip(tag);
    var b := KeyBytes(k);
    assert b[..|b| - 8] == k.user && b[|b| - 8..] == Fixed64(tag);
  }

  /** Blocks compare stored keys as the internal comparator does. */
  ghost predicate RanksKeys(irank: BI.Rank) {
    forall x: ByteKey, y: ByteKey {:trigger KeyBytes(x), KeyBytes(y)} :: x.sn <= MAX_SEQ && y.sn <= MAX_SEQ ==>
      (irank(KeyBytes(x)) < irank(KeyBytes(y)) <==> Less(Ranked(BytewiseRank, x), Ranked(BytewiseRank, y)))
  }

  // A rank of stored keys that does so: a small step up from the rank of the user key, the larger
  // the lower the tag.

  function Small(n: nat): (r: real)
    ensures 0.0 < r <= 1.0
  {
    if n == 0 then 1.0 else Small(n - 1) / 257.0
  }

  lemma {:induction false} RankBound(a: Bytes)
    ensures BytewiseRank(a) <= 1.0 - Small(|a|)
  {
    if a != [] { RankBound(a[1..]); }
  }

  /** The next string is at least this far away. */
  lemma {:induction false} RankGap(a: Bytes, b: Bytes)
    requires BytesLess(a, b)
    ensures BytewiseRank(b) - BytewiseRank(a) >= Small(|a| + 1)
    decreases |a|
  {
    if a == [] {
      assert Small(1) == Small(0) / 257.0;
    } else if a[0] == b[0] {
      RankGap(a[1..], b[1..]);
    } else {
      RankBound(a[1..]);
    }
  }

  function Above(tag: nat): (r: real)
    requires tag < DWORD
    ensures 0.0 <= r < 1.0
  {
    (DWORD - 1 - tag) as real / DWORD as real
  }

  lemma AboveFalls(s: nat, t: nat)
    requires s < t < DWORD
    ensures Above(t) < Above(s)
  {
  }

  function Raised(base: real, step: real, part: real): real {
    base + step * part
  }

  lemma RaisedMore(base: real, step: real, a: real, b: real)
    requires step > 0.0 && a < b
    ensures Raised(base, step, a) < Raised(base, step, b)
  {
  }

  lemma RaisedBelow(p: real, s: real, a: real, q: real, t: real, b: real)
    requires s > 0.0 && t > 0.0 && a < 1.0 && b >= 0.0 && q - p >= s
    ensures Raised(p, s, a) < Raised(q, t, b)
  {
    RaisedMore(p, s, a, 1.0);
    if b > 0.0 { RaisedMore(q, t, 0.0, b); }
  }

  function KeyRank(k: ByteKey): real
    requires k.sn <= MAX_SEQ
  {
    Raised(BytewiseRank(k.user), Small(|k.user| + 1), Above(Tag(IKey(0.0, k.sn, k.kind))))
  }

  lemma KeyRankGrows(x: ByteKey, y: ByteKey)
    requires x.sn <= MAX_SEQ && y.sn <= MAX_SEQ && Less(Ranked(BytewiseRank, x), Ranked(BytewiseRank, y))
    ensures KeyRank(x) < KeyRank(y)
  {
    var s, t := Tag(IKey(0.0, x.sn, x.kind)), Tag(IKey(0.0, y.sn, y.kind));
    RankIsInjective(x.user, y.user);
    if x.user == y.user {
      AboveFalls(t, s);
      RaisedMore(BytewiseRank(x.user), Small(|x.user| + 1), Above(s), Above(t));
    } else {
      RankGap(x.user, y.user);
      RaisedBelow(BytewiseRank(x.user), Small(|x.user| + 1), Above(s), BytewiseRank(y.user), Small(|y.user| + 1), Above(t));
    }
  }

  lemma KeysCompare(x: ByteKey, y: ByteKey)
    requires x.sn <= MAX_SEQ && y.sn <= MAX_SEQ
    ensures KeyRank(x) < KeyRank(y) <==> Less(Ranked(BytewiseRank, x), Ranked(BytewiseRank, y))
  {
    var a, b := Ranked(BytewiseRank, x), Ranked(BytewiseRank, y);
    if Less(a, b) { KeyRankGrows(x, y); }
    if Less(b, a) { KeyRankGrows(y, x); }
    if !Less(a, b) && !Less(b, a) { RankIsInjective(x.user, y.user); }
  }

  ghost predicate RanksAsParsed(irank: BI.Rank, b: Bytes) {
    |b| >= 8 && ParseKey(b).sn <= MAX_SEQ ==> irank(b) == KeyRank(ParseKey(b))
  }

  lemma StoredKeyRank(irank: BI.Rank, x: ByteKey)
    requires forall b: Bytes :: RanksAsParsed(irank, b)
    requires x.sn <= MAX_SEQ
    ensures irank(KeyBytes(x)) == KeyRank(x)
  {
    KeyRoundTrip(x);
    assert RanksAsParsed(irank, KeyBytes(x));
  }

  lemma StoredKeysCompare(irank: BI.Rank, x: ByteKey, y: ByteKey)
    requires forall b: Bytes :: RanksAsParsed(irank, b)
    requires x.sn <= MAX_SEQ && y.sn <= MAX_SEQ
    ensures irank(KeyBytes(x)) < irank(KeyBytes(y)) <==> Less(Ranked(BytewiseRank, x), Ranked(BytewiseRank, y))
  {
    StoredKeyRank(irank, x);
    StoredKeyRank(irank, y);
    KeysCompare(x, y);
  }

  /** The internal comparator's order on stored keys is an order of ranks. */
  lemma StoredKeysRank(irank: BI.Rank)
    requires forall b: Bytes :: RanksAsParsed(irank, b)
    ensures RanksKeys(irank)
  {
    forall x: ByteKey, y: ByteKey | x.sn <= MAX_SEQ && y.sn <= MAX_SEQ
      ensures irank(KeyBytes(x)) < irank(KeyBytes(y)) <==> Less(Ranked(BytewiseRank, x), Ranked(BytewiseRank, y))
    {
      StoredKeysCompare(irank, x, y);
    }
  }

  /** Values as bytes. */
  datatype Text = Text(unrank: Unrank, bytes: string -> Bytes, text: Bytes -> string)

  ghost predicate Stores(x: Text, e: Entry) {
    && IsRank(x.unrank, e.key.user) && e.key.sn <= MAX_SEQ && x.text(x.bytes(e.value)) == e.value
    && |x.unrank(e.key.user)| + 8 < WORD && |x.bytes(e.value)| < WORD
  }

  ghost predicate AllStore(x: Text, es: seq<Entry>) {
    forall i :: 0 <= i < |es| ==> Stores(x, es[i])
  }

  lemma PartStores(x: Text, es: seq<Entry>, part: seq<Entry>)
    requires AllStore(x, es) && forall e :: e in part ==> e in es
    ensures AllStore(x, part)
  {
    forall i | 0 <= i < |part| ensures Stores(x, part[i]) {
      assert part[i] in es;
    }
  }

  function Stored(x: Text, e: Entry): BI.KV
    requires e.key.sn <= MAX_SEQ
  {
    BI.KV(KeyBytes(Unranked(x.unrank, e.key)), x.bytes(e.value))
  }

  function Loaded(x: Text, key: Bytes, value: Bytes): Entry
    requires |key| >= 8
  {
    Entry(Ranked(BytewiseRank, ParseKey(key)), x.text(value))
  }

  lemma StoredLoads(x: Text, e: Entry)
    requires Stores(x, e)
    ensures var kv := Stored(x, e); |kv.key| >= 8 && Loaded(x, kv.key, kv.value) == e && |kv.key| < WORD && |kv.value| < WORD
  {
    KeyRoundTrip(Unranked(x.unrank, e.key));
  }

  function AllStored(x: Text, es: seq<Entry>): (kvs: seq<BI.KV>)
    requires AllStore(x, es)
    ensures |kvs| == |es| && forall i :: 0 <= i < |es| ==> kvs[i] == Stored(x, es[i])
  {
    seq(|es|, i requires 0 <= i < |es| => Stored(x, es[i]))
  }

  lemma StoredCompares(x: Text, irank: BI.Rank, a: IKey, b: IKey)
    requires RanksKeys(irank) && IsRank(x.unrank, a.user) && IsRank(x.unrank, b.user) && a.sn <= MAX_SEQ && b.sn <= MAX_SEQ
    ensures irank(KeyBytes(Unranked(x.unrank, a))) < irank(KeyBytes(Unranked(x.unrank, b))) <==> Less(a, b)
  {
    assert Ranked(BytewiseRank, Unranked(x.unrank, a)) == a && Ranked(BytewiseRank, Unranked(x.unrank, b)) == b;
  }

  lemma {:induction false} ProbeAt(es: seq<Entry>, k: IKey, i: nat)
    requires i <= |es| && (forall j :: 0 <= j < i ==> Less(es[j].key, k)) && (i < |es| ==> !Less(es[i].key, k))
    ensures Probe(es, k) == if i < |es| && es[i].key.user == k.user then Some(es[i]) else None
    decreases |es|
  {
    if i > 0 { ProbeAt(es[1..], k, i - 1); }
  }

  /** A data block written with prefix compression, opened and searched, gives the answer of a scan. */
  method ProbeBlock(es: seq<Entry>, k: IKey, x: Text, interval: nat, irank: BI.Rank, enc: Bk.ItemCodec, fix: Bk.WordCodec, dec: Bytes -> BI.Decode)
    returns (block: Bytes, r: Option<Entry>)
    requires Sorted(es) && AllStore(x, es) && IsRank(x.unrank, k.user) && k.sn <= MAX_SEQ
    requires interval >= 1 && RanksKeys(irank) && Bk.IsItemBytes(enc) && Bk.IsFixed32(fix) && forall data :: Bk.DecodesData(dec(data), data)
    ensures |block| < WORD ==> r == Probe(es, k)
  {
    var kvs := AllStored(x, es);
    StoredIncreases(x, irank, es, kvs);
    var it;
    block, it := Bk.BuildAndOpen(kvs, interval, irank, enc, fix, dec);
    r := None;
    if |block| < WORD {
      var target := KeyBytes(Unranked(x.unrank, k));
      it.Seek(target);
      it.ValidMeansOn();
      SeekIsProbe(x, irank, es, kvs, k, it.pos);
      if it.Valid() {
        StoredLoads(x, es[it.pos]);
        var e := Loaded(x, it.key, it.value);
        if e.key.user == k.user { r := Some(e); }
      }
    }
  }

  lemma StoredIncreases(x: Text, irank: BI.Rank, es: seq<Entry>, kvs: seq<BI.KV>)
    requires Sorted(es) && AllStore(x, es) && RanksKeys(irank) && kvs == AllStored(x, es)
    ensures BI.Increasing(irank, kvs) && forall i :: 0 <= i < |kvs| ==> |kvs[i].key| < WORD && |kvs[i].value| < WORD
  {
    forall i, j | 0 <= i < j < |kvs| ensures irank(kvs[i].key) < irank(kvs[j].key) {
      assert es[i] in es && es[j] in es && Before(es[i].key, es[j].key);
      StoredCompares(x, irank, es[i].key, es[j].key);
    }
    forall i | 0 <= i < |kvs| ensures |kvs[i].key| < WORD && |kvs[i].value| < WORD {
      assert es[i] in es;
      StoredLoads(x, es[i]);
    }
  }

  lemma SeekIsProbe(x: Text, irank: BI.Rank, es: seq<Entry>, kvs: seq<BI.KV>, k: IKey, i: nat)
    requires AllStore(x, es) && RanksKeys(irank) && kvs == AllStored(x, es) && IsRank(x.unrank, k.user) && k.sn <= MAX_SEQ
    requires BI.IsCeiling(irank, kvs, KeyBytes(Unranked(x.unrank, k)), i)
    ensures Probe(es, k) == if i < |es| && es[i].key.user == k.user then Some(es[i]) else None
  {
    forall j | 0 <= j <= i && j < |es| ensures Less(es[j].key, k) <==> j < i {
      assert es[j] in es;
      StoredCompares(x, irank, es[j].key, k);
    }
    ProbeAt(es, k, i);
  }

  // ---------------------------------------------------------------- the whole table

  /** A table built with the bytewise comparator, a Bloom filter and prefix-compressed blocks, and
      looked up through all three: the answer is that of a scan of the entries. */
  method BuildAndGetBytes(es: seq<Entry>, k: IKey, x: Text, size: seq<Entry> -> nat, written: seq<Entry> -> nat, blockSize: nat, interval: nat,
                          hash: Bl.Hash, bitsPerKey: nat, probes: Byte, irank: BI.Rank,
                          enc: Bk.ItemCodec, fix: Bk.WordCodec, dec: Bytes -> BI.Decode, ghost make: seq<UserKey> -> Bytes)
    returns (filter: Bytes, block: Bytes, r: Option<Entry>)
    requires Sorted(es) && AllStore(x, es) && IsRank(x.unrank, k.user) && k.sn <= MAX_SEQ
    requires interval >= 1 && RanksKeys(irank) && Bk.IsItemBytes(enc) && Bk.IsFixed32(fix) && forall data :: Bk.DecodesData(dec(data), data)
    requires F.Makes(make, (us: seq<UserKey>) => Bl.FilterOf(hash, bitsPerKey, probes, Strings(x.unrank, us)))
    ensures |filter| < WORD && |block| < WORD ==> r == Probe(es, k)
  {
    var sep: T.Sep := (a: IKey, b: IKey) => ByteSep(x.unrank, a, b);
    var succ: T.Succ := (a: IKey) => ByteSucc(x.unrank, a);
    var create: F.Create<UserKey> := (us: seq<UserKey>) => Bl.FilterOf(hash, bitsPerKey, probes, Strings(x.unrank, us));
    var policy: F.May<UserKey> := (u: UserKey, f: Bytes) => Bl.Matches(hash, x.unrank(u), f);
    ByteIndexKeys(x.unrank, sep, succ);
    BloomIsSoundForRanks(x.unrank, hash, bitsPerKey, probes, create, policy);
    var t;
    t, filter := T.Build(es, size, written, blockSize, sep, succ, create, policy, fix, make);
    block, r := [], None;
    if |filter| < WORD {
      var b := T.FindBlock(t, T.MayOf(policy, filter), k);
      if b.Some? {
        T.BlockIsPart(t.blocks, |t.blocks|, b.value);
        PartStores(x, es, t.blocks[b.value]);
        block, r := ProbeBlock(t.blocks[b.value], k, x, interval, irank, enc, fix, dec);
      }
    }
  }
}
