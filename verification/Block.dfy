/** Blocks as bytes: block_builder.cc, and the decoding half of block.cc. */
module Block {
  import opened Coding
  import opened Files
  import opened BlockIter

  /** One entry as the builder writes it. */
  datatype Item = Item(shared: nat, key: Bytes, value: Bytes)

  predicate ItemOk(x: Item) {
    x.shared <= |x.key| < WORD && |x.value| < WORD
  }

  function Tail(x: Item): Bytes
    requires ItemOk(x)
  {
    x.key[x.shared..] + x.value
  }

  function ItemBytes(x: Item): (r: Bytes)
    requires ItemOk(x)
    ensures |r| >= 3
  {
    Varint(x.shared) + Varint(|x.key| - x.shared) + Varint(|x.value|) + Tail(x)
  }

  // ---------------------------------------------------------------- decoding one entry

  /** The three lengths of an entry. */
  datatype Lengths = Lengths(shared: nat, nonShared: nat, value: nat)

  function GetThree(s: Bytes): (r: Parsed<Lengths>)
    ensures r.Got? ==> |r.rest| < |s|
  {
    var a := GetVarint32(s);
    if a.Malformed? then Malformed else
    var b := GetVarint32(a.rest);
    if b.Malformed? then Malformed else
    var c := GetVarint32(b.rest);
    if c.Malformed? then Malformed else Got(Lengths(a.value, b.value, c.value), c.rest)
  }

  /** With the short cut for three one-byte lengths. */
  function GetLengths(s: Bytes): (r: Parsed<Lengths>)
    ensures r.Got? ==> |r.rest| < |s|
  {
    if |s| < 3 then Malformed
    else if s[0] < 128 && s[1] < 128 && s[2] < 128 then Got(Lengths(s[0], s[1], s[2]), s[3..])
    else GetThree(s)
  }

  /** The short cut changes nothing. */
  lemma ShortCut(s: Bytes)
    requires |s| >= 3
    ensures GetLengths(s) == GetThree(s)
  {
    if s[0] < 128 && s[1] < 128 && s[2] < 128 {
      assert GetVarint32(s) == Got(s[0] as nat, s[1..]);
      assert s[1..][1..] == s[2..] && s[2..][1..] == s[3..];
      assert GetVarint32(s[1..]) == Got(s[1] as nat, s[2..]);
      assert GetVarint32(s[2..]) == Got(s[2] as nat, s[3..]);
    }
  }

  /** DecodeEntry at offset `at` of the entries. */
  function DecodeEntry(data: Bytes, at: nat): Option<Raw> {
    if at > |data| then None
    else
      var p := GetLengths(data[at..]);
      if p.Malformed? then None
      else
        var n, v := p.value.nonShared, p.value.value;
        if |p.rest| < n + v then None
        else Some(Raw(p.value.shared, p.rest[..n], p.rest[n..n + v], |data| - |p.rest| + n + v))
  }

  lemma LengthsRoundTrip(x: Item, rest: Bytes)
    requires ItemOk(x)
    ensures GetLengths(ItemBytes(x) + rest) == Got(Lengths(x.shared, |x.key| - x.shared, |x.value|), Tail(x) + rest)
  {
    var s := ItemBytes(x) + rest;
    var c := Tail(x) + rest;
    var b := Varint(|x.value|) + c;
    var a := Varint(|x.key| - x.shared) + b;
    assert s == Varint(x.shared) + a;
    Varint32RoundTrip(x.shared, a);
    Varint32RoundTrip(|x.key| - x.shared, b);
    Varint32RoundTrip(|x.value|, c);
    ShortCut(s);
  }

  /** An entry is decoded wherever it stands. */
  lemma EntryRoundTrip(data: Bytes, before: Bytes, x: Item, rest: Bytes)
    requires ItemOk(x) && data == before + ItemBytes(x) + rest
    ensures DecodeEntry(data, |before|) == Some(Raw(x.shared, x.key[x.shared..], x.value, |before| + |ItemBytes(x)|))
  {
    assert data[|before|..] == ItemBytes(x) + rest;
    LengthsRoundTrip(x, rest);
    var t, n, v := Tail(x) + rest, |x.key| - x.shared, |x.value|;
    assert t[..n] == x.key[x.shared..] && t[n..n + v] == x.value;
  }

  // ---------------------------------------------------------------- the entries of a block

  type ItemCodec = Item -> Bytes

  /** A mark. */
  predicate IsEntry(x: Item) {
    x.shared >= 0
  }

  ghost predicate IsItemBytes(enc: ItemCodec) {
    forall x {:trigger IsEntry(x)} :: IsEntry(x) && ItemOk(x) ==> enc(x) == ItemBytes(x)
  }

  ghost predicate ItemsOk(xs: seq<Item>) {
    forall i :: 0 <= i < |xs| ==> ItemOk(xs[i])
  }

  ghost function Offset(enc: ItemCodec, xs: seq<Item>, i: nat): nat
    requires i <= |xs|
  {
    |Flat(enc, xs[..i])|
  }

  lemma OffsetStep(enc: ItemCodec, xs: seq<Item>, i: nat)
    requires i < |xs| && IsItemBytes(enc) && ItemOk(xs[i])
    ensures Flat(enc, xs[..i + 1]) == Flat(enc, xs[..i]) + enc(xs[i])
    ensures Offset(enc, xs, i + 1) == Offset(enc, xs, i) + |enc(xs[i])| && |enc(xs[i])| >= 3
  {
    assert xs[..i + 1][..i] == xs[..i];
    assert IsEntry(xs[i]);
  }

  lemma {:induction false} OffsetsGrow(enc: ItemCodec, xs: seq<Item>, i: nat, j: nat)
    requires i <= j <= |xs| && IsItemBytes(enc) && ItemsOk(xs)
    ensures Offset(enc, xs, i) <= Offset(enc, xs, j) && (i < j ==> Offset(enc, xs, i) < Offset(enc, xs, j))
    ensures Flat(enc, xs[..i]) <= Flat(enc, xs[..j])
    decreases j
  {
    if i < j {
      OffsetsGrow(enc, xs, i, j - 1);
      OffsetStep(enc, xs, j - 1);
    }
  }

  lemma PrefixSplits(before: Bytes, mid: Bytes, upTo: Bytes, all: Bytes)
    requires upTo == before + mid && upTo <= all
    ensures all == before + mid + all[|upTo|..]
  {
  }

  /** `dec` is DecodeEntry on these bytes. */
  ghost predicate DecodesData(dec: Decode, data: Bytes) {
    forall at: nat {:trigger Ix(at)} :: Ix(at) ==> dec(at) == DecodeEntry(data, at)
  }

  function RawItem(x: Item, next: nat): Raw
    requires ItemOk(x)
  {
    Raw(x.shared, x.key[x.shared..], x.value, next)
  }

  lemma EntryAt(dec: Decode, data: Bytes, before: Bytes, x: Item, bytes: Bytes, rest: Bytes, at: nat, next: nat)
    requires DecodesData(dec, data) && ItemOk(x) && bytes == ItemBytes(x) && data == before + bytes + rest
    requires at == |before| && next == at + |bytes|
    ensures dec(at) == Some(RawItem(x, next))
  {
    assert Ix(|before|);
    EntryRoundTrip(data, before, x, rest);
  }

  lemma DecodesAt(enc: ItemCodec, dec: Decode, xs: seq<Item>, i: nat)
    requires i < |xs| && IsItemBytes(enc) && ItemsOk(xs) && DecodesData(dec, Flat(enc, xs))
    ensures dec(Offset(enc, xs, i)) == Some(RawItem(xs[i], Offset(enc, xs, i + 1)))
  {
    var rest := SplitsAt(enc, xs, i);
    EntryAt(dec, Flat(enc, xs), Flat(enc, xs[..i]), xs[i], enc(xs[i]), rest, Offset(enc, xs, i), Offset(enc, xs, i + 1));
  }

  /** The bytes of a block around one of its entries. */
  lemma SplitsAt(enc: ItemCodec, xs: seq<Item>, i: nat) returns (rest: Bytes)
    requires i < |xs| && IsItemBytes(enc) && ItemsOk(xs)
    ensures Flat(enc, xs) == Flat(enc, xs[..i]) + enc(xs[i]) + rest && enc(xs[i]) == ItemBytes(xs[i])
    ensures Offset(enc, xs, i) == |Flat(enc, xs[..i])| && Offset(enc, xs, i + 1) == Offset(enc, xs, i) + |enc(xs[i])|
  {
    OffsetStep(enc, xs, i);
    OffsetsGrow(enc, xs, i + 1, |xs|);
    assert xs[..|xs|] == xs && IsEntry(xs[i]);
    var upTo := Flat(enc, xs[..i + 1]);
    rest := Flat(enc, xs)[|upTo|..];
    PrefixSplits(Flat(enc, xs[..i]), enc(xs[i]), upTo, Flat(enc, xs));
  }

  // ---------------------------------------------------------------- the trailer

  type WordCodec = nat -> Bytes

  ghost predicate IsFixed32(fix: WordCodec) {
    && (forall w: nat :: |fix(w)| == 4)
    && forall w: nat {:trigger Ix(w)} :: Ix(w) ==> fix(w) == LittleEndian(w, 4)
  }

  lemma FixedReads(fix: WordCodec, w: nat)
    requires IsFixed32(fix) && w < WORD
    ensures FromLittleEndian(fix(w)) == w
  {
    assert Ix(w);
    Powers();
    LittleEndianRoundTrip(w, 4);
  }

  lemma {:induction false} WordsSize(fix: WordCodec, ws: seq<nat>)
    requires IsFixed32(fix)
    ensures |Flat(fix, ws)| == 4 * |ws|
    decreases |ws|
  {
    if ws != [] { WordsSize(fix, ws[..|ws| - 1]); }
  }

  lemma {:induction false} WordAt(fix: WordCodec, ws: seq<nat>, i: nat)
    requires IsFixed32(fix) && i < |ws|
    ensures |Flat(fix, ws)| == 4 * |ws| && Flat(fix, ws)[4 * i..4 * i + 4] == fix(ws[i])
    decreases |ws|
  {
    var init := ws[..|ws| - 1];
    WordsSize(fix, ws);
    WordsSize(fix, init);
    if i < |ws| - 1 { WordAt(fix, init, i); }
  }

  function NumRestarts(block: Bytes): nat
    requires |block| >= 4
  {
    FromLittleEndian(block[|block| - 4..])
  }

  /** The offset of the restart array, unless there is no room for it. */
  function RestartOffset(block: Bytes): Option<nat> {
    if |block| < 4 || NumRestarts(block) > (|block| - 4) / 4 then None
    else Some(|block| - (1 + NumRestarts(block)) * 4)
  }

  function RestartPoint(block: Bytes, limit: nat, i: nat): nat
    requires limit + 4 * i + 4 <= |block|
  {
    FromLittleEndian(block[limit + 4 * i..limit + 4 * i + 4])
  }

  /** Finish: entries, restart array, and its length. */
  ghost function Finished(fix: WordCodec, data: Bytes, restarts: seq<nat>): Bytes {
    data + Flat(fix, restarts) + fix(|restarts|)
  }

  lemma TrailerReads(fix: WordCodec, data: Bytes, restarts: seq<nat>, block: Bytes)
    requires IsFixed32(fix) && block == Finished(fix, data, restarts) && |block| < WORD
    ensures |block| == |data| + 4 * |restarts| + 4 && NumRestarts(block) == |restarts| && RestartOffset(block) == Some(|data|)
  {
    WordsSize(fix, restarts);
    assert block[|block| - 4..] == fix(|restarts|);
    FixedReads(fix, |restarts|);
  }

  lemma PointReads(fix: WordCodec, data: Bytes, restarts: seq<nat>, block: Bytes, i: nat)
    requires IsFixed32(fix) && block == Finished(fix, data, restarts) && |block| < WORD && i < |restarts| && restarts[i] < WORD
    ensures |block| == |data| + 4 * |restarts| + 4 && RestartPoint(block, |data|, i) == restarts[i]
  {
    WordAt(fix, restarts, i);
    var words := Flat(fix, restarts);
    assert block[|data| + 4 * i..|data| + 4 * i + 4] == words[4 * i..4 * i + 4];
    FixedReads(fix, restarts[i]);
  }

  // ---------------------------------------------------------------- the builder

  /** Each entry agrees with its predecessor in the bytes it shares. */
  ghost predicate Chained(xs: seq<Item>) {
    && (xs != [] ==> xs[0].shared == 0)
    && forall i {:trigger Ix(i)} :: Ix(i) && 0 < i < |xs| ==> Agree(xs[i - 1].key, xs[i].key, xs[i].shared)
  }

  /** Restarts come every `interval` entries, and share nothing. */
  ghost predicate RestartsFit(xs: seq<Item>, rs: seq<nat>, interval: nat) {
    && |rs| > 0 && rs[0] == 0
    && (forall j {:trigger Ix(j)} :: Ix(j) && 0 < j < |rs| ==> rs[j] == rs[j - 1] + interval)
    && (forall j, k :: 0 <= j < k < |rs| ==> rs[j] < rs[k])
    && (forall j :: 0 < j < |rs| ==> rs[j] < |xs|)
    && (forall j :: 0 <= j < |rs| && rs[j] < |xs| ==> xs[rs[j]].shared == 0)
  }

  ghost predicate PointsFit(enc: ItemCodec, xs: seq<Item>, rs: seq<nat>, restarts: seq<nat>) {
    |restarts| == |rs| && forall j :: 0 <= j < |rs| ==> rs[j] <= |xs| && restarts[j] == Offset(enc, xs, rs[j])
  }

  function LastKey(xs: seq<Item>): Bytes {
    if xs == [] then [] else xs[|xs| - 1].key
  }

  /** The first `n` bytes are all that two keys have in common at the front. */
  ghost predicate IsLongestCommon(a: Bytes, b: Bytes, n: nat) {
    Agree(a, b, n) && (n < |a| && n < |b| ==> a[n] != b[n])
  }

  /** How many leading bytes two keys have in common. */
  method CommonPrefix(a: Bytes, b: Bytes) returns (n: nat)
    ensures IsLongestCommon(a, b, n)
  {
    n := 0;
    while n < |a| && n < |b| && a[n] == b[n]
      invariant Agree(a, b, n)
    {
      assert a[..n + 1] == a[..n] + [a[n]] && b[..n + 1] == b[..n] + [b[n]];
      n := n + 1;
    }
  }

  class BlockBuilder {
    const interval: nat
    const enc: ItemCodec
    var buffer: Bytes
    var restarts: seq<nat>
    var counter: nat
    var lastKey: Bytes
    ghost var xs: seq<Item>
    ghost var rs: seq<nat>

    ghost predicate Ok()
      reads this
    {
      BuilderOk(enc, interval, buffer, restarts, counter, lastKey, xs, rs)
    }

    constructor (interval: nat, enc: ItemCodec)
      requires interval >= 1 && IsItemBytes(enc)
      ensures Ok() && xs == [] && this.interval == interval && this.enc == enc
    {
      this.interval, this.enc := interval, enc;
      buffer, restarts, counter, lastKey := [], [0], 0, [];
      xs, rs := [], [0];
    }

    /** Add: prefix compression against the last key, except at a restart. */
    method Add(key: Bytes, value: Bytes) returns (ghost x: Item)
      requires Ok() && |key| < WORD && |value| < WORD
      modifies this
      ensures Ok() && xs == old(xs) + [x] && x.key == key && x.value == value
      ensures old(counter) < interval ==> IsLongestCommon(old(lastKey), key, x.shared)
      ensures old(counter) >= interval ==> x.shared == 0
    {
      var shared, restarts', counter' := 0, restarts, counter;
      ghost var rs' := rs;
      if counter < interval {
        shared := CommonPrefix(lastKey, key);
      } else {
        restarts' := restarts + [|buffer|];
        counter' := 0;
        rs' := rs + [|xs|];
      }
      var item := Item(shared, key, value);
      x := item;
      AddedOk(enc, interval, buffer, restarts, counter, lastKey, xs, rs, x, restarts', counter', rs');
      Append(item, restarts', counter', rs');
    }

    /** Write the entry and take over the new state. */
    method Append(x: Item, restarts': seq<nat>, counter': nat, ghost rs': seq<nat>)
      requires BuilderOk(enc, interval, buffer + enc(x), restarts', counter' + 1, x.key, xs + [x], rs')
      modifies this
      ensures Ok() && xs == old(xs) + [x]
    {
      buffer := buffer + enc(x);
      restarts, counter, lastKey := restarts', counter' + 1, x.key;
      xs, rs := xs + [x], rs';
    }
  }

  ghost predicate BuilderOk(enc: ItemCodec, interval: nat, buffer: Bytes, restarts: seq<nat>, counter: nat, lastKey: Bytes,
                            xs: seq<Item>, rs: seq<nat>) {
    && interval >= 1 && IsItemBytes(enc) && ItemsOk(xs) && Chained(xs) && RestartsFit(xs, rs, interval)
    && buffer == Flat(enc, xs) && PointsFit(enc, xs, rs, restarts) && lastKey == LastKey(xs)
    && rs[|rs| - 1] <= |xs| && counter == |xs| - rs[|rs| - 1] <= interval
  }

  lemma AddedOk(enc: ItemCodec, interval: nat, buffer: Bytes, restarts: seq<nat>, counter: nat, lastKey: Bytes,
                xs: seq<Item>, rs: seq<nat>, x: Item, restarts': seq<nat>, counter': nat, rs': seq<nat>)
    requires BuilderOk(enc, interval, buffer, restarts, counter, lastKey, xs, rs) && ItemOk(x)
    requires if counter < interval
             then restarts' == restarts && counter' == counter && rs' == rs && Agree(lastKey, x.key, x.shared)
             else restarts' == restarts + [|buffer|] && counter' == 0 && rs' == rs + [|xs|] && x.shared == 0
    ensures BuilderOk(enc, interval, buffer + enc(x), restarts', counter' + 1, x.key, xs + [x], rs')
  {
    AddKeeps(xs, rs, interval, x, rs');
    AddKeepsPoints(enc, xs, rs, restarts, x, rs', restarts');
  }

  lemma AddKeeps(xs: seq<Item>, rs: seq<nat>, interval: nat, x: Item, rs': seq<nat>)
    requires interval >= 1 && Chained(xs) && ItemsOk(xs) && RestartsFit(xs, rs, interval) && ItemOk(x)
    requires |xs| - rs[|rs| - 1] <= interval && rs[|rs| - 1] <= |xs|
    requires if |xs| - rs[|rs| - 1] < interval then rs' == rs && Agree(LastKey(xs), x.key, x.shared) else rs' == rs + [|xs|] && x.shared == 0
    ensures Chained(xs + [x]) && ItemsOk(xs + [x]) && RestartsFit(xs + [x], rs', interval)
  {
    AddKeepsRestarts(xs, rs, interval, x, rs');
    forall i | 0 < i < |xs + [x]| ensures Agree((xs + [x])[i - 1].key, (xs + [x])[i].key, (xs + [x])[i].shared) { assert Ix(i); }
  }

  lemma AddKeepsRestarts(xs: seq<Item>, rs: seq<nat>, interval: nat, x: Item, rs': seq<nat>)
    requires interval >= 1 && RestartsFit(xs, rs, interval)
    requires |xs| - rs[|rs| - 1] <= interval && rs[|rs| - 1] <= |xs| && (xs == [] ==> x.shared == 0)
    requires if |xs| - rs[|rs| - 1] < interval then rs' == rs else rs' == rs + [|xs|] && x.shared == 0
    ensures RestartsFit(xs + [x], rs', interval)
  {
    var ys, last := xs + [x], rs[|rs| - 1];
    forall j | 0 < j < |rs'| ensures rs'[j] == rs'[j - 1] + interval { assert Ix(j); }
    forall j, k | 0 <= j < k < |rs'| ensures rs'[j] < rs'[k] {
      if k == |rs| { assert j < |rs| - 1 ==> rs[j] < last; }
    }
    forall j | 0 <= j < |rs'| && rs'[j] < |ys| ensures ys[rs'[j]].shared == 0 {
      if rs'[j] < |xs| {
        assert ys[rs'[j]] == xs[rs'[j]];
      } else {
        assert rs'[j] == |xs|;
      }
    }
  }

  lemma AddKeepsPoints(enc: ItemCodec, xs: seq<Item>, rs: seq<nat>, restarts: seq<nat>, x: Item, rs': seq<nat>, restarts': seq<nat>)
    requires PointsFit(enc, xs, rs, restarts) && |rs| > 0
    requires (rs' == rs && restarts' == restarts) || (rs' == rs + [|xs|] && restarts' == restarts + [|Flat(enc, xs)|])
    ensures PointsFit(enc, xs + [x], rs', restarts') && Flat(enc, xs + [x]) == Flat(enc, xs) + enc(x)
  {
    assert (xs + [x])[..|xs|] == xs;
    forall j | 0 <= j < |rs'| ensures rs'[j] <= |xs + [x]| && restarts'[j] == Offset(enc, xs + [x], rs'[j]) {
      assert (xs + [x])[..rs'[j]] == xs[..rs'[j]];
      assert xs[..|xs|] == xs;
    }
  }

  // ---------------------------------------------------------------- a built block, opened

  ghost function LayoutOf(enc: ItemCodec, xs: seq<Item>, rs: seq<nat>): (l: Layout)
    ensures |l.es| == |l.shares| == |xs| && |l.offs| == |xs| + 1 && l.rs == rs
    ensures forall i :: 0 <= i < |xs| ==> l.es[i] == KV(xs[i].key, xs[i].value) && l.shares[i] == xs[i].shared
    ensures forall i :: 0 <= i <= |xs| ==> l.offs[i] == Offset(enc, xs, i)
  {
    Layout(seq(|xs|, i requires 0 <= i < |xs| => KV(xs[i].key, xs[i].value)),
           seq(|xs| + 1, i requires 0 <= i <= |xs| => Offset(enc, xs, i)),
           seq(|xs|, i requires 0 <= i < |xs| => xs[i].shared), rs)
  }

  lemma LayoutOffsets(enc: ItemCodec, xs: seq<Item>, rs: seq<nat>)
    requires IsItemBytes(enc) && ItemsOk(xs)
    ensures OffsetsOk(LayoutOf(enc, xs, rs), |Flat(enc, xs)|)
  {
    assert xs[..|xs|] == xs && xs[..0] == [];
    forall i, j | 0 <= i < j <= |xs| ensures Offset(enc, xs, i) < Offset(enc, xs, j) { OffsetsGrow(enc, xs, i, j); }
  }

  lemma LayoutShares(enc: ItemCodec, xs: seq<Item>, rs: seq<nat>, interval: nat)
    requires ItemsOk(xs) && Chained(xs) && RestartsFit(xs, rs, interval)
    ensures SharesOk(LayoutOf(enc, xs, rs)) && RestartsOk(LayoutOf(enc, xs, rs))
  {
    var l := LayoutOf(enc, xs, rs);
    forall i | 0 < i < |l.es| ensures Agree(l.es[i - 1].key, l.es[i].key, l.shares[i]) { assert Ix(i); }
  }

  /** A finished block decodes, through its restart array, to exactly the entries added. */
  lemma BuiltBlockDescribes(enc: ItemCodec, dec: Decode, rank: Rank, interval: nat, xs: seq<Item>, rs: seq<nat>, points: seq<nat>)
    requires IsItemBytes(enc) && ItemsOk(xs) && Chained(xs) && RestartsFit(xs, rs, interval) && PointsFit(enc, xs, rs, points)
    requires DecodesData(dec, Flat(enc, xs)) && Increasing(rank, LayoutOf(enc, xs, rs).es)
    ensures Describes(LayoutOf(enc, xs, rs), rank, dec, |Flat(enc, xs)|, points)
  {
    var l := LayoutOf(enc, xs, rs);
    LayoutOffsets(enc, xs, rs);
    LayoutShares(enc, xs, rs, interval);
    forall i | 0 <= i < |l.es| ensures dec(l.offs[i]) == Some(RawOf(l, i)) {
      DecodesAt(enc, dec, xs, i);
    }
  }

  /** Open a block: find the restart array, and read it. */
  method OpenBlock(block: Bytes) returns (limit: Option<nat>, points: seq<nat>)
    ensures limit == RestartOffset(block)
    ensures limit.Some? ==> |block| == limit.value + 4 * NumRestarts(block) + 4 && |points| == NumRestarts(block)
    ensures limit.Some? ==> forall i :: 0 <= i < |points| ==> points[i] == RestartPoint(block, limit.value, i)
  {
    limit, points := RestartOffset(block), [];
    if limit.None? { return; }
    for i := 0 to NumRestarts(block)
      invariant |points| == i && forall k :: 0 <= k < i ==> points[k] == RestartPoint(block, limit.value, k)
    {
      points := points + [RestartPoint(block, limit.value, i)];
    }
  }

  /** Build a block from any increasing list of entries, finish it, open it, and iterate: the
      iterator is over exactly that list. */
  method BuildAndOpen(kvs: seq<KV>, interval: nat, rank: Rank, enc: ItemCodec, fix: WordCodec, dec: Bytes -> Decode)
    returns (block: Bytes, it: Iter?)
    requires interval >= 1 && Increasing(rank, kvs) && IsItemBytes(enc) && IsFixed32(fix) && forall data :: DecodesData(dec(data), data)
    requires forall i :: 0 <= i < |kvs| ==> |kvs[i].key| < WORD && |kvs[i].value| < WORD
    ensures |block| < WORD ==> it != null && fresh(it) && it.Ok() && it.l.es == kvs && it.rank == rank && !it.corrupt && it.pos == |kvs|
  {
    var b := new BlockBuilder(interval, enc);
    AddAll(b, kvs);
    var words := WriteWords(fix, b.restarts);
    block := b.buffer + words + fix(|b.restarts|);
    it := null;
    if |block| < WORD {
      ghost var l := LayoutOf(enc, b.xs, b.rs);
      assert l.es == kvs;
      TrailerReads(fix, b.buffer, b.restarts, block);
      var limit, points := OpenBlock(block);
      PointsRead(fix, enc, b.xs, b.rs, b.buffer, b.restarts, block, points);
      assert block[..limit.value] == b.buffer;
      BuiltBlockDescribes(enc, dec(b.buffer), rank, interval, b.xs, b.rs, points);
      it := new Iter(rank, dec(block[..limit.value]), limit.value, points, l);
    }
  }

  ghost predicate Holds(xs: seq<Item>, kvs: seq<KV>) {
    |xs| == |kvs| && forall j :: 0 <= j < |kvs| ==> xs[j].key == kvs[j].key && xs[j].value == kvs[j].value
  }

  lemma HoldsMore(xs: seq<Item>, kvs: seq<KV>, i: nat, x: Item)
    requires i < |kvs| && Holds(xs, kvs[..i]) && x.key == kvs[i].key && x.value == kvs[i].value
    ensures Holds(xs + [x], kvs[..i + 1])
  {
  }

  method AddAll(b: BlockBuilder, kvs: seq<KV>)
    requires b.Ok() && b.xs == [] && forall i :: 0 <= i < |kvs| ==> |kvs[i].key| < WORD && |kvs[i].value| < WORD
    modifies b
    ensures b.Ok() && Holds(b.xs, kvs)
  {
    for i := 0 to |kvs|
      invariant b.Ok() && Holds(b.xs, kvs[..i])
    {
      ghost var before := b.xs;
      ghost var x := b.Add(kvs[i].key, kvs[i].value);
      HoldsMore(before, kvs, i, x);
    }
    assert kvs[..|kvs|] == kvs;
  }

  method WriteWords(fix: WordCodec, ws: seq<nat>) returns (r: Bytes)
    ensures r == Flat(fix, ws)
  {
    r := [];
    for i := 0 to |ws|
      invariant r == Flat(fix, ws[..i])
    {
      assert ws[..i + 1][..i] == ws[..i];
      r := r + fix(ws[i]);
    }
    assert ws[..|ws|] == ws;
  }

  lemma PointsRead(fix: WordCodec, enc: ItemCodec, xs: seq<Item>, rs: seq<nat>, data: Bytes, restarts: seq<nat>, block: Bytes, points: seq<nat>)
    requires IsFixed32(fix) && block == Finished(fix, data, restarts) && |block| < WORD && data == Flat(enc, xs)
    requires PointsFit(enc, xs, rs, restarts) && IsItemBytes(enc) && ItemsOk(xs)
    requires |points| == |restarts| && |block| == |data| + 4 * |restarts| + 4
    requires forall i :: 0 <= i < |points| ==> points[i] == RestartPoint(block, |data|, i)
    ensures points == restarts
  {
    forall i | 0 <= i < |points| ensures points[i] == restarts[i] {
      OffsetsGrow(enc, xs, rs[i], |xs|);
      assert xs[..|xs|] == xs;
      PointReads(fix, data, restarts, block, i);
    }
  }
}
