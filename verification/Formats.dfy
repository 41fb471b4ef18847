/** The bytes another program finds in the files: where each number goes, and which values the tags
    and types have. */
module Formats {
  import opened Coding
  import opened Keys
  import B = Block
  import Bl = Bloom
  import BT = ByteTable
  import E = EditCodec
  import F = FilterBlock
  import Log = LogFormat
  import S = Separators
  import W = WriteBatch

  // ---------------------------------------------------------------- numbers

  /** A 32-bit number: lowest byte first. */
  lemma Fixed32Bytes(w: Word)
    ensures Fixed32(w) == [w % 256, w / 0x100 % 256, w / 0x1_0000 % 256, w / 0x100_0000 % 256]
  {
    FourBytes(w);
  }

  lemma FourBytes(w: nat)
    ensures LittleEndian(w, 4) == [w % 256, w / 0x100 % 256, w / 0x1_0000 % 256, w / 0x100_0000 % 256]
  {
    var a := w / 256;
    var b := a / 256;
    assert b == w / 0x1_0000 && b / 256 == w / 0x100_0000;
    assert LittleEndian(b, 2) == [b % 256, b / 256 % 256];
  }

  /** A 64-bit number: its low half, then its high half. */
  lemma Fixed64Bytes(w: nat)
    ensures Fixed64(w)[..4] == LittleEndian(w, 4) && Fixed64(w)[4..] == LittleEndian(w / 0x1_0000_0000, 4)
  {
    FourBytes(w);
    var a := w / 256;
    var b := a / 256;
    var c := b / 256;
    var d := c / 256;
    assert b == w / 0x1_0000 && c == w / 0x100_0000 && d == w / 0x1_0000_0000;
    assert LittleEndian(c, 5) == [c % 256] + LittleEndian(d, 4);
    assert LittleEndian(b, 6) == [b % 256] + LittleEndian(c, 5);
    assert LittleEndian(a, 7) == [a % 256] + LittleEndian(b, 6);
    assert LittleEndian(w, 8) == [w % 256] + LittleEndian(a, 7);
  }

  /** What a varint is worth: seven bits a byte, lowest first. */
  function Weigh(s: Bytes): nat {
    if s == [] then 0 else s[0] % 128 + 128 * Weigh(s[1..])
  }

  /** All bytes of a varint but the last have their high bit set, and their low bits are the number. */
  lemma {:induction false} VarintBits(v: nat)
    ensures var s := Varint(v);
            Weigh(s) == v && s[|s| - 1] < 128 && forall i :: 0 <= i < |s| - 1 ==> s[i] >= 128
    decreases v
  {
    if v >= 128 {
      VarintBits(v / 128);
      assert Varint(v)[1..] == Varint(v / 128);
    }
  }

  /** A checksum is stored rotated right by fifteen bits and increased. */
  lemma MaskedBits(high: nat, low: nat)
    requires high < 0x2_0000 && low < 0x8000
    ensures high * 0x8000 + low < WORD && Mask(high * 0x8000 + low) == (low * 0x2_0000 + high + 0xa282ead8) % WORD
  {
    var crc := high * 0x8000 + low;
    assert crc / 0x8000 == high && crc % 0x8000 == low;
  }

  // ---------------------------------------------------------------- logs

  /** A physical record: checksum in bytes 0 to 3, length in 4 and 5, type in 6, then the payload. */
  lemma RecordBytes(crc: Log.Checksum, t: Byte, payload: Bytes)
    requires |payload| <= Log.BLOCK - Log.HEADER
    ensures var b := Log.Emit(crc, t, payload);
            && b[..4] == crc([t] + payload) && b[4] as int + 256 * (b[5] as int) == |payload| && b[6] == t && b[7..] == payload
  {
  }

  /** The types of whole, first, middle and last fragments. */
  lemma FragmentTypes()
    ensures Log.TypeOf(true, true) == 1 && Log.TypeOf(true, false) == 2 && Log.TypeOf(false, false) == 3 && Log.TypeOf(false, true) == 4
  {
  }

  // ---------------------------------------------------------------- batches and keys

  /** The head of a batch: sequence number in bytes 0 to 7, count in 8 to 11. */
  lemma BatchHead(enc: W.Op -> Bytes, rep: Bytes, sn: nat, ops: seq<W.Op>)
    requires W.Represents(enc, rep, sn, ops)
    ensures |rep| >= 12 && rep[..8] == LittleEndian(sn, 8) && rep[8..12] == LittleEndian(|ops|, 4) && rep[12..] == Flat(enc, ops)
  {
    W.HeaderParts(enc, rep, sn, ops);
  }

  /** The type byte of an operation, and what follows it. */
  lemma OperationBytes(op: W.Op)
    ensures op.Put? ==> W.OpBytes(op)[0] == 1 && W.OpBytes(op)[1..] == Prefixed(op.key) + Prefixed(op.value)
    ensures op.Delete? ==> W.OpBytes(op)[0] == 0 && W.OpBytes(op)[1..] == Prefixed(op.key)
  {
    if op.Put? { assert W.OpBytes(op) == [1] + (Prefixed(op.key) + Prefixed(op.value)); }
  }

  /** A length-prefixed string. */
  lemma PrefixedBytes(s: Bytes)
    ensures |s| < 128 ==> Prefixed(s) == [|s|] + s
  {
  }

  /** An internal key: the user key, the type byte, and seven bytes of sequence number. */
  lemma InternalKeyBytes(k: S.ByteKey)
    requires k.sn <= MAX_SEQ
    ensures var b, n := BT.KeyBytes(k), |k.user|;
            && |b| == n + 8 && b[..n] == k.user && b[n] == (if k.kind.Value? then 1 else 0) && b[n + 1..] == LittleEndian(k.sn, 7)
  {
    var tag := 256 * k.sn + (if k.kind.Value? then 1 else 0);
    var b, t := BT.KeyBytes(k), LittleEndian(tag, 8);
    assert t == [tag % 256] + LittleEndian(tag / 256, 7) && tag / 256 == k.sn;
    assert b == k.user + t;
  }

  // ---------------------------------------------------------------- manifests

  /** The tag that announces each item of a version edit, and what follows it. */
  lemma FieldStart(f: E.Field)
    ensures var b := E.FieldBytes(f);
            && b[1..] == E.Body(f)
            && b[0] == match f
                       case Comparator(_) => 1
                       case LogNumber(_) => 2
                       case NextFile(_) => 3
                       case LastSequence(_) => 4
                       case Pointer(_, _) => 5
                       case DeletedFile(_, _) => 6
                       case NewFile(_, _) => 7
                       case PrevLogNumber(_) => 9
  {
    var tag, body := E.TagOf(f), E.Body(f);
    assert Varint(tag) == [tag];
    assert ([tag] + body)[1..] == body;
  }

  /** The parts of each item, in order. */
  lemma FieldParts(f: E.Field)
    ensures f.Comparator? ==> E.Body(f) == Prefixed(f.name)
    ensures f.LogNumber? || f.NextFile? || f.LastSequence? || f.PrevLogNumber? ==> E.Body(f) == Varint(f.n)
    ensures f.Pointer? ==> E.Body(f) == Varint(f.level) + Prefixed(f.key)
    ensures f.DeletedFile? ==> E.Body(f) == Varint(f.level) + Varint(f.n)
    ensures f.NewFile? ==> E.Body(f) == Varint(f.level) + Varint(f.f.number) + Varint(f.f.size) + Prefixed(f.f.smallest) + Prefixed(f.f.largest)
  {
  }

  // ---------------------------------------------------------------- tables

  /** An entry of a block: how much of the key is shared, how much is not, how long the value is, and
      then the rest of the key and the value. */
  lemma EntryStart(x: B.Item)
    requires B.ItemOk(x) && x.shared < 128 && |x.key| - x.shared < 128 && |x.value| < 128
    ensures B.ItemBytes(x) == [x.shared, |x.key| - x.shared, |x.value|] + x.key[x.shared..] + x.value
  {
  }

  /** The end of a filter block: an offset for each filter, the offset of that array, and 11. */
  lemma FilterEnd(fix: B.WordCodec, result: Bytes, offsets: seq<nat>)
    requires B.IsFixed32(fix) && |result| < WORD
    ensures var c := F.Contents(fix, result, offsets);
            |c| >= 5 && c[|c| - 1] == 11 && c[|c| - 5..|c| - 1] == LittleEndian(|result|, 4) && result <= c
  {
    var c := F.Contents(fix, result, offsets);
    assert Ix(|result|);
  }

  /** The step between the probes of a Bloom filter: the hash rotated right by seventeen bits. */
  lemma DeltaBits(high: nat, low: nat)
    requires high < 0x8000 && low < 0x2_0000
    ensures high * 0x2_0000 + low < WORD && Bl.Delta(high * 0x2_0000 + low) == low * 0x8000 + high
  {
    var h := high * 0x2_0000 + low;
    assert h / 0x2_0000 == high && h % 0x2_0000 == low;
  }

  // ---------------------------------------------------------------- what any bytes are taken for

  /** Bytes of which all but the last have their high bit set. */
  ghost predicate IsVarint(s: Bytes) {
    s != [] && s[|s| - 1] < 128 && forall i :: 0 <= i < |s| - 1 ==> s[i] >= 128
  }

  /** A varint ends at the first byte without the high bit, and is refused if that comes too late. */
  lemma {:induction false} VarintIsRead(s: Bytes, max: nat, n: nat)
    requires 0 < n <= |s| && IsVarint(s[..n])
    ensures GetVarint(s, max) == if n <= max then Got(Weigh(s[..n]), s[n..]) else Malformed
    decreases n
  {
    if n == 1 {
      assert s[..1] == [s[0]] && Weigh(s[..1][1..]) == 0;
    } else if max > 0 {
      RestOfVarint(s, n);
      VarintIsRead(s[1..], max - 1, n - 1);
    }
  }

  lemma RestOfVarint(s: Bytes, n: nat)
    requires 1 < n <= |s| && IsVarint(s[..n])
    ensures s[0] >= 128 && IsVarint(s[1..][..n - 1]) && s[1..][n - 1..] == s[n..]
    ensures Weigh(s[..n]) == s[0] % 128 + 128 * Weigh(s[1..][..n - 1])
  {
    assert s[..n][0] == s[0];
    var t := s[1..][..n - 1];
    assert t == s[..n][1..];
    forall i | 0 <= i < |t| ensures t[i] == s[..n][i + 1] {}
  }

  /** Without such a byte there is none. */
  lemma {:induction false} NoVarint(s: Bytes, max: nat)
    requires forall i :: 0 <= i < |s| ==> s[i] >= 128
    ensures GetVarint(s, max) == Malformed
    decreases |s|
  {
    if s != [] && max > 0 { NoVarint(s[1..], max - 1); }
  }

  /** A length-prefixed string is the bytes right after its length. */
  lemma StringIsRead(s: Bytes, x: Bytes, rest: Bytes)
    ensures GetPrefixed(s) == Got(x, rest) <==> GetVarint32(s) == Got(|x|, x + rest)
  {
    if GetPrefixed(s) == Got(x, rest) { assert x + rest == GetVarint32(s).rest; }
    if GetVarint32(s) == Got(|x|, x + rest) { assert (x + rest)[..|x|] == x && (x + rest)[|x|..] == rest; }
  }

  /** An operation is taken from bytes that start with 1 and two strings, or with 0 and one, and from
      no others. */
  lemma OperationIff(s: Bytes, op: W.Op, rest: Bytes)
    ensures W.GetOp(s) == Got(op, rest) <==>
              s != [] && match op
                         case Put(key, value) => s[0] == 1 && exists r :: GetPrefixed(s[1..]) == Got(key, r) && GetPrefixed(r) == Got(value, rest)
                         case Delete(key) => s[0] == 0 && GetPrefixed(s[1..]) == Got(key, rest)
  {
  }

  /** An item is taken from bytes that start with its tag and go on with its parts, and from no others. */
  lemma FieldIff(s: Bytes, f: E.Field, rest: Bytes)
    ensures E.GetField(s) == Got(f, rest) <==> exists r :: GetVarint32(s) == Got(E.TagOf(f), r) && E.Reads(f, r, rest)
  {
    if r :| GetVarint32(s) == Got(E.TagOf(f), r) && E.Reads(f, r, rest) { E.TagCalls(f, r, rest); }
    if E.GetField(s) == Got(f, rest) { TagIsOf(GetVarint32(s).value, GetVarint32(s).rest, f, rest); }
  }

  lemma TagIsOf(tag: nat, s: Bytes, f: E.Field, rest: Bytes)
    requires E.GetBody(tag, s) == Got(f, rest)
    ensures tag == E.TagOf(f) && E.Reads(f, s, rest)
  {
  }

  /** No item comes with a level that does not exist or an empty key. */
  lemma FieldIsSane(s: Bytes, f: E.Field, rest: Bytes)
    requires E.GetField(s) == Got(f, rest)
    ensures f.Pointer? ==> f.level < 7 && f.key != []
    ensures f.DeletedFile? ==> f.level < 7
    ensures f.NewFile? ==> f.level < 7 && f.f.smallest != [] && f.f.largest != []
  {
    FieldIff(s, f, rest);
  }

  /** Places at[0], at[1], ... at each of which one item is taken, and where nothing is left or nothing
      can be taken. */
  ghost predicate IsCut<T>(get: Parser<T>, at: seq<Bytes>, items: seq<T>, ok: bool) {
    |at| == |items| + 1
    && (forall i :: 0 <= i < |items| ==> at[i] != [] && get(at[i]) == Got(items[i], at[i + 1]))
    && if ok then at[|items|] == [] else at[|items|] != [] && get(at[|items|]) == Malformed
  }

  /** A walk over a batch or an edit hands over the items at those places, and succeeds if nothing is left. */
  lemma {:induction false} CutIsRead<T>(get: Parser<T>, at: seq<Bytes>, items: seq<T>, ok: bool, done: seq<T>)
    requires Shrinks(get) && IsCut(get, at, items, ok)
    ensures ParseAll(get, at[0], done) == Walk(done + items, ok)
    decreases |items|
  {
    if items == [] {
      assert done + items == done;
    } else {
      CutIsRead(get, at[1..], items[1..], ok, done + [items[0]]);
      assert done + [items[0]] + items[1..] == done + items;
    }
  }

  /** Any bytes have such places. */
  lemma {:induction false} EveryInputIsCut<T>(get: Parser<T>, s: Bytes) returns (at: seq<Bytes>, items: seq<T>, ok: bool)
    requires Shrinks(get)
    ensures IsCut(get, at, items, ok) && at[0] == s
    decreases |s|
  {
    var p := get(s);
    if s == [] || p.Malformed? {
      at, items, ok := [s], [], s == [];
    } else {
      var at', items', ok' := EveryInputIsCut(get, p.rest);
      at, items, ok := [s] + at', [p.value] + items', ok';
    }
  }

  /** A block entry is taken from inside the block: key part and value stand before its end, after
      three lengths. */
  lemma EntryIsInside(data: Bytes, at: nat)
    requires B.DecodeEntry(data, at).Some?
    ensures var e := B.DecodeEntry(data, at).value;
            var v := e.next - |e.value|;
            at + 3 <= v - |e.delta| && e.next <= |data| && e.value == data[v..e.next] && e.delta == data[v - |e.delta|..v]
  {
    var e, p := B.DecodeEntry(data, at).value, B.GetLengths(data[at..]);
    LengthsAreBefore(data[at..]);
    assert p.rest == data[|data| - |p.rest|..];
  }

  lemma LengthsAreBefore(s: Bytes)
    requires B.GetLengths(s).Got?
    ensures var rest := B.GetLengths(s).rest; |rest| + 3 <= |s| && rest == s[|s| - |rest|..]
  {
    B.ShortCut(s);
    var a := GetVarint32(s);
    var b := GetVarint32(a.rest);
    RestIsEnd(s, 5);
    RestIsEnd(a.rest, 5);
    RestIsEnd(b.rest, 5);
  }

  lemma {:induction false} RestIsEnd(s: Bytes, max: nat)
    requires GetVarint(s, max).Got?
    ensures var rest := GetVarint(s, max).rest; |rest| < |s| && rest == s[|s| - |rest|..]
    decreases |s|
  {
    if s[0] >= 128 { RestIsEnd(s[1..], max - 1); }
  }
}
