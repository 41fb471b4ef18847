/** The bytes of a version edit: version_edit.cc. */
module EditCodec {
  import opened Coding
  import opened Files

  datatype Meta = Meta(number: nat, size: nat, smallest: Bytes, largest: Bytes)

  /** `deleted` is a std::set; the others are optional fields and vectors. */
  datatype VersionEdit = VersionEdit(
    comparator: Option<Bytes>,
    log: Option<nat>,
    prevLog: Option<nat>,
    nextFile: Option<nat>,
    lastSequence: Option<nat>,
    pointers: seq<(nat, Bytes)>,
    deleted: set<(nat, nat)>,
    added: seq<(nat, Meta)>)

  const EMPTY := VersionEdit(None, None, None, None, None, [], {}, [])

  /** One tagged item of the encoding. */
  datatype Field =
    | Comparator(name: Bytes)
    | LogNumber(n: nat)
    | NextFile(n: nat)
    | LastSequence(n: nat)
    | Pointer(level: nat, key: Bytes)
    | DeletedFile(level: nat, n: nat)
    | NewFile(level: nat, f: Meta)
    | PrevLogNumber(n: nat)

  // ---------------------------------------------------------------- encoding

  function TagOf(f: Field): nat {
    match f
    case Comparator(_) => 1
    case LogNumber(_) => 2
    case NextFile(_) => 3
    case LastSequence(_) => 4
    case Pointer(_, _) => 5
    case DeletedFile(_, _) => 6
    case NewFile(_, _) => 7
    case PrevLogNumber(_) => 9
  }

  function NewFileBody(level: nat, f: Meta): Bytes {
    Varint(level) + Varint(f.number) + Varint(f.size) + Prefixed(f.smallest) + Prefixed(f.largest)
  }

  /** The bytes after the tag. */
  function Body(f: Field): Bytes {
    match f
    case Comparator(name) => Prefixed(name)
    case Pointer(level, key) => Varint(level) + Prefixed(key)
    case DeletedFile(level, n) => Varint(level) + Varint(n)
    case NewFile(level, f) => NewFileBody(level, f)
    case _ => Varint(f.n)
  }

  function FieldBytes(f: Field): Bytes {
    Varint(TagOf(f)) + Body(f)
  }

  function If(b: bool, f: Field): seq<Field> {
    if b then [f] else []
  }

  function Num(o: Option<nat>): nat {
    if o.Some? then o.value else 0
  }

  function Name(o: Option<Bytes>): Bytes {
    if o.Some? then o.value else []
  }

  function Scalars(e: VersionEdit): seq<Field> {
    If(e.comparator.Some?, Comparator(Name(e.comparator))) + If(e.log.Some?, LogNumber(Num(e.log)))
    + If(e.prevLog.Some?, PrevLogNumber(Num(e.prevLog))) + If(e.nextFile.Some?, NextFile(Num(e.nextFile)))
    + If(e.lastSequence.Some?, LastSequence(Num(e.lastSequence)))
  }

  function Pointers(ps: seq<(nat, Bytes)>): (r: seq<Field>)
    ensures |r| == |ps|
  {
    seq(|ps|, i requires 0 <= i < |ps| => Pointer(ps[i].0, ps[i].1))
  }

  function Deletions(ds: seq<(nat, nat)>): (r: seq<Field>)
    ensures |r| == |ds|
  {
    seq(|ds|, i requires 0 <= i < |ds| => DeletedFile(ds[i].0, ds[i].1))
  }

  function Additions(fs: seq<(nat, Meta)>): (r: seq<Field>)
    ensures |r| == |fs|
  {
    seq(|fs|, i requires 0 <= i < |fs| => NewFile(fs[i].0, fs[i].1))
  }

  /** The items of an edit, its deletions in the order the set is walked. */
  function Fields(e: VersionEdit, order: seq<(nat, nat)>): seq<Field> {
    Scalars(e) + Pointers(e.pointers) + Deletions(order) + Additions(e.added)
  }

  ghost predicate IsOrder(order: seq<(nat, nat)>, s: set<(nat, nat)>) {
    forall x :: x in order <==> x in s
  }

  // ---------------------------------------------------------------- decoding

  function GetLevel(s: Bytes): (r: Parsed<nat>)
    ensures r.Got? ==> |r.rest| < |s|
  {
    match GetVarint32(s)
    case Malformed => Malformed
    case Got(v, rest) => if v < 7 then Got(v, rest) else Malformed
  }

  function GetInternalKey(s: Bytes): (r: Parsed<Bytes>)
    ensures r.Got? ==> |r.rest| < |s|
  {
    match GetPrefixed(s)
    case Malformed => Malformed
    case Got(key, rest) => if key != [] then Got(key, rest) else Malformed
  }

  function GetNewFile(s: Bytes): (r: Parsed<Field>)
    ensures r.Got? ==> |r.rest| < |s|
  {
    var level := GetLevel(s);
    if level.Malformed? then Malformed else
    var number := GetVarint64(level.rest);
    if number.Malformed? then Malformed else
    var size := GetVarint64(number.rest);
    if size.Malformed? then Malformed else
    var smallest := GetInternalKey(size.rest);
    if smallest.Malformed? then Malformed else
    var largest := GetInternalKey(smallest.rest);
    if largest.Malformed? then Malformed
    else Got(NewFile(level.value, Meta(number.value, size.value, smallest.value, largest.value)), largest.rest)
  }

  function GetPointer(s: Bytes): (r: Parsed<Field>)
    ensures r.Got? ==> |r.rest| < |s|
  {
    var level := GetLevel(s);
    if level.Malformed? then Malformed else
    var key := GetInternalKey(level.rest);
    if key.Malformed? then Malformed else Got(Pointer(level.value, key.value), key.rest)
  }

  function GetDeleted(s: Bytes): (r: Parsed<Field>)
    ensures r.Got? ==> |r.rest| < |s|
  {
    var level := GetLevel(s);
    if level.Malformed? then Malformed else
    var n := GetVarint64(level.rest);
    if n.Malformed? then Malformed else Got(DeletedFile(level.value, n.value), n.rest)
  }

  function AsField(p: Parsed<nat>, f: nat -> Field): Parsed<Field> {
    if p.Malformed? then Malformed else Got(f(p.value), p.rest)
  }

  /** What a tag announces. */
  function GetBody(tag: nat, s: Bytes): (r: Parsed<Field>)
    ensures r.Got? ==> |r.rest| < |s|
  {
    if tag == 1 then
      var name := GetPrefixed(s);
      (if name.Malformed? then Malformed else Got(Comparator(name.value), name.rest))
    else if tag == 2 then AsField(GetVarint64(s), (n: nat) => LogNumber(n))
    else if tag == 3 then AsField(GetVarint64(s), (n: nat) => NextFile(n))
    else if tag == 4 then AsField(GetVarint64(s), (n: nat) => LastSequence(n))
    else if tag == 5 then GetPointer(s)
    else if tag == 6 then GetDeleted(s)
    else if tag == 7 then GetNewFile(s)
    else if tag == 9 then AsField(GetVarint64(s), (n: nat) => PrevLogNumber(n))
    else Malformed
  }

  function GetField(s: Bytes): (r: Parsed<Field>)
    ensures r.Got? ==> |r.rest| < |s|
  {
    match GetVarint32(s)
    case Malformed => Malformed
    case Got(tag, rest) => GetBody(tag, rest)
  }

  function Take(e: VersionEdit, f: Field): VersionEdit {
    match f
    case Comparator(name) => e.(comparator := Some(name))
    case LogNumber(n) => e.(log := Some(n))
    case NextFile(n) => e.(nextFile := Some(n))
    case LastSequence(n) => e.(lastSequence := Some(n))
    case Pointer(level, key) => e.(pointers := e.pointers + [(level, key)])
    case DeletedFile(level, n) => e.(deleted := e.deleted + {(level, n)})
    case NewFile(level, f) => e.(added := e.added + [(level, f)])
    case PrevLogNumber(n) => e.(prevLog := Some(n))
  }

  function TakeAll(e: VersionEdit, fs: seq<Field>): VersionEdit {
    if fs == [] then e else Take(TakeAll(e, fs[..|fs| - 1]), fs[|fs| - 1])
  }

  ghost predicate IsGetField(get: Parser<Field>) {
    Shrinks(get) && forall s {:trigger IsInput(s)} :: IsInput(s) ==> get(s) == GetField(s)
  }

  /** What the bytes mean: items to the end, taken in order. */
  ghost function Decode(get: Parser<Field>, s: Bytes): Option<VersionEdit>
    requires Shrinks(get)
  {
    var w := ParseAll(get, s, []);
    if w.ok then Some(TakeAll(EMPTY, w.items)) else None
  }

  /** DecodeFrom. */
  method DecodeFrom(src: Bytes, ghost get: Parser<Field>) returns (r: Option<VersionEdit>)
    requires IsGetField(get)
    ensures r == Decode(get, src)
  {
    var input, e := src, EMPTY;
    ghost var fs: seq<Field> := [];
    ghost var goal := ParseAll(get, src, []);
    while input != []
      invariant ParseAll(get, input, fs) == goal && e == TakeAll(EMPTY, fs)
      decreases |input|
    {
      assert IsInput(input);
      var p := GetField(input);
      if p.Malformed? { return None; }
      assert (fs + [p.value])[..|fs|] == fs;
      input, e := p.rest, Take(e, p.value);
      fs := fs + [p.value];
    }
    r := Some(e);
  }

  method PutIf(enc: Field -> Bytes, dst: Bytes, ghost fs: seq<Field>, b: bool, f: Field) returns (dst': Bytes)
    requires dst == Flat(enc, fs)
    ensures dst' == Flat(enc, fs + If(b, f))
  {
    assert (fs + [f])[..|fs|] == fs && fs + [] == fs;
    dst' := if b then dst + enc(f) else dst;
  }

  method PutScalars(enc: Field -> Bytes, e: VersionEdit) returns (dst: Bytes)
    ensures dst == Flat(enc, Scalars(e))
  {
    ghost var a := If(e.comparator.Some?, Comparator(Name(e.comparator)));
    ghost var b := a + If(e.log.Some?, LogNumber(Num(e.log)));
    ghost var c := b + If(e.prevLog.Some?, PrevLogNumber(Num(e.prevLog)));
    ghost var d := c + If(e.nextFile.Some?, NextFile(Num(e.nextFile)));
    assert [] + a == a;
    dst := PutIf(enc, [], [], e.comparator.Some?, Comparator(Name(e.comparator)));
    dst := PutIf(enc, dst, a, e.log.Some?, LogNumber(Num(e.log)));
    dst := PutIf(enc, dst, b, e.prevLog.Some?, PrevLogNumber(Num(e.prevLog)));
    dst := PutIf(enc, dst, c, e.nextFile.Some?, NextFile(Num(e.nextFile)));
    dst := PutIf(enc, dst, d, e.lastSequence.Some?, LastSequence(Num(e.lastSequence)));
  }

  method PutPointers(enc: Field -> Bytes, dst: Bytes, ghost before: seq<Field>, ps: seq<(nat, Bytes)>) returns (dst': Bytes)
    requires dst == Flat(enc, before)
    ensures dst' == Flat(enc, before + Pointers(ps))
  {
    dst' := dst;
    ghost var fs := Pointers(ps);
    assert before + fs[..0] == before && fs[..|ps|] == fs;
    for i := 0 to |ps|
      invariant dst' == Flat(enc, before + fs[..i])
    {
      FlatMore(enc, before, fs, i);
      dst' := dst' + enc(Pointer(ps[i].0, ps[i].1));
    }
  }

  method PutDeletions(enc: Field -> Bytes, dst: Bytes, ghost before: seq<Field>, ds: seq<(nat, nat)>) returns (dst': Bytes)
    requires dst == Flat(enc, before)
    ensures dst' == Flat(enc, before + Deletions(ds))
  {
    dst' := dst;
    ghost var fs := Deletions(ds);
    assert before + fs[..0] == before && fs[..|ds|] == fs;
    for i := 0 to |ds|
      invariant dst' == Flat(enc, before + fs[..i])
    {
      FlatMore(enc, before, fs, i);
      dst' := dst' + enc(DeletedFile(ds[i].0, ds[i].1));
    }
  }

  method PutAdditions(enc: Field -> Bytes, dst: Bytes, ghost before: seq<Field>, ms: seq<(nat, Meta)>) returns (dst': Bytes)
    requires dst == Flat(enc, before)
    ensures dst' == Flat(enc, before + Additions(ms))
  {
    dst' := dst;
    ghost var fs := Additions(ms);
    assert before + fs[..0] == before && fs[..|ms|] == fs;
    for i := 0 to |ms|
      invariant dst' == Flat(enc, before + fs[..i])
    {
      FlatMore(enc, before, fs, i);
      dst' := dst' + enc(NewFile(ms[i].0, ms[i].1));
    }
  }

  /** EncodeTo, for the item encoding `enc`. */
  method EncodeTo(enc: Field -> Bytes, e: VersionEdit, order: seq<(nat, nat)>) returns (dst: Bytes)
    ensures dst == Flat(enc, Fields(e, order))
  {
    dst := PutScalars(enc, e);
    dst := PutPointers(enc, dst, Scalars(e), e.pointers);
    dst := PutDeletions(enc, dst, Scalars(e) + Pointers(e.pointers), order);
    dst := PutAdditions(enc, dst, Scalars(e) + Pointers(e.pointers) + Deletions(order), e.added);
  }

  // ---------------------------------------------------------------- round trip

  predicate KeyOk(k: Bytes) {
    0 < |k| < WORD
  }

  /** What the source's types and assertions guarantee of the items it encodes. */
  predicate FieldOk(f: Field) {
    match f
    case Comparator(name) => |name| < WORD
    case Pointer(level, key) => level < 7 && KeyOk(key)
    case DeletedFile(level, n) => level < 7 && n < DWORD
    case NewFile(level, f) => level < 7 && f.number < DWORD && f.size < DWORD && KeyOk(f.smallest) && KeyOk(f.largest)
    case _ => f.n < DWORD
  }

  lemma LevelRoundTrip(level: nat, rest: Bytes)
    requires level < 7
    ensures GetLevel(Varint(level) + rest) == Got(level, rest)
  {
    Varint32RoundTrip(level, rest);
  }

  lemma KeyRoundTrip(key: Bytes, rest: Bytes)
    requires KeyOk(key)
    ensures GetInternalKey(Prefixed(key) + rest) == Got(key, rest)
  {
    PrefixedRoundTrip(key, rest);
  }

  lemma Regroup(a: Bytes, b: Bytes, c: Bytes, d: Bytes, e: Bytes, rest: Bytes)
    ensures a + b + c + d + e + rest == a + (b + (c + (d + (e + rest))))
  {
  }

  /** What the parser that an item's tag calls makes of `s`: the item, and `rest` after it. */
  predicate Reads(f: Field, s: Bytes, rest: Bytes) {
    match f
    case Comparator(name) => GetPrefixed(s) == Got(name, rest)
    case Pointer(_, _) => GetPointer(s) == Got(f, rest)
    case DeletedFile(_, _) => GetDeleted(s) == Got(f, rest)
    case NewFile(_, _) => GetNewFile(s) == Got(f, rest)
    case _ => GetVarint64(s) == Got(f.n, rest)
  }

  lemma TagCalls(f: Field, s: Bytes, rest: Bytes)
    requires Reads(f, s, rest)
    ensures GetBody(TagOf(f), s) == Got(f, rest)
  {
  }

  lemma NewFileRoundTrip(f: Field, rest: Bytes)
    requires f.NewFile? && FieldOk(f)
    ensures Reads(f, Body(f) + rest, rest)
  {
    var m := f.f;
    var d := Prefixed(m.largest) + rest;
    var c := Prefixed(m.smallest) + d;
    var b := Varint(m.size) + c;
    var a := Varint(m.number) + b;
    Regroup(Varint(f.level), Varint(m.number), Varint(m.size), Prefixed(m.smallest), Prefixed(m.largest), rest);
    LevelRoundTrip(f.level, a);
    Varint64RoundTrip(m.number, b);
    Varint64RoundTrip(m.size, c);
    KeyRoundTrip(m.smallest, d);
    KeyRoundTrip(m.largest, rest);
  }

  lemma PointerRoundTrip(f: Field, rest: Bytes)
    requires f.Pointer? && FieldOk(f)
    ensures Reads(f, Body(f) + rest, rest)
  {
    var a, b := Varint(f.level), Prefixed(f.key);
    assert a + b + rest == a + (b + rest);
    LevelRoundTrip(f.level, b + rest);
    KeyRoundTrip(f.key, rest);
  }

  lemma DeletedRoundTrip(f: Field, rest: Bytes)
    requires f.DeletedFile? && FieldOk(f)
    ensures Reads(f, Body(f) + rest, rest)
  {
    var a, b := Varint(f.level), Varint(f.n);
    assert a + b + rest == a + (b + rest);
    LevelRoundTrip(f.level, b + rest);
    Varint64RoundTrip(f.n, rest);
  }

  lemma ComparatorRoundTrip(f: Field, rest: Bytes)
    requires f.Comparator? && FieldOk(f)
    ensures Reads(f, Body(f) + rest, rest)
  {
    PrefixedRoundTrip(f.name, rest);
  }

  /** The four items that are one number. */
  lemma NumberRoundTrip(f: Field, rest: Bytes)
    requires FieldOk(f) && (f.LogNumber? || f.NextFile? || f.LastSequence? || f.PrevLogNumber?)
    ensures Reads(f, Body(f) + rest, rest)
  {
    Varint64RoundTrip(f.n, rest);
  }

  lemma BodyRoundTrip(f: Field, rest: Bytes)
    requires FieldOk(f)
    ensures Reads(f, Body(f) + rest, rest)
  {
    match f
    case Comparator(_) => ComparatorRoundTrip(f, rest);
    case Pointer(_, _) => PointerRoundTrip(f, rest);
    case DeletedFile(_, _) => DeletedRoundTrip(f, rest);
    case NewFile(_, _) => NewFileRoundTrip(f, rest);
    case _ => NumberRoundTrip(f, rest);
  }

  /** Every item is read back, whatever follows it. */
  lemma FieldRoundTrip(f: Field, rest: Bytes)
    requires FieldOk(f)
    ensures GetField(FieldBytes(f) + rest) == Got(f, rest)
  {
    var tag, body := Varint(TagOf(f)), Body(f);
    assert tag + body + rest == tag + (body + rest);
    Varint32RoundTrip(TagOf(f), body + rest);
    BodyRoundTrip(f, rest);
    TagCalls(f, body + rest, rest);
  }

  /** A mark. */
  predicate IsItem(f: Field) {
    TagOf(f) > 0
  }

  ghost predicate IsFieldBytes(enc: Field -> Bytes) {
    forall f {:trigger IsItem(f)} :: IsItem(f) ==> enc(f) == FieldBytes(f)
  }

  lemma FieldReadsBack(enc: Field -> Bytes, get: Parser<Field>, f: Field)
    requires IsFieldBytes(enc) && IsGetField(get) && FieldOk(f)
    ensures ItemReadsBack(enc, get, f)
  {
    assert IsItem(f);
    forall rest ensures get(enc(f) + rest) == Got(f, rest) {
      assert IsInput(enc(f) + rest);
      FieldRoundTrip(f, rest);
    }
  }

  lemma {:induction false} TakeBoth(e: VersionEdit, a: seq<Field>, b: seq<Field>)
    ensures TakeAll(e, a + b) == TakeAll(TakeAll(e, a), b)
    decreases |b|
  {
    if b == [] {
      assert a + b == a;
    } else {
      TakeBoth(e, a, b[..|b| - 1]);
      assert (a + b)[..|a + b| - 1] == a + b[..|b| - 1];
    }
  }

  lemma {:induction false} TakePointers(e: VersionEdit, ps: seq<(nat, Bytes)>)
    ensures TakeAll(e, Pointers(ps)) == e.(pointers := e.pointers + ps)
    decreases |ps|
  {
    if ps != [] {
      TakePointers(e, ps[..|ps| - 1]);
      assert Pointers(ps)[..|ps| - 1] == Pointers(ps[..|ps| - 1]);
      assert ps[..|ps| - 1] + [ps[|ps| - 1]] == ps;
    } else {
      assert e.pointers + ps == e.pointers;
    }
  }

  lemma {:induction false} TakeAdditions(e: VersionEdit, fs: seq<(nat, Meta)>)
    ensures TakeAll(e, Additions(fs)) == e.(added := e.added + fs)
    decreases |fs|
  {
    if fs != [] {
      TakeAdditions(e, fs[..|fs| - 1]);
      assert Additions(fs)[..|fs| - 1] == Additions(fs[..|fs| - 1]);
      assert fs[..|fs| - 1] + [fs[|fs| - 1]] == fs;
    } else {
      assert e.added + fs == e.added;
    }
  }

  ghost function Elements(ds: seq<(nat, nat)>): set<(nat, nat)> {
    set d | d in ds
  }

  lemma {:induction false} TakeDeletions(e: VersionEdit, ds: seq<(nat, nat)>)
    ensures TakeAll(e, Deletions(ds)) == e.(deleted := e.deleted + Elements(ds))
    decreases |ds|
  {
    if ds != [] {
      TakeDeletions(e, ds[..|ds| - 1]);
      assert Deletions(ds)[..|ds| - 1] == Deletions(ds[..|ds| - 1]);
      assert ds[..|ds| - 1] + [ds[|ds| - 1]] == ds;
      assert Elements(ds) == Elements(ds[..|ds| - 1]) + {ds[|ds| - 1]};
    } else {
      assert e.deleted + Elements(ds) == e.deleted;
    }
  }

  lemma TakeIf(e: VersionEdit, fs: seq<Field>, b: bool, f: Field)
    ensures TakeAll(e, fs + If(b, f)) == if b then Take(TakeAll(e, fs), f) else TakeAll(e, fs)
  {
    assert (fs + [f])[..|fs|] == fs && fs + [] == fs;
  }

  lemma TakeScalars(e: VersionEdit)
    ensures TakeAll(EMPTY, Scalars(e)) == e.(pointers := [], deleted := {}, added := [])
  {
    var a := If(e.comparator.Some?, Comparator(Name(e.comparator)));
    var b := a + If(e.log.Some?, LogNumber(Num(e.log)));
    var c := b + If(e.prevLog.Some?, PrevLogNumber(Num(e.prevLog)));
    var d := c + If(e.nextFile.Some?, NextFile(Num(e.nextFile)));
    assert [] + a == a;
    TakeIf(EMPTY, [], e.comparator.Some?, Comparator(Name(e.comparator)));
    TakeIf(EMPTY, a, e.log.Some?, LogNumber(Num(e.log)));
    TakeIf(EMPTY, b, e.prevLog.Some?, PrevLogNumber(Num(e.prevLog)));
    TakeIf(EMPTY, c, e.nextFile.Some?, NextFile(Num(e.nextFile)));
    TakeIf(EMPTY, d, e.lastSequence.Some?, LastSequence(Num(e.lastSequence)));
  }

  ghost predicate EditOk(e: VersionEdit, order: seq<(nat, nat)>) {
    IsOrder(order, e.deleted) && forall f :: f in Fields(e, order) ==> FieldOk(f)
  }

  lemma TakeLists(e: VersionEdit, ps: seq<(nat, Bytes)>, ds: seq<(nat, nat)>, fs: seq<(nat, Meta)>)
    ensures TakeAll(TakeAll(TakeAll(e, Pointers(ps)), Deletions(ds)), Additions(fs)) ==
            e.(pointers := e.pointers + ps, deleted := e.deleted + Elements(ds), added := e.added + fs)
  {
    TakePointers(e, ps);
    TakeDeletions(TakeAll(e, Pointers(ps)), ds);
    TakeAdditions(TakeAll(TakeAll(e, Pointers(ps)), Deletions(ds)), fs);
  }

  lemma TakeFields(e: VersionEdit, order: seq<(nat, nat)>)
    requires IsOrder(order, e.deleted)
    ensures TakeAll(EMPTY, Fields(e, order)) == e
  {
    var s, p, d, a := Scalars(e), Pointers(e.pointers), Deletions(order), Additions(e.added);
    TakeBoth(EMPTY, s + p + d, a);
    TakeBoth(EMPTY, s + p, d);
    TakeBoth(EMPTY, s, p);
    TakeScalars(e);
    TakeLists(TakeAll(EMPTY, s), e.pointers, order, e.added);
    assert Elements(order) == e.deleted;
    assert [] + e.pointers == e.pointers && [] + e.added == e.added;
  }

  /** An edit survives encoding, whatever order its deletions were written in. */
  lemma EditRoundTrip(enc: Field -> Bytes, get: Parser<Field>, e: VersionEdit, order: seq<(nat, nat)>)
    requires IsFieldBytes(enc) && IsGetField(get) && EditOk(e, order)
    ensures Decode(get, Flat(enc, Fields(e, order))) == Some(e)
  {
    var fs := Fields(e, order);
    assert Flat(enc, fs) + [] == Flat(enc, fs) && [] + fs == fs;
    forall f | f in fs ensures ItemReadsBack(enc, get, f) { FieldReadsBack(enc, get, f); }
    FlatParses(enc, get, fs, [], []);
    TakeFields(e, order);
  }
}
