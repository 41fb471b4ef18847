/** A batch of writes as bytes: write_batch.cc. */
module WriteBatch {
  import opened Coding
  import opened Files

  datatype Op = Put(key: Bytes, value: Bytes) | Delete(key: Bytes)

  const HEADER := 12
  const TYPE_DELETION: Byte := 0
  const TYPE_VALUE: Byte := 1

  predicate OpOk(op: Op) {
    |op.key| < WORD && (op.Put? ==> |op.value| < WORD)
  }

  function OpBytes(op: Op): (r: Bytes)
    ensures r != []
  {
    match op
    case Put(key, value) => [TYPE_VALUE] + Prefixed(key) + Prefixed(value)
    case Delete(key) => [TYPE_DELETION] + Prefixed(key)
  }

  /** A mark. */
  predicate IsOp(op: Op) {
    op == op
  }

  /** The encoding of one operation, kept behind a name. */
  ghost predicate IsOpBytes(enc: Op -> Bytes) {
    forall op {:trigger IsOp(op)} :: IsOp(op) ==> enc(op) == OpBytes(op)
  }

  /** The representation of a batch: sequence number, count, operations. */
  ghost predicate Represents(enc: Op -> Bytes, rep: Bytes, sn: nat, ops: seq<Op>) {
    && sn < DWORD && |ops| < WORD && rep == Fixed64(sn) + Fixed32(|ops|) + Flat(enc, ops)
    && forall op :: op in ops ==> OpOk(op)
  }

  // ---------------------------------------------------------------- reading

  function GetPut(s: Bytes): (r: Parsed<Op>)
    ensures r.Got? ==> |r.rest| < |s|
  {
    var key := GetPrefixed(s);
    if key.Malformed? then Malformed else
    var value := GetPrefixed(key.rest);
    if value.Malformed? then Malformed else Got(Put(key.value, value.value), value.rest)
  }

  function GetDelete(s: Bytes): (r: Parsed<Op>)
    ensures r.Got? ==> |r.rest| < |s|
  {
    var key := GetPrefixed(s);
    if key.Malformed? then Malformed else Got(Delete(key.value), key.rest)
  }

  function GetOp(s: Bytes): (r: Parsed<Op>)
    ensures r.Got? ==> |r.rest| < |s|
  {
    if s == [] then Malformed
    else if s[0] == TYPE_VALUE then GetPut(s[1..])
    else if s[0] == TYPE_DELETION then GetDelete(s[1..])
    else Malformed
  }

  ghost predicate IsGetOp(get: Parser<Op>) {
    Shrinks(get) && forall s {:trigger IsInput(s)} :: IsInput(s) ==> get(s) == GetOp(s)
  }

  function Count(rep: Bytes): nat
    requires |rep| >= HEADER
  {
    DecodeFixed32(rep[8..12])
  }

  function Sequence(rep: Bytes): nat
    requires |rep| >= HEADER
  {
    DecodeFixed64(rep[..8])
  }

  /** WriteBatch::Iterate: what the handler is given, and whether the batch is well-formed. */
  method Iterate(rep: Bytes, ghost get: Parser<Op>) returns (ops: seq<Op>, ok: bool)
    requires IsGetOp(get)
    ensures |rep| < HEADER ==> ops == [] && !ok
    ensures |rep| >= HEADER ==>
              var w := ParseAll(get, rep[HEADER..], []); ops == w.items && ok == (w.ok && |ops| == Count(rep))
  {
    if |rep| < HEADER { return [], false; }
    ghost var goal := ParseAll(get, rep[HEADER..], []);
    var input;
    input, ops := rep[HEADER..], [];
    while input != []
      invariant ParseAll(get, input, ops) == goal
      decreases |input|
    {
      assert IsInput(input);
      var p := GetOp(input);
      if p.Malformed? { return ops, false; }
      input, ops := p.rest, ops + [p.value];
    }
    ok := |ops| == Count(rep);
  }

  lemma PutRoundTrip(key: Bytes, value: Bytes, rest: Bytes)
    requires OpOk(Put(key, value))
    ensures GetPut(Prefixed(key) + Prefixed(value) + rest) == Got(Put(key, value), rest)
  {
    var v := Prefixed(value) + rest;
    assert Prefixed(key) + Prefixed(value) + rest == Prefixed(key) + v;
    PrefixedRoundTrip(key, v);
    PrefixedRoundTrip(value, rest);
  }

  lemma GetTagged(tag: Byte, body: Bytes)
    ensures GetOp([tag] + body) ==
            if tag == TYPE_VALUE then GetPut(body) else if tag == TYPE_DELETION then GetDelete(body) else Malformed
  {
    assert ([tag] + body)[1..] == body;
  }

  function Body(op: Op): Bytes {
    match op
    case Put(key, value) => Prefixed(key) + Prefixed(value)
    case Delete(key) => Prefixed(key)
  }

  lemma Tagged(op: Op, rest: Bytes)
    ensures OpBytes(op) + rest == [if op.Put? then TYPE_VALUE else TYPE_DELETION] + (Body(op) + rest)
  {
  }

  lemma OpRoundTrip(op: Op, rest: Bytes)
    requires OpOk(op)
    ensures GetOp(OpBytes(op) + rest) == Got(op, rest)
  {
    Tagged(op, rest);
    GetTagged(if op.Put? then TYPE_VALUE else TYPE_DELETION, Body(op) + rest);
    match op
    case Put(key, value) => PutRoundTrip(key, value, rest);
    case Delete(key) => PrefixedRoundTrip(key, rest);
  }

  lemma OpReadsBack(enc: Op -> Bytes, get: Parser<Op>, op: Op)
    requires IsOpBytes(enc) && IsGetOp(get) && OpOk(op)
    ensures ItemReadsBack(enc, get, op)
  {
    assert IsOp(op);
    forall rest ensures get(enc(op) + rest) == Got(op, rest) {
      assert IsInput(enc(op) + rest);
      OpRoundTrip(op, rest);
    }
  }

  lemma HeaderParts(enc: Op -> Bytes, rep: Bytes, sn: nat, ops: seq<Op>)
    requires Represents(enc, rep, sn, ops)
    ensures |rep| >= HEADER && rep[HEADER..] == Flat(enc, ops) && Count(rep) == |ops| && Sequence(rep) == sn
    ensures rep[..8] == Fixed64(sn) && rep[8..12] == Fixed32(|ops|)
  {
    assert rep[..8] == Fixed64(sn) && rep[8..12] == Fixed32(|ops|);
    Fixed64RoundTrip(sn);
    Fixed32RoundTrip(|ops|);
  }

  /** A batch is read back operation by operation, in order. */
  lemma BatchRoundTrip(enc: Op -> Bytes, get: Parser<Op>, rep: Bytes, sn: nat, ops: seq<Op>)
    requires IsOpBytes(enc) && IsGetOp(get) && Represents(enc, rep, sn, ops)
    ensures |rep| >= HEADER && Sequence(rep) == sn && Count(rep) == |ops|
    ensures ParseAll(get, rep[HEADER..], []) == Walk(ops, true)
  {
    HeaderParts(enc, rep, sn, ops);
    assert Flat(enc, ops) + [] == Flat(enc, ops) && [] + ops == ops;
    forall op | op in ops ensures ItemReadsBack(enc, get, op) { OpReadsBack(enc, get, op); }
    FlatParses(enc, get, ops, [], []);
  }

  // ---------------------------------------------------------------- writing

  class Batch {
    const enc: Op -> Bytes
    var rep: Bytes
    ghost var sn: nat
    ghost var ops: seq<Op>

    ghost predicate Valid()
      reads this
    {
      IsOpBytes(enc) && Represents(enc, rep, sn, ops)
    }

    constructor (enc: Op -> Bytes)
      requires IsOpBytes(enc)
      ensures Valid() && ops == [] && sn == 0 && this.enc == enc
    {
      this.enc := enc;
      rep := Fixed64(0) + Fixed32(0);
      sn, ops := 0, [];
    }

    method SetSequence(s: nat)
      requires Valid() && s < DWORD
      modifies this
      ensures Valid() && sn == s && ops == old(ops)
    {
      HeaderParts(enc, rep, sn, ops);
      rep := Fixed64(s) + rep[8..];
      sn := s;
      assert rep == Fixed64(s) + Fixed32(|ops|) + Flat(enc, ops);
    }

    /** WriteBatch::Put and WriteBatch::Delete. */
    method AddOp(op: Op)
      requires Valid() && OpOk(op) && |ops| + 1 < WORD
      modifies this
      ensures Valid() && sn == old(sn) && ops == old(ops) + [op]
    {
      HeaderParts(enc, rep, sn, ops);
      rep := rep[..8] + Fixed32(Count(rep) + 1) + rep[HEADER..] + enc(op);
      ops := ops + [op];
      assert ops[..|ops| - 1] == old(ops);
      assert rep == Fixed64(sn) + Fixed32(|ops|) + Flat(enc, ops);
    }

    /** WriteBatchInternal::Append: what the group leader does with the followers' batches. */
    method Append(src: Batch)
      requires Valid() && src.Valid() && src != this && src.enc == enc && |ops| + |src.ops| < WORD
      modifies this
      ensures Valid() && sn == old(sn) && ops == old(ops) + src.ops
    {
      HeaderParts(enc, rep, sn, ops);
      HeaderParts(enc, src.rep, src.sn, src.ops);
      FlatBoth(enc, ops, src.ops);
      rep := rep[..8] + Fixed32(Count(rep) + Count(src.rep)) + rep[HEADER..] + src.rep[HEADER..];
      ops := ops + src.ops;
      assert rep == Fixed64(sn) + Fixed32(|ops|) + Flat(enc, ops);
    }
  }
}
