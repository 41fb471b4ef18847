/** A manifest as bytes: encoded edits in a record log, written by LogAndApply and
    WriteSnapshot and read back, possibly cut short, by VersionSet::Recover. */
module Manifest {
  import opened Coding
  import opened Files
  import opened EditCodec
  import Log = LogFormat

  type Reads = Bytes -> Option<VersionEdit>

  ghost predicate IsDecode(dec: Reads, get: Parser<Field>) {
    IsGetField(get) && forall r {:trigger IsInput(r)} :: IsInput(r) ==> dec(r) == Decode(get, r)
  }

  /** Decoding record after record; one bad record spoils the whole. */
  ghost function DecodeAll(dec: Reads, rs: seq<Bytes>): Option<seq<VersionEdit>> {
    if rs == [] then Some([])
    else
      var init, last := DecodeAll(dec, rs[..|rs| - 1]), dec(rs[|rs| - 1]);
      if init.Some? && last.Some? then Some(init.value + [last.value]) else None
  }

  /** The reading half of VersionSet::Recover: any corruption is an error. */
  method ReadManifest(crc: Log.Checksum, file: Bytes, ghost dec: Reads, ghost get: Parser<Field>)
    returns (r: Option<seq<VersionEdit>>, ghost phys: Log.Layer, ghost rd: Log.Decoder)
    requires IsDecode(dec, get)
    ensures Log.Layers(rd, phys, crc, file)
    ensures var all := Log.ReadMany(rd, |file|, 0, 0); r == if all.1 > 0 then None else DecodeAll(dec, all.0)
  {
    var rs, reports;
    rs, reports, phys, rd := Log.ReadAll(crc, file);
    if reports > 0 { return None, phys, rd; }
    r := DecodeRecords(rs, dec, get);
  }

  method DecodeRecords(rs: seq<Bytes>, ghost dec: Reads, ghost get: Parser<Field>) returns (r: Option<seq<VersionEdit>>)
    requires IsDecode(dec, get)
    ensures r == DecodeAll(dec, rs)
  {
    var es: seq<VersionEdit> := [];
    for i := 0 to |rs|
      invariant DecodeAll(dec, rs[..i]) == Some(es)
    {
      assert rs[..i + 1][..i] == rs[..i];
      assert IsInput(rs[i]);
      var e := DecodeFrom(rs[i], get);
      if e.None? {
        DecodeAllStops(dec, rs, i);
        return None;
      }
      es := es + [e.value];
    }
    assert rs[..|rs|] == rs;
    r := Some(es);
  }

  lemma {:induction false} DecodeAllStops(dec: Reads, rs: seq<Bytes>, i: nat)
    requires i < |rs| && dec(rs[i]).None?
    ensures DecodeAll(dec, rs).None?
    decreases |rs|
  {
    if i < |rs| - 1 { DecodeAllStops(dec, rs[..|rs| - 1], i); }
  }

  ghost predicate EncodesOne(item: Field -> Bytes, e: VersionEdit, order: seq<(nat, nat)>, r: Bytes) {
    EditOk(e, order) && r == Flat(item, Fields(e, order))
  }

  /** The records of a list of edits. */
  ghost predicate Encodes(item: Field -> Bytes, es: seq<VersionEdit>, orders: seq<seq<(nat, nat)>>, rs: seq<Bytes>) {
    && |es| == |orders| == |rs|
    && forall i :: 0 <= i < |es| ==> EncodesOne(item, es[i], orders[i], rs[i])
  }

  lemma DecodesOne(item: Field -> Bytes, dec: Reads, get: Parser<Field>, e: VersionEdit, order: seq<(nat, nat)>, r: Bytes)
    requires IsFieldBytes(item) && IsDecode(dec, get) && EncodesOne(item, e, order, r)
    ensures dec(r) == Some(e)
  {
    assert IsInput(r);
    EditRoundTrip(item, get, e, order);
  }

  lemma {:induction false} DecodesAll(dec: Reads, es: seq<VersionEdit>, rs: seq<Bytes>, k: nat)
    requires |es| == |rs| && k <= |rs| && forall i :: 0 <= i < |rs| ==> dec(rs[i]) == Some(es[i])
    ensures DecodeAll(dec, rs[..k]) == Some(es[..k])
    decreases k
  {
    if k > 0 {
      DecodesAll(dec, es, rs, k - 1);
      assert rs[..k][..k - 1] == rs[..k - 1];
      assert es[..k] == es[..k - 1] + [es[k - 1]];
    }
  }

  /** A manifest of any edits, cut at any byte, is read back as the edits wholly before the cut. */
  lemma CutManifestReads(item: Field -> Bytes, dec: Reads, get: Parser<Field>, enc: Log.Encoder, rd: Log.Decoder, phys: Log.Layer, crc: Log.Checksum,
                         es: seq<VersionEdit>, orders: seq<seq<(nat, nat)>>, rs: seq<Bytes>, cut: nat, k: nat)
    requires IsFieldBytes(item) && IsDecode(dec, get) && Encodes(item, es, orders, rs) && Log.IsEncoder(enc, crc)
    requires cut <= |Log.Stream(enc, rs)| && Log.WholeBefore(enc, rs, cut, k)
    requires Log.Layers(rd, phys, crc, Log.Stream(enc, rs)[..cut])
    ensures var all := Log.ReadMany(rd, cut, 0, 0); all.1 == 0 && DecodeAll(dec, all.0) == Some(es[..k])
  {
    Log.LogReadsBack(enc, rd, phys, crc, Log.Stream(enc, rs)[..cut]);
    Log.CutLogReads(enc, rd, rs, cut, k);
    forall i | 0 <= i < |rs| ensures dec(rs[i]) == Some(es[i]) {
      DecodesOne(item, dec, get, es[i], orders[i], rs[i]);
    }
    DecodesAll(dec, es, rs, k);
  }

  /** The records of a manifest, one for each edit. */
  method EncodeAll(item: Field -> Bytes, es: seq<VersionEdit>, orders: seq<seq<(nat, nat)>>) returns (rs: seq<Bytes>)
    requires |es| == |orders| && forall i :: 0 <= i < |es| ==> EditOk(es[i], orders[i])
    ensures Encodes(item, es, orders, rs)
  {
    rs := [];
    for i := 0 to |es|
      invariant |rs| == i && forall j :: 0 <= j < i ==> EncodesOne(item, es[j], orders[j], rs[j])
    {
      var b := EncodeTo(item, es[i], orders[i]);
      rs := rs + [b];
    }
  }

  /** Writing edits, losing the tail, and recovering. */
  method WriteCutRecover(item: Field -> Bytes, crc: Log.Checksum, es: seq<VersionEdit>, orders: seq<seq<(nat, nat)>>, cut: nat,
                         ghost dec: Reads, ghost get: Parser<Field>, ghost enc: Log.Encoder)
    returns (rs: seq<Bytes>, file: Bytes, r: Option<seq<VersionEdit>>)
    requires IsFieldBytes(item) && IsDecode(dec, get) && Log.IsEncoder(enc, crc)
    requires |es| == |orders| && forall i :: 0 <= i < |es| ==> EditOk(es[i], orders[i])
    ensures Encodes(item, es, orders, rs) && file == Log.Stream(enc, rs)
    ensures cut <= |file| ==> r.Some? && r.value <= es && Log.WholeBefore(enc, rs, cut, |r.value|)
  {
    rs := EncodeAll(item, es, orders);
    file := Log.WriteAll(crc, rs, enc);
    r := None;
    if cut <= |file| {
      r := RecoverCut(item, crc, es, orders, rs, file, cut, dec, get, enc);
    }
  }

  method RecoverCut(item: Field -> Bytes, crc: Log.Checksum, ghost es: seq<VersionEdit>, ghost orders: seq<seq<(nat, nat)>>, ghost rs: seq<Bytes>,
                    file: Bytes, cut: nat, ghost dec: Reads, ghost get: Parser<Field>, ghost enc: Log.Encoder)
    returns (r: Option<seq<VersionEdit>>)
    requires IsFieldBytes(item) && IsDecode(dec, get) && Log.IsEncoder(enc, crc) && Encodes(item, es, orders, rs)
    requires file == Log.Stream(enc, rs) && cut <= |file|
    ensures r.Some? && r.value <= es && Log.WholeBefore(enc, rs, cut, |r.value|)
  {
    ghost var phys, rd;
    r, phys, rd := ReadManifest(crc, file[..cut], dec, get);
    assert rs[..0] == [];
    ghost var k := Log.SomeWholeBefore(enc, rs, cut, 0);
    CutManifestReads(item, dec, get, enc, rd, phys, crc, es, orders, rs, cut, k);
  }

  // ---------------------------------------------------------------- what recovery asks of the edits

  datatype Counters = Counters(next: nat, log: nat, prevLog: nat, last: nat)

  datatype Counter = Next | LogNo | PrevLog | Last

  function ValueOf(e: VersionEdit, c: Counter): Option<nat> {
    match c
    case Next => e.nextFile
    case LogNo => e.log
    case PrevLog => e.prevLog
    case Last => e.lastSequence
  }

  /** The value of a counter in the last edit that has it. */
  function Latest(es: seq<VersionEdit>, c: Counter): Option<nat> {
    if es == [] then None
    else if ValueOf(es[|es| - 1], c).Some? then ValueOf(es[|es| - 1], c)
    else Latest(es[..|es| - 1], c)
  }

  ghost predicate SameComparator(es: seq<VersionEdit>, name: Bytes) {
    forall e :: e in es && e.comparator.Some? ==> e.comparator.value == name
  }

  /** The checks of VersionSet::Recover: another comparator's manifest, or one without its counters, is
      refused; otherwise each counter is the last one recorded. */
  method ReadCounters(es: seq<VersionEdit>, name: Bytes) returns (r: Option<Counters>)
    ensures r.Some? <==> SameComparator(es, name) && Latest(es, Next).Some? && Latest(es, LogNo).Some? && Latest(es, Last).Some?
    ensures r.Some? ==> Some(r.value.next) == Latest(es, Next) && Some(r.value.log) == Latest(es, LogNo)
    ensures r.Some? ==> Some(r.value.last) == Latest(es, Last)
    ensures r.Some? ==> r.value.prevLog == if Latest(es, PrevLog).Some? then Latest(es, PrevLog).value else 0
  {
    var next: Option<nat>, log: Option<nat>, prevLog: Option<nat>, last: Option<nat> := None, None, None, None;
    for i := 0 to |es|
      invariant SameComparator(es[..i], name) && next == Latest(es[..i], Next) && log == Latest(es[..i], LogNo)
      invariant prevLog == Latest(es[..i], PrevLog) && last == Latest(es[..i], Last)
    {
      var e := es[i];
      assert es[..i + 1][..i] == es[..i] && e in es;
      if e.comparator.Some? && e.comparator.value != name { return None; }
      if e.log.Some? { log := e.log; }
      if e.prevLog.Some? { prevLog := e.prevLog; }
      if e.nextFile.Some? { next := e.nextFile; }
      if e.lastSequence.Some? { last := e.lastSequence; }
    }
    assert es[..|es|] == es;
    if next.None? || log.None? || last.None? { return None; }
    r := Some(Counters(next.value, log.value, if prevLog.Some? then prevLog.value else 0, last.value));
  }
}
