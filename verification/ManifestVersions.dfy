/** From the bytes of a manifest to a version: the records that survive a cut are decoded, the tables
    they name are looked up, and one builder takes all their edits. */
module ManifestVersions {
  import opened Coding
  import opened Files
  import opened Versions
  import opened Install
  import B = Builder
  import E = EditCodec
  import L = Lsm
  import Log = LogFormat
  import M = Manifest
  import R = RunManifest

  /** The table a record's metadata names. */
  type Open = E.Meta -> File

  function Adds(open: Open, fs: seq<(nat, E.Meta)>): seq<(nat, File)> {
    seq(|fs|, i requires 0 <= i < |fs| => (fs[i].0, open(fs[i].1)))
  }

  /** An edit in the builder's terms, its deletions in some order. */
  function EditOf(open: Open, e: E.VersionEdit, order: seq<(nat, nat)>): B.Edit {
    B.Edit(order, Adds(open, e.added))
  }

  function EditsOf(open: Open, ves: seq<E.VersionEdit>, orders: seq<seq<(nat, nat)>>): seq<B.Edit>
    requires |ves| == |orders|
  {
    seq(|ves|, i requires 0 <= i < |ves| => EditOf(open, ves[i], orders[i]))
  }

  /** Walking a std::set. */
  method OrderOf(s: set<(nat, nat)>) returns (order: seq<(nat, nat)>)
    ensures E.IsOrder(order, s)
  {
    order := [];
    var rest := s;
    while rest != {}
      invariant rest <= s && forall x :: x in order <==> x in s && x !in rest
      decreases rest
    {
      var x :| x in rest;
      order, rest := order + [x], rest - {x};
    }
  }

  method Interpret(open: Open, ves: seq<E.VersionEdit>) returns (orders: seq<seq<(nat, nat)>>)
    ensures |orders| == |ves| && forall i :: 0 <= i < |ves| ==> E.IsOrder(orders[i], ves[i].deleted)
  {
    orders := [];
    for i := 0 to |ves|
      invariant |orders| == i && forall j :: 0 <= j < i ==> E.IsOrder(orders[j], ves[j].deleted)
    {
      var order := OrderOf(ves[i].deleted);
      orders := orders + [order];
    }
  }

  /** Decoded edits are the written ones, up to the order of their deletions. */
  lemma DecodedAlike(open: Open, ves: seq<E.VersionEdit>, orders: seq<seq<(nat, nat)>>, got: seq<E.VersionEdit>, orders': seq<seq<(nat, nat)>>)
    requires |ves| == |orders| && |got| == |orders'| && got <= ves
    requires forall i :: 0 <= i < |ves| ==> E.IsOrder(orders[i], ves[i].deleted)
    requires forall i :: 0 <= i < |got| ==> E.IsOrder(orders'[i], got[i].deleted)
    ensures forall i :: 0 <= i < |got| ==> B.SameEdit(EditsOf(open, got, orders')[i], EditsOf(open, ves, orders)[..|got|][i])
  {
    forall i | 0 <= i < |got| ensures B.SameEdit(EditOf(open, got[i], orders'[i]), EditOf(open, ves[i], orders[i])) {
      assert got[i] == ves[i];
    }
  }

  /** One builder over edits that mean the same as a rebuildable manifest. */
  method RecoverAlike(v: Version, ghost es: seq<B.Edit>, got: seq<B.Edit>) returns (recovered: Version)
    requires es != [] && B.Rebuildable(v, es[0], es[1..])
    requires |got| == |es| && forall i :: 0 <= i < |es| ==> B.SameEdit(got[i], es[i])
    ensures forall l :: 0 <= l < NUM_LEVELS ==>
              InOrder(recovered[l]) && B.Members(recovered[l]) == B.Sequential(B.Members(v[l]), es[1..], l)
  {
    assert [es[0]] + es[1..] == es;
    forall e | e in got ensures B.EditOk(e) {
      var i :| 0 <= i < |got| && got[i] == e;
      assert B.EditOk(es[i]) by { if i > 0 { assert es[i] == es[1..][i - 1]; } }
    }
    forall l | 0 <= l < NUM_LEVELS ensures B.Distinguishable(B.AllAdded(got, l)) {
      B.SameReplay(got, es, l);
      B.ManifestApplies(v, es[0], es[1..], l);
    }
    recovered := B.Recover(got);
    forall l | 0 <= l < NUM_LEVELS ensures B.Members(recovered[l]) == B.Sequential(B.Members(v[l]), es[1..], l) {
      B.SameReplay(got, es, l);
      B.ManifestApplies(v, es[0], es[1..], l);
    }
  }

  lemma SnapshotThen(es: seq<B.Edit>, k: nat)
    requires 0 < k <= |es|
    ensures es[1..][..k - 1] == es[1..k] == es[..k][1..] && es[..k][0] == es[0]
  {
  }

  /** Levels in order with the same files are the same. */
  lemma SameVersion(v: Version, w: Version)
    requires forall l :: 0 <= l < NUM_LEVELS ==> InOrder(v[l]) && InOrder(w[l]) && B.Members(v[l]) == B.Members(w[l])
    ensures v == w
  {
    forall l | 0 <= l < NUM_LEVELS ensures v[l] == w[l] { B.OrderIsCanonical(v[l], w[l]); }
  }

  /** From the edits read back to the version: one builder over all of them makes, list for list,
      what LogAndApply made one edit at a time. */
  method Rebuild(v: Version, ves: seq<E.VersionEdit>, orders: seq<seq<(nat, nat)>>, read: seq<E.VersionEdit>, open: Open)
    returns (recovered: Version, current: Version)
    requires |ves| == |orders| && read != [] && read <= ves && forall i :: 0 <= i < |ves| ==> E.IsOrder(orders[i], ves[i].deleted)
    requires B.Rebuildable(v, EditsOf(open, ves, orders)[0], EditsOf(open, ves, orders)[1..])
    ensures recovered == current
    ensures forall l :: 0 <= l < NUM_LEVELS ==>
              InOrder(current[l]) && B.Members(current[l]) == B.Sequential(B.Members(v[l]), EditsOf(open, ves, orders)[1..|read|], l)
  {
    var k, es := |read|, EditsOf(open, ves, orders);
    var orders' := Interpret(open, read);
    DecodedAlike(open, ves, orders, read, orders');
    B.RebuildablePrefix(v, es[0], es[1..], k - 1);
    SnapshotThen(es, k);
    current := B.ApplyAll(v, es[1..k]);
    recovered := RecoverAlike(v, es[..k], EditsOf(open, read, orders'));
    SameVersion(recovered, current);
  }

  /** A manifest written, cut at any byte and recovered: when the snapshot record survives, the version
      is, list for list, the one LogAndApply made with the edits wholly before the cut. */
  method RebuildFromBytes(item: E.Field -> Bytes, crc: Log.Checksum, v: Version, ves: seq<E.VersionEdit>, orders: seq<seq<(nat, nat)>>,
                          cut: nat, open: Open, ghost dec: M.Reads, ghost get: Parser<E.Field>, ghost enc: Log.Encoder)
    returns (rs: seq<Bytes>, file: Bytes, k: nat, recovered: Option<Version>, current: Version)
    requires E.IsFieldBytes(item) && M.IsDecode(dec, get) && Log.IsEncoder(enc, crc)
    requires |ves| == |orders| > 0 && forall i :: 0 <= i < |ves| ==> E.EditOk(ves[i], orders[i])
    requires B.Rebuildable(v, EditsOf(open, ves, orders)[0], EditsOf(open, ves, orders)[1..])
    ensures M.Encodes(item, ves, orders, rs) && file == Log.Stream(enc, rs)
    ensures cut <= |file| ==> k <= |ves| && Log.WholeBefore(enc, rs, cut, k)
    ensures cut <= |file| && k > 0 ==> recovered == Some(current)
    ensures cut <= |file| && k > 0 ==> forall l :: 0 <= l < NUM_LEVELS ==>
              InOrder(current[l]) && B.Members(current[l]) == B.Sequential(B.Members(v[l]), EditsOf(open, ves, orders)[1..k], l)
  {
    var r;
    rs, file, r := M.WriteCutRecover(item, crc, ves, orders, cut, dec, get, enc);
    recovered, current, k := None, v, 0;
    if cut <= |file| {
      k := |r.value|;
      if k > 0 {
        var got;
        got, current := Rebuild(v, ves, orders, r.value, open);
        recovered := Some(got);
      }
    }
  }

  /** Every prefix of the edits of a run leads to one of its states. */
  lemma {:induction false} PrefixIsState(run: seq<L.State>, steps: seq<L.Step>, i: nat, n: nat, k: nat) returns (m: nat)
    requires i <= n <= |steps| < |run| && k <= |R.EditsAlong(run, steps, i, n)|
    ensures i <= m <= n && R.EditsAlong(run, steps, i, m) == R.EditsAlong(run, steps, i, n)[..k]
    decreases n
  {
    var es := R.EditsAlong(run, steps, i, n);
    if k == |es| {
      m := n;
      assert es[..k] == es;
    } else {
      var before, last := R.EditsAlong(run, steps, i, n - 1), R.EditsFor(run[n - 1], steps[n - 1]);
      assert es == before + last && |last| <= 1;
      m := PrefixIsState(run, steps, i, n - 1, k);
      assert (before + last)[..k] == before[..k];
    }
  }

  /** A version the run had when it had logged `k` of its edits. */
  ghost predicate IsStateAfter(run: seq<L.State>, steps: seq<L.Step>, i: nat, n: nat, k: nat, v: Version)
    requires i <= n <= |steps| < |run| && k <= |R.EditsAlong(run, steps, i, n)|
  {
    exists m :: i <= m <= n && v == run[m].v && R.EditsAlong(run, steps, i, m) == R.EditsAlong(run, steps, i, n)[..k]
  }

  /** The manifest of any run of the engine, cut anywhere after its snapshot record, recovers to the
      version of a state of that run: the one whose edits are wholly before the cut. */
  method RecoverRunFromBytes(run: seq<L.State>, steps: seq<L.Step>, i: nat, n: nat,
                             item: E.Field -> Bytes, crc: Log.Checksum, ves: seq<E.VersionEdit>, orders: seq<seq<(nat, nat)>>,
                             cut: nat, open: Open, ghost dec: M.Reads, ghost get: Parser<E.Field>, ghost enc: Log.Encoder)
    returns (rs: seq<Bytes>, file: Bytes, k: nat, recovered: Option<Version>)
    requires E.IsFieldBytes(item) && M.IsDecode(dec, get) && Log.IsEncoder(enc, crc)
    requires |ves| == |orders| > 0 && forall j :: 0 <= j < |ves| ==> E.EditOk(ves[j], orders[j])
    requires L.IsRun(run, steps) && i <= n < |run|
    requires B.IsSnapshot(EditsOf(open, ves, orders)[0], run[i].v) && B.EditOk(EditsOf(open, ves, orders)[0])
    requires EditsOf(open, ves, orders)[1..] == R.EditsAlong(run, steps, i, n)
    ensures M.Encodes(item, ves, orders, rs) && file == Log.Stream(enc, rs)
    ensures cut <= |file| ==> k <= |ves| && Log.WholeBefore(enc, rs, cut, k)
    ensures cut <= |file| && k > 0 ==> recovered.Some? && IsStateAfter(run, steps, i, n, k - 1, recovered.value)
  {
    ghost var es := EditsOf(open, ves, orders);
    LogIsRebuildable(run, steps, i, n, es);
    var current;
    rs, file, k, recovered, current := RebuildFromBytes(item, crc, run[i].v, ves, orders, cut, open, dec, get, enc);
    if cut <= |file| && k > 0 {
      CutIsState(run, steps, i, n, es, k, current);
    }
  }

  lemma LogIsRebuildable(run: seq<L.State>, steps: seq<L.Step>, i: nat, n: nat, es: seq<B.Edit>)
    requires L.IsRun(run, steps) && i <= n < |run| && es != [] && es[1..] == R.EditsAlong(run, steps, i, n)
    requires B.IsSnapshot(es[0], run[i].v) && B.EditOk(es[0])
    ensures B.Rebuildable(run[i].v, es[0], es[1..])
  {
    R.RunIsRebuildable(run, steps, i, n, es[0]);
  }

  lemma CutIsState(run: seq<L.State>, steps: seq<L.Step>, i: nat, n: nat, es: seq<B.Edit>, k: nat, v: Version)
    requires L.IsRun(run, steps) && i <= n < |run| && 0 < k <= |es| && es[1..] == R.EditsAlong(run, steps, i, n)
    requires B.IsSnapshot(es[0], run[i].v) && B.EditOk(es[0])
    requires forall l :: 0 <= l < NUM_LEVELS ==> InOrder(v[l]) && B.Members(v[l]) == B.Sequential(B.Members(run[i].v[l]), es[1..k], l)
    ensures IsStateAfter(run, steps, i, n, k - 1, v)
  {
    assert es[1..k] == es[1..][..k - 1];
    var m := PrefixIsState(run, steps, i, n, k - 1);
    StateIsCurrent(run, steps, i, m, es[0], v);
  }

  lemma StateIsCurrent(run: seq<L.State>, steps: seq<L.Step>, i: nat, m: nat, snapshot: B.Edit, v: Version)
    requires L.IsRun(run, steps) && i <= m < |run| && B.IsSnapshot(snapshot, run[i].v) && B.EditOk(snapshot)
    requires forall l :: 0 <= l < NUM_LEVELS ==>
               InOrder(v[l]) && B.Members(v[l]) == B.Sequential(B.Members(run[i].v[l]), R.EditsAlong(run, steps, i, m), l)
    ensures v == run[m].v
  {
    R.RunIsRebuildable(run, steps, i, m, snapshot);
    L.RunKeepsInv(run, steps, m);
    forall l | 0 <= l < NUM_LEVELS ensures v[l] == run[m].v[l] { B.OrderIsCanonical(v[l], run[m].v[l]); }
  }
}
