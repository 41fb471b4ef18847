/** The manifest of a run: the edits LogAndApply logs along the way, and what recovery makes of them. */
module RunManifest {
  import opened Keys
  import opened Files
  import opened Versions
  import opened Install
  import opened Builder
  import L = Lsm

  // ---------------------------------------------------------------- the edit of a step

  function Dropped(level: nat, fs: seq<File>): (ds: seq<(nat, nat)>)
    ensures |ds| == |fs| && forall i :: 0 <= i < |fs| ==> ds[i] == (level, fs[i].number)
  {
    seq(|fs|, i requires 0 <= i < |fs| => (level, fs[i].number))
  }

  function Put(level: nat, fs: seq<File>): (r: seq<(nat, File)>)
    ensures |r| == |fs| && forall i :: 0 <= i < |fs| ==> r[i] == (level, fs[i])
  {
    seq(|fs|, i requires 0 <= i < |fs| => (level, fs[i]))
  }

  function FinishEdit(j: Job, outs: seq<File>): Edit {
    Edit(Dropped(j.level, j.up) + Dropped(j.level + 1, j.low), Put(j.level + 1, outs))
  }

  /** What the step logs, if anything. */
  function EditsFor(st: L.State, step: L.Step): seq<Edit> {
    match step
    case Flush(level, f) => [Edit([], Put(level, [f]))]
    case Finish(outs) => if st.job.None? then [] else [FinishEdit(st.job.value, outs)]
    case Move(level, f) => [FinishEdit(Job(level, [f], [], 0, st.v), [f])]
    case Reopen(tables, _) => [Edit([], Put(0, tables))]
    case _ => []
  }

  lemma PutIs(level: nat, fs: seq<File>, l: nat)
    ensures AddedIn(Put(level, fs), l) == if l == level then Members(fs) else {}
  {
    forall f ensures f in AddedIn(Put(level, fs), l) <==> l == level && f in fs {
      AddedInIs(Put(level, fs), l, f);
      if l == level && f in fs {
        var i :| 0 <= i < |fs| && fs[i] == f;
        assert Put(level, fs)[i] == (l, f);
      }
    }
  }

  lemma DroppedIs(level: nat, up: seq<File>, low: seq<File>, l: nat)
    ensures DeletedIn(Dropped(level, up) + Dropped(level + 1, low), l) ==
            if l == level then Numbers(Members(up)) else if l == level + 1 then Numbers(Members(low)) else {}
  {
    var ds := Dropped(level, up) + Dropped(level + 1, low);
    forall n ensures n in DeletedIn(ds, l) <==> (l == level && n in Numbers(Members(up))) || (l == level + 1 && n in Numbers(Members(low))) {
      DeletedInIs(ds, l, n);
      DropsNumber(level, up, l, n);
      DropsNumber(level + 1, low, l, n);
    }
  }

  lemma DropsNumber(level: nat, fs: seq<File>, l: nat, n: nat)
    ensures (l, n) in Dropped(level, fs) <==> l == level && n in Numbers(Members(fs))
  {
    if l == level && n in Numbers(Members(fs)) {
      var f :| f in Members(fs) && f.number == n;
      var i :| 0 <= i < |fs| && fs[i] == f;
      assert Dropped(level, fs)[i] == (l, n);
    }
  }

  // ---------------------------------------------------------------- what the edit says of one level

  /** The edits make the new level of the old one, and give out new numbers. */
  ghost predicate Made(st: L.State, es: seq<Edit>, st': L.State, l: nat)
    requires 0 <= l < NUM_LEVELS && |st.used| == NUM_LEVELS == |st'.used|
  {
    && Members(st'.v[l]) == Sequential(Members(st.v[l]), es, l)
    && st'.used[l] == st.used[l] + Numbers(AllAdded(es, l))
    && Numbers(AllAdded(es, l)) !! st.used[l]
    && forall f, g :: f in AllAdded(es, l) && g in AllAdded(es, l) && f.number == g.number ==> f == g
  }

  /** A step changes the level as the edit it logs says. */
  ghost predicate StepMade(st: L.State, step: L.Step, st': L.State, l: nat)
    requires 0 <= l < NUM_LEVELS
  {
    |st.used| == NUM_LEVELS == |st'.used| && Made(st, EditsFor(st, step), st', l)
  }

  lemma OneEdit(e: Edit, fs: set<File>, l: nat)
    ensures AllAdded([e], l) == Added(e, l) && Sequential(fs, [e], l) == Apply1(fs, e, l)
  {
    assert [e][..0] == [];
  }

  lemma NoEdit(st: L.State, st': L.State, l: nat)
    requires 0 <= l < NUM_LEVELS && |st.used| == NUM_LEVELS && st'.v == st.v && st'.used == st.used
    ensures Made(st, [], st', l)
  {
  }

  /** One edit that drops files of the level and puts new ones on it. */
  lemma MadeByEdit(st: L.State, e: Edit, st': L.State, l: nat, gone: seq<File>, put: seq<File>)
    requires L.Numbered(st) && 0 <= l < NUM_LEVELS && |st'.used| == NUM_LEVELS
    requires Edited(st.v[l], st'.v[l], gone, put) && (forall f :: f in gone ==> f in st.v[l])
    requires Deleted(e, l) == Numbers(Members(gone)) && Added(e, l) == Members(put)
    requires st'.used[l] == st.used[l] + Numbers(Members(put)) && L.DistinctNumbers(put) && forall f :: f in put ==> f.number !in st.used[l]
    ensures Made(st, [e], st', l)
  {
    OneEdit(e, Members(st.v[l]), l);
    forall f, g | f in st.v[l] && g in put ensures f.number != g.number { assert f.number in st.used[l]; }
    assert L.DistinctNumbers(st.v[l]);
    ApplyIsEdited(st.v[l], st'.v[l], e, l, gone, put);
  }

  /** A level the edit does not mention. */
  lemma LeftAlone(st: L.State, e: Edit, st': L.State, l: nat)
    requires 0 <= l < NUM_LEVELS && |st.used| == NUM_LEVELS == |st'.used| && st'.v[l] == st.v[l] && st'.used[l] == st.used[l]
    requires Deleted(e, l) == {} && Added(e, l) == {}
    ensures Made(st, [e], st', l)
  {
    OneEdit(e, Members(st.v[l]), l);
  }

  lemma NumbersAlike(fs: seq<File>)
    ensures L.NumbersOf(fs) == Numbers(Members(fs))
  {
  }

  /** New files on one level. */
  lemma PutMakes(st: L.State, fs: seq<File>, st': L.State, l: nat)
    requires L.Numbered(st) && 0 <= l < NUM_LEVELS && |st'.used| == NUM_LEVELS && Edited(st.v[l], st'.v[l], [], fs)
    requires st'.used[l] == st.used[l] + L.NumbersOf(fs) && L.DistinctNumbers(fs) && forall f :: f in fs ==> f.number !in st.used[l]
    ensures Made(st, [Edit([], Put(l, fs))], st', l)
  {
    PutIs(l, fs, l);
    NumbersAlike(fs);
    MadeByEdit(st, Edit([], Put(l, fs)), st', l, [], fs);
  }

  lemma PutElsewhere(st: L.State, level: nat, fs: seq<File>, st': L.State, l: nat)
    requires 0 <= l < NUM_LEVELS && l != level && |st.used| == NUM_LEVELS == |st'.used|
    requires st'.v[l] == st.v[l] && st'.used[l] == st.used[l]
    ensures Made(st, [Edit([], Put(level, fs))], st', l)
  {
    PutIs(level, fs, l);
    LeftAlone(st, Edit([], Put(level, fs)), st', l);
  }

  lemma FlushMakes(st: L.State, level: nat, f: File, st': L.State, l: nat)
    requires L.Inv(st) && L.Next(st, L.Flush(level, f), st') && 0 <= l < NUM_LEVELS
    ensures StepMade(st, L.Flush(level, f), st', l)
  {
    if l == level { PutMakes(st, [f], st', l); } else { PutElsewhere(st, level, [f], st', l); }
  }

  lemma RecoveredAreNew(st: L.State, tables: seq<File>, last: nat, st': L.State)
    requires L.Numbered(st) && L.Recovers(st, tables, last, st')
    ensures L.DistinctNumbers(tables) && forall f :: f in tables ==> f.number !in st.used[0]
  {
    L.RecoveredNumbers(tables);
  }

  lemma RecoveredMade(st: L.State, tables: seq<File>, last: nat, st': L.State, l: nat)
    requires L.Numbered(st) && L.Recovers(st, tables, last, st') && 0 <= l < NUM_LEVELS
    ensures |st'.used| == NUM_LEVELS && Made(st, [Edit([], Put(0, tables))], st', l)
  {
    if l == 0 {
      RecoveredAreNew(st, tables, last, st');
      PutMakes(st, tables, st', l);
    } else {
      PutElsewhere(st, 0, tables, st', l);
    }
  }

  lemma ReopenLogs(st: L.State, tables: seq<File>, last: nat, st': L.State, l: nat)
    requires 0 <= l < NUM_LEVELS && |st.used| == NUM_LEVELS == |st'.used| && Made(st, [Edit([], Put(0, tables))], st', l)
    ensures StepMade(st, L.Reopen(tables, last), st', l)
  {
  }

  lemma ReopenMakes(st: L.State, tables: seq<File>, last: nat, st': L.State, l: nat)
    requires L.Numbered(st) && L.Recovers(st, tables, last, st') && 0 <= l < NUM_LEVELS
    ensures StepMade(st, L.Reopen(tables, last), st', l)
  {
    RecoveredMade(st, tables, last, st', l);
    ReopenLogs(st, tables, last, st', l);
  }

  lemma FinishMakes(st: L.State, j: Job, outs: seq<File>, st': L.State, l: nat)
    requires L.Numbered(st) && 0 <= l < NUM_LEVELS && |st'.used| == NUM_LEVELS
    requires j.level + 1 < NUM_LEVELS && Finished(st.v, st'.v, j, outs) && L.DistinctNumbers(outs)
    requires (forall f :: f in j.up ==> f in st.v[j.level]) && (forall f :: f in j.low ==> f in st.v[j.level + 1])
    requires forall o :: o in outs ==> o.number !in st.used[j.level + 1]
    requires st'.used == st.used[j.level + 1 := st.used[j.level + 1] + L.NumbersOf(outs)]
    ensures Made(st, [FinishEdit(j, outs)], st', l)
  {
    if l == j.level + 1 {
      LowerMakes(st, j, outs, st');
    } else {
      var e := FinishEdit(j, outs);
      PutIs(j.level + 1, outs, l);
      DroppedIs(j.level, j.up, j.low, l);
      if l == j.level { MadeByEdit(st, e, st', l, j.up, []); } else { LeftAlone(st, e, st', l); }
    }
  }

  lemma LowerMakes(st: L.State, j: Job, outs: seq<File>, st': L.State)
    requires L.Numbered(st) && |st'.used| == NUM_LEVELS
    requires j.level + 1 < NUM_LEVELS && Edited(st.v[j.level + 1], st'.v[j.level + 1], j.low, outs) && L.DistinctNumbers(outs)
    requires forall f :: f in j.low ==> f in st.v[j.level + 1]
    requires forall o :: o in outs ==> o.number !in st.used[j.level + 1]
    requires st'.used[j.level + 1] == st.used[j.level + 1] + L.NumbersOf(outs)
    ensures Made(st, [FinishEdit(j, outs)], st', j.level + 1)
  {
    var l := j.level + 1;
    PutIs(l, outs, l);
    DroppedIs(j.level, j.up, j.low, l);
    NumbersAlike(outs);
    MadeByEdit(st, FinishEdit(j, outs), st', l, j.low, outs);
  }

  lemma InstallMakes(st: L.State, outs: seq<File>, st': L.State, l: nat)
    requires L.Inv(st) && L.Next(st, L.Finish(outs), st') && 0 <= l < NUM_LEVELS
    ensures StepMade(st, L.Finish(outs), st', l)
  {
    var j := st.job.value;
    forall o | o in outs ensures o.number !in st.used[j.level + 1] { assert L.IsFresh(st, st', o.number); }
    FinishMakes(st, j, outs, st', l);
  }

  lemma MoveMakes(st: L.State, level: nat, f: File, st': L.State, l: nat)
    requires L.Inv(st) && L.Next(st, L.Move(level, f), st') && 0 <= l < NUM_LEVELS
    ensures StepMade(st, L.Move(level, f), st', l)
  {
    assert f in [f] && f in st.v[level];
    assert f.number !in st.used[level + 1];
    FinishMakes(st, Job(level, [f], [], 0, st.v), [f], st', l);
  }

  lemma QuietMakes(st: L.State, step: L.Step, st': L.State, l: nat)
    requires L.Numbered(st) && L.Next(st, step, st') && 0 <= l < NUM_LEVELS
    requires !step.Flush? && !step.Finish? && !step.Move? && !step.Reopen?
    ensures StepMade(st, step, st', l)
  {
    NoEdit(st, st', l);
  }

  lemma StepMakes(st: L.State, step: L.Step, st': L.State, l: nat)
    requires L.Inv(st) && L.Next(st, step, st') && 0 <= l < NUM_LEVELS
    ensures StepMade(st, step, st', l)
  {
    match step
    case Flush(level, f) => FlushMakes(st, level, f, st', l);
    case Finish(outs) => InstallMakes(st, outs, st', l);
    case Move(level, f) => MoveMakes(st, level, f, st', l);
    case Reopen(tables, last) => ReopenMakes(st, tables, last, st', l);
    case _ => QuietMakes(st, step, st', l);
  }

  // ---------------------------------------------------------------- the edits of a run

  function EditsAlong(run: seq<L.State>, steps: seq<L.Step>, i: nat, k: nat): seq<Edit>
    requires i <= k <= |steps| < |run|
    decreases k
  {
    if i == k then [] else EditsAlong(run, steps, i, k - 1) + EditsFor(run[k - 1], steps[k - 1])
  }

  lemma OneMore(fs: set<File>, es: seq<Edit>, e: Edit, l: nat)
    ensures AllAdded(es + [e], l) == AllAdded(es, l) + Added(e, l) && Sequential(fs, es + [e], l) == Apply1(Sequential(fs, es, l), e, l)
  {
    assert (es + [e])[..|es|] == es;
  }

  lemma MadeMore(st: L.State, es: seq<Edit>, mid: L.State, more: seq<Edit>, st': L.State, l: nat)
    requires 0 <= l < NUM_LEVELS && |st.used| == NUM_LEVELS == |mid.used| == |st'.used|
    requires Made(st, es, mid, l) && Made(mid, more, st', l) && |more| <= 1
    ensures Made(st, es + more, st', l)
  {
    if more == [] {
      assert es + more == es;
    } else {
      assert more == [more[0]];
      OneMore(Members(st.v[l]), es, more[0], l);
      OneEdit(more[0], Members(mid.v[l]), l);
      var a, b := AllAdded(es, l), Added(more[0], l);
      assert forall f :: f in a ==> f.number in Numbers(a);
      assert forall f :: f in b ==> f.number in Numbers(b);
      assert Numbers(a + b) == Numbers(a) + Numbers(b);
    }
  }

  lemma FreshMore(st: L.State, es: seq<Edit>, mid: L.State, more: seq<Edit>, st': L.State, l: nat)
    requires 0 <= l < NUM_LEVELS && L.Numbered(st) && |mid.used| == NUM_LEVELS == |st'.used|
    requires Made(st, es, mid, l) && Made(mid, more, st', l) && |more| <= 1 && NumbersFresh(Members(st.v[l]), es, l)
    ensures NumbersFresh(Members(st.v[l]), es + more, l)
  {
    var all, fs := es + more, Members(st.v[l]);
    forall m, f | 0 <= m < |all| && f in Added(all[m], l) ensures f.number !in Numbers(fs + AllAdded(all[..m], l)) {
      if m < |es| {
        assert all[m] == es[m] && all[..m] == es[..m];
      } else {
        assert all[..m] == es && more == [all[m]];
        OneEdit(all[m], Members(mid.v[l]), l);
        assert f.number in Numbers(Added(all[m], l));
        forall g | g in fs + AllAdded(es, l) ensures g.number in mid.used[l] {
          if g in fs { assert g in st.v[l] && g.number in st.used[l]; } else { assert g.number in Numbers(AllAdded(es, l)); }
        }
      }
    }
  }

  /** The edits lead from one state to the other, with new numbers all the way. */
  ghost predicate Leads(st: L.State, es: seq<Edit>, st': L.State, l: nat)
    requires 0 <= l < NUM_LEVELS
  {
    |st.used| == NUM_LEVELS == |st'.used| && Made(st, es, st', l) && NumbersFresh(Members(st.v[l]), es, l)
  }

  lemma LeadsOn(st: L.State, es: seq<Edit>, mid: L.State, more: seq<Edit>, st': L.State, l: nat)
    requires 0 <= l < NUM_LEVELS && L.Numbered(st) && Leads(st, es, mid, l)
    requires |st'.used| == NUM_LEVELS && Made(mid, more, st', l) && |more| <= 1
    ensures Leads(st, es + more, st', l)
  {
    MadeMore(st, es, mid, more, st', l);
    FreshMore(st, es, mid, more, st', l);
  }

  lemma LeadsThrough(st: L.State, es: seq<Edit>, mid: L.State, step: L.Step, st': L.State, l: nat)
    requires 0 <= l < NUM_LEVELS && L.Numbered(st) && Leads(st, es, mid, l)
    requires L.Inv(mid) && L.Next(mid, step, st')
    ensures Leads(st, es + EditsFor(mid, step), st', l)
  {
    StepMakes(mid, step, st', l);
    LeadsOn(st, es, mid, EditsFor(mid, step), st', l);
  }

  lemma NumbersAlong(run: seq<L.State>, steps: seq<L.Step>, i: nat)
    requires L.IsRun(run, steps) && i < |run|
    ensures L.Numbered(run[i])
  {
    L.RunKeepsInv(run, steps, i);
  }

  /** The edits logged between two states of a run lead from the one to the other. */
  ghost predicate LeadsAlong(run: seq<L.State>, steps: seq<L.Step>, i: nat, k: nat, l: nat)
    requires i <= k <= |steps| < |run| && 0 <= l < NUM_LEVELS
  {
    Leads(run[i], EditsAlong(run, steps, i, k), run[k], l)
  }

  lemma LeadsNowhere(run: seq<L.State>, steps: seq<L.Step>, i: nat, l: nat)
    requires L.IsRun(run, steps) && i < |run| && 0 <= l < NUM_LEVELS
    ensures LeadsAlong(run, steps, i, i, l)
  {
    NumbersAlong(run, steps, i);
    NoEdit(run[i], run[i], l);
  }

  lemma LeadsOneOn(run: seq<L.State>, steps: seq<L.Step>, i: nat, k: nat, l: nat)
    requires L.IsRun(run, steps) && i < k <= |steps| && 0 <= l < NUM_LEVELS && LeadsAlong(run, steps, i, k - 1, l)
    ensures LeadsAlong(run, steps, i, k, l)
  {
    L.RunKeepsInv(run, steps, i);
    L.RunKeepsInv(run, steps, k - 1);
    assert L.StepAt(run, steps, k - 1);
    LeadsThrough(run[i], EditsAlong(run, steps, i, k - 1), run[k - 1], steps[k - 1], run[k], l);
  }

  lemma {:induction false} AlongMakes(run: seq<L.State>, steps: seq<L.Step>, i: nat, k: nat, l: nat)
    requires L.IsRun(run, steps) && i <= k < |run| && 0 <= l < NUM_LEVELS
    ensures LeadsAlong(run, steps, i, k, l)
    decreases k
  {
    if i == k {
      LeadsNowhere(run, steps, i, l);
    } else {
      AlongMakes(run, steps, i, k - 1, l);
      LeadsOneOn(run, steps, i, k, l);
    }
  }

  lemma {:induction false} AlongIsOk(run: seq<L.State>, steps: seq<L.Step>, i: nat, k: nat)
    requires L.IsRun(run, steps) && i <= k < |run|
    ensures forall e :: e in EditsAlong(run, steps, i, k) ==> EditOk(e)
    decreases k
  {
    if i < k {
      AlongIsOk(run, steps, i, k - 1);
      assert L.StepAt(run, steps, k - 1);
      EditIsOk(run[k - 1], steps[k - 1], run[k]);
    }
  }

  lemma EditIsOk(st: L.State, step: L.Step, st': L.State)
    requires L.Next(st, step, st')
    ensures forall e :: e in EditsFor(st, step) ==> EditOk(e)
  {
  }

  // ---------------------------------------------------------------- recovery

  lemma AlongApplies(run: seq<L.State>, steps: seq<L.Step>, i: nat, k: nat, l: nat)
    requires L.IsRun(run, steps) && i <= k < |run| && 0 <= l < NUM_LEVELS
    ensures Appliable(Members(run[i].v[l]), EditsAlong(run, steps, i, k), l)
  {
    var st, es, fs := run[i], EditsAlong(run, steps, i, k), Members(run[i].v[l]);
    AlongMakes(run, steps, i, k, l);
    L.RunKeepsInv(run, steps, i);
    assert L.DistinctNumbers(st.v[l]);
    assert forall f :: f in fs ==> f.number in st.used[l];
    assert forall f :: f in AllAdded(es, l) ==> f.number in Numbers(AllAdded(es, l));
    forall m: nat | m < |es| ensures Sequential(fs, es[..m], l) !! Added(es[m], l) {
      SequentialAdds(fs, es[..m], l);
      assert forall f :: f in fs + AllAdded(es[..m], l) ==> f.number in Numbers(fs + AllAdded(es[..m], l));
    }
  }

  lemma SnapshotIsFresh(snapshot: Edit, fs: set<File>, es: seq<Edit>, l: nat, k: nat)
    requires Added(snapshot, l) == fs && NumbersFresh(fs, es, l) && k <= |es|
    ensures SameAgain({}, [snapshot] + es, l, k)
  {
    var all := [snapshot] + es;
    if k == 0 {
      assert all[..0] == [];
    } else {
      assert all[..k] == [snapshot] + es[..k - 1] && all[k] == es[k - 1];
      AllAddedFrom(snapshot, es[..k - 1], l);
      FreshIsSameAgain(fs, es, l, k - 1);
      var had := fs + AllAdded(es[..k - 1], l);
      assert {} + AllAdded(all[..k], l) == had;
      forall n | n in Numbers(Added(all[k], l)) ensures n !in Numbers(had) { var f :| f in Added(all[k], l) && f.number == n; }
      assert forall x :: x in had ==> x.number in Numbers(had);
    }
  }

  /** The manifest a run has written since any of its states, from the snapshot record on, can be
      rebuilt from, and stands for the current version. */
  lemma RunIsRebuildable(run: seq<L.State>, steps: seq<L.Step>, i: nat, k: nat, snapshot: Edit)
    requires L.IsRun(run, steps) && i <= k < |run| && IsSnapshot(snapshot, run[i].v) && EditOk(snapshot)
    ensures Rebuildable(run[i].v, snapshot, EditsAlong(run, steps, i, k))
    ensures forall l :: 0 <= l < NUM_LEVELS ==> Sequential(Members(run[i].v[l]), EditsAlong(run, steps, i, k), l) == Members(run[k].v[l])
  {
    var es := EditsAlong(run, steps, i, k);
    L.RunKeepsInv(run, steps, i);
    AlongIsOk(run, steps, i, k);
    forall l | 0 <= l < NUM_LEVELS
      ensures Appliable(Members(run[i].v[l]), es, l) && Sequential(Members(run[i].v[l]), es, l) == Members(run[k].v[l])
    {
      AlongApplies(run, steps, i, k, l);
      AlongMakes(run, steps, i, k, l);
    }
    forall l, m: nat | 0 <= l < NUM_LEVELS && m <= |es| ensures SameAgain({}, [snapshot] + es, l, m) {
      AlongMakes(run, steps, i, k, l);
      SnapshotIsFresh(snapshot, Members(run[i].v[l]), es, l, m);
    }
  }

  /** In every reachable state, replaying the manifest returns the current version, list for list. */
  method RecoverRun(run: seq<L.State>, steps: seq<L.Step>, i: nat, k: nat, snapshot: Edit) returns (recovered: Version)
    requires L.IsRun(run, steps) && i <= k < |run| && IsSnapshot(snapshot, run[i].v) && EditOk(snapshot)
    ensures recovered == run[k].v
  {
    RunIsRebuildable(run, steps, i, k, snapshot);
    var current;
    current, recovered := RecoverIsCurrent(run[i].v, snapshot, EditsAlong(run, steps, i, k));
    L.RunKeepsInv(run, steps, k);
    forall l | 0 <= l < NUM_LEVELS ensures current[l] == run[k].v[l] { OrderIsCanonical(current[l], run[k].v[l]); }
  }
}
