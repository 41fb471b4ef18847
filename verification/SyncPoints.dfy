/** What one sync write does for the writes before it. The documentation proposes to make every Nth
    write of a bulk load a sync write and to restart after the last of those. Here is exactly which
    writes outlive a crash, when a sync write covers the ones before it, and when it does not. */
module SyncPoints {
  import opened Keys
  import opened Lookup
  import opened Files
  import opened Durability
  import opened Survival

  ghost predicate Steps(run: seq<State>, evs: seq<Event>) {
    |run| == |evs| + 1 && forall i :: 0 <= i < |evs| ==> StepAt(run, evs, i)
  }

  /** A record is out of reach of a crash: tables stand for its log by the synced part of the manifest,
      or it is in the synced part of that log. */
  ghost predicate Safe(d: Disk, g: Ghost, a: nat) {
    && d.current in d.manifests
    && var f := d.manifests[d.current];
    && f.synced <= |f.recs|
    && var log := Summarize(f.recs[..f.synced]).log;
    && log.Some? && Kept(g.past, d.logs, log.value, a)
  }

  ghost predicate OnLine(g: Ghost, a: nat) {
    exists n: nat, i: nat :: IsAt(g.past, n, i, a)
  }

  /** A crash, any number of recoveries and crashes during or after them, and an open database. */
  ghost predicate Reopens(st: State, run: seq<State>, evs: seq<Event>) {
    && Steps(run, evs) && run[0] == st && |evs| > 0 && evs[0].Crash? && run[|evs|].Running?
    && forall i :: 0 <= i < |evs| ==> !evs[i].Does?
  }

  // ---------------------------------------------------------------- what is safe stays

  /** The state as if the record had been acknowledged to a sync writer. */
  ghost function Marked(g: Ghost, a: nat): Ghost {
    g.(acked := g.acked + {a})
  }

  ghost function Mark(st: State, a: nat): State {
    match st
    case Running(d, m, g) => Running(d, m, Marked(g, a))
    case Down(d, g) => Down(d, Marked(g, a))
  }

  lemma MarkedWrite(d: Disk, m: Memory, g: Ghost, step: Step, d': Disk, m': Memory, g': Ghost, a: nat)
    requires m.curLog in d.logs && m.curLog in g.past && WriteStep(d, m, g, step, d', m', g')
    ensures WriteStep(d, m, Marked(g, a), step, d', m', Marked(g', a))
  {
    if step.Ack? && m.writer.sync {
      assert Marked(g', a).acked == Marked(g, a).acked + {m.writer.r.at};
    }
  }

  lemma MarkedDoes(st: State, step: Step, st': State, a: nat)
    requires Next(st, Does(step), st')
    ensures Next(Mark(st, a), Does(step), Mark(st', a))
  {
    if WriteStep(st.disk, st.m, st.g, step, st'.disk, st'.m, st'.g) {
      MarkedWrite(st.disk, st.m, st.g, step, st'.disk, st'.m, st'.g, a);
    }
  }

  lemma MarkedStep(st: State, ev: Event, st': State, a: nat)
    requires Next(st, ev, st')
    ensures Next(Mark(st, a), ev, Mark(st', a))
  {
    if ev.Does? { MarkedDoes(st, ev.step, st', a); }
  }

  /** The record is there and stays there. */
  ghost predicate Holds(st: State, a: nat) {
    Inv(Mark(st, a))
  }

  lemma NextHolds(st: State, ev: Event, st': State, a: nat)
    requires Holds(st, a) && Next(st, ev, st')
    ensures Holds(st', a)
  {
    MarkedStep(st, ev, st', a);
    NextKeepsInv(Mark(st, a), ev, Mark(st', a));
  }

  /** What every step keeps, a sequence of steps keeps. */
  lemma {:induction false} Along(run: seq<State>, evs: seq<Event>, i: nat, k: nat, p: State -> bool)
    requires Steps(run, evs) && i <= k < |run| && p(run[i])
    requires forall st, ev, st' :: p(st) && Next(st, ev, st') ==> p(st')
    ensures p(run[k])
  {
    if i < k {
      Along(run, evs, i, k - 1, p);
      assert StepAt(run, evs, k - 1);
    }
  }

  lemma StaysHeld(run: seq<State>, evs: seq<Event>, i: nat, k: nat, a: nat)
    requires Steps(run, evs) && i <= k < |run| && Holds(run[i], a)
    ensures Holds(run[k], a)
  {
    forall st, ev, st' | Holds(st, a) && Next(st, ev, st') ensures Holds(st', a) { NextHolds(st, ev, st', a); }
    Along(run, evs, i, k, st => Holds(st, a));
  }

  /** A crash keeps what the manifest's synced part says, and the synced parts of the logs. */
  lemma CrashKeepsSafe(d: Disk, g: Ghost, d': Disk, a: nat)
    requires CrashStep(d, d') && Safe(d, g, a)
    ensures Safe(d', g, a)
  {
    var f, f' := d.manifests[d.current], d'.manifests[d.current];
    assert IsCut(f, f');
    assert f'.recs[..f'.synced] == f.recs[..f.synced];
    var log := Summarize(f.recs[..f.synced]).log.value;
    var n: nat, i: nat :| IsAt(g.past, n, i, a) && (n >= log ==> n in d.logs && i < d.logs[n].synced);
    assert n in d.logs ==> IsCut(d.logs[n], d'.logs[n]);
    assert IsAt(g.past, n, i, a) && (n >= log ==> n in d'.logs && i < d'.logs[n].synced);
  }

  lemma SafeIsMarked(d: Disk, g: Ghost, a: nat)
    requires DownInv(d, g) && Safe(d, g, a)
    ensures DownInv(d, Marked(g, a))
  {
    var f := d.manifests[d.current];
    MarkedPoints(d, g, Summarize(f.recs[..f.synced]), Summarize(f.recs), false, a);
  }

  lemma MarkedPoints(d: Disk, g: Ghost, base: Summary, full: Summary, exact: bool, a: nat)
    requires PointsOk(d, g, base, full, exact) && Kept(g.past, d.logs, base.log.value, a)
    ensures PointsOk(d, Marked(g, a), base, full, exact)
  {
  }

  lemma CrashHolds(st: State, st': State, a: nat)
    requires Inv(st) && Next(st, Crash, st') && Safe(st.disk, st.g, a)
    ensures Holds(st', a)
  {
    NextKeepsInv(st, Crash, st');
    CrashKeepsSafe(st.disk, st.g, st'.disk, a);
    SafeIsMarked(st'.disk, st.g, a);
  }

  lemma HeldIsOnLine(st: State, a: nat)
    requires st.Running? && Holds(st, a)
    ensures OnLine(st.g, a)
  {
    var d, m := st.disk, st.m;
    var f := d.manifests[d.current];
    assert a in Marked(st.g, a).acked;
    assert Kept(st.g.past, d.logs, Summarize(f.recs[..Installed(m, f)]).log.value, a);
    var n: nat, i: nat :| IsAt(st.g.past, n, i, a);
  }

  /** A record that is safe when the machine crashes is on the line of every database opened later. */
  lemma SafeStays(st: State, run: seq<State>, evs: seq<Event>, a: nat)
    requires Inv(st) && Safe(st.disk, st.g, a) && Reopens(st, run, evs)
    ensures OnLine(run[|evs|].g, a)
  {
    assert StepAt(run, evs, 0);
    CrashHolds(st, run[1], a);
    StaysHeld(run, evs, 1, |evs|, a);
    HeldIsOnLine(run[|evs|], a);
  }

  // ---------------------------------------------------------------- what is not safe can go

  /** No file has more synced than it holds. */
  ghost predicate FilesOk(d: Disk) {
    && (forall n :: n in d.logs ==> d.logs[n].synced <= |d.logs[n].recs|)
    && forall n :: n in d.manifests ==> d.manifests[n].synced <= |d.manifests[n].recs|
  }

  lemma DoesKeepsFiles(st: State, step: Step, st': State)
    requires FilesOk(st.disk) && Next(st, Does(step), st')
    ensures FilesOk(st'.disk)
  {
    var d, m, d', m' := st.disk, st.m, st'.disk, st'.m;
    if TableStep(d, m, step, d', m') {
      assert d'.logs == d.logs && d'.manifests == d.manifests;
    }
  }

  lemma RepairKeepsFiles(st: State, r: Repair, st': State)
    requires FilesOk(st.disk) && Next(st, Repairs(r), st')
    ensures FilesOk(st'.disk)
  {
  }

  lemma CrashKeepsFiles(st: State, st': State)
    requires Next(st, Crash, st')
    ensures FilesOk(st'.disk)
  {
    forall n | n in st'.disk.logs ensures st'.disk.logs[n].synced <= |st'.disk.logs[n].recs| {
      assert IsCut(st.disk.logs[n], st'.disk.logs[n]);
    }
    forall n | n in st'.disk.manifests ensures st'.disk.manifests[n].synced <= |st'.disk.manifests[n].recs| {
      assert IsCut(st.disk.manifests[n], st'.disk.manifests[n]);
    }
  }

  lemma NextKeepsFiles(st: State, ev: Event, st': State)
    requires FilesOk(st.disk) && Next(st, ev, st')
    ensures FilesOk(st'.disk)
  {
    match ev
    case Does(step) => DoesKeepsFiles(st, step, st');
    case Crash => CrashKeepsFiles(st, st');
    case Repairs(r) => RepairKeepsFiles(st, r, st');
  }

  lemma {:induction false} RunKeepsFiles(run: seq<State>, evs: seq<Event>, i: nat)
    requires IsRun(run, evs) && i < |run|
    ensures FilesOk(run[i].disk)
  {
    if i > 0 {
      RunKeepsFiles(run, evs, i - 1);
      assert StepAt(run, evs, i - 1);
      NextKeepsFiles(run[i - 1], evs[i - 1], run[i]);
    }
  }

  function SyncedPart<T>(f: Appended<T>): Appended<T> {
    if f.synced <= |f.recs| then f.(recs := f.recs[..f.synced]) else f
  }

  /** The worst crash. */
  function Stripped(d: Disk): Disk {
    d.(logs := map n | n in d.logs :: SyncedPart(d.logs[n]), manifests := map n | n in d.manifests :: SyncedPart(d.manifests[n]))
  }

  ghost predicate AllSynced(d: Disk) {
    && (forall n :: n in d.logs ==> d.logs[n].synced == |d.logs[n].recs|)
    && forall n :: n in d.manifests ==> d.manifests[n].synced == |d.manifests[n].recs|
  }

  lemma WorstCrash(d: Disk)
    requires FilesOk(d)
    ensures CrashStep(d, Stripped(d)) && AllSynced(Stripped(d))
  {
  }

  /** It makes nothing safe. */
  lemma StrippedIsNoSafer(d: Disk, g: Ghost, a: nat)
    requires FilesOk(d) && Safe(Stripped(d), g, a)
    ensures Safe(d, g, a)
  {
    var f, f' := d.manifests[d.current], Stripped(d).manifests[d.current];
    assert f'.recs[..f'.synced] == f.recs[..f.synced];
    var log := Summarize(f.recs[..f.synced]).log.value;
    var n: nat, i: nat :| IsAt(g.past, n, i, a) && (n >= log ==> n in Stripped(d).logs && i < Stripped(d).logs[n].synced);
    assert IsAt(g.past, n, i, a) && (n >= log ==> n in d.logs && i < d.logs[n].synced);
  }

  /** The line of records after opening with a new, empty log. */
  ghost function Reopened(d: Disk, g: Ghost, log: nat): map<nat, seq<Record>>
    requires d.current in d.manifests && Complete(Summarize(d.manifests[d.current].recs))
  {
    Surviving(g.past[log := []], d.logs[log := Appended([], 0)], Summarize(d.manifests[d.current].recs).log.value)
  }

  /** With nothing left but what was synced, it has only safe records. */
  lemma OnlySafeRecords(d: Disk, g: Ghost, log: nat, n: nat, i: nat)
    requires DownInv(d, g) && AllSynced(d) && n in Reopened(d, g, log) && i < |Reopened(d, g, log)[n]|
    ensures n in g.past && i < |g.past[n]| && Reopened(d, g, log)[n][i] == g.past[n][i] && Safe(d, g, g.past[n][i].at)
  {
    var f := d.manifests[d.current];
    assert f.recs[..f.synced] == f.recs;
    if n >= Summarize(f.recs).log.value {
      assert LogMatches(d.logs[n], g.past[n], false);
    }
    assert IsAt(g.past, n, i, g.past[n][i].at);
  }

  /** All records of the one line are in the same place of the other. */
  ghost predicate Within(past': map<nat, seq<Record>>, past: map<nat, seq<Record>>) {
    forall n, i :: n in past' && 0 <= i < |past'[n]| ==> n in past && i < |past[n]| && past'[n][i] == past[n][i]
  }

  lemma OnlySafeLine(d: Disk, g: Ghost, log: nat)
    requires DownInv(d, g) && AllSynced(d)
    ensures Within(Reopened(d, g, log), g.past)
    ensures forall n: nat, i: nat, a: nat :: IsAt(Reopened(d, g, log), n, i, a) ==> Safe(d, g, a)
  {
    forall n, i | n in Reopened(d, g, log) && 0 <= i < |Reopened(d, g, log)[n]|
      ensures n in g.past && i < |g.past[n]| && Reopened(d, g, log)[n][i] == g.past[n][i]
    {
      OnlySafeRecords(d, g, log, n, i);
    }
    forall n: nat, i: nat, a: nat | IsAt(Reopened(d, g, log), n, i, a) ensures Safe(d, g, a) {
      OnlySafeRecords(d, g, log, n, i);
    }
  }

  lemma NewLogIs(d: Disk, g: Ghost, log: nat, a: State)
    requires Next(Down(d, g), Repairs(NewLog(log)), a)
    ensures a == Down(d.(logs := d.logs[log := Appended([], 0)]), g.(past := g.past[log := []]))
  {
  }

  lemma NewTableIs(a: State, n: nat, es: set<Entry>, b: State)
    requires a.Down? && Next(a, Repairs(WriteTable(n, es)), b)
    ensures b.Down? && b.g == a.g && b.disk.logs == a.disk.logs && b.disk.manifests == a.disk.manifests && b.disk.current == a.disk.current
  {
  }

  lemma OpenIs(b: State, r: Repair, c: State)
    requires b.Down? && r.Open? && Next(b, Repairs(r), c)
    ensures c.g.issued == b.g.issued
    ensures c.g.past == Surviving(b.g.past, b.disk.logs, Summarize(b.disk.manifests[b.disk.current].recs).log.value)
  {
  }

  lemma Prepend(st: State, ev: Event, run: seq<State>, evs: seq<Event>)
    requires Steps(run, evs) && Next(st, ev, run[0])
    ensures Steps([st] + run, [ev] + evs)
  {
    var run', evs' := [st] + run, [ev] + evs;
    forall i | 0 <= i < |evs'| ensures StepAt(run', evs', i) {
      if i > 0 {
        assert StepAt(run, evs, i - 1);
        assert run'[i] == run[i - 1] && run'[i + 1] == run[i] && evs'[i] == evs[i - 1];
      }
    }
  }

  lemma Chain(st: State, ev: Event, a: State, ev': Event, b: State, ev'': Event, c: State, short: bool)
    returns (run: seq<State>, evs: seq<Event>)
    requires Next(st, ev, a) && Next(b, ev'', c) && if short then b == a else Next(a, ev', b)
    ensures Steps(run, evs) && run[0] == st && run[|evs|] == c
    ensures forall i :: 0 <= i < |evs| ==> evs[i] in {ev, ev', ev''}
  {
    Prepend(b, ev'', [c], []);
    run, evs := [b] + [c], [ev''] + [];
    if !short {
      Prepend(a, ev', run, evs);
      run, evs := [a] + run, [ev'] + evs;
    }
    Prepend(st, ev, run, evs);
    run, evs := [st] + run, [ev] + evs;
  }

  /** The database can be opened right after the crash, with that line. */
  lemma CanReopen(d: Disk, g: Ghost) returns (run: seq<State>, evs: seq<Event>, log: nat)
    requires DownInv(d, g)
    ensures Steps(run, evs) && run[0] == Down(d, g) && run[|evs|].Running?
    ensures forall i :: 0 <= i < |evs| ==> evs[i].Repairs?
    ensures run[|evs|].g.past == Reopened(d, g, log) && run[|evs|].g.issued == g.issued
  {
    var a, b, c, es;
    a, b, c, log, es := RecoveryCanFinish(d, g);
    var open := Repairs(Open(if es == {} then {} else {log + 1}, log, log + 2));
    run, evs := Chain(Down(d, g), Repairs(NewLog(log)), a, Repairs(WriteTable(log + 1, es)), b, open, c, es == {});
    ReopenedIs(d, g, log, es, a, b, open.repair, c);
  }

  lemma ReopenedIs(d: Disk, g: Ghost, log: nat, es: set<Entry>, a: State, b: State, r: Repair, c: State)
    requires DownInv(d, g) && Next(Down(d, g), Repairs(NewLog(log)), a)
    requires if es == {} then b == a else Next(a, Repairs(WriteTable(log + 1, es)), b)
    requires r.Open? && Next(b, Repairs(r), c)
    ensures c.g.past == Reopened(d, g, log) && c.g.issued == g.issued
  {
    NewLogIs(d, g, log, a);
    if es != {} { NewTableIs(a, log + 1, es, b); }
    OpenIs(b, r, c);
  }

  /** A crash after which only safe records are left. */
  lemma WorstReopening(st: State) returns (run: seq<State>, evs: seq<Event>)
    requires Inv(st) && FilesOk(st.disk)
    ensures Reopens(st, run, evs) && Within(run[|evs|].g.past, st.g.past) && run[|evs|].g.issued == st.g.issued
    ensures forall a :: OnLine(run[|evs|].g, a) ==> Safe(st.disk, st.g, a)
  {
    CanStrip(st);
    var run', evs', log := CanReopen(Stripped(st.disk), st.g);
    run, evs := [st] + run', [Crash] + evs';
    CrashFirst(st, run', evs');
    OnlySafeLeft(st.disk, st.g, log, run'[|evs'|].g);
  }

  lemma CanStrip(st: State)
    requires Inv(st) && FilesOk(st.disk)
    ensures Next(st, Crash, Down(Stripped(st.disk), st.g)) && DownInv(Stripped(st.disk), st.g) && AllSynced(Stripped(st.disk))
  {
    WorstCrash(st.disk);
    NextKeepsInv(st, Crash, Down(Stripped(st.disk), st.g));
  }

  lemma CrashFirst(st: State, run: seq<State>, evs: seq<Event>)
    requires Steps(run, evs) && Next(st, Crash, run[0]) && run[|evs|].Running? && forall i :: 0 <= i < |evs| ==> evs[i].Repairs?
    ensures Reopens(st, [st] + run, [Crash] + evs) && ([st] + run)[|[Crash] + evs|] == run[|evs|]
  {
    Prepend(st, Crash, run, evs);
  }

  lemma OnlySafeLeft(d: Disk, g: Ghost, log: nat, g': Ghost)
    requires FilesOk(d) && DownInv(Stripped(d), g) && AllSynced(Stripped(d)) && g'.past == Reopened(Stripped(d), g, log)
    ensures Within(g'.past, g.past) && forall a :: OnLine(g', a) ==> Safe(d, g, a)
  {
    OnlySafeLine(Stripped(d), g, log);
    forall a | OnLine(g', a) ensures Safe(d, g, a) {
      var n: nat, i: nat :| IsAt(g'.past, n, i, a);
      StrippedIsNoSafer(d, g, a);
    }
  }

  /** A record of the line outlives every crash if and only if it is safe. */
  lemma SurvivesIffSafe(run: seq<State>, evs: seq<Event>, i: nat, a: nat)
    requires IsRun(run, evs) && i < |run|
    ensures Safe(run[i].disk, run[i].g, a) <==> forall run': seq<State>, evs': seq<Event> :: Reopens(run[i], run', evs') ==> OnLine(run'[|evs'|].g, a)
  {
    RunKeepsInv(run, evs, i);
    RunKeepsFiles(run, evs, i);
    var st := run[i];
    if Safe(st.disk, st.g, a) {
      forall run': seq<State>, evs': seq<Event> | Reopens(st, run', evs') ensures OnLine(run'[|evs'|].g, a) { SafeStays(st, run', evs', a); }
    } else {
      var run', evs' := WorstReopening(st);
    }
  }

  // ---------------------------------------------------------------- a record off the line is not read

  /** Entries of a record that is not on the line any more are not in the database. */
  lemma OffLineIsGone(st: State, past: map<nat, seq<Record>>, a: nat, e: Entry)
    requires st.Running? && Inv(st) && Within(st.g.past, past) && PastOk(past, st.g.issued) && !OnLine(st.g, a)
    requires a < |st.g.issued| && e in st.g.issued[a].entries && OnLine(Ghost(past, st.g.issued, {}), a)
    ensures e !in Data(st.disk, st.m)
  {
    if e in Data(st.disk, st.m) {
      ReadsTheLine(st.disk, st.m, st.g, e.key.user);
      var n, i := InBetween(st.g.past, 0, st.m.curLog + 1, e);
      var k: nat, j: nat :| IsAt(past, k, j, a);
      assert past[n][i] == st.g.past[n][i] && IsAt(st.g.past, n, i, past[n][i].at);
      assert LogOk(past[k], st.g.issued) && RecordOk(past[k][j], st.g.issued);
      InOrder(past, st.g.issued, n, i, k, j);
      InOrder(past, st.g.issued, k, j, n, i);
      assert false;
    }
  }

  // ---------------------------------------------------------------- within one log, the scheme works

  lemma StaysInLog(st: State, step: Step, st': State, i: nat, a: nat)
    requires Next(st, Does(step), st') && step != Switch && IsAt(st.g.past, st.m.curLog, i, a)
    ensures IsAt(st'.g.past, st'.m.curLog, i, a)
  {
  }

  lemma AppendPlaces(st: State, step: Step, st': State) returns (i: nat)
    requires step.Append? && Next(st, Does(step), st')
    ensures IsAt(st'.g.past, st'.m.curLog, i, step.r.at)
  {
    i := |st.g.past[st.m.curLog]|;
  }

  ghost predicate NoSwitch(evs: seq<Event>, p: nat, m: nat)
    requires m <= |evs|
  {
    forall j :: p < j < m ==> evs[j].Does? && evs[j] != Does(Switch)
  }

  lemma {:induction false} InLogAlong(run: seq<State>, evs: seq<Event>, p: nat, m: nat) returns (i: nat)
    requires IsRun(run, evs) && p < m <= |evs| && IsAppend(evs[p]) && NoSwitch(evs, p, m)
    ensures run[m].Running? && IsAt(run[m].g.past, run[m].m.curLog, i, evs[p].step.r.at)
  {
    assert StepAt(run, evs, m - 1);
    if m == p + 1 {
      i := AppendPlaces(run[p], evs[p].step, run[m]);
    } else {
      i := InLogAlong(run, evs, p, m - 1);
      StaysInLog(run[m - 1], evs[m - 1].step, run[m], i, evs[p].step.r.at);
    }
  }

  /** A log is not switched while a write is under way. */
  lemma NoSwitchInWrite(run: seq<State>, evs: seq<Event>, p: nat, q: nat, j: nat)
    requires IsRun(run, evs) && IsWrite(evs, p, q) && p <= j < q
    ensures evs[j].Does? && evs[j] != Does(Switch)
  {
    assert StepAt(run, evs, j);
    if j > p {
      StaysUnderWay(run, evs, p, j);
      MovesOn(run[j], evs[j], run[j + 1]);
    }
  }

  lemma MovesOn(st: State, ev: Event, st': State)
    requires st.Running? && !st.m.writer.Resting? && Next(st, ev, st') && !ev.Crash?
    ensures ev.Does? && ev != Does(Switch)
  {
  }

  /** When a sync write is answered, all of its log is synced. */
  lemma AckSyncs(st: State, st': State, r: Record, count: nat, i: nat, a: nat)
    requires Inv(st) && Next(st, Does(Ack), st') && WorksOn(st.m.writer, r, count, true) && IsAt(st.g.past, st.m.curLog, i, a)
    ensures st'.m.writer.Resting? && IsAt(st'.g.past, st'.m.curLog, i, a)
    ensures st'.m.curLog in st'.disk.logs && i < st'.disk.logs[st'.m.curLog].synced
  {
  }

  lemma SyncedHolds(st: State, n: nat, i: nat, a: nat)
    requires Inv(st) && st.Running? && st.m.writer.Resting? && IsAt(st.g.past, n, i, a) && n in st.disk.logs && i < st.disk.logs[n].synced
    ensures Holds(st, a)
  {
    var d, m, g := st.disk, st.m, st.g;
    var f := d.manifests[d.current];
    MarkedPoints(d, g, Summarize(f.recs[..Installed(m, f)]), Summarize(f.recs), true, a);
  }

  /** The write appended at `p`, and a sync write from p' to q' after it with the same log. */
  ghost predicate IsCovered(evs: seq<Event>, p: nat, p': nat, q': nat) {
    p <= p' && IsWrite(evs, p', q') && evs[p'].step.sync && IsAppend(evs[p]) && NoSwitch(evs, p, p')
  }

  /** A sync write covers every earlier write of the same log. */
  lemma SyncCovers(run: seq<State>, evs: seq<Event>, p: nat, p': nat, q': nat)
    requires IsRun(run, evs) && IsCovered(evs, p, p', q')
    ensures Holds(run[q' + 1], evs[p].step.r.at)
  {
    forall j | p < j < q' ensures evs[j].Does? && evs[j] != Does(Switch) {
      if j >= p' { NoSwitchInWrite(run, evs, p', q', j); }
    }
    var i := InLogAlong(run, evs, p, q');
    StaysUnderWay(run, evs, p', q');
    RunKeepsInv(run, evs, q');
    RunKeepsInv(run, evs, q' + 1);
    assert StepAt(run, evs, q');
    AckSyncs(run[q'], run[q' + 1], evs[p'].step.r, evs[p'].step.count, i, evs[p].step.r.at);
    SyncedHolds(run[q' + 1], run[q' + 1].m.curLog, i, evs[p].step.r.at);
  }

  /** What is held is read, or something written later. */
  lemma HeldIsRead(st: State, a: nat, e: Entry) returns (b: nat, x: Entry)
    requires st.Running? && Holds(st, a) && a < |st.g.issued| && e in st.g.issued[a].entries
    ensures AsNew(st.g.issued, a, e, b, x) && Current(st, e.key.user) == AnswerOf(x)
  {
    b, x := AckedIsRead(st.disk, st.m, Marked(st.g, a), a, e);
  }

  lemma IssuedIs(run: seq<State>, evs: seq<Event>, p: nat, k: nat)
    requires IsRun(run, evs) && p < k < |run| && IsAppend(evs[p])
    ensures evs[p].step.r.at < |run[k].g.issued| && run[k].g.issued[evs[p].step.r.at] == evs[p].step.r
  {
    assert StepAt(run, evs, p);
    AppendLabels(run[p], evs[p].step, run[p + 1]);
    IssuedGrows(run[p], evs[p], run[p + 1]);
    IssuedGrowsAlong(run, evs, p + 1, k);
  }

  lemma HeldIsReadLater(run: seq<State>, evs: seq<Event>, p: nat, k: nat, e: Entry) returns (s: nat, x: Entry)
    requires IsRun(run, evs) && p < k < |run| && IsAppend(evs[p]) && run[k].Running? && Holds(run[k], evs[p].step.r.at)
    requires e in evs[p].step.r.entries
    ensures p <= s < k && IsAppend(evs[s]) && x in evs[s].step.r.entries && x.key.user == e.key.user
    ensures s == p ==> x.key.sn >= e.key.sn
    ensures Current(run[k], e.key.user) == AnswerOf(x)
  {
    IssuedIs(run, evs, p, k);
    var b;
    b, x := HeldIsRead(run[k], evs[p].step.r.at, e);
    s := IssuedByAppend(run, evs, k, b);
    LabelsInOrder(run, evs, p, s);
  }

  /** After the answer to a sync write, every write appended before it to the same log, sync or not, is
      read in every later state in which the database is open, however many crashes there were, unless a
      write appended later to the same key is. */
  lemma EarlierWritesSurvive(run: seq<State>, evs: seq<Event>, p: nat, p': nat, q': nat, k: nat, e: Entry) returns (s: nat, x: Entry)
    requires IsRun(run, evs) && IsCovered(evs, p, p', q') && e in evs[p].step.r.entries && q' < k < |run| && run[k].Running?
    ensures p <= s < k && IsAppend(evs[s]) && x in evs[s].step.r.entries && x.key.user == e.key.user
    ensures s == p ==> x.key.sn >= e.key.sn
    ensures Current(run[k], e.key.user) == AnswerOf(x)
  {
    SyncCovers(run, evs, p, p', q');
    StaysHeld(run, evs, q' + 1, k, evs[p].step.r.at);
    s, x := HeldIsReadLater(run, evs, p, k, e);
  }

  /** Once the memtable of a log is flushed and installed, so that its log number is past, its records
      are safe as well. */
  lemma FlushedIsSafe(run: seq<State>, evs: seq<Event>, k: nat, n: nat, i: nat, a: nat)
    requires IsRun(run, evs) && k < |run| && run[k].Running? && IsAt(run[k].g.past, n, i, a) && n < run[k].m.logNumber
    ensures Safe(run[k].disk, run[k].g, a)
  {
    RunKeepsInv(run, evs, k);
    var f := run[k].disk.manifests[run[k].disk.current];
    assert f.recs[..|f.recs|] == f.recs;
    assert f.synced == Installed(run[k].m, f) || f.synced == |f.recs|;
    assert n < Summarize(f.recs[..f.synced]).log.value;
  }

  // ---------------------------------------------------------------- across logs, it does not

  function RecordOf(st: State, e: Entry): Record {
    Record(|st.g.issued|, {e})
  }

  /** After a write of one entry, up to its answer. */
  function Written(st: State, e: Entry, sync: bool): State
    requires st.Running? && st.m.curLog in st.disk.logs && st.m.curLog in st.g.past
  {
    var d, m, g, n, r := st.disk, st.m, st.g, st.m.curLog, RecordOf(st, e);
    var f := AppendTo(d.logs[n], r);
    Running(d.(logs := d.logs[n := if sync then SyncAll(f) else f]), m.(mem := m.mem + {e}, lastSequence := m.lastSequence + 1),
            Ghost(g.past[n := g.past[n] + [r]], g.issued + [r], if sync then g.acked + {r.at} else g.acked))
  }

  function WriteEvents(st: State, e: Entry, sync: bool): seq<Event> {
    [Does(Append(RecordOf(st, e), 1, sync))] + (if sync then [Does(SyncLog)] else []) + [Does(Apply), Does(Ack)]
  }

  lemma CanWrite(st: State, e: Entry, sync: bool) returns (run: seq<State>)
    requires IsOpen(st) && st.m.writer.Resting? && e.key.sn == st.m.lastSequence + 1
    ensures Steps(run, WriteEvents(st, e, sync)) && run[0] == st && run[|run| - 1] == Written(st, e, sync)
  {
    var r := RecordOf(st, e);
    var a := CanAppend(st, r, 1, sync);
    var b := a;
    if sync { b := CanSync(a); }
    var c := CanApply(b);
    var z := CanAck(c);
    WrittenIs(st, e, sync, a, b, c, z);
    Prepend(c, Does(Ack), [z], []);
    Prepend(b, Does(Apply), [c] + [z], [Does(Ack)] + []);
    run := [b] + ([c] + [z]);
    var evs := [Does(Apply)] + ([Does(Ack)] + []);
    if sync {
      Prepend(a, Does(SyncLog), run, evs);
      run, evs := [a] + run, [Does(SyncLog)] + evs;
    }
    Prepend(st, Does(Append(r, 1, sync)), run, evs);
    run, evs := [st] + run, [Does(Append(r, 1, sync))] + evs;
    assert evs == WriteEvents(st, e, sync);
  }

  lemma WrittenIs(st: State, e: Entry, sync: bool, a: State, b: State, c: State, z: State)
    requires IsOpen(st) && st.m.writer.Resting? && Next(st, Does(Append(RecordOf(st, e), 1, sync)), a)
    requires if sync then Next(a, Does(SyncLog), b) else b == a
    requires Next(b, Does(Apply), c) && Next(c, Does(Ack), z)
    ensures z == Written(st, e, sync)
  {
  }

  function Switched(st: State): State
    requires st.Running?
  {
    var d, m, g := st.disk, st.m, st.g;
    Running(d.(logs := d.logs[m.nextFile := Appended([], 0)]),
            m.(curLog := m.nextFile, nextFile := m.nextFile + 1, imm := Some(m.mem), mem := {}),
            g.(past := g.past[m.nextFile := []]))
  }

  lemma CanSwitch(st: State)
    requires IsOpen(st) && st.m.writer.Resting? && st.m.imm.None?
    ensures Next(st, Does(Switch), Switched(st)) && IsOpen(Switched(st))
  {
  }

  /** A write, a switch of the log, and a sync write that is answered. */
  ghost function SyncedTooLate(st: State, e: Entry, e': Entry): State
    requires IsOpen(st) && st.m.writer.Resting? && st.m.imm.None?
  {
    CanSwitch(Written(st, e, false));
    Written(Switched(Written(st, e, false)), e', true)
  }

  /** The synced part of the manifest still needs the current log. */
  lemma CurrentLogIsNeeded(st: State)
    requires Inv(st) && st.Running?
    ensures var f := st.disk.manifests[st.disk.current];
            f.synced <= |f.recs| && var log := Summarize(f.recs[..f.synced]).log; log.Some? && log.value <= st.m.curLog
  {
    var f := st.disk.manifests[st.disk.current];
    assert f.recs[..|f.recs|] == f.recs;
    assert f.synced == Installed(st.m, f) || f.synced == |f.recs|;
  }

  /** No two places of a line have the same label. */
  lemma LabelsDiffer(past: map<nat, seq<Record>>, issued: seq<Record>, n: nat, i: nat, k: nat, j: nat, a: nat)
    requires PastOk(past, issued) && IsAt(past, n, i, a) && IsAt(past, k, j, a)
    ensures n == k && i == j
  {
    InOrder(past, issued, n, i, k, j);
    InOrder(past, issued, k, j, n, i);
  }

  lemma TooLateIsAt(st: State, e: Entry, e': Entry)
    requires IsOpen(st) && st.m.writer.Resting? && st.m.imm.None? && st.m.curLog < st.m.nextFile
    ensures var z, n := SyncedTooLate(st, e, e'), st.m.curLog;
            && z.Running? && IsAt(z.g.past, n, |st.g.past[n]|, |st.g.issued|)
            && n in z.disk.logs && z.disk.logs[n].synced == st.disk.logs[n].synced
            && z.disk.manifests == st.disk.manifests && z.disk.current == st.disk.current
            && z.g.issued == st.g.issued + [RecordOf(st, e), Record(|st.g.issued| + 1, {e'})]
  {
  }

  lemma NotKept(past: map<nat, seq<Record>>, issued: seq<Record>, logs: map<nat, Appended<Record>>, log: nat, n: nat, i: nat, a: nat)
    requires PastOk(past, issued) && IsAt(past, n, i, a) && n >= log && n in logs && logs[n].synced <= i
    ensures !Kept(past, logs, log, a)
  {
    forall k: nat, j: nat | IsAt(past, k, j, a) ensures k == n && j == i { LabelsDiffer(past, issued, n, i, k, j, a); }
  }

  /** The earlier write is not safe. */
  lemma EarlierIsNotSafe(st: State, e: Entry, e': Entry)
    requires Inv(st) && IsOpen(st) && FilesOk(st.disk) && st.m.writer.Resting? && st.m.imm.None?
    requires Inv(SyncedTooLate(st, e, e'))
    ensures var z := SyncedTooLate(st, e, e'); !Safe(z.disk, z.g, |st.g.issued|) && OnLine(z.g, |st.g.issued|)
  {
    var z, n, f := SyncedTooLate(st, e, e'), st.m.curLog, st.disk.manifests[st.disk.current];
    CurrentLogIsNeeded(st);
    CurrentLogIsExact(st);
    TooLateIsAt(st, e, e');
    PastHolds(z);
    NotKept(z.g.past, z.g.issued, z.disk.logs, Summarize(f.recs[..f.synced]).log.value, n, |st.g.past[n]|, |st.g.issued|);
  }

  lemma PastHolds(st: State)
    requires Inv(st) && st.Running?
    ensures PastOk(st.g.past, st.g.issued)
  {
  }

  lemma CurrentLogIsExact(st: State)
    requires Inv(st) && st.Running?
    ensures st.m.curLog < st.m.nextFile && st.disk.logs[st.m.curLog].recs == st.g.past[st.m.curLog]
  {
    assert LogMatches(st.disk.logs[st.m.curLog], st.g.past[st.m.curLog], true);
  }

  /** The sync write is. */
  lemma LaterIsSafe(st: State, e: Entry, e': Entry)
    requires Inv(st) && IsOpen(st) && st.m.writer.Resting? && st.m.imm.None?
    ensures var z := SyncedTooLate(st, e, e'); Safe(z.disk, z.g, |st.g.issued| + 1)
  {
    CurrentLogIsNeeded(st);
    CurrentLogIsExact(st);
    TooLateIsAt(st, e, e');
    var z := SyncedTooLate(st, e, e');
    assert IsAt(z.g.past, z.m.curLog, 0, |st.g.issued| + 1) && z.disk.logs[z.m.curLog].synced == 1;
  }

  lemma Join(run: seq<State>, evs: seq<Event>, run': seq<State>, evs': seq<Event>)
    requires Steps(run, evs) && Steps(run', evs') && run[|evs|] == run'[0]
    ensures Steps(run[..|evs|] + run', evs + evs')
  {
    var all, events := run[..|evs|] + run', evs + evs';
    forall i | 0 <= i < |events| ensures StepAt(all, events, i) {
      if i < |evs| {
        assert StepAt(run, evs, i);
        assert all[i] == run[i] && all[i + 1] == run[i + 1] && events[i] == evs[i];
      } else {
        assert StepAt(run', evs', i - |evs|);
        assert all[i] == run'[i - |evs|] && all[i + 1] == run'[i - |evs| + 1] && events[i] == evs'[i - |evs|];
      }
    }
  }

  function TooLateEvents(n: nat, e: Entry, e': Entry): seq<Event> {
    [Does(Append(Record(n, {e}), 1, false)), Does(Apply), Does(Ack), Does(Switch),
     Does(Append(Record(n + 1, {e'}), 1, true)), Does(SyncLog), Does(Apply), Does(Ack)]
  }

  lemma CanSyncTooLate(st: State, e: Entry, e': Entry) returns (run: seq<State>)
    requires IsOpen(st) && st.m.writer.Resting? && st.m.imm.None?
    requires e.key.sn == st.m.lastSequence + 1 && e'.key.sn == st.m.lastSequence + 2
    ensures Steps(run, TooLateEvents(|st.g.issued|, e, e')) && run[0] == st && run[|run| - 1] == SyncedTooLate(st, e, e')
  {
    var a := Written(st, e, false);
    var b := Switched(a);
    var evs, evs' := WriteEvents(st, e, false), WriteEvents(b, e', true);
    var first := CanWrite(st, e, false);
    CanSwitch(a);
    var second := CanWrite(b, e', true);
    Prepend(a, Does(Switch), second, evs');
    Join(first, evs, [a] + second, [Does(Switch)] + evs');
    run := first[..|evs|] + ([a] + second);
    assert TooLateEvents(|st.g.issued|, e, e') == evs + ([Does(Switch)] + evs');
  }

  lemma StaysGood(run: seq<State>, evs: seq<Event>, k: nat)
    requires Steps(run, evs) && k < |run| && Inv(run[0]) && FilesOk(run[0].disk)
    ensures Inv(run[k]) && FilesOk(run[k].disk)
  {
    forall st, ev, st' | Inv(st) && Next(st, ev, st') ensures Inv(st') { NextKeepsInv(st, ev, st'); }
    forall st: State, ev, st': State | FilesOk(st.disk) && Next(st, ev, st') ensures FilesOk(st'.disk) { NextKeepsFiles(st, ev, st'); }
    Along(run, evs, 0, k, st => Inv(st));
    Along(run, evs, 0, k, (st: State) => FilesOk(st.disk));
  }

  /** From every state in which the log can be switched, whatever the entries: a write, a switch and a
      sync write, both answered, and a crash that takes the first and not the second. */
  lemma SyncDoesNotCover(run: seq<State>, evs: seq<Event>, i: nat, e: Entry, e': Entry)
    returns (run': seq<State>, run'': seq<State>, evs'': seq<Event>)
    requires IsRun(run, evs) && i < |run| && run[i].Running? && run[i].m.writer.Resting? && run[i].m.imm.None?
    requires e.key.sn == run[i].m.lastSequence + 1 && e'.key.sn == run[i].m.lastSequence + 2
    ensures Steps(run', TooLateEvents(|run[i].g.issued|, e, e')) && run'[0] == run[i]
    ensures Reopens(run'[|run'| - 1], run'', evs'')
    ensures e !in Data(run''[|evs''|].disk, run''[|evs''|].m) && Current(run''[|evs''|], e'.key.user) == AnswerOf(e')
  {
    var st := run[i];
    RunKeepsInv(run, evs, i);
    RunKeepsFiles(run, evs, i);
    run' := CanSyncTooLate(st, e, e');
    StaysGood(run', TooLateEvents(|st.g.issued|, e, e'), |run'| - 1);
    var z := run'[|run'| - 1];
    run'', evs'' := WorstReopening(z);
    StaysGood(run'', evs'', |evs''|);
    FirstIsGone(st, e, e', run''[|evs''|]);
    SecondIsRead(st, e, e', run'', evs'');
  }

  lemma FirstIsGone(st: State, e: Entry, e': Entry, last: State)
    requires Inv(st) && FilesOk(st.disk) && IsOpen(st) && st.m.writer.Resting? && st.m.imm.None? && Inv(SyncedTooLate(st, e, e'))
    requires var z := SyncedTooLate(st, e, e');
             last.Running? && Inv(last) && Within(last.g.past, z.g.past) && last.g.issued == z.g.issued
             && forall a :: OnLine(last.g, a) ==> Safe(z.disk, z.g, a)
    ensures e !in Data(last.disk, last.m)
  {
    var z := SyncedTooLate(st, e, e');
    EarlierIsNotSafe(st, e, e');
    CurrentLogIsExact(st);
    TooLateIsAt(st, e, e');
    PastHolds(z);
    OffLineIsGone(last, z.g.past, |st.g.issued|, e);
  }

  lemma SecondIsRead(st: State, e: Entry, e': Entry, run: seq<State>, evs: seq<Event>)
    requires Inv(st) && IsOpen(st) && st.m.writer.Resting? && st.m.imm.None? && Inv(SyncedTooLate(st, e, e'))
    requires Reopens(SyncedTooLate(st, e, e'), run, evs) && run[|evs|].g.issued == SyncedTooLate(st, e, e').g.issued
    ensures Current(run[|evs|], e'.key.user) == AnswerOf(e')
  {
    var a := |st.g.issued| + 1;
    LaterIsSafe(st, e, e');
    CurrentLogIsExact(st);
    TooLateIsAt(st, e, e');
    assert StepAt(run, evs, 0);
    CrashHolds(run[0], run[1], a);
    StaysHeld(run, evs, 1, |evs|, a);
    var b, x := HeldIsRead(run[|evs|], a, e');
  }

  /** There are such states: a new database, once opened. */
  lemma CanBegin() returns (run: seq<State>, evs: seq<Event>)
    ensures IsRun(run, evs) && run[|evs|].Running? && run[|evs|].m.writer.Resting? && run[|evs|].m.imm.None?
  {
    var st := Down(Disk(map[], map[], map[1 := Appended([Edit({}, {}, Some(0), Some(2), Some(0))], 1)], 1), Ghost(map[], [], {}));
    InitInv(st);
    var log;
    run, evs, log := CanReopen(st.disk, st.g);
    assert StepAt(run, evs, |evs| - 1);
    OpensRested(run[|evs| - 1], evs[|evs| - 1].repair, run[|evs|]);
  }

  lemma OpensRested(st: State, r: Repair, st': State)
    requires Next(st, Repairs(r), st') && st'.Running?
    ensures st'.m.writer.Resting? && st'.m.imm.None?
  {
  }
}
