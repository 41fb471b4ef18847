/** The whole engine as a state machine: writes, memtable switches, flushes, automatic and manual
    compactions with anything in between, trivial moves, snapshots, and crashes with recovery.
    Every run keeps the level invariants, and every read at a live snapshot returns what the
    bare history of writes would. */
module Lsm {
  import opened Keys
  import opened Lookup
  import opened Files
  import opened Versions
  import opened Picker
  import opened Install

  datatype State = State(
    v: Version,
    mem: set<Entry>,
    imm: set<Entry>,
    lastSequence: nat,
    logged: nat,          // last_sequence in the manifest
    snapshots: multiset<nat>,
    nextFile: nat,
    nextLogged: nat,      // next_file_number in the manifest
    used: seq<set<nat>>,  // the numbers of the tables each level has ever had
    job: Option<Job>,
    floor: nat,           // the highest smallest_snapshot any compaction has used
    history: set<Entry>   // every entry written, but for those a crash has lost
  )

  ghost function Data(st: State): set<Entry> {
    st.mem + st.imm + AllEntries(st.v)
  }

  /** What has been flushed to tables so far. */
  ghost function Settled(st: State): set<Entry> {
    st.history - st.mem - st.imm
  }

  ghost predicate Init(st: State) {
    st == State([[], [], [], [], [], [], []], {}, {}, 0, 0, multiset{}, 2, 2, [{}, {}, {}, {}, {}, {}, {}], None, 0, {})
  }

  // ---------------------------------------------------------------- steps

  datatype Step =
    | Write(entries: set<Entry>, count: nat)
    | Switch
    | Flush(level: nat, f: File)
    | Start(level: nat, up: seq<File>, low: seq<File>)
    | Finish(outs: seq<File>)
    | Abandon
    | Move(level: nat, f: File)
    | GetSnapshot
    | ReleaseSnapshot(s: nat)
    | Reopen(tables: seq<File>, last: nat)

  /** DoCompactionWork's smallest_snapshot: the oldest live one, or the last sequence. */
  ghost predicate SmallestSnapshot(st: State, s: nat) {
    if st.snapshots == multiset{} then s == st.lastSequence
    else s in st.snapshots && forall x :: x in st.snapshots ==> s <= x
  }

  /** A table number no level has had, and none will be given again. */
  ghost predicate IsFresh(st: State, st': State, n: nat) {
    |st.used| == NUM_LEVELS && n < st'.nextFile && forall l :: 0 <= l < NUM_LEVELS ==> n !in st.used[l]
  }

  ghost function NumbersOf(fs: seq<File>): set<nat> {
    set f | f in fs :: f.number
  }

  ghost predicate DistinctNumbers(fs: seq<File>) {
    forall f, g :: f in fs && g in fs && f.number == g.number ==> f == g
  }

  /** Tables put on a level, and the manifest's record of it, which counts on from `next`. */
  ghost function Added(st: State, level: nat, fs: seq<File>, next: nat): State
    requires level < |st.used|
  {
    st.(used := st.used[level := st.used[level] + NumbersOf(fs)], logged := st.lastSequence, nextFile := next, nextLogged := next)
  }

  ghost predicate Installs(st: State, st': State, j: Job, outs: seq<File>) {
    && j.level + 1 < NUM_LEVELS == |st.used| && OutputsOk(j, outs) && Finished(st.v, st'.v, j, outs)
    && (forall o :: o in outs ==> IsFresh(st, st', o.number)) && DistinctNumbers(outs)
    && st'.nextFile >= st.nextFile
    && st' == Added(st, j.level + 1, outs, st'.nextFile).(v := st'.v, job := None,
                                                          floor := if j.snapshot > st.floor then j.snapshot else st.floor)
  }

  /** The tables RecoverLogFile writes: what is left of the logs, in order, all on level 0. Numbers the
      manifest does not know were given out are given out again. */
  ghost predicate Recovers(st: State, tables: seq<File>, last: nat, st': State) {
    && |st.used| == NUM_LEVELS && AllWellFormed(tables) && Contents(tables) <= st.mem + st.imm
    && (forall i, k :: 0 <= i < k < |tables| ==> tables[i].number < tables[k].number && FileNewer(tables[k], tables[i]))
    && (forall t :: t in tables ==> st.nextLogged <= t.number < st'.nextFile)
    && st.logged <= last <= st.lastSequence && (forall e :: e in Contents(tables) ==> e.key.sn <= last)
    && Edited(st.v[0], st'.v[0], [], tables)
    && (forall l :: 0 < l < NUM_LEVELS ==> st'.v[l] == st.v[l])
    && st'.nextFile >= st.nextLogged
    && st' == Added(st, 0, tables, st'.nextFile).(v := st'.v, mem := {}, imm := {}, lastSequence := last, logged := last,
                                                  snapshots := multiset{}, job := None, history := Settled(st) + Contents(tables))
  }

  /** The steps of the code. */
  ghost predicate Moves(st: State, step: Step, st': State) {
    match step
    case Write(es, n) =>
      // DBImpl::Write: consecutive new sequence numbers, one per entry
      && st.lastSequence + n < MAX_SEQ
      && (forall e :: e in es ==> st.lastSequence < e.key.sn <= st.lastSequence + n)
      && (forall a, b :: a in es && b in es && a.key.sn == b.key.sn ==> a == b)
      && st' == st.(mem := st.mem + es, lastSequence := st.lastSequence + n, history := st.history + es)
    case Switch =>
      // MakeRoomForWrite, which takes a number for the new log
      && st.imm == {} && st'.nextFile >= st.nextFile
      && st' == st.(mem := {}, imm := st.mem, nextFile := st'.nextFile)
    case Flush(level, f) =>
      // CompactMemTable, possibly in the middle of a compaction
      && |st.used| == NUM_LEVELS && st.nextFile <= f.number < st'.nextFile
      && WellFormed(f) && Elements(f.entries) == st.imm
      && level <= 2
      && (level > 0 ==> forall l, g :: 0 <= l <= level && g in st.v[l] ==> !Overlaps(g, RangeOf(f)))
      && Flushed(st.v, st'.v, level, f)
      && st' == Added(st, level, [f], st'.nextFile).(v := st'.v, imm := {})
    case Start(level, up, low) =>
      // PickCompaction or CompactRange, up to where DoCompactionWork lets go of the mutex
      && st.job.None? && Chosen(st.v, level, up, low)
      && exists s :: SmallestSnapshot(st, s) && st' == st.(job := Some(Job(level, up, low, s, st.v)))
    case Finish(outs) =>
      // InstallCompactionResults
      && st.job.Some? && Installs(st, st', st.job.value, outs)
    case Abandon =>
      st' == st.(job := None)
    case Move(level, f) =>
      // the trivial move in BackgroundCompaction
      && st.job.None? && Chosen(st.v, level, [f], []) && |st.used| == NUM_LEVELS
      && Finished(st.v, st'.v, Job(level, [f], [], 0, st.v), [f])
      && st' == Added(st, level + 1, [f], st.nextFile).(v := st'.v)
    case GetSnapshot =>
      st' == st.(snapshots := st.snapshots + multiset{st.lastSequence})
    case ReleaseSnapshot(s) =>
      s in st.snapshots && st' == st.(snapshots := st.snapshots - multiset{s})
    case Reopen(tables, last) =>
      // a crash, and DB::Open on what it left
      Recovers(st, tables, last, st')
  }

  /** Only a manual compaction, whose inputs may have a gap, can find something in the way of its
      outputs when it is done. */
  ghost predicate Fits(st: State, step: Step) {
    step.Finish? && st.job.Some? && st.job.value.level + 1 < NUM_LEVELS && !Gapless(st.job.value) ==>
      OutputsFit(st.v, st.job.value, step.outs)
  }

  ghost predicate Next(st: State, step: Step, st': State) {
    Moves(st, step, st') && Fits(st, step)
  }

  // ---------------------------------------------------------------- the invariant

  /** The tables answer as everything that went into them would. */
  ghost predicate ReadsAgree(st: State) {
    forall u: UserKey, s: nat :: st.floor <= s ==> Read(AllEntries(st.v), u, s) == Read(Settled(st), u, s)
  }

  /** Newer data sits above older data: memtable, immutable memtable, tables. */
  ghost predicate Layered(st: State) {
    && AllNewer(st.mem, st.imm + Settled(st)) && AllNewer(st.imm, Settled(st))
    && st.mem + st.imm <= st.history && AllEntries(st.v) <= Settled(st) && UniqueSeq(st.history)
  }

  ghost predicate Bounded(st: State) {
    && (forall e :: e in st.history ==> e.key.sn <= st.lastSequence)
    && (forall e :: e in Settled(st) ==> e.key.sn <= st.logged)
    && st.floor <= st.logged <= st.lastSequence < MAX_SEQ
    && forall x :: x in st.snapshots ==> st.floor <= x <= st.lastSequence
  }

  ghost predicate JobInv(st: State) {
    st.job.Some? ==>
      var j := st.job.value;
      && JobOk(st.v, j) && (Gapless(j) ==> JobAside(st.v, j))
      && j.snapshot <= st.lastSequence && forall x :: x in st.snapshots ==> j.snapshot <= x
  }

  /** Numbers are given out once, and a table only ever moves down. */
  ghost predicate NumbersOk(v: Version, used: seq<set<nat>>, next: nat) {
    && |used| == NUM_LEVELS
    && (forall l, n :: 0 <= l < NUM_LEVELS && n in used[l] ==> n < next)
    && (forall l, f :: 0 <= l < NUM_LEVELS && f in v[l] ==> f.number in used[l])
    && (forall l, m, f :: 0 <= l < m < NUM_LEVELS && f in v[l] ==> f.number !in used[m])
    && forall l :: 0 <= l < NUM_LEVELS ==> DistinctNumbers(v[l])
  }

  ghost predicate Numbered(st: State) {
    NumbersOk(st.v, st.used, st.nextLogged) && st.nextLogged <= st.nextFile
  }

  ghost predicate Core(st: State) {
    Good(st.v) && Layered(st) && Bounded(st) && JobInv(st) && ReadsAgree(st)
  }

  /** Every level is in the order the builder keeps it in. */
  ghost predicate Ordered(v: Version) {
    forall l :: 0 <= l < NUM_LEVELS ==> InOrder(v[l])
  }

  ghost predicate Inv(st: State) {
    Core(st) && Numbered(st) && Ordered(st.v)
  }

  lemma InitInv(st: State)
    requires Init(st)
    ensures Inv(st)
  {
    assert forall l :: 0 <= l < NUM_LEVELS ==> st.v[l] == [] && st.used[l] == {};
    assert AllEntries(st.v) == {};
  }

  /** Memtables on top of the tables answer as the history does. */
  lemma DataReads(st: State, u: UserKey, s: nat)
    requires Core(st) && st.floor <= s
    ensures Read(Data(st), u, s) == Read(st.history, u, s)
  {
    assert Settled(st) + st.imm + st.mem == st.history;
    TwoLayers(AllEntries(st.v), Settled(st), st.imm, st.mem, u, s);
    assert AllEntries(st.v) + st.imm + st.mem == Data(st);
  }

  lemma TwoLayers(tables: set<Entry>, settled: set<Entry>, imm: set<Entry>, mem: set<Entry>, u: UserKey, s: nat)
    requires tables <= settled && UniqueSeq(settled + imm + mem) && AllNewer(imm, settled) && AllNewer(mem, imm + settled)
    requires Read(tables, u, s) == Read(settled, u, s)
    ensures Read(tables + imm + mem, u, s) == Read(settled + imm + mem, u, s)
  {
    NewerLayerReads(tables, settled, imm, u, s);
    NewerLayerReads(tables + imm, settled + imm, mem, u, s);
  }

  lemma WriteKeeps(st: State, step: Step, st': State)
    requires Core(st) && step.Write? && Next(st, step, st')
    ensures Core(st')
  {
    assert Settled(st') == Settled(st);
  }

  lemma SwitchKeeps(st: State, step: Step, st': State)
    requires Core(st) && step.Switch? && Next(st, step, st')
    ensures Core(st')
  {
    assert Settled(st') == Settled(st);
  }

  lemma ImmIsFlushable(st: State, level: nat, f: File)
    requires Layered(st) && Numbered(st)
    requires st.nextFile <= f.number && WellFormed(f) && Elements(f.entries) == st.imm && level <= 2
    requires level > 0 ==> forall l, g :: 0 <= l <= level && g in st.v[l] ==> !Overlaps(g, RangeOf(f))
    ensures FlushOk(st.v, level, f)
  {
    forall l, g | 0 <= l < NUM_LEVELS && g in st.v[l] ensures FileNewer(f, g) && g.number < f.number {
      assert g.number in st.used[l];
      forall x, y | x in f.entries && y in g.entries ensures x.key.sn > y.key.sn {
        assert x in st.imm && y in AllEntries(st.v);
      }
    }
  }

  lemma FlushKeeps(st: State, step: Step, st': State)
    requires Inv(st) && step.Flush? && Next(st, step, st')
    ensures Core(st')
  {
    var level, f := step.level, step.f;
    ImmIsFlushable(st, level, f);
    FlushKeepsGood(st.v, st'.v, level, f);
    FlushKeepsJobInv(st, step, st');
    FlushedEntries(st.v, st'.v, level, f);
    assert Settled(st') == Settled(st) + st.imm;
    SettlingKeepsReads(st, st.imm, st');
  }

  lemma FlushKeepsJobInv(st: State, step: Step, st': State)
    requires Inv(st) && step.Flush? && Next(st, step, st') && FlushOk(st.v, step.level, step.f)
    ensures JobInv(st')
  {
    if st.job.Some? {
      var level, f, j := step.level, step.f, st.job.value;
      FlushKeepsJob(st.v, st'.v, level, f, j);
      if Gapless(j) { GapFreeFlushKeepsAside(st.v, st'.v, level, f, j); }
    }
  }

  /** Newer entries going into tables. */
  lemma SettlingKeepsReads(st: State, es: set<Entry>, st': State)
    requires Core(st) && es <= st.mem + st.imm && st'.floor == st.floor
    requires Settled(st') == Settled(st) + es && AllEntries(st'.v) == AllEntries(st.v) + es
    ensures ReadsAgree(st')
  {
    forall u: UserKey, s: nat | st.floor <= s ensures Read(AllEntries(st'.v), u, s) == Read(Settled(st'), u, s) {
      assert Settled(st) + es <= st.history;
      NewerLayerReads(AllEntries(st.v), Settled(st), es, u, s);
    }
  }

  lemma FlushedEntries(v: Version, v': Version, level: nat, f: File)
    requires level < NUM_LEVELS && Flushed(v, v', level, f)
    ensures AllEntries(v') == AllEntries(v) + Elements(f.entries)
  {
    forall e | e in AllEntries(v') ensures e in AllEntries(v) + Elements(f.entries) {
      var l, g :| 0 <= l < NUM_LEVELS && g in v'[l] && e in g.entries;
      assert g in v[l] || g == f;
    }
    forall e | e in AllEntries(v) ensures e in AllEntries(v') {
      var l, g :| 0 <= l < NUM_LEVELS && g in v[l] && e in g.entries;
      assert g in v'[l];
    }
    assert f in v'[level];
  }

  /** The outputs of any compaction that finishes fit. */
  lemma FinishFits(st: State, outs: seq<File>, st': State)
    requires Core(st) && Next(st, Finish(outs), st')
    ensures OutputsFit(st.v, st.job.value, outs)
  {
    var j := st.job.value;
    if Gapless(j) { AsideFits(st.v, j, outs); }
  }

  lemma FinishDropsOnly(v: Version, v': Version, j: Job, outs: seq<File>)
    requires Good(v) && JobOk(v, j) && OutputsOk(j, outs) && Finished(v, v', j, outs)
    ensures AllEntries(v') <= AllEntries(v)
  {
    SplitBefore(v, j);
    SplitAfter(v, v', j, outs);
  }

  lemma FinishKeeps(st: State, outs: seq<File>, st': State)
    requires Core(st) && Next(st, Finish(outs), st')
    ensures Core(st')
  {
    var j := st.job.value;
    FinishFits(st, outs, st');
    FinishKeepsGood(st.v, st'.v, j, outs);
    FinishDropsOnly(st.v, st'.v, j, outs);
    assert Settled(st') == Settled(st);
    FinishKeepsReads(st, j, outs, st');
  }

  lemma FinishKeepsReads(st: State, j: Job, outs: seq<File>, st': State)
    requires Core(st) && Installs(st, st', j, outs) && JobOk(st.v, j)
    ensures ReadsAgree(st')
  {
    forall u: UserKey, s: nat | st'.floor <= s ensures Read(AllEntries(st'.v), u, s) == Read(Settled(st'), u, s) {
      FinishPreservesReads(st.v, st'.v, j, outs, {}, u, s);
      assert {} + AllEntries(st'.v) == AllEntries(st'.v) && {} + AllEntries(st.v) == AllEntries(st.v);
      assert Settled(st') == Settled(st);
    }
  }

  lemma SmallestSnapshotBounds(st: State, s: nat)
    requires Core(st) && SmallestSnapshot(st, s)
    ensures s <= st.lastSequence && forall x :: x in st.snapshots ==> s <= x
  {
  }

  lemma StartKeeps(st: State, step: Step, st': State)
    requires Core(st) && step.Start? && Next(st, step, st')
    ensures Core(st')
  {
    var s :| SmallestSnapshot(st, s) && st' == st.(job := Some(Job(step.level, step.up, step.low, s, st.v)));
    SmallestSnapshotBounds(st, s);
    ChosenIsOk(st.v, step.level, step.up, step.low, s);
    assert Settled(st') == Settled(st);
  }

  lemma MoveKeeps(st: State, step: Step, st': State)
    requires Core(st) && step.Move? && Next(st, step, st')
    ensures Core(st')
  {
    MoveKeepsGood(st.v, st'.v, step.level, step.f);
    assert Settled(st') == Settled(st);
  }

  lemma ReopenKeeps(st: State, tables: seq<File>, last: nat, st': State)
    requires Inv(st) && Recovers(st, tables, last, st')
    ensures Core(st')
  {
    forall t, l, g | t in tables && 0 <= l < NUM_LEVELS && g in st.v[l] ensures FileNewer(t, g) && g.number < t.number {
      assert g.number in st.used[l];
      forall x, y | x in t.entries && y in g.entries ensures x.key.sn > y.key.sn {
        assert x in Contents(tables) && y in AllEntries(st.v);
      }
    }
    RecoveryKeepsGood(st.v, st'.v, tables);
    assert Settled(st') == Settled(st) + Contents(tables);
    SettlingKeepsReads(st, Contents(tables), st');
  }

  // ---------------------------------------------------------------- file numbers

  /** New tables on one level, beside or instead of old ones. */
  lemma AddingKeepsNumbers(st: State, st': State, level: nat, fs: seq<File>)
    requires Numbered(st) && st.nextLogged <= st'.nextLogged == st'.nextFile && level < NUM_LEVELS && DistinctNumbers(fs)
    requires forall f :: f in fs ==> IsFresh(st, st', f.number)
    requires st'.used == st.used[level := st.used[level] + NumbersOf(fs)]
    requires forall l, f :: 0 <= l < NUM_LEVELS && f in st'.v[l] ==> f in st.v[l] || (l == level && f in fs)
    ensures Numbered(st')
  {
    forall l, f | 0 <= l < NUM_LEVELS && f in st'.v[l]
      ensures f.number in st'.used[l] && forall m :: l < m < NUM_LEVELS ==> f.number !in st'.used[m]
    {
      assert f in st.v[l] || (l == level && f in fs);
    }
    forall l | 0 <= l < NUM_LEVELS ensures DistinctNumbers(st'.v[l]) {
      forall f, g | f in st'.v[l] && g in st'.v[l] && f.number == g.number ensures f == g {
        assert (f in st.v[l] || f in fs) && (g in st.v[l] || g in fs);
        assert f in st.v[l] ==> f.number in st.used[l];
        assert g in st.v[l] ==> g.number in st.used[l];
      }
    }
  }

  /** What a trivial move makes of a version and of the numbers it has used. */
  ghost predicate MovesDown(v: Version, v': Version, used: seq<set<nat>>, used': seq<set<nat>>, level: nat, f: File) {
    && level + 1 < NUM_LEVELS == |used| && f in v[level] && Finished(v, v', Job(level, [f], [], 0, v), [f])
    && used' == used[level + 1 := used[level + 1] + {f.number}]
  }

  lemma WasThere(v: Version, v': Version, used: seq<set<nat>>, used': seq<set<nat>>, level: nat, f: File, l: nat, g: File)
    requires MovesDown(v, v', used, used', level, f) && l < NUM_LEVELS && g in v'[l]
    ensures (g in v[l] && !(l == level && g == f)) || (l == level + 1 && g == f)
  {
    assert f in [f];
  }

  lemma MovedNumber(v: Version, v': Version, used: seq<set<nat>>, used': seq<set<nat>>, next: nat, level: nat, f: File, l: nat, g: File)
    requires NumbersOk(v, used, next) && MovesDown(v, v', used, used', level, f) && l < NUM_LEVELS && g in v'[l]
    ensures g.number in used'[l] && forall m :: l < m < NUM_LEVELS ==> g.number !in used'[m]
  {
    WasThere(v, v', used, used', level, f, l, g);
    if l < level { assert g.number !in used[level] && f.number in used[level]; }
  }

  lemma MovedDistinct(v: Version, v': Version, used: seq<set<nat>>, used': seq<set<nat>>, next: nat, level: nat, f: File, l: nat)
    requires NumbersOk(v, used, next) && MovesDown(v, v', used, used', level, f) && l < NUM_LEVELS
    ensures DistinctNumbers(v'[l])
  {
    forall g, h | g in v'[l] && h in v'[l] && g.number == h.number ensures g == h {
      WasThere(v, v', used, used', level, f, l, g);
      WasThere(v, v', used, used', level, f, l, h);
      assert f.number !in used[level + 1];
    }
  }

  lemma MovingKeepsNumbers(st: State, st': State, level: nat, f: File)
    requires Numbered(st) && Next(st, Move(level, f), st')
    ensures Numbered(st')
  {
    assert f in [f] && f in st.v[level] && NumbersOf([f]) == {f.number};
    forall l, g | 0 <= l < NUM_LEVELS && g in st'.v[l]
      ensures g.number in st'.used[l] && forall m :: l < m < NUM_LEVELS ==> g.number !in st'.used[m]
    {
      MovedNumber(st.v, st'.v, st.used, st'.used, st.nextLogged, level, f, l, g);
    }
    forall l | 0 <= l < NUM_LEVELS ensures DistinctNumbers(st'.v[l]) {
      MovedDistinct(st.v, st'.v, st.used, st'.used, st.nextLogged, level, f, l);
    }
  }

  lemma RecoveredNumbers(tables: seq<File>)
    requires forall i, k :: 0 <= i < k < |tables| ==> tables[i].number < tables[k].number
    ensures DistinctNumbers(tables)
  {
  }

  lemma NextKeepsNumbers(st: State, step: Step, st': State)
    requires Numbered(st) && Next(st, step, st')
    ensures Numbered(st')
  {
    match step
    case Flush(level, f) =>
      FlushKeepsNumbers(st, st', level, f);
    case Finish(outs) =>
      FinishKeepsNumbers(st, st', st.job.value, outs);
    case Move(level, f) =>
      MovingKeepsNumbers(st, st', level, f);
    case Reopen(tables, last) =>
      ReopenKeepsNumbers(st, st', tables, last);
    case _ =>
  }

  lemma FlushKeepsNumbers(st: State, st': State, level: nat, f: File)
    requires Numbered(st) && Next(st, Flush(level, f), st')
    ensures Numbered(st')
  {
    assert f in [f];
    AddingKeepsNumbers(st, st', level, [f]);
  }

  lemma FinishKeepsNumbers(st: State, st': State, j: Job, outs: seq<File>)
    requires Numbered(st) && Installs(st, st', j, outs)
    ensures Numbered(st')
  {
    AddingKeepsNumbers(st, st', j.level + 1, outs);
  }

  lemma ReopenKeepsNumbers(st: State, st': State, tables: seq<File>, last: nat)
    requires Numbered(st) && Recovers(st, tables, last, st')
    ensures Numbered(st')
  {
    RecoveredNumbers(tables);
    AddingKeepsNumbers(st, st', 0, tables);
  }

  lemma FlushKeepsOrder(v: Version, v': Version, level: nat, f: File)
    requires Ordered(v) && level < NUM_LEVELS && Flushed(v, v', level, f)
    ensures Ordered(v')
  {
  }

  lemma FinishKeepsOrder(v: Version, v': Version, j: Job, outs: seq<File>)
    requires Ordered(v) && j.level + 1 < NUM_LEVELS && Finished(v, v', j, outs)
    ensures Ordered(v')
  {
  }

  lemma NextKeepsOrder(st: State, step: Step, st': State)
    requires Ordered(st.v) && Next(st, step, st')
    ensures Ordered(st'.v)
  {
    match step
    case Flush(level, f) => FlushKeepsOrder(st.v, st'.v, level, f);
    case Finish(outs) => FinishKeepsOrder(st.v, st'.v, st.job.value, outs);
    case Move(level, f) => FinishKeepsOrder(st.v, st'.v, Job(level, [f], [], 0, st.v), [f]);
    case Reopen(tables, last) => assert Edited(st.v[0], st'.v[0], [], tables);
    case _ => assert st'.v == st.v;
  }

  /** Every step keeps the invariant. */
  lemma NextKeepsInv(st: State, step: Step, st': State)
    requires Inv(st) && Next(st, step, st')
    ensures Inv(st')
  {
    NextKeepsNumbers(st, step, st');
    NextKeepsOrder(st, step, st');
    match step
    case Write(_, _) => WriteKeeps(st, step, st');
    case Switch => SwitchKeeps(st, step, st');
    case Flush(_, _) => FlushKeeps(st, step, st');
    case Start(_, _, _) => StartKeeps(st, step, st');
    case Finish(outs) => FinishKeeps(st, outs, st');
    case Move(_, _) => MoveKeeps(st, step, st');
    case Reopen(tables, last) => ReopenKeeps(st, tables, last, st');
    case _ => assert Settled(st') == Settled(st);
  }

  // ---------------------------------------------------------------- runs

  /** A run: each state follows from the one before. */
  ghost predicate IsRun(run: seq<State>, steps: seq<Step>) {
    |run| == |steps| + 1 && Init(run[0]) && forall i :: 0 <= i < |steps| ==> StepAt(run, steps, i)
  }

  ghost predicate StepAt(run: seq<State>, steps: seq<Step>, i: int)
    requires 0 <= i < |steps| < |run|
  {
    Next(run[i], steps[i], run[i + 1])
  }

  lemma {:induction false} RunKeepsInv(run: seq<State>, steps: seq<Step>, i: nat)
    requires IsRun(run, steps) && i < |run|
    ensures Inv(run[i])
  {
    if i == 0 {
      InitInv(run[0]);
    } else {
      RunKeepsInv(run, steps, i - 1);
      assert StepAt(run, steps, i - 1);
      NextKeepsInv(run[i - 1], steps[i - 1], run[i]);
    }
  }

  /** In every reachable state, a read at a live snapshot, or at the last sequence, is the
      read of the whole write history; and every level keeps its invariant. */
  lemma ReadsRefineHistory(run: seq<State>, steps: seq<Step>, i: nat, u: UserKey, s: nat)
    requires IsRun(run, steps) && i < |run|
    requires s == run[i].lastSequence || s in run[i].snapshots
    ensures Good(run[i].v)
    ensures Read(Data(run[i]), u, s) == Read(run[i].history, u, s)
  {
    RunKeepsInv(run, steps, i);
    DataReads(run[i], u, s);
  }

  // ---------------------------------------------------------------- what a write does to a read

  /** What a read without a snapshot returns. */
  ghost function Current(st: State, u: UserKey): Answer {
    Read(Data(st), u, st.lastSequence)
  }

  lemma DataIsBounded(st: State)
    requires Core(st)
    ensures UniqueSeq(Data(st)) && forall x :: x in Data(st) ==> x.key.sn <= st.lastSequence
  {
    assert Data(st) <= st.history;
  }

  lemma CanWrite(st: State, es: set<Entry>, n: nat) returns (st': State)
    requires st.lastSequence + n < MAX_SEQ && (forall e :: e in es ==> st.lastSequence < e.key.sn <= st.lastSequence + n)
    requires forall a, b :: a in es && b in es && a.key.sn == b.key.sn ==> a == b
    ensures Next(st, Write(es, n), st')
  {
    st' := st.(mem := st.mem + es, lastSequence := st.lastSequence + n, history := st.history + es);
  }

  /** After a write, the newest of the written entries for a key answers for it, be it a value or a
      deletion; the answers for all other keys stay. */
  lemma WriteIsRead(run: seq<State>, steps: seq<Step>, i: nat, u: UserKey)
    requires IsRun(run, steps) && i < |steps| && steps[i].Write?
    ensures forall e :: Newest(steps[i].entries, u, e) ==> Current(run[i + 1], u) == AnswerOf(e)
    ensures (forall e :: e in steps[i].entries ==> e.key.user != u) ==> Current(run[i + 1], u) == Current(run[i], u)
  {
    var st, st', es := run[i], run[i + 1], steps[i].entries;
    RunKeepsInv(run, steps, i);
    RunKeepsInv(run, steps, i + 1);
    assert StepAt(run, steps, i);
    DataIsBounded(st);
    DataIsBounded(st');
    assert Data(st') == Data(st) + es;
    WriteOver(Data(st), es, u, st.lastSequence, st'.lastSequence);
  }

  /** Nothing but a write or a crash changes what is read. */
  lemma OthersKeepReads(run: seq<State>, steps: seq<Step>, i: nat, u: UserKey)
    requires IsRun(run, steps) && i < |steps| && !steps[i].Write? && !steps[i].Reopen?
    ensures Current(run[i + 1], u) == Current(run[i], u)
  {
    assert StepAt(run, steps, i);
    ReadsRefineHistory(run, steps, i, u, run[i].lastSequence);
    ReadsRefineHistory(run, steps, i + 1, u, run[i + 1].lastSequence);
  }

  lemma LayersHold(run: seq<State>, steps: seq<Step>, i: nat)
    requires IsRun(run, steps) && i < |run|
    ensures Layered(run[i]) && Bounded(run[i])
  {
    RunKeepsInv(run, steps, i);
  }

  /** A crash loses nothing of a key whose entries recovery finds in the logs; tables are never lost. */
  lemma RecoveryKeepsReads(run: seq<State>, steps: seq<Step>, i: nat, u: UserKey)
    requires IsRun(run, steps) && i < |steps| && steps[i].Reopen?
    requires forall e :: e in run[i].mem + run[i].imm && e.key.user == u ==> e in Contents(steps[i].tables)
    ensures Current(run[i + 1], u) == Current(run[i], u)
  {
    var st, st' := run[i], run[i + 1];
    LayersHold(run, steps, i);
    LayersHold(run, steps, i + 1);
    ReadsRefineHistory(run, steps, i, u, st.lastSequence);
    ReadsRefineHistory(run, steps, i + 1, u, st'.lastSequence);
    assert StepAt(run, steps, i);
    RecoveredHistory(st, steps[i].tables, steps[i].last, st', u);
  }

  lemma RecoveredHistory(st: State, tables: seq<File>, last: nat, st': State, u: UserKey)
    requires Layered(st) && Bounded(st) && Layered(st') && Recovers(st, tables, last, st')
    requires forall e :: e in st.mem + st.imm && e.key.user == u ==> e in Contents(tables)
    ensures Read(st'.history, u, st'.lastSequence) == Read(st.history, u, st.lastSequence)
  {
    ReadOwn(st.history, st'.history, u, st.lastSequence);
    ReadAbove(st'.history, u, last, st.lastSequence);
  }

  /** The steps from `i` to `k` do not write `u`. */
  ghost predicate LeavesAlone(steps: seq<Step>, i: nat, k: nat, u: UserKey)
    requires k <= |steps|
  {
    forall m, e :: i <= m < k && steps[m].Write? && e in steps[m].entries ==> e.key.user != u
  }

  lemma {:induction false} UnwrittenIsKept(run: seq<State>, steps: seq<Step>, i: nat, k: nat, u: UserKey)
    requires IsRun(run, steps) && i <= k < |run| && StaysUp(steps, i, k) && LeavesAlone(steps, i, k, u)
    ensures Current(run[k], u) == Current(run[i], u)
  {
    if i < k {
      UnwrittenIsKept(run, steps, i, k - 1, u);
      if steps[k - 1].Write? {
        WriteIsRead(run, steps, k - 1, u);
      } else {
        OthersKeepReads(run, steps, k - 1, u);
      }
    }
  }

  /** The law of the store: a read returns the last write of its key, whatever the engine did since. */
  lemma LastWriteIsRead(run: seq<State>, steps: seq<Step>, i: nat, k: nat, u: UserKey, e: Entry)
    requires IsRun(run, steps) && i < k < |run| && steps[i].Write? && Newest(steps[i].entries, u, e)
    requires StaysUp(steps, i, k) && LeavesAlone(steps, i + 1, k, u)
    ensures Current(run[k], u) == AnswerOf(e)
  {
    WriteIsRead(run, steps, i, u);
    UnwrittenIsKept(run, steps, i + 1, k, u);
  }

  /** And a key nobody wrote is not found. */
  lemma NeverWrittenIsNotFound(run: seq<State>, steps: seq<Step>, k: nat, u: UserKey)
    requires IsRun(run, steps) && k < |run| && StaysUp(steps, 0, k) && LeavesAlone(steps, 0, k, u)
    ensures Current(run[k], u) == NotFound
  {
    UnwrittenIsKept(run, steps, 0, k, u);
    assert AllEntries(run[0].v) == {};
  }

  /** A snapshot, as long as it is live, reads what was current when it was taken. */
  lemma SnapshotReadsItsMoment(run: seq<State>, steps: seq<Step>, i: nat, k: nat, u: UserKey)
    requires IsRun(run, steps) && i < k < |run| && steps[i].GetSnapshot? && StaysUp(steps, i, k)
    requires run[i].lastSequence in run[k].snapshots
    ensures Read(Data(run[k]), u, run[i].lastSequence) == Current(run[i], u)
  {
    HistoryIsStable(run, steps, i, k, u, run[i].lastSequence);
    ReadsRefineHistory(run, steps, i, u, run[i].lastSequence);
    ReadsRefineHistory(run, steps, k, u, run[i].lastSequence);
  }

  /** No crash between two states of a run. */
  ghost predicate StaysUp(steps: seq<Step>, i: nat, k: nat)
    requires k <= |steps|
  {
    forall m :: i <= m < k ==> !steps[m].Reopen?
  }

  lemma HistoryStep(st: State, step: Step, st': State, u: UserKey, s: nat)
    requires Next(st, step, st') && !step.Reopen? && UniqueSeq(st'.history) && s <= st.lastSequence
    ensures Read(st'.history, u, s) == Read(st.history, u, s) && s <= st'.lastSequence
    ensures st.history <= st'.history && forall e :: e in st'.history && e !in st.history ==> e.key.sn > st.lastSequence
  {
    if step.Write? { OldReadsStay(st.history, step.entries, u, s); }
  }

  lemma UniqueHistory(run: seq<State>, steps: seq<Step>, k: nat)
    requires IsRun(run, steps) && k < |run|
    ensures UniqueSeq(run[k].history)
  {
    RunKeepsInv(run, steps, k);
  }

  lemma {:induction false} HistoryIsStable(run: seq<State>, steps: seq<Step>, i: nat, k: nat, u: UserKey, s: nat)
    requires IsRun(run, steps) && i <= k < |run| && s <= run[i].lastSequence && StaysUp(steps, i, k)
    ensures Read(run[k].history, u, s) == Read(run[i].history, u, s)
    ensures run[i].lastSequence <= run[k].lastSequence
  {
    if i < k {
      HistoryIsStable(run, steps, i, k - 1, u, s);
      UniqueHistory(run, steps, k);
      assert StepAt(run, steps, k - 1);
      HistoryStep(run[k - 1], steps[k - 1], run[k], u, s);
    }
  }

  /** While a snapshot is live, nothing that happens changes what is read through it. */
  lemma SnapshotsAreStable(run: seq<State>, steps: seq<Step>, i: nat, k: nat, u: UserKey, s: nat)
    requires IsRun(run, steps) && i <= k < |run| && StaysUp(steps, i, k)
    requires s in run[i].snapshots && s in run[k].snapshots
    ensures Read(Data(run[k]), u, s) == Read(Data(run[i]), u, s)
  {
    RunKeepsInv(run, steps, i);
    HistoryIsStable(run, steps, i, k, u, s);
    ReadsRefineHistory(run, steps, i, u, s);
    ReadsRefineHistory(run, steps, k, u, s);
  }

  // ---------------------------------------------------------------- reading without the mutex

  /** A memtable that has grown since it was pinned: later writes may be in it, whole or in part. */
  ghost predicate Grown(st: State, later: State, mem: set<Entry>) {
    st.mem <= mem && mem - st.mem <= later.history && forall e :: e in mem - st.mem ==> e.key.sn > st.lastSequence
  }

  lemma {:induction false} HistoryGrows(run: seq<State>, steps: seq<Step>, i: nat, k: nat)
    requires IsRun(run, steps) && i <= k < |run| && StaysUp(steps, i, k)
    ensures run[i].history <= run[k].history
  {
    if i < k {
      HistoryGrows(run, steps, i, k - 1);
      UniqueHistory(run, steps, k);
      assert StepAt(run, steps, k - 1);
      HistoryStep(run[k - 1], steps[k - 1], run[k], 0.0, 0);
    }
  }

  /** What a reader pinned reads as the history did at its sequence number, in every later state. */
  lemma PinnedReads(run: seq<State>, steps: seq<Step>, i: nat, k: nat, mem: set<Entry>, u: UserKey, s: nat)
    requires IsRun(run, steps) && i <= k < |run| && StaysUp(steps, i, k)
    requires s == run[i].lastSequence || s in run[i].snapshots
    requires Grown(run[i], run[k], mem)
    ensures Read(mem + run[i].imm + AllEntries(run[i].v), u, s) == Read(run[i].history, u, s) == Read(run[k].history, u, s)
  {
    var st := run[i];
    RunKeepsInv(run, steps, i);
    UniqueHistory(run, steps, k);
    HistoryGrows(run, steps, i, k);
    var later := mem - st.mem;
    assert Data(st) + later <= run[k].history;
    OldReadsStay(Data(st), later, u, s);
    assert Data(st) + later == mem + st.imm + AllEntries(st.v);
    ReadsRefineHistory(run, steps, i, u, s);
    HistoryIsStable(run, steps, i, k, u, s);
  }

  /** DBImpl::Get: memtables and version are pinned under the mutex and searched without it, while
      writes, flushes and compactions go on. The answer is the history's at the sequence number taken. */
  method Get(ghost run: seq<State>, ghost steps: seq<Step>, ghost i: nat, ghost k: nat,
             mem: seq<Entry>, imm: seq<Entry>, v: Version, u: UserKey, s: nat)
    returns (r: Answer)
    requires IsRun(run, steps) && i <= k < |run| && StaysUp(steps, i, k)
    requires s == run[i].lastSequence || s in run[i].snapshots
    requires Sorted(mem) && Sorted(imm) && Grown(run[i], run[k], Elements(mem)) && Elements(imm) == run[i].imm && v == run[i].v
    ensures r == Read(run[i].history, u, s) == Read(run[k].history, u, s) == Read(Data(run[i]), u, s)
  {
    RunKeepsInv(run, steps, i);
    ReadsRefineHistory(run, steps, i, u, s);
    PinnedIsLayered(run[i], run[k], Elements(mem));
    r := DbGet(mem, imm, v, u, s);
    PinnedReads(run, steps, i, k, Elements(mem), u, s);
  }

  lemma PinnedIsLayered(st: State, later: State, mem: set<Entry>)
    requires Core(st) && Grown(st, later, mem)
    ensures NewerThan(mem, st.imm + AllEntries(st.v)) && NewerThan(st.imm, AllEntries(st.v))
  {
    forall x, y | x in mem && y in st.imm + AllEntries(st.v) ensures x.key.sn > y.key.sn {
      assert y in st.history;
    }
  }

  // ---------------------------------------------------------------- exactly when a manual compaction is safe

  /** In every reachable state, installing a compaction keeps the levels sorted exactly when no output
      has entries on both sides of a file that stays on its level. */
  lemma InstallIsGoodIff(run: seq<State>, steps: seq<Step>, i: nat, outs: seq<File>, st': State)
    requires IsRun(run, steps) && i < |run| && Moves(run[i], Finish(outs), st')
    ensures var st, j := run[i], run[i].job.value;
            Good(st'.v) <==> forall o, g :: o in outs && g in st.v[j.level + 1] && g !in j.low ==> !Straddles(o, g)
    ensures Gapless(run[i].job.value) ==> Good(st'.v)
  {
    RunKeepsInv(run, steps, i);
    var st, j := run[i], run[i].job.value;
    FinishIsGoodIff(st.v, st'.v, j, outs);
    FitsUnlessStraddling(st.v, j, outs);
    if Gapless(j) { AsideFits(st.v, j, outs); }
  }
}
