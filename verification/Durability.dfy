/** Writing, flushing, compacting, collecting garbage, crashing and recovering, as one state
    machine over the files on disk and the memory of the running database.

    A file keeps its synced part and any prefix of the rest when the machine crashes. Logs and
    manifests are sequences of whole records, which is what LogFormat shows a cut log reads
    back as; a table is its set of entries, all there once it is synced. */
module Durability {
  import opened Keys
  import opened Lookup
  import opened Files

  // ---------------------------------------------------------------- disk

  /** One log record: a group of writes, labelled by its place among all records issued. */
  datatype Record = Record(at: nat, entries: set<Entry>)

  /** The part of a version edit that matters here: which tables it drops and adds, and the
      three counters, which a snapshot record leaves out. */
  datatype Edit = Edit(del: set<nat>, add: set<nat>, log: Option<nat>, next: Option<nat>, last: Option<nat>)

  datatype Appended<T> = Appended(recs: seq<T>, synced: nat)

  datatype Table = Table(entries: set<Entry>, synced: bool)

  datatype Disk = Disk(
    logs: map<nat, Appended<Record>>,
    tables: map<nat, Table>,
    manifests: map<nat, Appended<Edit>>,
    current: nat)

  /** What replaying a manifest yields. */
  datatype Summary = Summary(version: set<nat>, log: Option<nat>, next: Option<nat>, last: Option<nat>)

  function Or(a: Option<nat>, b: Option<nat>): Option<nat> {
    if a.Some? then a else b
  }

  function Summarize(es: seq<Edit>): Summary {
    if es == [] then Summary({}, None, None, None)
    else
      var s, e := Summarize(es[..|es| - 1]), es[|es| - 1];
      Summary(s.version - e.del + e.add, Or(e.log, s.log), Or(e.next, s.next), Or(e.last, s.last))
  }

  predicate Complete(s: Summary) {
    s.log.Some? && s.next.Some? && s.last.Some?
  }

  // ---------------------------------------------------------------- memory

  datatype Writer =
    | Resting
    | Logged(r: Record, count: nat, sync: bool)
    | Synced(r: Record, count: nat)
    | Applied(r: Record, count: nat, sync: bool)

  datatype Flush = NoFlush | Building(n: nat) | Built(n: nat)

  datatype Compaction = Compaction(inputs: set<nat>, low: nat, open: Option<nat>, outs: set<nat>, installed: bool)

  datatype Doomed = Doomed(logs: set<nat>, tables: set<nat>, manifests: set<nat>)

  datatype Memory = Memory(
    version: set<nat>,
    held: multiset<set<nat>>,   // versions readers hold on to
    logNumber: nat,
    nextFile: nat,
    lastSequence: nat,
    curLog: nat,
    mem: set<Entry>,
    imm: Option<set<Entry>>,
    pending: set<nat>,
    writer: Writer,
    flush: Flush,
    comp: Option<Compaction>,
    commit: bool,               // an edit is in the manifest but not installed
    doomed: Doomed)

  /** What the proof remembers: the records of every log of the surviving line, every record
      ever issued, and which of those were acknowledged to a sync writer. */
  datatype Ghost = Ghost(past: map<nat, seq<Record>>, issued: seq<Record>, acked: set<nat>)

  datatype State =
    | Running(disk: Disk, m: Memory, g: Ghost)
    | Down(disk: Disk, g: Ghost)

  // ---------------------------------------------------------------- what is stored

  ghost function Content(rs: seq<Record>): set<Entry> {
    set i, e | 0 <= i < |rs| && e in rs[i].entries :: e
  }

  /** The entries logged in files numbered from `lo` up to but not including `hi`. */
  ghost function Between(past: map<nat, seq<Record>>, lo: nat, hi: nat): set<Entry> {
    set n, e | n in past && lo <= n < hi && e in Content(past[n]) :: e
  }

  ghost function Entries(tables: map<nat, Table>, v: set<nat>): set<Entry> {
    set n, e | n in v && n in tables && e in tables[n].entries :: e
  }

  ghost function ImmOf(m: Memory): set<Entry> {
    if m.imm.Some? then m.imm.value else {}
  }

  /** What a reader can see. */
  ghost function Data(d: Disk, m: Memory): set<Entry> {
    m.mem + ImmOf(m) + Entries(d.tables, m.version)
  }

  function Records(logs: map<nat, Appended<Record>>): map<nat, seq<Record>> {
    map n | n in logs :: logs[n].recs
  }

  // ---------------------------------------------------------------- steps of a running database

  datatype Step =
    | Append(r: Record, count: nat, sync: bool) | SyncLog | Apply | Ack
    | Switch
    | FlushStart | FlushBuild | FlushLog
    | CompactStart(inputs: set<nat>, low: nat) | CompactOpen | CompactClose(es: set<Entry>) | CompactLog | CompactCleanup
    | SyncManifest | Install
    | Hold | Release(v: set<nat>)
    | Collect | RemoveLog(n: nat) | RemoveTable(n: nat) | RemoveManifest(n: nat)

  function AppendTo<T>(f: Appended<T>, x: T): Appended<T> {
    f.(recs := f.recs + [x])
  }

  function SyncAll<T>(f: Appended<T>): Appended<T> {
    f.(synced := |f.recs|)
  }

  /** LogAndApply fills in the counters from the version set. */
  function EditFor(m: Memory, del: set<nat>, add: set<nat>, log: nat): Edit {
    Edit(del, add, Some(log), Some(m.nextFile), Some(m.lastSequence))
  }

  ghost predicate WriteStep(d: Disk, m: Memory, g: Ghost, step: Step, d': Disk, m': Memory, g': Ghost)
    requires m.curLog in d.logs && m.curLog in g.past
  {
    match step
    case Append(r, count, sync) =>
      // DBImpl::Write: one record, with sequence numbers after the last one
      && m.writer.Resting? && r.at == |g.issued|
      && (forall e :: e in r.entries ==> m.lastSequence < e.key.sn <= m.lastSequence + count)
      && (forall a, b :: a in r.entries && b in r.entries && a.key.sn == b.key.sn ==> a == b)
      && d' == d.(logs := d.logs[m.curLog := AppendTo(d.logs[m.curLog], r)])
      && m' == m.(writer := Logged(r, count, sync))
      && g' == g.(past := g.past[m.curLog := g.past[m.curLog] + [r]], issued := g.issued + [r])
    case SyncLog =>
      && m.writer.Logged? && m.writer.sync
      && d' == d.(logs := d.logs[m.curLog := SyncAll(d.logs[m.curLog])])
      && m' == m.(writer := Synced(m.writer.r, m.writer.count)) && g' == g
    case Apply =>
      && (m.writer.Synced? || (m.writer.Logged? && !m.writer.sync))
      && d' == d && g' == g
      && m' == m.(mem := m.mem + m.writer.r.entries, writer := Applied(m.writer.r, m.writer.count, m.writer.Synced?))
    case Ack =>
      && m.writer.Applied? && d' == d
      && m' == m.(lastSequence := m.lastSequence + m.writer.count, writer := Resting)
      && g' == if m.writer.sync then g.(acked := g.acked + {m.writer.r.at}) else g
    case Switch =>
      // MakeRoomForWrite, by the writer at the front of the queue; the old log is not synced
      && m.writer.Resting? && m.imm.None?
      && d' == d.(logs := d.logs[m.nextFile := Appended([], 0)])
      && m' == m.(curLog := m.nextFile, nextFile := m.nextFile + 1, imm := Some(m.mem), mem := {})
      && g' == g.(past := g.past[m.nextFile := []])
    case _ => false
  }

  /** Tables are made, and garbage is chosen, on one thread, which first finishes deleting. */
  predicate Unoccupied(m: Memory) {
    m.doomed == Doomed({}, {}, {})
  }

  ghost predicate TableStep(d: Disk, m: Memory, step: Step, d': Disk, m': Memory) {
    match step
    case FlushStart =>
      // WriteLevel0Table: a number, protected while the table is built
      && m.imm.Some? && m.flush.NoFlush? && !m.commit && Unoccupied(m)
      && d' == d.(tables := d.tables[m.nextFile := Table({}, false)])
      && m' == m.(flush := Building(m.nextFile), pending := m.pending + {m.nextFile}, nextFile := m.nextFile + 1)
    case FlushBuild =>
      // BuildTable and its sync; an empty table is removed again
      && m.flush.Building? && m.imm.Some?
      && d' == d.(tables := if m.imm.value == {} then d.tables - {m.flush.n}
                            else d.tables[m.flush.n := Table(m.imm.value, true)])
      && m' == m.(flush := Built(m.flush.n), pending := m.pending - {m.flush.n})
    case CompactStart(inputs, low) =>
      && m.comp.None? && m.flush.NoFlush? && !m.commit
      && inputs <= m.version && low <= m.lastSequence
      && d' == d && m' == m.(comp := Some(Compaction(inputs, low, None, {}, false)))
    case CompactOpen =>
      // OpenCompactionOutputFile
      && m.comp.Some? && !m.comp.value.installed && m.comp.value.open.None? && m.flush.NoFlush? && !m.commit && Unoccupied(m)
      && d' == d.(tables := d.tables[m.nextFile := Table({}, false)])
      && m' == m.(comp := Some(m.comp.value.(open := Some(m.nextFile))), pending := m.pending + {m.nextFile},
                  nextFile := m.nextFile + 1)
    case CompactClose(es) =>
      // FinishCompactionOutputFile
      && m.comp.Some? && m.comp.value.open.Some? && m.flush.NoFlush? && !m.commit
      && d' == d.(tables := d.tables[m.comp.value.open.value := Table(es, true)])
      && m' == m.(comp := Some(m.comp.value.(open := None, outs := m.comp.value.outs + {m.comp.value.open.value})))
    case CompactCleanup =>
      // CleanupCompaction, after the results are installed or the compaction is given up
      && m.comp.Some? && m.flush.NoFlush? && !m.commit && d' == d
      && m' == m.(comp := None, pending := m.pending - m.comp.value.outs
                  - (if m.comp.value.open.Some? then {m.comp.value.open.value} else {}))
    case Hold =>
      d' == d && m' == m.(held := m.held + multiset{m.version})
    case Release(v) =>
      v in m.held && d' == d && m' == m.(held := m.held - multiset{v})
    case _ => false
  }

  /** The outputs hold survivors the drop rules allow. */
  ghost predicate CompactionOk(tables: map<nat, Table>, v: set<nat>, c: Compaction) {
    ProperDrop(Entries(tables, v - c.inputs), Entries(tables, c.inputs), Entries(tables, c.outs), c.low)
  }

  ghost predicate CommitStep(d: Disk, m: Memory, step: Step, d': Disk, m': Memory)
    requires d.current in d.manifests
  {
    var f := d.manifests[d.current];
    match step
    case FlushLog =>
      // CompactMemTable: logs before the current one are no longer needed
      && m.flush.Built? && m.imm.Some? && !m.commit
      && d' == d.(manifests := d.manifests[d.current :=
                    AppendTo(f, EditFor(m, {}, if m.imm.value == {} then {} else {m.flush.n}, m.curLog))])
      && m' == m.(commit := true)
    case CompactLog =>
      // InstallCompactionResults, for survivors the drop rules allow
      && m.comp.Some? && !m.comp.value.installed && m.comp.value.open.None? && m.flush.NoFlush? && !m.commit
      && CompactionOk(d.tables, m.version, m.comp.value)
      && d' == d.(manifests := d.manifests[d.current :=
                    AppendTo(f, EditFor(m, m.comp.value.inputs, m.comp.value.outs, m.logNumber))])
      && m' == m.(commit := true)
    case SyncManifest =>
      m.commit && m' == m && d' == d.(manifests := d.manifests[d.current := SyncAll(f)])
    case Install =>
      // AppendVersion, once the manifest is synced
      && m.commit && f.synced == |f.recs| && d' == d
      && var s := Summarize(f.recs);
         s.log.Some? &&
         m' == if m.flush.Built?
               then m.(version := s.version, logNumber := s.log.value, commit := false, flush := NoFlush, imm := None)
               else m.(version := s.version, logNumber := s.log.value, commit := false,
                       comp := if m.comp.Some? then Some(m.comp.value.(installed := true)) else None)
    case _ => false
  }

  /** Tables a live version names. */
  ghost predicate LiveTable(m: Memory, n: nat) {
    n in m.version || exists v :: v in m.held && n in v
  }

  ghost predicate GcStep(d: Disk, m: Memory, step: Step, d': Disk, m': Memory) {
    match step
    case Collect =>
      // RemoveObsoleteFiles chooses under the mutex, on the background thread or in Open
      && m.flush.NoFlush? && !m.commit && Unoccupied(m) && d' == d
      && m'.doomed.logs == (set n | n in d.logs && n < m.logNumber)
      && m'.doomed.manifests == (set n | n in d.manifests && n < d.current)
      && m'.doomed.tables == (set n | n in d.tables && n !in m.pending && !LiveTable(m, n))
      && m' == m.(doomed := m'.doomed)
    case RemoveLog(n) =>
      // and deletes without it
      && n in m.doomed.logs && d' == d.(logs := d.logs - {n})
      && m' == m.(doomed := m.doomed.(logs := m.doomed.logs - {n}))
    case RemoveTable(n) =>
      && n in m.doomed.tables && d' == d.(tables := d.tables - {n})
      && m' == m.(doomed := m.doomed.(tables := m.doomed.tables - {n}))
    case RemoveManifest(n) =>
      && n in m.doomed.manifests && d' == d.(manifests := d.manifests - {n})
      && m' == m.(doomed := m.doomed.(manifests := m.doomed.manifests - {n}))
    case _ => false
  }

  // ---------------------------------------------------------------- crash and recovery

  ghost predicate IsCut<T>(f: Appended<T>, f': Appended<T>) {
    f'.recs <= f.recs && f'.synced == f.synced <= |f'.recs|
  }

  /** Each file keeps its synced part and some prefix of the rest. */
  ghost predicate CrashStep(d: Disk, d': Disk) {
    && d'.current == d.current
    && d'.logs.Keys == d.logs.Keys && (forall n :: n in d.logs ==> IsCut(d.logs[n], d'.logs[n]))
    && d'.manifests.Keys == d.manifests.Keys && (forall n :: n in d.manifests ==> IsCut(d.manifests[n], d'.manifests[n]))
    && forall n :: n in d.tables && d.tables[n].synced ==> n in d'.tables && d'.tables[n] == d.tables[n]
  }

  datatype Repair =
    | WriteTable(n: nat, es: set<Entry>)
    | NewLog(n: nat)
    | WriteManifest(n: nat, f: Appended<Edit>)
    | Open(tables: set<nat>, log: nat, nextFile: nat)

  /** The files an interrupted recovery may leave: tables and a manifest under numbers the
      recovered manifest has not given out, and an empty log. */
  ghost predicate RepairStep(d: Disk, g: Ghost, step: Repair, d': Disk, g': Ghost)
    requires d.current in d.manifests
  {
    var s := Summarize(d.manifests[d.current].recs);
    && Complete(s)
    && match step
       case WriteTable(n, es) =>
         n > s.next.value && d' == d.(tables := d.tables[n := Table(es, true)]) && g' == g
       case NewLog(n) =>
         && n > s.next.value && (forall k :: k in d.logs && k >= s.log.value ==> n > k)
         && d' == d.(logs := d.logs[n := Appended([], 0)]) && g' == g.(past := g.past[n := []])
       case WriteManifest(n, f) =>
         n == s.next.value && f.synced <= |f.recs| && d' == d.(manifests := d.manifests[n := f]) && g' == g
       case _ => false
  }

  ghost predicate IsLast(s: Summary, es: set<Entry>, last: nat) {
    && s.last.Some? && last >= s.last.value && (forall e :: e in es ==> e.key.sn <= last)
    && (last == s.last.value || exists e :: e in es && e.key.sn == last)
  }

  /** DB::Open: the logs the manifest still needs are now in tables, and a new manifest, synced
      before CURRENT names it, records that. */
  ghost predicate OpenStep(d: Disk, g: Ghost, step: Repair, d': Disk, m': Memory, g': Ghost)
    requires d.current in d.manifests && step.Open?
  {
    var s := Summarize(d.manifests[d.current].recs);
    && Complete(s)
    && (forall n :: n in s.version ==> n in d.tables)          // no missing files
    && var needed := Between(Records(d.logs), s.log.value, step.log);
    var m := s.next.value;
    && step.log in d.logs && d.logs[step.log] == Appended([], 0) && step.log > m
    && (forall k :: k in d.logs && k >= s.log.value && k != step.log ==> k < step.log)
    && (forall n :: n in step.tables ==> m < n && n in d.tables && d.tables[n].synced)
    && Entries(d.tables, step.tables) == needed
    && step.nextFile > step.log && (forall n :: n in step.tables ==> n < step.nextFile)
    && IsLast(s, needed, m'.lastSequence)
    && d'.current == m && d'.logs == d.logs && d'.tables == d.tables
    && d'.manifests == d.manifests[m :=
         Appended([Edit({}, s.version, None, None, None),
                   Edit({}, step.tables, Some(step.log), Some(step.nextFile), Some(m'.lastSequence))], 2)]
    && m' == Memory(s.version + step.tables, multiset{}, step.log, step.nextFile, m'.lastSequence, step.log, {}, None,
                    {}, Resting, NoFlush, None, false, Doomed({}, {}, {}))
    && g' == g.(past := Surviving(g.past, d.logs, s.log.value))
  }

  /** The line of records that goes on: those of logs the manifest no longer needs, and what is
      left of the others. */
  ghost function Surviving(past: map<nat, seq<Record>>, logs: map<nat, Appended<Record>>, log: nat): map<nat, seq<Record>> {
    map n | n in past.Keys + logs.Keys && (if n >= log then n in logs else n in past) ::
      if n >= log then logs[n].recs else past[n]
  }

  // ---------------------------------------------------------------- runs

  datatype Event = Does(step: Step) | Crash | Repairs(repair: Repair)

  ghost predicate Next(st: State, ev: Event, st': State) {
    match ev
    case Does(step) =>
      && st.Running? && st'.Running?
      && var d, m, g, d', m', g' := st.disk, st.m, st.g, st'.disk, st'.m, st'.g;
      && d.current in d.manifests && m.curLog in d.logs && m.curLog in g.past
      && (WriteStep(d, m, g, step, d', m', g')
          || (g' == g && (TableStep(d, m, step, d', m') || CommitStep(d, m, step, d', m') || GcStep(d, m, step, d', m'))))
    case Crash =>
      st'.Down? && CrashStep(st.disk, st'.disk) && st'.g == st.g
    case Repairs(r) =>
      && st.Down? && st.disk.current in st.disk.manifests
      && if r.Open? then st'.Running? && OpenStep(st.disk, st.g, r, st'.disk, st'.m, st'.g)
         else st'.Down? && RepairStep(st.disk, st.g, r, st'.disk, st'.g)
  }

  /** What NewDB leaves. */
  ghost predicate Init(st: State) {
    st == Down(Disk(map[], map[], map[1 := Appended([Edit({}, {}, Some(0), Some(2), Some(0))], 1)], 1),
               Ghost(map[], [], {}))
  }

  ghost predicate IsRun(run: seq<State>, evs: seq<Event>) {
    |run| == |evs| + 1 && Init(run[0]) && forall i :: 0 <= i < |evs| ==> StepAt(run, evs, i)
  }

  ghost predicate StepAt(run: seq<State>, evs: seq<Event>, i: int)
    requires 0 <= i < |evs| < |run|
  {
    Next(run[i], evs[i], run[i + 1])
  }

  // ---------------------------------------------------------------- the invariant

  ghost predicate ReadsAlike(a: set<Entry>, b: set<Entry>, low: nat) {
    forall u: UserKey, s: nat :: s >= low ==> Read(a, u, s) == Read(b, u, s)
  }

  ghost predicate UpTo(es: set<Entry>, last: nat) {
    forall e :: e in es ==> e.key.sn <= last
  }

  /** The tables of a version are there and stay there. */
  ghost predicate Stored(tables: map<nat, Table>, v: set<nat>, next: nat) {
    forall n :: n in v ==> n in tables && tables[n].synced && n < next
  }

  /** A point of the manifest recovery may find: its tables stand for all logs before its log
      number. */
  ghost predicate PointOk(tables: map<nat, Table>, past: map<nat, seq<Record>>, current: nat, s: Summary) {
    && Complete(s) && Stored(tables, s.version, s.next.value) && current < s.next.value && s.log.value < s.next.value
    && Stands(Entries(tables, s.version), Between(past, 0, s.log.value), s.last.value)
  }

  ghost predicate Stands(es: set<Entry>, h: set<Entry>, last: nat) {
    es <= h && UpTo(h, last) && ReadsAlike(es, h, last)
  }

  ghost predicate LogMatches(f: Appended<Record>, rs: seq<Record>, exact: bool) {
    f.recs <= rs && f.synced <= |f.recs| && (exact ==> f.recs == rs)
  }

  /** The log files from `log` on hold the records appended to them, or the beginning. */
  ghost predicate LogsMatch(logs: map<nat, Appended<Record>>, past: map<nat, seq<Record>>, log: nat, exact: bool) {
    forall n :: n >= log && (n in logs || n in past) ==> n in logs && n in past && LogMatches(logs[n], past[n], exact)
  }

  ghost predicate RecordBefore(r: Record, q: Record) {
    r.at < q.at && forall a, b :: a in r.entries && b in q.entries ==> a.key.sn < b.key.sn
  }

  ghost predicate LogBefore(rs: seq<Record>, qs: seq<Record>) {
    forall i, j :: 0 <= i < |rs| && 0 <= j < |qs| ==> RecordBefore(rs[i], qs[j])
  }

  ghost predicate RecordOk(r: Record, issued: seq<Record>) {
    && r.at < |issued| && issued[r.at] == r
    && forall a, b :: a in r.entries && b in r.entries && a.key.sn == b.key.sn ==> a == b
  }

  ghost predicate LogOk(rs: seq<Record>, issued: seq<Record>) {
    && (forall i :: 0 <= i < |rs| ==> RecordOk(rs[i], issued))
    && forall i, j :: 0 <= i < j < |rs| ==> RecordBefore(rs[i], rs[j])
  }

  /** Records, in the order of logs and of places in them, have growing labels and sequence
      numbers. */
  ghost predicate PastOk(past: map<nat, seq<Record>>, issued: seq<Record>) {
    && (forall n :: n in past ==> LogOk(past[n], issued))
    && forall n, k :: n in past && k in past && n < k ==> LogBefore(past[n], past[k])
  }

  ghost predicate IsAt(past: map<nat, seq<Record>>, n: nat, i: nat, a: nat) {
    n in past && i < |past[n]| && past[n][i].at == a
  }

  /** An acknowledged record is in the line, and out of reach of a crash. */
  ghost predicate Kept(past: map<nat, seq<Record>>, logs: map<nat, Appended<Record>>, log: nat, a: nat) {
    exists n: nat, i: nat :: IsAt(past, n, i, a) && (n >= log ==> n in logs && i < logs[n].synced)
  }

  ghost predicate AcksOk(g: Ghost, logs: map<nat, Appended<Record>>, log: nat) {
    forall a :: a in g.acked ==> Kept(g.past, logs, log, a)
  }

  /** Both points recovery may find: `base` without the edit being committed, `full` with it. */
  ghost predicate PointsOk(d: Disk, g: Ghost, base: Summary, full: Summary, exact: bool) {
    && PointOk(d.tables, g.past, d.current, base) && PointOk(d.tables, g.past, d.current, full)
    && base.log.value <= full.log.value && base.next.value <= full.next.value
    && LogsMatch(d.logs, g.past, base.log.value, exact)
    && PastOk(g.past, g.issued) && AcksOk(g, d.logs, base.log.value)
  }

  ghost predicate DownInv(d: Disk, g: Ghost) {
    && d.current in d.manifests
    && var f := d.manifests[d.current];
    && f.synced <= |f.recs| <= f.synced + 1
    && PointsOk(d, g, Summarize(f.recs[..f.synced]), Summarize(f.recs), false)
  }

  /** How much of the manifest is installed. */
  function Installed(m: Memory, f: Appended<Edit>): nat {
    if m.commit && |f.recs| > 0 then |f.recs| - 1 else |f.recs|
  }

  /** The records of the current log whose writes are in the memtable. */
  function AppliedPart(m: Memory, rs: seq<Record>): seq<Record> {
    if (m.writer.Logged? || m.writer.Synced?) && |rs| > 0 then rs[..|rs| - 1] else rs
  }

  /** The records whose sequence numbers are given out. */
  function AckedPart(m: Memory, rs: seq<Record>): seq<Record> {
    if !m.writer.Resting? && |rs| > 0 then rs[..|rs| - 1] else rs
  }

  ghost predicate WriterOk(m: Memory, f: Appended<Record>, rs: seq<Record>) {
    && m.mem == Content(AppliedPart(m, rs))
    && UpTo(Content(AckedPart(m, rs)), m.lastSequence)
    && (!m.writer.Resting? ==>
          && |rs| > 0 && rs[|rs| - 1] == m.writer.r
          && forall e :: e in m.writer.r.entries ==> m.lastSequence < e.key.sn <= m.lastSequence + m.writer.count)
    && (m.writer.Synced? || (m.writer.Applied? && m.writer.sync) ==> f.synced == |rs|)
  }

  ghost predicate LinesOk(m: Memory, past: map<nat, seq<Record>>) {
    && m.logNumber <= m.curLog < m.nextFile && (forall n :: n in past ==> n <= m.curLog)
    && ImmOf(m) == Between(past, m.logNumber, m.curLog)
    && UpTo(Between(past, 0, m.curLog), m.lastSequence)
  }

  /** Tables being made are on disk under numbers of their own. */
  ghost predicate MakingOk(d: Disk, m: Memory) {
    && (forall n :: n in m.pending ==> n in d.tables && n < m.nextFile)
    && (!m.flush.NoFlush? ==> m.imm.Some? && m.flush.n < m.nextFile && !LiveTable(m, m.flush.n) && Unoccupied(m))
    && (m.flush.Building? ==> m.flush.n in m.pending)
    && (m.flush.Built? && ImmOf(m) != {} ==> m.flush.n in d.tables && d.tables[m.flush.n] == Table(ImmOf(m), true))
    && (m.comp.Some? ==> CompOk(d, m, m.comp.value))
    && forall v :: v in m.held ==> Stored(d.tables, v, m.nextFile)
  }

  ghost predicate CompOk(d: Disk, m: Memory, c: Compaction) {
    && (c.open.Some? ==> c.open.value in m.pending && c.open.value !in c.outs && !LiveTable(m, c.open.value))
    && (!m.flush.NoFlush? ==> m.flush.n !in c.outs && c.open != Some(m.flush.n))
    && c.low <= m.lastSequence && (forall n :: n in c.outs ==> n < m.nextFile)
    && (!c.installed ==> c.outs <= m.pending && Stored(d.tables, c.outs, m.nextFile) && c.inputs <= m.version)
  }

  /** Nothing chosen for deletion is needed. */
  ghost predicate DoomedOk(d: Disk, m: Memory, full: Summary) {
    && (forall n :: n in m.doomed.tables ==> n !in m.pending && !LiveTable(m, n) && n !in full.version)
    && (forall n :: n in m.doomed.logs ==> n < m.logNumber)
    && forall n :: n in m.doomed.manifests ==> n < d.current
  }

  /** The edit in flight is a flush's or a compaction's. */
  ghost predicate CommitOk(m: Memory, base: Summary, full: Summary) {
    m.commit ==>
      if m.flush.Built? then full.log == Some(m.curLog) && full.version == m.version + FlushedTables(m)
      else
        && m.flush.NoFlush? && m.comp.Some? && !m.comp.value.installed && m.comp.value.open.None?
        && full.log == base.log && full.version == m.version - m.comp.value.inputs + m.comp.value.outs
  }

  ghost function FlushedTables(m: Memory): set<nat> {
    if m.flush.NoFlush? || ImmOf(m) == {} then {} else {m.flush.n}
  }

  ghost predicate CountersOk(m: Memory, base: Summary, full: Summary) {
    && Complete(base) && Complete(full)
    && m.version == base.version && m.logNumber == base.log.value
    && full.next.value <= m.nextFile && full.log.value <= m.curLog
    && base.last.value <= m.lastSequence && full.last.value <= m.lastSequence
  }

  ghost predicate RunInv(d: Disk, m: Memory, g: Ghost) {
    && d.current in d.manifests && m.curLog in d.logs && m.curLog in g.past
    && var f := d.manifests[d.current];
    && Installed(m, f) <= f.synced <= |f.recs| && |f.recs| > 0
    && RunPoints(d, m, g, Summarize(f.recs[..Installed(m, f)]), Summarize(f.recs))
  }

  ghost predicate RunPoints(d: Disk, m: Memory, g: Ghost, base: Summary, full: Summary)
    requires m.curLog in d.logs && m.curLog in g.past
  {
    && PointsOk(d, g, base, full, true) && CountersOk(m, base, full) && CommitOk(m, base, full)
    && WriterOk(m, d.logs[m.curLog], g.past[m.curLog]) && LinesOk(m, g.past)
    && MakingOk(d, m) && DoomedOk(d, m, full)
    && (m.writer.Resting? || m.writer.r.at !in g.acked)
  }

  ghost predicate Inv(st: State) {
    if st.Running? then RunInv(st.disk, st.m, st.g) else DownInv(st.disk, st.g)
  }

  // ---------------------------------------------------------------- about sets of entries

  lemma BetweenSame(past: map<nat, seq<Record>>, past': map<nat, seq<Record>>, lo: nat, hi: nat)
    requires forall n :: lo <= n < hi ==> (n in past <==> n in past') && (n in past ==> past[n] == past'[n])
    ensures Between(past, lo, hi) == Between(past', lo, hi)
  {
  }

  lemma BetweenSplits(past: map<nat, seq<Record>>, lo: nat, mid: nat, hi: nat)
    requires lo <= mid <= hi
    ensures Between(past, lo, hi) == Between(past, lo, mid) + Between(past, mid, hi)
  {
  }

  lemma EntriesSame(tables: map<nat, Table>, tables': map<nat, Table>, v: set<nat>)
    requires forall n :: n in v ==> (n in tables <==> n in tables') && (n in tables ==> tables[n] == tables'[n])
    ensures Entries(tables, v) == Entries(tables', v)
  {
  }

  lemma EntriesUnion(tables: map<nat, Table>, v: set<nat>, w: set<nat>)
    ensures Entries(tables, v + w) == Entries(tables, v) + Entries(tables, w)
  {
  }

  lemma NewerLayerStands(es: set<Entry>, h: set<Entry>, last: nat, more: set<Entry>, last': nat)
    requires Stands(es, h, last) && UniqueSeq(h + more) && AllNewer(more, h) && UpTo(more, last') && last <= last'
    ensures Stands(es + more, h + more, last')
  {
    forall u: UserKey, s: nat | s >= last' ensures Read(es + more, u, s) == Read(h + more, u, s) {
      NewerLayerReads(es, h, more, u, s);
    }
  }

  lemma DropStands(rest: set<Entry>, inputs: set<Entry>, kept: set<Entry>, low: nat, h: set<Entry>, last: nat, last': nat)
    requires Stands(rest + inputs, h, last) && UniqueSeq(h) && ProperDrop(rest, inputs, kept, low)
    requires low <= last' && last <= last'
    ensures Stands(rest + kept, h, last')
  {
    forall u: UserKey, s: nat | s >= last' ensures Read(rest + kept, u, s) == Read(h, u, s) {
      DropPreservesReads(rest, inputs, kept, low, u, s);
    }
  }

  lemma InBetween(past: map<nat, seq<Record>>, lo: nat, hi: nat, e: Entry) returns (n: nat, i: nat)
    requires e in Between(past, lo, hi)
    ensures n in past && lo <= n < hi && i < |past[n]| && e in past[n][i].entries
  {
    n :| n in past && lo <= n < hi && e in Content(past[n]);
    i :| 0 <= i < |past[n]| && e in past[n][i].entries;
  }

  lemma PastUnique(past: map<nat, seq<Record>>, issued: seq<Record>, hi: nat)
    requires PastOk(past, issued)
    ensures UniqueSeq(Between(past, 0, hi))
  {
    var all := Between(past, 0, hi);
    forall a, b | a in all && b in all && a.key.user == b.key.user && a.key.sn == b.key.sn ensures a == b {
      var n, i := InBetween(past, 0, hi, a);
      var k, j := InBetween(past, 0, hi, b);
      InOrder(past, issued, n, i, k, j);
      InOrder(past, issued, k, j, n, i);
      assert RecordOk(past[n][i], issued);
    }
  }

  lemma InOrder(past: map<nat, seq<Record>>, issued: seq<Record>, n: nat, i: nat, k: nat, j: nat)
    requires PastOk(past, issued) && n in past && k in past && i < |past[n]| && j < |past[k]|
    ensures n < k || (n == k && i < j) ==> RecordBefore(past[n][i], past[k][j])
  {
    assert n < k ==> LogBefore(past[n], past[k]);
    assert LogOk(past[n], issued);
  }

  lemma PastNewer(past: map<nat, seq<Record>>, issued: seq<Record>, lo: nat, mid: nat, hi: nat)
    requires PastOk(past, issued)
    ensures AllNewer(Between(past, mid, hi), Between(past, lo, mid))
  {
    forall x, y | x in Between(past, mid, hi) && y in Between(past, lo, mid) ensures x.key.sn > y.key.sn {
      var n, i := InBetween(past, mid, hi, x);
      var k, j := InBetween(past, lo, mid, y);
      assert LogBefore(past[k], past[n]) && RecordBefore(past[k][j], past[n][i]);
    }
  }

  /** A point depends only on its tables and on the logs before its log number. */
  lemma PointStays(tables: map<nat, Table>, past: map<nat, seq<Record>>, tables': map<nat, Table>, past': map<nat, seq<Record>>,
                   current: nat, s: Summary)
    requires PointOk(tables, past, current, s)
    requires forall n :: n in s.version ==> n in tables' && tables'[n] == tables[n]
    requires forall n: nat :: n < s.log.value ==> (n in past <==> n in past') && (n in past ==> past[n] == past'[n])
    ensures PointOk(tables', past', current, s)
  {
    EntriesSame(tables, tables', s.version);
    BetweenSame(past, past', 0, s.log.value);
  }

  // ---------------------------------------------------------------- writes

  lemma ContentGrows(rs: seq<Record>, r: Record)
    ensures Content(rs + [r]) == Content(rs) + r.entries
  {
    var all := rs + [r];
    assert all[|rs|] == r;
    assert forall i :: 0 <= i < |rs| ==> all[i] == rs[i];
  }

  lemma AppendKeepsPast(past: map<nat, seq<Record>>, issued: seq<Record>, n: nat, r: Record)
    requires PastOk(past, issued) && n in past && (forall k :: k in past ==> k <= n)
    requires r.at == |issued| && RecordOk(r, issued + [r])
    requires forall e, x :: e in r.entries && x in Between(past, 0, n + 1) ==> x.key.sn < e.key.sn
    ensures PastOk(past[n := past[n] + [r]], issued + [r])
  {
    var past', issued' := past[n := past[n] + [r]], issued + [r];
    forall k | k in past' ensures LogOk(past'[k], issued') {
      assert LogOk(past[k], issued);
      assert forall i :: 0 <= i < |past[k]| ==> RecordOk(past[k][i], issued');
      AppendedIsNewest(past, issued, n, r, k);
    }
    forall j, k | j in past' && k in past' && j < k ensures LogBefore(past'[j], past'[k]) {
      assert LogBefore(past[j], past[k]);
      AppendedIsNewest(past, issued, n, r, j);
    }
  }

  lemma AppendedIsNewest(past: map<nat, seq<Record>>, issued: seq<Record>, n: nat, r: Record, k: nat)
    requires PastOk(past, issued) && k in past && k <= n && r.at == |issued|
    requires forall e, x :: e in r.entries && x in Between(past, 0, n + 1) ==> x.key.sn < e.key.sn
    ensures forall i :: 0 <= i < |past[k]| ==> RecordBefore(past[k][i], r)
  {
    forall i | 0 <= i < |past[k]| ensures RecordBefore(past[k][i], r) {
      assert RecordOk(past[k][i], issued);
      forall x | x in past[k][i].entries ensures x in Between(past, 0, n + 1) { assert x in Content(past[k]); }
    }
  }

  lemma AcksStay(g: Ghost, logs: map<nat, Appended<Record>>, g': Ghost, logs': map<nat, Appended<Record>>, log: nat, log': nat)
    requires AcksOk(g, logs, log) && g'.acked <= g.acked && log <= log'
    requires forall n, i :: n in g.past && 0 <= i < |g.past[n]| && (n >= log ==> n in logs && i < logs[n].synced) ==>
               n in g'.past && i < |g'.past[n]| && g'.past[n][i] == g.past[n][i]
    requires forall n :: n >= log' && n in logs ==> n in logs' && logs'[n].synced >= logs[n].synced
    ensures AcksOk(g', logs', log')
  {
    forall a | a in g'.acked ensures Kept(g'.past, logs', log', a) {
      var n: nat, i: nat :| IsAt(g.past, n, i, a) && (n >= log ==> n in logs && i < logs[n].synced);
      assert IsAt(g'.past, n, i, a);
    }
  }

  /** Steps that leave the points recovery may find as they were. */
  lemma PointsStay(d: Disk, g: Ghost, d': Disk, g': Ghost, base: Summary, full: Summary, exact: bool := true)
    requires PointsOk(d, g, base, full, exact)
    requires d'.current == d.current
    requires forall n :: n in base.version + full.version ==> n in d'.tables && n in d.tables && d'.tables[n] == d.tables[n]
    requires forall n: nat :: n < full.log.value ==> (n in g.past <==> n in g'.past) && (n in g.past ==> g.past[n] == g'.past[n])
    requires LogsMatch(d'.logs, g'.past, base.log.value, exact)
    requires PastOk(g'.past, g'.issued) && AcksOk(g', d'.logs, base.log.value)
    ensures PointsOk(d', g', base, full, exact)
  {
    PointStays(d.tables, g.past, d'.tables, g'.past, d.current, base);
    PointStays(d.tables, g.past, d'.tables, g'.past, d.current, full);
  }

  /** What the tables being made depend on. */
  lemma MakingStays(d: Disk, m: Memory, d': Disk, m': Memory)
    requires MakingOk(d, m) && d'.tables == d.tables
    requires m'.version == m.version && m'.held == m.held && m'.pending == m.pending && m'.flush == m.flush && m'.comp == m.comp
    requires m'.doomed == m.doomed && (m.flush.NoFlush? || m'.imm == m.imm)
    requires m'.nextFile >= m.nextFile && m'.lastSequence >= m.lastSequence
    ensures MakingOk(d', m')
  {
    assert forall n :: LiveTable(m', n) <==> LiveTable(m, n);
  }

  lemma DoomedStays(d: Disk, m: Memory, d': Disk, m': Memory, full: Summary)
    requires DoomedOk(d, m, full) && d'.current == d.current
    requires m'.version == m.version && m'.held == m.held && m'.pending == m.pending && m'.doomed == m.doomed
    requires m'.logNumber == m.logNumber
    ensures DoomedOk(d', m', full)
  {
    assert forall n :: LiveTable(m', n) <==> LiveTable(m, n);
  }

  lemma AppendExtendsPast(m: Memory, g: Ghost, r: Record)
    requires PastOk(g.past, g.issued) && LinesOk(m, g.past) && m.curLog in g.past && UpTo(Content(g.past[m.curLog]), m.lastSequence)
    requires r.at == |g.issued| && forall a, b :: a in r.entries && b in r.entries && a.key.sn == b.key.sn ==> a == b
    requires forall e :: e in r.entries ==> m.lastSequence < e.key.sn
    ensures PastOk(g.past[m.curLog := g.past[m.curLog] + [r]], g.issued + [r])
  {
    var n := m.curLog;
    BetweenSplits(g.past, 0, n, n + 1);
    assert Between(g.past, n, n + 1) == Content(g.past[n]);
    assert RecordOk(r, g.issued + [r]);
    AppendKeepsPast(g.past, g.issued, n, r);
  }

  lemma AppendKeepsLogs(logs: map<nat, Appended<Record>>, past: map<nat, seq<Record>>, log: nat, n: nat, r: Record)
    requires LogsMatch(logs, past, log, true) && n in logs && n in past && n >= log
    ensures LogsMatch(logs[n := AppendTo(logs[n], r)], past[n := past[n] + [r]], log, true)
  {
    assert LogMatches(logs[n], past[n], true);
  }

  lemma AppendKeepsPoints(d: Disk, m: Memory, g: Ghost, step: Step, d': Disk, m': Memory, g': Ghost, base: Summary, full: Summary)
    requires step.Append? && m.curLog in d.logs && m.curLog in g.past && WriteStep(d, m, g, step, d', m', g')
    requires PointsOk(d, g, base, full, true) && CountersOk(m, base, full) && LinesOk(m, g.past)
    requires UpTo(Content(g.past[m.curLog]), m.lastSequence)
    ensures PointsOk(d', g', base, full, true)
  {
    AppendExtendsPast(m, g, step.r);
    AppendKeepsLogs(d.logs, g.past, base.log.value, m.curLog, step.r);
    AcksStay(g, d.logs, g', d'.logs, base.log.value, base.log.value);
    PointsStay(d, g, d', g', base, full);
  }

  lemma AppendKeepsWriter(d: Disk, m: Memory, g: Ghost, step: Step, d': Disk, m': Memory, g': Ghost)
    requires step.Append? && m.curLog in d.logs && m.curLog in g.past && WriteStep(d, m, g, step, d', m', g')
    requires WriterOk(m, d.logs[m.curLog], g.past[m.curLog]) && LinesOk(m, g.past)
    ensures WriterOk(m', d'.logs[m.curLog], g'.past[m.curLog]) && LinesOk(m', g'.past)
  {
    var n, r := m.curLog, step.r;
    BetweenSame(g.past, g'.past, m.logNumber, n);
    BetweenSame(g.past, g'.past, 0, n);
    assert g'.past[n][..|g'.past[n]| - 1] == g.past[n];
  }

  lemma AppendKeeps(d: Disk, m: Memory, g: Ghost, step: Step, d': Disk, m': Memory, g': Ghost)
    requires RunInv(d, m, g) && step.Append? && WriteStep(d, m, g, step, d', m', g')
    ensures RunInv(d', m', g')
  {
    var f := d.manifests[d.current];
    var base, full := Summarize(f.recs[..Installed(m, f)]), Summarize(f.recs);
    AppendKeepsPoints(d, m, g, step, d', m', g', base, full);
    AppendKeepsWriter(d, m, g, step, d', m', g');
    MakingStays(d, m, d', m');
    DoomedStays(d, m, d', m', full);
  }

  lemma SyncLogKeepsPoints(d: Disk, m: Memory, g: Ghost, d': Disk, base: Summary, full: Summary)
    requires m.curLog in d.logs && m.curLog in g.past && PointsOk(d, g, base, full, true)
    requires d' == d.(logs := d.logs[m.curLog := SyncAll(d.logs[m.curLog])])
    ensures PointsOk(d', g, base, full, true)
  {
    AcksStay(g, d.logs, g, d'.logs, base.log.value, base.log.value);
    PointsStay(d, g, d', g, base, full);
  }

  lemma SyncLogKeeps(d: Disk, m: Memory, g: Ghost, step: Step, d': Disk, m': Memory, g': Ghost)
    requires RunInv(d, m, g) && step.SyncLog? && WriteStep(d, m, g, step, d', m', g')
    ensures RunInv(d', m', g')
  {
    var f := d.manifests[d.current];
    var base, full := Summarize(f.recs[..Installed(m, f)]), Summarize(f.recs);
    SyncLogKeepsPoints(d, m, g, d', base, full);
    MakingStays(d, m, d', m');
    DoomedStays(d, m, d', m', full);
  }

  /** Steps of a writer touch nothing but the memtable and the last sequence. */
  lemma WriterOnly(d: Disk, m: Memory, m': Memory, past: map<nat, seq<Record>>, base: Summary, full: Summary)
    requires m' == m.(mem := m'.mem, writer := m'.writer, lastSequence := m'.lastSequence) && m'.lastSequence >= m.lastSequence
    requires CountersOk(m, base, full) && CommitOk(m, base, full) && LinesOk(m, past) && MakingOk(d, m) && DoomedOk(d, m, full)
    ensures CountersOk(m', base, full) && CommitOk(m', base, full) && LinesOk(m', past) && MakingOk(d, m') && DoomedOk(d, m', full)
  {
    MakingStays(d, m, d, m');
    DoomedStays(d, m, d, m', full);
  }

  lemma ApplyKeepsWriter(m: Memory, m': Memory, f: Appended<Record>, rs: seq<Record>)
    requires WriterOk(m, f, rs) && (m.writer.Synced? || (m.writer.Logged? && !m.writer.sync))
    requires m' == m.(mem := m.mem + m.writer.r.entries, writer := Applied(m.writer.r, m.writer.count, m.writer.Synced?))
    ensures WriterOk(m', f, rs)
  {
    ContentGrows(rs[..|rs| - 1], m.writer.r);
    assert rs[..|rs| - 1] + [m.writer.r] == rs;
  }

  lemma AckKeepsWriter(m: Memory, m': Memory, f: Appended<Record>, rs: seq<Record>)
    requires WriterOk(m, f, rs) && m.writer.Applied?
    requires m' == m.(lastSequence := m.lastSequence + m.writer.count, writer := Resting)
    ensures WriterOk(m', f, rs)
  {
    ContentGrows(rs[..|rs| - 1], m.writer.r);
    assert rs[..|rs| - 1] + [m.writer.r] == rs;
  }

  lemma AckKeepsAcks(m: Memory, g: Ghost, logs: map<nat, Appended<Record>>, log: nat, rs: seq<Record>)
    requires m.curLog in g.past && m.curLog in logs && rs == g.past[m.curLog]
    requires AcksOk(g, logs, log) && WriterOk(m, logs[m.curLog], rs) && m.writer.Applied? && m.writer.sync
    ensures AcksOk(g.(acked := g.acked + {m.writer.r.at}), logs, log)
  {
    assert IsAt(g.past, m.curLog, |rs| - 1, m.writer.r.at);
    assert Kept(g.past, logs, log, m.writer.r.at);
    assert forall a :: a in g.acked ==> Kept(g.past, logs, log, a);
  }

  lemma ApplyKeeps(d: Disk, m: Memory, g: Ghost, step: Step, d': Disk, m': Memory, g': Ghost)
    requires RunInv(d, m, g) && step.Apply? && WriteStep(d, m, g, step, d', m', g')
    ensures RunInv(d', m', g')
  {
    var f := d.manifests[d.current];
    WriterOnly(d, m, m', g.past, Summarize(f.recs[..Installed(m, f)]), Summarize(f.recs));
    ApplyKeepsWriter(m, m', d.logs[m.curLog], g.past[m.curLog]);
  }

  lemma AckKeeps(d: Disk, m: Memory, g: Ghost, step: Step, d': Disk, m': Memory, g': Ghost)
    requires RunInv(d, m, g) && step.Ack? && WriteStep(d, m, g, step, d', m', g')
    ensures RunInv(d', m', g')
  {
    var f := d.manifests[d.current];
    var base, full := Summarize(f.recs[..Installed(m, f)]), Summarize(f.recs);
    WriterOnly(d, m, m', g.past, base, full);
    AckKeepsWriter(m, m', d.logs[m.curLog], g.past[m.curLog]);
    if m.writer.sync { AckKeepsAcks(m, g, d.logs, base.log.value, g.past[m.curLog]); }
  }

  lemma SwitchKeepsPast(past: map<nat, seq<Record>>, issued: seq<Record>, n: nat)
    requires PastOk(past, issued) && n !in past
    ensures PastOk(past[n := []], issued)
  {
    var past' := past[n := []];
    forall j, k | j in past' && k in past' && j < k ensures LogBefore(past'[j], past'[k]) {
      assert j in past && k in past ==> LogBefore(past[j], past[k]);
    }
  }

  lemma SwitchKeepsPoints(d: Disk, m: Memory, g: Ghost, step: Step, d': Disk, m': Memory, g': Ghost, base: Summary, full: Summary)
    requires step.Switch? && m.curLog in d.logs && m.curLog in g.past && WriteStep(d, m, g, step, d', m', g')
    requires PointsOk(d, g, base, full, true) && CountersOk(m, base, full) && LinesOk(m, g.past)
    ensures PointsOk(d', g', base, full, true)
  {
    assert m.nextFile !in g.past;
    SwitchKeepsPast(g.past, g.issued, m.nextFile);
    assert m.nextFile !in d.logs;
    AcksStay(g, d.logs, g', d'.logs, base.log.value, base.log.value);
    PointsStay(d, g, d', g', base, full);
  }

  lemma SwitchKeepsLines(m: Memory, past: map<nat, seq<Record>>, m': Memory)
    requires LinesOk(m, past) && m.curLog in past && m.imm.None? && m.mem == Content(past[m.curLog])
    requires UpTo(m.mem, m.lastSequence)
    requires m' == m.(curLog := m.nextFile, nextFile := m.nextFile + 1, imm := Some(m.mem), mem := {})
    ensures LinesOk(m', past[m.nextFile := []])
  {
    var past', n := past[m.nextFile := []], m.nextFile;
    BetweenSame(past, past', m.logNumber, n);
    BetweenSame(past, past', 0, n);
    forall lo: nat | lo <= m.curLog ensures Between(past, lo, n) == Between(past, lo, m.curLog) + m.mem {
      BetweenSplits(past, lo, m.curLog, n);
      assert Between(past, m.curLog, n) == m.mem;
    }
  }

  lemma SwitchKeepsRun(d: Disk, m: Memory, g: Ghost, step: Step, d': Disk, m': Memory, g': Ghost, base: Summary, full: Summary)
    requires m.curLog in d.logs && m.curLog in g.past && RunPoints(d, m, g, base, full)
    requires step.Switch? && WriteStep(d, m, g, step, d', m', g')
    ensures RunPoints(d', m', g', base, full)
  {
    SwitchKeepsPoints(d, m, g, step, d', m', g', base, full);
    SwitchKeepsLines(m, g.past, m');
    MakingStays(d, m, d', m');
    DoomedStays(d, m, d', m', full);
    assert Content([]) == {};
  }

  lemma SwitchKeeps(d: Disk, m: Memory, g: Ghost, step: Step, d': Disk, m': Memory, g': Ghost)
    requires RunInv(d, m, g) && step.Switch? && WriteStep(d, m, g, step, d', m', g')
    ensures RunInv(d', m', g')
  {
    var f := d.manifests[d.current];
    SwitchKeepsRun(d, m, g, step, d', m', g', Summarize(f.recs[..Installed(m, f)]), Summarize(f.recs));
  }

  // ---------------------------------------------------------------- making tables

  /** A step that writes, or drops, one table no recoverable version names. */
  lemma OneTable(d: Disk, g: Ghost, d': Disk, base: Summary, full: Summary, n: nat)
    requires PointsOk(d, g, base, full, true) && n !in base.version && n !in full.version
    requires d' == d.(tables := d'.tables)
    requires forall k :: k != n ==> (k in d.tables <==> k in d'.tables) && (k in d.tables ==> d.tables[k] == d'.tables[k])
    ensures PointsOk(d', g, base, full, true)
  {
    PointsStay(d, g, d', g, base, full);
  }

  /** The background thread changes nothing a writer depends on. */
  lemma BackgroundOnly(m: Memory, m': Memory, f: Appended<Record>, rs: seq<Record>, past: map<nat, seq<Record>>, base: Summary, full: Summary)
    requires WriterOk(m, f, rs) && LinesOk(m, past) && CountersOk(m, base, full)
    requires m' == m.(held := m'.held, nextFile := m'.nextFile, pending := m'.pending, flush := m'.flush, comp := m'.comp,
                      doomed := m'.doomed, commit := m'.commit)
    requires m'.nextFile >= m.nextFile
    ensures WriterOk(m', f, rs) && LinesOk(m', past) && CountersOk(m', base, full)
  {
  }

  lemma NotCommitting(d: Disk, m: Memory, g: Ghost)
    requires RunInv(d, m, g) && !m.commit
    ensures var f := d.manifests[d.current]; f.recs[..Installed(m, f)] == f.recs && f.synced == |f.recs|
  {
  }

  lemma StartTable(d: Disk, m: Memory, g: Ghost, d': Disk, m': Memory)
    requires RunInv(d, m, g) && Unoccupied(m) && !m.commit && m.flush.NoFlush?
    requires d' == d.(tables := d.tables[m.nextFile := Table({}, false)])
    requires || (m.imm.Some? && m' == m.(flush := Building(m.nextFile), pending := m.pending + {m.nextFile}, nextFile := m.nextFile + 1))
             || (m.comp.Some? && !m.comp.value.installed && m.comp.value.open.None? &&
                 m' == m.(comp := Some(m.comp.value.(open := Some(m.nextFile))), pending := m.pending + {m.nextFile},
                          nextFile := m.nextFile + 1))
    ensures RunInv(d', m', g)
  {
    var f := d.manifests[d.current];
    var full := Summarize(f.recs);
    NotCommitting(d, m, g);
    OneTable(d, g, d', full, full, m.nextFile);
    BackgroundOnly(m, m', d.logs[m.curLog], g.past[m.curLog], g.past, full, full);
    StartKeepsMaking(d, m, d', m', full.next.value);
  }

  lemma StartKeepsMaking(d: Disk, m: Memory, d': Disk, m': Memory, next: nat)
    requires MakingOk(d, m) && m.flush.NoFlush? && Unoccupied(m)
    requires d' == d.(tables := d.tables[m.nextFile := Table({}, false)])
    requires Stored(d.tables, m.version, next) && next <= m.nextFile
    requires || (m.imm.Some? && m' == m.(flush := Building(m.nextFile), pending := m.pending + {m.nextFile}, nextFile := m.nextFile + 1))
             || (m.comp.Some? && !m.comp.value.installed && m.comp.value.open.None? &&
                 m' == m.(comp := Some(m.comp.value.(open := Some(m.nextFile))), pending := m.pending + {m.nextFile},
                          nextFile := m.nextFile + 1))
    ensures MakingOk(d', m')
  {
    assert forall n :: LiveTable(m', n) <==> LiveTable(m, n);
    assert !LiveTable(m, m.nextFile);
  }

  lemma FlushBuildKeeps(d: Disk, m: Memory, g: Ghost, d': Disk, m': Memory)
    requires RunInv(d, m, g) && TableStep(d, m, FlushBuild, d', m')
    ensures RunInv(d', m', g)
  {
    var f := d.manifests[d.current];
    var full := Summarize(f.recs);
    NotCommitting(d, m, g);
    assert !LiveTable(m, m.flush.n);
    OneTable(d, g, d', full, full, m.flush.n);
    BackgroundOnly(m, m', d.logs[m.curLog], g.past[m.curLog], g.past, full, full);
    FlushBuildKeepsMaking(d, m, d', m');
  }

  lemma FlushBuildKeepsMaking(d: Disk, m: Memory, d': Disk, m': Memory)
    requires MakingOk(d, m) && TableStep(d, m, FlushBuild, d', m')
    ensures MakingOk(d', m')
  {
    assert forall n :: LiveTable(m', n) <==> LiveTable(m, n);
    forall v | v in m'.held ensures Stored(d'.tables, v, m'.nextFile) {
      assert Stored(d.tables, v, m.nextFile);
      assert m.flush.n !in v;
    }
  }

  lemma CompactCloseKeeps(d: Disk, m: Memory, g: Ghost, es: set<Entry>, d': Disk, m': Memory)
    requires RunInv(d, m, g) && TableStep(d, m, CompactClose(es), d', m')
    ensures RunInv(d', m', g)
  {
    var f := d.manifests[d.current];
    var full := Summarize(f.recs);
    NotCommitting(d, m, g);
    assert CompOk(d, m, m.comp.value) && !LiveTable(m, m.comp.value.open.value);
    OneTable(d, g, d', full, full, m.comp.value.open.value);
    BackgroundOnly(m, m', d.logs[m.curLog], g.past[m.curLog], g.past, full, full);
    CloseKeepsMaking(d, m, es, d', m');
    DoomedStays(d, m, d', m', full);
  }

  lemma CloseKeepsMaking(d: Disk, m: Memory, es: set<Entry>, d': Disk, m': Memory)
    requires MakingOk(d, m) && TableStep(d, m, CompactClose(es), d', m')
    ensures MakingOk(d', m')
  {
    assert forall n :: LiveTable(m', n) <==> LiveTable(m, n);
    forall v | v in m'.held ensures Stored(d'.tables, v, m'.nextFile) {
      assert Stored(d.tables, v, m.nextFile);
      assert m.comp.value.open.value !in v;
    }
  }

  lemma CompactStartKeeps(d: Disk, m: Memory, g: Ghost, inputs: set<nat>, low: nat, d': Disk, m': Memory)
    requires RunInv(d, m, g) && TableStep(d, m, CompactStart(inputs, low), d', m')
    ensures RunInv(d', m', g)
  {
    var f := d.manifests[d.current];
    var full := Summarize(f.recs);
    NotCommitting(d, m, g);
    BackgroundOnly(m, m', d.logs[m.curLog], g.past[m.curLog], g.past, full, full);
    assert forall n :: LiveTable(m', n) <==> LiveTable(m, n);
  }

  lemma CompactCleanupKeeps(d: Disk, m: Memory, g: Ghost, d': Disk, m': Memory)
    requires RunInv(d, m, g) && TableStep(d, m, CompactCleanup, d', m')
    ensures RunInv(d', m', g)
  {
    var f := d.manifests[d.current];
    var full := Summarize(f.recs);
    NotCommitting(d, m, g);
    BackgroundOnly(m, m', d.logs[m.curLog], g.past[m.curLog], g.past, full, full);
    assert forall n :: LiveTable(m', n) <==> LiveTable(m, n);
  }

  lemma HoldKeepsPoints(d: Disk, m: Memory, g: Ghost, m': Memory, base: Summary, full: Summary)
    requires m.curLog in d.logs && m.curLog in g.past && RunPoints(d, m, g, base, full)
    requires m' == m.(held := m'.held) && forall v :: v in m'.held ==> v in m.held || v == m.version
    ensures RunPoints(d, m', g, base, full)
  {
    BackgroundOnly(m, m', d.logs[m.curLog], g.past[m.curLog], g.past, base, full);
    HeldOnly(d, m, m', full, base.next.value);
  }

  lemma HoldKeeps(d: Disk, m: Memory, g: Ghost, step: Step, d': Disk, m': Memory)
    requires RunInv(d, m, g) && (step.Hold? || step.Release?) && TableStep(d, m, step, d', m')
    ensures RunInv(d', m', g)
  {
    var f := d.manifests[d.current];
    HoldKeepsPoints(d, m, g, m', Summarize(f.recs[..Installed(m, f)]), Summarize(f.recs));
  }

  lemma HeldOnly(d: Disk, m: Memory, m': Memory, full: Summary, next: nat)
    requires MakingOk(d, m) && DoomedOk(d, m, full) && Stored(d.tables, m.version, next) && next <= m.nextFile
    requires m' == m.(held := m'.held) && forall v :: v in m'.held ==> v in m.held || v == m.version
    ensures MakingOk(d, m') && DoomedOk(d, m', full)
  {
    forall n | LiveTable(m', n) ensures LiveTable(m, n) {}
  }

  lemma TableStepKeeps(d: Disk, m: Memory, g: Ghost, step: Step, d': Disk, m': Memory)
    requires RunInv(d, m, g) && TableStep(d, m, step, d', m')
    ensures RunInv(d', m', g)
  {
    match step
    case FlushStart => StartTable(d, m, g, d', m');
    case FlushBuild => FlushBuildKeeps(d, m, g, d', m');
    case CompactStart(inputs, low) => CompactStartKeeps(d, m, g, inputs, low, d', m');
    case CompactOpen => StartTable(d, m, g, d', m');
    case CompactClose(es) => CompactCloseKeeps(d, m, g, es, d', m');
    case CompactCleanup => CompactCleanupKeeps(d, m, g, d', m');
    case Hold => HoldKeeps(d, m, g, step, d', m');
    case Release(_) => HoldKeeps(d, m, g, step, d', m');
  }

  // ---------------------------------------------------------------- committing an edit

  lemma SummarizeMore(es: seq<Edit>, e: Edit)
    ensures var s := Summarize(es);
            Summarize(es + [e]) == Summary(s.version - e.del + e.add, Or(e.log, s.log), Or(e.next, s.next), Or(e.last, s.last))
  {
    assert (es + [e])[..|es|] == es;
  }

  /** Appending an edit whose point is good. */
  lemma LogEdit(d: Disk, m: Memory, g: Ghost, e: Edit, d': Disk, m': Memory)
    requires RunInv(d, m, g) && !m.commit && e.log.Some? && e.next == Some(m.nextFile) && e.last == Some(m.lastSequence)
    requires d' == d.(manifests := d.manifests[d.current := AppendTo(d.manifests[d.current], e)])
    requires m' == m.(commit := true) && m.logNumber <= e.log.value <= m.curLog
    requires var full' := Summary(m.version - e.del + e.add, e.log, e.next, e.last);
             PointOk(d.tables, g.past, d.current, full') && CommitOk(m', Summarize(d.manifests[d.current].recs), full')
             && DoomedOk(d, m', full')
    ensures RunInv(d', m', g)
  {
    var f := d.manifests[d.current];
    NotCommitting(d, m, g);
    SummarizeMore(f.recs, e);
    assert (f.recs + [e])[..|f.recs|] == f.recs;
    BackgroundOnly(m, m', d.logs[m.curLog], g.past[m.curLog], g.past, Summarize(f.recs), Summarize(f.recs));
    MakingStays(d, m, d', m');
  }

  /** A flush's edit stands for the logs before the current one. */
  lemma FlushPoint(d: Disk, m: Memory, g: Ghost, s: Summary)
    requires PointOk(d.tables, g.past, d.current, s) && CountersOk(m, s, s) && LinesOk(m, g.past) && MakingOk(d, m)
    requires PastOk(g.past, g.issued) && m.flush.Built?
    ensures PointOk(d.tables, g.past, d.current,
                    Summary(m.version + FlushedTables(m), Some(m.curLog), Some(m.nextFile), Some(m.lastSequence)))
  {
    var h, more := Between(g.past, 0, m.logNumber), ImmOf(m);
    BetweenSplits(g.past, 0, m.logNumber, m.curLog);
    PastUnique(g.past, g.issued, m.curLog);
    PastNewer(g.past, g.issued, 0, m.logNumber, m.curLog);
    NewerLayerStands(Entries(d.tables, m.version), h, s.last.value, more, m.lastSequence);
    EntriesUnion(d.tables, m.version, FlushedTables(m));
    assert Entries(d.tables, FlushedTables(m)) == more by {
      if more != {} { assert d.tables[m.flush.n] == Table(more, true); }
    }
  }

  lemma FlushLogKeeps(d: Disk, m: Memory, g: Ghost, d': Disk, m': Memory)
    requires RunInv(d, m, g) && CommitStep(d, m, FlushLog, d', m')
    ensures RunInv(d', m', g)
  {
    var f := d.manifests[d.current];
    var full, e := Summarize(f.recs), EditFor(m, {}, FlushedTables(m), m.curLog);
    NotCommitting(d, m, g);
    FlushPoint(d, m, g, full);
    assert m.version - {} + FlushedTables(m) == m.version + FlushedTables(m);
    LogEdit(d, m, g, e, d', m');
  }

  /** A compaction's edit stands for the same logs as before. */
  lemma CompactPoint(d: Disk, m: Memory, g: Ghost, s: Summary, c: Compaction)
    requires PointOk(d.tables, g.past, d.current, s) && CountersOk(m, s, s) && LinesOk(m, g.past)
    requires PastOk(g.past, g.issued) && CompOk(d, m, c) && !c.installed && CompactionOk(d.tables, m.version, c)
    ensures PointOk(d.tables, g.past, d.current,
                    Summary(m.version - c.inputs + c.outs, Some(m.logNumber), Some(m.nextFile), Some(m.lastSequence)))
  {
    var rest := m.version - c.inputs;
    EntriesUnion(d.tables, rest, c.inputs);
    assert rest + c.inputs == m.version;
    EntriesUnion(d.tables, rest, c.outs);
    PastUnique(g.past, g.issued, m.logNumber);
    DropStands(Entries(d.tables, rest), Entries(d.tables, c.inputs), Entries(d.tables, c.outs), c.low,
               Between(g.past, 0, m.logNumber), s.last.value, m.lastSequence);
  }

  lemma CompactLogKeeps(d: Disk, m: Memory, g: Ghost, d': Disk, m': Memory)
    requires RunInv(d, m, g) && CommitStep(d, m, CompactLog, d', m')
    ensures RunInv(d', m', g)
  {
    var f := d.manifests[d.current];
    var full, c := Summarize(f.recs), m.comp.value;
    NotCommitting(d, m, g);
    CompactPoint(d, m, g, full, c);
    LogEdit(d, m, g, EditFor(m, c.inputs, c.outs, m.logNumber), d', m');
  }

  lemma SyncManifestKeeps(d: Disk, m: Memory, g: Ghost, d': Disk, m': Memory)
    requires RunInv(d, m, g) && CommitStep(d, m, SyncManifest, d', m')
    ensures RunInv(d', m', g)
  {
    var f := d.manifests[d.current];
    var base, full := Summarize(f.recs[..Installed(m, f)]), Summarize(f.recs);
    PointsStay(d, g, d', g, base, full);
    MakingStays(d, m, d', m');
    DoomedStays(d, m, d', m', full);
  }

  lemma InstallKeepsMaking(d: Disk, m: Memory, m': Memory, base: Summary, full: Summary)
    requires MakingOk(d, m) && CountersOk(m, base, full) && CommitOk(m, base, full) && m.commit && DoomedOk(d, m, full)
    requires m' == if m.flush.Built?
                   then m.(version := full.version, logNumber := full.log.value, commit := false, flush := NoFlush, imm := None)
                   else m.(version := full.version, logNumber := full.log.value, commit := false,
                           comp := if m.comp.Some? then Some(m.comp.value.(installed := true)) else None)
    requires base.log.value <= full.log.value
    ensures MakingOk(d, m') && DoomedOk(d, m', full)
  {
    forall n | LiveTable(m', n) ensures LiveTable(m, n) || n in full.version {}
  }

  lemma InstallKeeps(d: Disk, m: Memory, g: Ghost, d': Disk, m': Memory)
    requires RunInv(d, m, g) && CommitStep(d, m, Install, d', m')
    ensures RunInv(d', m', g)
  {
    var f := d.manifests[d.current];
    var base, full := Summarize(f.recs[..Installed(m, f)]), Summarize(f.recs);
    assert f.recs[..|f.recs|] == f.recs;
    AcksStay(g, d.logs, g, d.logs, base.log.value, full.log.value);
    InstallKeepsMaking(d, m, m', base, full);
  }

  lemma CommitStepKeeps(d: Disk, m: Memory, g: Ghost, step: Step, d': Disk, m': Memory)
    requires RunInv(d, m, g) && CommitStep(d, m, step, d', m')
    ensures RunInv(d', m', g)
  {
    match step
    case FlushLog => FlushLogKeeps(d, m, g, d', m');
    case CompactLog => CompactLogKeeps(d, m, g, d', m');
    case SyncManifest => SyncManifestKeeps(d, m, g, d', m');
    case Install => InstallKeeps(d, m, g, d', m');
  }

  // ---------------------------------------------------------------- garbage collection

  /** RemoveObsoleteFiles never deletes a table that a live version or a pending output names. */
  lemma RemovedIsGarbage(d: Disk, m: Memory, g: Ghost, n: nat, d': Disk, m': Memory)
    requires RunInv(d, m, g) && GcStep(d, m, RemoveTable(n), d', m')
    ensures n !in m.pending && !LiveTable(m, n)
  {
  }

  lemma CollectKeeps(d: Disk, m: Memory, g: Ghost, d': Disk, m': Memory)
    requires RunInv(d, m, g) && GcStep(d, m, Collect, d', m')
    ensures RunInv(d', m', g)
  {
    var f := d.manifests[d.current];
    var full := Summarize(f.recs);
    NotCommitting(d, m, g);
    BackgroundOnly(m, m', d.logs[m.curLog], g.past[m.curLog], g.past, full, full);
    assert forall n :: LiveTable(m', n) <==> LiveTable(m, n);
  }

  lemma RemoveTableKeepsMaking(d: Disk, m: Memory, n: nat, d': Disk, m': Memory, full: Summary)
    requires MakingOk(d, m) && DoomedOk(d, m, full) && GcStep(d, m, RemoveTable(n), d', m')
    ensures MakingOk(d', m') && DoomedOk(d', m', full)
  {
    assert forall k :: LiveTable(m', k) <==> LiveTable(m, k);
    assert m.flush.NoFlush?;
    forall v | v in m'.held ensures Stored(d'.tables, v, m'.nextFile) {
      assert Stored(d.tables, v, m.nextFile);
      assert n !in v;
    }
  }

  lemma RemoveTableKeeps(d: Disk, m: Memory, g: Ghost, n: nat, d': Disk, m': Memory)
    requires RunInv(d, m, g) && GcStep(d, m, RemoveTable(n), d', m')
    ensures RunInv(d', m', g)
  {
    var f := d.manifests[d.current];
    var base, full := Summarize(f.recs[..Installed(m, f)]), Summarize(f.recs);
    assert !LiveTable(m, n);
    OneTable(d, g, d', base, full, n);
    RemoveTableKeepsMaking(d, m, n, d', m', full);
    BackgroundOnly(m, m', d.logs[m.curLog], g.past[m.curLog], g.past, base, full);
  }

  lemma DoomedShrinks(d: Disk, m: Memory, d': Disk, m': Memory, full: Summary)
    requires MakingOk(d, m) && DoomedOk(d, m, full) && d'.tables == d.tables && d'.current == d.current
    requires m' == m.(doomed := m'.doomed) && m.flush.NoFlush?
    requires m'.doomed.tables <= m.doomed.tables && m'.doomed.logs <= m.doomed.logs && m'.doomed.manifests <= m.doomed.manifests
    ensures MakingOk(d', m') && DoomedOk(d', m', full)
  {
    assert forall k :: LiveTable(m', k) <==> LiveTable(m, k);
  }

  lemma RemoveLogKeeps(d: Disk, m: Memory, g: Ghost, n: nat, d': Disk, m': Memory)
    requires RunInv(d, m, g) && GcStep(d, m, RemoveLog(n), d', m')
    ensures RunInv(d', m', g)
  {
    var f := d.manifests[d.current];
    var base, full := Summarize(f.recs[..Installed(m, f)]), Summarize(f.recs);
    AcksStay(g, d.logs, g, d'.logs, base.log.value, base.log.value);
    PointsStay(d, g, d', g, base, full);
    DoomedShrinks(d, m, d', m', full);
    BackgroundOnly(m, m', d.logs[m.curLog], g.past[m.curLog], g.past, base, full);
  }

  lemma RemoveManifestKeeps(d: Disk, m: Memory, g: Ghost, n: nat, d': Disk, m': Memory)
    requires RunInv(d, m, g) && GcStep(d, m, RemoveManifest(n), d', m')
    ensures RunInv(d', m', g)
  {
    var f := d.manifests[d.current];
    var base, full := Summarize(f.recs[..Installed(m, f)]), Summarize(f.recs);
    PointsStay(d, g, d', g, base, full);
    DoomedShrinks(d, m, d', m', full);
    BackgroundOnly(m, m', d.logs[m.curLog], g.past[m.curLog], g.past, base, full);
  }

  lemma GcStepKeeps(d: Disk, m: Memory, g: Ghost, step: Step, d': Disk, m': Memory)
    requires RunInv(d, m, g) && GcStep(d, m, step, d', m')
    ensures RunInv(d', m', g)
  {
    match step
    case Collect => CollectKeeps(d, m, g, d', m');
    case RemoveLog(n) => RemoveLogKeeps(d, m, g, n, d', m');
    case RemoveTable(n) => RemoveTableKeeps(d, m, g, n, d', m');
    case RemoveManifest(n) => RemoveManifestKeeps(d, m, g, n, d', m');
  }

  // ---------------------------------------------------------------- crashes

  /** Whichever of the two points the manifest is cut to, recovery finds a good one. */
  lemma CrashKeepsPoints(d: Disk, g: Ghost, base: Summary, full: Summary, exact: bool, d': Disk)
    requires PointsOk(d, g, base, full, exact) && CrashStep(d, d')
    ensures PointsOk(d', g, base, full, false)
  {
    PointStays(d.tables, g.past, d'.tables, g.past, d.current, base);
    PointStays(d.tables, g.past, d'.tables, g.past, d.current, full);
    forall n | n >= base.log.value && (n in d'.logs || n in g.past)
      ensures n in d'.logs && n in g.past && LogMatches(d'.logs[n], g.past[n], false)
    {
      assert LogMatches(d.logs[n], g.past[n], exact) && IsCut(d.logs[n], d'.logs[n]);
    }
    AcksStay(g, d.logs, g, d'.logs, base.log.value, base.log.value);
  }

  lemma OnePoint(d: Disk, g: Ghost, base: Summary, full: Summary)
    requires PointsOk(d, g, base, full, false)
    ensures PointsOk(d, g, base, base, false) && PointsOk(d, g, full, full, false)
  {
    AcksStay(g, d.logs, g, d.logs, base.log.value, full.log.value);
  }

  lemma CrashKeeps(d: Disk, g: Ghost, lo: nat, exact: bool, d': Disk)
    requires d.current in d.manifests && CrashStep(d, d')
    requires var f := d.manifests[d.current];
             && lo <= f.synced <= |f.recs| <= lo + 1
             && PointsOk(d, g, Summarize(f.recs[..lo]), Summarize(f.recs), exact)
    ensures DownInv(d', g)
  {
    var f, f' := d.manifests[d.current], d'.manifests[d.current];
    var base, full := Summarize(f.recs[..lo]), Summarize(f.recs);
    assert IsCut(f, f');
    CrashKeepsPoints(d, g, base, full, exact, d');
    OnePoint(d', g, base, full);
    if |f'.recs| == |f.recs| {
      assert f'.recs == f.recs;
      assert f.recs[..|f.recs|] == f.recs;
    } else {
      assert f'.recs == f.recs[..lo];
      assert f'.recs[..f'.synced] == f'.recs;
    }
  }

  // ---------------------------------------------------------------- recovery

  /** Recovery never misses a counter or a table. */
  lemma RecoveryFindsItsFiles(d: Disk, g: Ghost)
    requires DownInv(d, g)
    ensures var s := Summarize(d.manifests[d.current].recs);
            Complete(s) && forall n :: n in s.version ==> n in d.tables && d.tables[n].synced
  {
  }

  lemma RepairKeeps(d: Disk, g: Ghost, step: Repair, d': Disk, g': Ghost)
    requires DownInv(d, g) && RepairStep(d, g, step, d', g')
    ensures DownInv(d', g')
  {
    var f := d.manifests[d.current];
    var base, full := Summarize(f.recs[..f.synced]), Summarize(f.recs);
    match step
    case WriteTable(n, es) =>
      PointsStay(d, g, d', g', base, full, false);
    case NewLog(n) =>
      NewLogKeeps(d, g, n, d', g', base, full);
    case WriteManifest(n, _) =>
      PointsStay(d, g, d', g', base, full, false);
  }

  /** A new, empty log at the end of the line. */
  lemma EmptyLogKeepsAcks(g: Ghost, logs: map<nat, Appended<Record>>, n: nat, log: nat)
    requires AcksOk(g, logs, log) && n !in logs && n !in g.past
    ensures AcksOk(g.(past := g.past[n := []]), logs[n := Appended([], 0)], log)
  {
    AcksStay(g, logs, g.(past := g.past[n := []]), logs[n := Appended([], 0)], log, log);
  }

  lemma NewLogKeeps(d: Disk, g: Ghost, n: nat, d': Disk, g': Ghost, base: Summary, full: Summary)
    requires PointsOk(d, g, base, full, false) && n > full.next.value && (forall k :: k in d.logs && k >= full.log.value ==> n > k)
    requires d' == d.(logs := d.logs[n := Appended([], 0)]) && g' == g.(past := g.past[n := []])
    ensures PointsOk(d', g', base, full, false)
  {
    assert n !in d.logs && n !in g.past;
    SwitchKeepsPast(g.past, g.issued, n);
    EmptyLogKeepsAcks(g, d.logs, n, base.log.value);
    PointsStay(d, g, d', g', base, full, false);
  }

  /** What is left of the logs is in order, like what was appended to them. */
  lemma SurvivingOk(past: map<nat, seq<Record>>, issued: seq<Record>, logs: map<nat, Appended<Record>>, log: nat, lo: nat)
    requires PastOk(past, issued) && LogsMatch(logs, past, lo, false) && lo <= log
    ensures PastOk(Surviving(past, logs, log), issued)
  {
    var past' := Surviving(past, logs, log);
    forall n | n in past' ensures n in past && past'[n] <= past[n] {
      assert n >= log ==> LogMatches(logs[n], past[n], false);
    }
    forall n | n in past' ensures LogOk(past'[n], issued) {
      assert LogOk(past[n], issued);
    }
    forall n, k | n in past' && k in past' && n < k ensures LogBefore(past'[n], past'[k]) {
      assert LogBefore(past[n], past[k]);
    }
  }

  lemma SurvivingSplits(past: map<nat, seq<Record>>, logs: map<nat, Appended<Record>>, log: nat, hi: nat)
    requires log <= hi
    ensures Between(Surviving(past, logs, log), 0, hi) == Between(past, 0, log) + Between(Records(logs), log, hi)
  {
    var past' := Surviving(past, logs, log);
    BetweenSplits(past', 0, log, hi);
    BetweenSame(past', past, 0, log);
    BetweenSame(past', Records(logs), log, hi);
  }

  lemma OpenKeepsAcks(g: Ghost, logs: map<nat, Appended<Record>>, base: nat, log: nat, hi: nat)
    requires AcksOk(g, logs, base) && LogsMatch(logs, g.past, base, false) && base <= log <= hi
    ensures AcksOk(g.(past := Surviving(g.past, logs, log)), logs, hi)
  {
    var g' := g.(past := Surviving(g.past, logs, log));
    forall n, i | n in g.past && 0 <= i < |g.past[n]| && (n >= base ==> n in logs && i < logs[n].synced)
      ensures n in g'.past && i < |g'.past[n]| && g'.past[n][i] == g.past[n][i]
    {
      assert n >= base ==> LogMatches(logs[n], g.past[n], false);
    }
    AcksStay(g, logs, g', logs, base, hi);
  }

  /** The version Open installs stands for everything that survived. */
  lemma OpenPoint(d: Disk, g: Ghost, step: Repair, d': Disk, m': Memory, g': Ghost, base: Summary, s: Summary)
    requires d.current in d.manifests && step.Open? && s == Summarize(d.manifests[d.current].recs)
    requires PointsOk(d, g, base, s, false) && OpenStep(d, g, step, d', m', g')
    ensures PointOk(d'.tables, g'.past, d'.current, Summary(m'.version, Some(step.log), Some(step.nextFile), Some(m'.lastSequence)))
    ensures PastOk(g'.past, g'.issued) && UpTo(Between(g'.past, 0, step.log), m'.lastSequence)
  {
    var log, needed := s.log.value, Between(Records(d.logs), s.log.value, step.log);
    var h := Between(g.past, 0, log);
    SurvivingOk(g.past, g.issued, d.logs, log, base.log.value);
    SurvivingSplits(g.past, d.logs, log, step.log);
    PastUnique(g'.past, g.issued, step.log);
    PastNewer(g'.past, g.issued, 0, log, step.log);
    BetweenSame(g'.past, g.past, 0, log);
    BetweenSame(g'.past, Records(d.logs), log, step.log);
    NewerLayerStands(Entries(d.tables, s.version), h, s.last.value, needed, m'.lastSequence);
    EntriesUnion(d.tables, s.version, step.tables);
  }

  lemma OpenManifest(v: set<nat>, e: Edit)
    requires Complete(Summary({}, e.log, e.next, e.last)) && e.del == {}
    ensures Summarize([Edit({}, v, None, None, None), e]) == Summary(v + e.add, e.log, e.next, e.last)
  {
    var first := Edit({}, v, None, None, None);
    SummarizeMore([], first);
    SummarizeMore([first], e);
    assert [] + [first] == [first] && [first] + [e] == [first, e];
  }

  lemma OpenPoints(d: Disk, g: Ghost, step: Repair, d': Disk, m': Memory, g': Ghost, base: Summary, s: Summary, full: Summary)
    requires d.current in d.manifests && step.Open? && s == Summarize(d.manifests[d.current].recs)
    requires PointsOk(d, g, base, s, false) && OpenStep(d, g, step, d', m', g')
    requires full == Summary(m'.version, Some(step.log), Some(step.nextFile), Some(m'.lastSequence))
    ensures PointsOk(d', g', full, full, true) && LinesOk(m', g'.past)
  {
    OpenPoint(d, g, step, d', m', g', base, s);
    OpenKeepsAcks(g, d.logs, base.log.value, s.log.value, step.log);
    assert g'.past[step.log] == [] && (forall n :: n in g'.past ==> n <= step.log);
    assert Between(g'.past, step.log, step.log) == {};
  }

  lemma OpenKeeps(d: Disk, g: Ghost, step: Repair, d': Disk, m': Memory, g': Ghost)
    requires DownInv(d, g) && step.Open? && OpenStep(d, g, step, d', m', g')
    ensures RunInv(d', m', g')
  {
    var f := d.manifests[d.current];
    var base, s := Summarize(f.recs[..f.synced]), Summarize(f.recs);
    var full := Summary(m'.version, Some(step.log), Some(step.nextFile), Some(m'.lastSequence));
    OpenPoints(d, g, step, d', m', g', base, s, full);
    var f' := d'.manifests[d'.current];
    OpenManifest(s.version, f'.recs[1]);
    assert f'.recs[..2] == f'.recs && Summarize(f'.recs) == full;
    assert g'.past[step.log] == [] && Content([]) == {};
  }

  lemma WriteStepKeeps(d: Disk, m: Memory, g: Ghost, step: Step, d': Disk, m': Memory, g': Ghost)
    requires RunInv(d, m, g) && WriteStep(d, m, g, step, d', m', g')
    ensures RunInv(d', m', g')
  {
    match step
    case Append(_, _, _) => AppendKeeps(d, m, g, step, d', m', g');
    case SyncLog => SyncLogKeeps(d, m, g, step, d', m', g');
    case Apply => ApplyKeeps(d, m, g, step, d', m', g');
    case Ack => AckKeeps(d, m, g, step, d', m', g');
    case Switch => SwitchKeeps(d, m, g, step, d', m', g');
  }

  /** Every step, every crash and every recovery keeps the invariant. */
  lemma NextKeepsInv(st: State, ev: Event, st': State)
    requires Inv(st) && Next(st, ev, st')
    ensures Inv(st')
  {
    match ev
    case Does(step) =>
      if WriteStep(st.disk, st.m, st.g, step, st'.disk, st'.m, st'.g) {
        WriteStepKeeps(st.disk, st.m, st.g, step, st'.disk, st'.m, st'.g);
      } else if TableStep(st.disk, st.m, step, st'.disk, st'.m) {
        TableStepKeeps(st.disk, st.m, st.g, step, st'.disk, st'.m);
      } else if CommitStep(st.disk, st.m, step, st'.disk, st'.m) {
        CommitStepKeeps(st.disk, st.m, st.g, step, st'.disk, st'.m);
      } else {
        GcStepKeeps(st.disk, st.m, st.g, step, st'.disk, st'.m);
      }
    case Crash =>
      var f := st.disk.manifests[st.disk.current];
      CrashKeeps(st.disk, st.g, if st.Running? then Installed(st.m, f) else f.synced, st.Running?, st'.disk);
    case Repairs(r) =>
      if r.Open? {
        OpenKeeps(st.disk, st.g, r, st'.disk, st'.m, st'.g);
      } else {
        RepairKeeps(st.disk, st.g, r, st'.disk, st'.g);
      }
  }

  lemma InitInv(st: State)
    requires Init(st)
    ensures Inv(st)
  {
    var f := st.disk.manifests[1];
    SummarizeMore([], f.recs[0]);
    assert [] + [f.recs[0]] == f.recs && f.recs[..1] == f.recs;
    var s := Summarize(f.recs);
    assert Entries(st.disk.tables, s.version) == Between(st.g.past, 0, 0) == {};
  }

  lemma {:induction false} RunKeepsInv(run: seq<State>, evs: seq<Event>, i: nat)
    requires IsRun(run, evs) && i < |run|
    ensures Inv(run[i])
  {
    if i == 0 {
      InitInv(run[0]);
    } else {
      RunKeepsInv(run, evs, i - 1);
      assert StepAt(run, evs, i - 1);
      NextKeepsInv(run[i - 1], evs[i - 1], run[i]);
    }
  }

  // ---------------------------------------------------------------- what it is all for

  /** Every record of the surviving line. */
  ghost function Line(m: Memory, g: Ghost): set<Entry> {
    Between(g.past, 0, m.curLog + 1)
  }

  lemma LineSplits(m: Memory, g: Ghost)
    requires LinesOk(m, g.past) && m.curLog in g.past
    ensures Line(m, g) == Between(g.past, 0, m.logNumber) + ImmOf(m) + Content(g.past[m.curLog])
  {
    BetweenSplits(g.past, 0, m.logNumber, m.curLog);
    BetweenSplits(g.past, 0, m.curLog, m.curLog + 1);
    assert Between(g.past, m.curLog, m.curLog + 1) == Content(g.past[m.curLog]);
  }

  /** What is logged but not yet in the memtable is above the last sequence. */
  lemma AppliedSplits(m: Memory, f: Appended<Record>, rs: seq<Record>) returns (late: set<Entry>)
    requires WriterOk(m, f, rs)
    ensures Content(rs) == m.mem + late && forall e :: e in late ==> e.key.sn > m.lastSequence
  {
    if m.writer.Logged? || m.writer.Synced? {
      late := m.writer.r.entries;
      ContentGrows(rs[..|rs| - 1], m.writer.r);
      assert rs[..|rs| - 1] + [m.writer.r] == rs;
    } else {
      late := {};
    }
  }

  lemma LayersRead(es: set<Entry>, h: set<Entry>, newer: set<Entry>, late: set<Entry>, low: nat, u: UserKey, s: nat)
    requires Stands(es, h, low) && low <= s && UniqueSeq(h + newer + late) && AllNewer(newer, h)
    requires forall e :: e in late ==> e.key.sn > s
    ensures Read(es + newer, u, s) == Read(h + newer + late, u, s)
  {
    NewerLayerReads(es, h, newer, u, s);
    OldReadsStay(h + newer, late, u, s);
  }

  lemma LineLayers(m: Memory, g: Ghost, late: set<Entry>)
    requires LinesOk(m, g.past) && m.curLog in g.past && PastOk(g.past, g.issued) && Content(g.past[m.curLog]) == m.mem + late
    ensures var h, newer := Between(g.past, 0, m.logNumber), ImmOf(m) + m.mem;
            Line(m, g) == h + newer + late && AllNewer(newer, h) && UniqueSeq(h + newer + late)
  {
    var h, newer := Between(g.past, 0, m.logNumber), ImmOf(m) + m.mem;
    assert Line(m, g) == h + newer + late by { LineSplits(m, g); }
    assert UniqueSeq(Line(m, g)) by { PastUnique(g.past, g.issued, m.curLog + 1); }
    assert newer <= Between(g.past, m.logNumber, m.curLog + 1) by { NewerIsLater(m, g.past, late); }
    assert AllNewer(newer, h) by { PastNewer(g.past, g.issued, 0, m.logNumber, m.curLog + 1); }
  }

  lemma NewerIsLater(m: Memory, past: map<nat, seq<Record>>, late: set<Entry>)
    requires LinesOk(m, past) && m.curLog in past && Content(past[m.curLog]) == m.mem + late
    ensures ImmOf(m) + m.mem <= Between(past, m.logNumber, m.curLog + 1)
  {
    BetweenSplits(past, m.logNumber, m.curLog, m.curLog + 1);
    assert Between(past, m.curLog, m.curLog + 1) == Content(past[m.curLog]);
  }

  /** Reading the database is reading the surviving line. */
  lemma ReadsTheLine(d: Disk, m: Memory, g: Ghost, u: UserKey)
    requires RunInv(d, m, g)
    ensures Read(Data(d, m), u, m.lastSequence) == Read(Line(m, g), u, m.lastSequence)
    ensures Data(d, m) <= Line(m, g)
  {
    var f := d.manifests[d.current];
    var base := Summarize(f.recs[..Installed(m, f)]);
    var h, es := Between(g.past, 0, m.logNumber), Entries(d.tables, m.version);
    var late := AppliedSplits(m, d.logs[m.curLog], g.past[m.curLog]);
    LineLayers(m, g, late);
    LayersRead(es, h, ImmOf(m) + m.mem, late, base.last.value, u, m.lastSequence);
    assert es + (ImmOf(m) + m.mem) == Data(d, m);
  }

  /** An issued write that decides a read: it is for the key, and not older than `e` of record `a`. */
  ghost predicate AsNew(issued: seq<Record>, a: nat, e: Entry, b: nat, x: Entry) {
    && b < |issued| && x in issued[b].entries && x.key.user == e.key.user
    && (b > a || (b == a && x.key.sn >= e.key.sn))
  }

  lemma AckedIsBelow(d: Disk, m: Memory, g: Ghost, a: nat, n: nat, i: nat, e: Entry)
    requires RunInv(d, m, g) && a in g.acked && IsAt(g.past, n, i, a) && e in g.past[n][i].entries
    ensures e in Line(m, g) && e.key.sn <= m.lastSequence
  {
    AckedInLine(m, d.logs[m.curLog], g, a, n, i, e);
  }

  lemma AckedInLine(m: Memory, f: Appended<Record>, g: Ghost, a: nat, n: nat, i: nat, e: Entry)
    requires m.curLog in g.past && WriterOk(m, f, g.past[m.curLog]) && LinesOk(m, g.past) && (m.writer.Resting? || m.writer.r.at !in g.acked)
    requires a in g.acked && IsAt(g.past, n, i, a) && e in g.past[n][i].entries
    ensures e in Line(m, g) && e.key.sn <= m.lastSequence
  {
    var rs := g.past[m.curLog];
    assert e in Content(g.past[n]);
    if n < m.curLog {
      assert e in Between(g.past, 0, m.curLog);
    } else {
      assert m.writer.Resting? || i < |rs| - 1;
      assert AckedPart(m, rs)[i] == g.past[n][i];
      assert e in Content(AckedPart(m, rs));
    }
  }

  lemma TopIsAsNew(d: Disk, m: Memory, g: Ghost, a: nat, n: nat, i: nat, e: Entry, x: Entry) returns (b: nat)
    requires RunInv(d, m, g) && IsAt(g.past, n, i, a) && e in g.past[n][i].entries
    requires x in Line(m, g) && x.key.user == e.key.user && x.key.sn >= e.key.sn
    ensures AsNew(g.issued, a, e, b, x)
  {
    var k, j := InBetween(g.past, 0, m.curLog + 1, x);
    b := g.past[k][j].at;
    assert RecordOk(g.past[k][j], g.issued) && RecordOk(g.past[n][i], g.issued);
    InOrder(g.past, g.issued, k, j, n, i);
    InOrder(g.past, g.issued, n, i, k, j);
  }

  /** While the database is open, every key reads as the last write acknowledged to a sync
      writer or as one issued later, however many crashes there were in between. */
  lemma AckedIsRead(d: Disk, m: Memory, g: Ghost, a: nat, e: Entry) returns (b: nat, x: Entry)
    requires RunInv(d, m, g) && a in g.acked && a < |g.issued| && e in g.issued[a].entries
    ensures AsNew(g.issued, a, e, b, x)
    ensures Read(Data(d, m), e.key.user, m.lastSequence) == AnswerOf(x)
  {
    var f := d.manifests[d.current];
    assert Kept(g.past, d.logs, Summarize(f.recs[..Installed(m, f)]).log.value, a);
    var n: nat, i: nat :| IsAt(g.past, n, i, a);
    assert RecordOk(g.past[n][i], g.issued);
    AckedIsBelow(d, m, g, a, n, i, e);
    x := LineTop(d, m, g, e);
    b := TopIsAsNew(d, m, g, a, n, i, e, x);
  }

  lemma LineIsUnique(d: Disk, m: Memory, g: Ghost)
    requires RunInv(d, m, g)
    ensures UniqueSeq(Line(m, g))
  {
    PastUnique(g.past, g.issued, m.curLog + 1);
  }

  lemma TopAnswers(line: set<Entry>, data: set<Entry>, e: Entry, last: nat) returns (x: Entry)
    requires UniqueSeq(line) && e in line && e.key.sn <= last && Read(data, e.key.user, last) == Read(line, e.key.user, last)
    ensures Top(line, e.key.user, last, x) && Read(data, e.key.user, last) == AnswerOf(x)
  {
    x := TopExists(line, e.key.user, last, e);
    ReadTop(line, e.key.user, last, x);
  }

  /** What a read finds for the key of an entry on the line. */
  lemma LineTop(d: Disk, m: Memory, g: Ghost, e: Entry) returns (x: Entry)
    requires RunInv(d, m, g) && e in Line(m, g) && e.key.sn <= m.lastSequence
    ensures Top(Line(m, g), e.key.user, m.lastSequence, x)
    ensures Read(Data(d, m), e.key.user, m.lastSequence) == AnswerOf(x)
  {
    LineIsUnique(d, m, g);
    ReadsTheLine(d, m, g, e.key.user);
    x := TopAnswers(Line(m, g), Data(d, m), e, m.lastSequence);
  }

  lemma GhostGrows(st: State, ev: Event, st': State)
    requires Next(st, ev, st')
    ensures st.g.acked <= st'.g.acked && st.g.issued <= st'.g.issued
  {
  }

  lemma {:induction false} GhostGrowsAlong(run: seq<State>, evs: seq<Event>, i: nat, k: nat)
    requires IsRun(run, evs) && i <= k < |run|
    ensures run[i].g.acked <= run[k].g.acked && run[i].g.issued <= run[k].g.issued
  {
    if i < k {
      GhostGrowsAlong(run, evs, i, k - 1);
      assert StepAt(run, evs, k - 1);
      GhostGrows(run[k - 1], evs[k - 1], run[k]);
    }
  }

  /** Durability, over every run with any number of crashes and recoveries. */
  lemma AckedWritesSurvive(run: seq<State>, evs: seq<Event>, i: nat, k: nat, a: nat, e: Entry) returns (b: nat, x: Entry)
    requires IsRun(run, evs) && i <= k < |run| && run[k].Running?
    requires a in run[i].g.acked && a < |run[i].g.issued| && e in run[i].g.issued[a].entries
    ensures AsNew(run[k].g.issued, a, e, b, x)
    ensures Read(Data(run[k].disk, run[k].m), e.key.user, run[k].m.lastSequence) == AnswerOf(x)
  {
    RunKeepsInv(run, evs, k);
    GhostGrowsAlong(run, evs, i, k);
    b, x := AckedIsRead(run[k].disk, run[k].m, run[k].g, a, e);
  }

  /** New sequence numbers exceed everything the database holds, recovered or not. */
  lemma NewSequencesExceed(run: seq<State>, evs: seq<Event>, i: nat, e: Entry, x: Entry)
    requires IsRun(run, evs) && i < |evs| && run[i].Running? && evs[i].Does? && evs[i].step.Append?
    requires e in evs[i].step.r.entries && x in Line(run[i].m, run[i].g)
    ensures e.key.sn > x.key.sn
    ensures Data(run[i].disk, run[i].m) <= Line(run[i].m, run[i].g)
  {
    RunKeepsInv(run, evs, i);
    var d, m, g := run[i].disk, run[i].m, run[i].g;
    assert StepAt(run, evs, i);
    assert WriteStep(d, m, g, evs[i].step, run[i + 1].disk, run[i + 1].m, run[i + 1].g);
    LineSplits(m, g);
    BetweenSplits(g.past, 0, m.logNumber, m.curLog);
    ReadsTheLine(d, m, g, 0.0);
  }

  /** Garbage collection never deletes a table a live version or a pending output names, and
      all of those are on disk. */
  lemma LiveTablesStay(run: seq<State>, evs: seq<Event>, i: nat, n: nat)
    requires IsRun(run, evs) && i < |run| && run[i].Running? && (n in run[i].m.pending || LiveTable(run[i].m, n))
    ensures n in run[i].disk.tables
    ensures i < |evs| ==> evs[i] != Does(RemoveTable(n))
  {
    RunKeepsInv(run, evs, i);
    var d, m, g := run[i].disk, run[i].m, run[i].g;
    assert i < |evs| ==> StepAt(run, evs, i);
    if i < |evs| && evs[i] == Does(RemoveTable(n)) {
      RemovedIsGarbage(d, m, g, n, run[i + 1].disk, run[i + 1].m);
    }
  }

  lemma LineWasIssued(g: Ghost, hi: nat, x: Entry) returns (b: nat)
    requires PastOk(g.past, g.issued) && x in Between(g.past, 0, hi)
    ensures b < |g.issued| && x in g.issued[b].entries
  {
    var n, j := InBetween(g.past, 0, hi, x);
    b := g.past[n][j].at;
    assert RecordOk(g.past[n][j], g.issued);
  }

  lemma FoundWasIssued(d: Disk, m: Memory, g: Ghost, u: UserKey) returns (b: nat, x: Entry)
    requires RunInv(d, m, g) && Read(Data(d, m), u, m.lastSequence).Found?
    ensures b < |g.issued| && x in g.issued[b].entries && x.key.user == u
    ensures Read(Data(d, m), u, m.lastSequence) == AnswerOf(x)
  {
    ReadsTheLine(d, m, g, u);
    x :| Top(Line(m, g), u, m.lastSequence, x) && x.key.kind.Value? && Read(Line(m, g), u, m.lastSequence) == Found(x.value);
    b := LineWasIssued(g, m.curLog + 1, x);
  }

  /** Nothing is read that was not written. */
  lemma NothingInvented(run: seq<State>, evs: seq<Event>, i: nat, u: UserKey) returns (b: nat, x: Entry)
    requires IsRun(run, evs) && i < |run| && run[i].Running?
    requires Read(Data(run[i].disk, run[i].m), u, run[i].m.lastSequence).Found?
    ensures b < |run[i].g.issued| && x in run[i].g.issued[b].entries && x.key.user == u
    ensures Read(Data(run[i].disk, run[i].m), u, run[i].m.lastSequence) == AnswerOf(x)
  {
    RunKeepsInv(run, evs, i);
    b, x := FoundWasIssued(run[i].disk, run[i].m, run[i].g, u);
  }

  // ---------------------------------------------------------------- recovery can always finish

  lemma {:induction false} Bound(s: set<nat>) returns (n: nat)
    ensures forall k :: k in s ==> k < n
    decreases s
  {
    if k :| k in s {
      var rest := Bound(s - {k});
      n := if rest > k then rest else k + 1;
      assert forall j :: j in s ==> j == k || j in s - {k};
    } else {
      n := 0;
    }
  }

  lemma {:induction false} LastOf(s: Summary, es: set<Entry>) returns (last: nat)
    requires s.last.Some?
    ensures IsLast(s, es, last)
    decreases es
  {
    if e :| e in es {
      var rest := LastOf(s, es - {e});
      last := if rest > e.key.sn then rest else e.key.sn;
      assert forall x :: x in es ==> x == e || x in es - {e};
    } else {
      last := s.last.value;
    }
  }

  /** From whatever a crash leaves, a new log, a table if the logs hold anything, and the switch of
      CURRENT bring the database up again. */
  lemma RecoveryCanFinish(d: Disk, g: Ghost) returns (a: State, b: State, c: State, log: nat, es: set<Entry>)
    requires DownInv(d, g)
    ensures Next(Down(d, g), Repairs(NewLog(log)), a)
    ensures if es == {} then b == a else Next(a, Repairs(WriteTable(log + 1, es)), b)
    ensures c.Running? && Next(b, Repairs(Open(if es == {} then {} else {log + 1}, log, log + 2)), c)
  {
    var s := Summarize(d.manifests[d.current].recs);
    log := Bound(d.logs.Keys + {s.next.value});
    var d1 := d.(logs := d.logs[log := Appended([], 0)]);
    var g1 := g.(past := g.past[log := []]);
    a := Down(d1, g1);
    es := Between(Records(d1.logs), s.log.value, log);
    b, c := CanWriteAndOpen(d1, g1, s, log, es);
  }

  lemma CanWriteAndOpen(d: Disk, g: Ghost, s: Summary, log: nat, es: set<Entry>) returns (b: State, c: State)
    requires d.current in d.manifests && s == Summarize(d.manifests[d.current].recs) && Complete(s)
    requires forall n :: n in s.version ==> n in d.tables
    requires log in d.logs && d.logs[log] == Appended([], 0) && log > s.next.value
    requires forall k :: k in d.logs && k >= s.log.value && k != log ==> k < log
    requires es == Between(Records(d.logs), s.log.value, log)
    ensures if es == {} then b == Down(d, g) else Next(Down(d, g), Repairs(WriteTable(log + 1, es)), b)
    ensures c.Running? && Next(b, Repairs(Open(if es == {} then {} else {log + 1}, log, log + 2)), c)
  {
    if es == {} {
      b := Down(d, g);
      assert Entries(d.tables, {}) == {};
      c := CanOpen(d, g, s, log, {});
    } else {
      var d' := d.(tables := d.tables[log + 1 := Table(es, true)]);
      b := Down(d', g);
      EntriesOfOne(d'.tables, log + 1);
      c := CanOpen(d', g, s, log, {log + 1});
    }
  }

  /** With an empty log and tables of what the older logs hold, the database opens. */
  lemma CanOpen(d: Disk, g: Ghost, s: Summary, log: nat, tables: set<nat>) returns (c: State)
    requires d.current in d.manifests && s == Summarize(d.manifests[d.current].recs) && Complete(s)
    requires forall n :: n in s.version ==> n in d.tables
    requires log in d.logs && d.logs[log] == Appended([], 0) && log > s.next.value
    requires forall k :: k in d.logs && k >= s.log.value && k != log ==> k < log
    requires forall n :: n in tables ==> s.next.value < n < log + 2 && n in d.tables && d.tables[n].synced
    requires Entries(d.tables, tables) == Between(Records(d.logs), s.log.value, log)
    ensures c.Running? && Next(Down(d, g), Repairs(Open(tables, log, log + 2)), c)
  {
    var last := LastOf(s, Entries(d.tables, tables));
    var m := s.next.value;
    var d' := d.(current := m, manifests := d.manifests[m :=
                Appended([Edit({}, s.version, None, None, None),
                          Edit({}, tables, Some(log), Some(log + 2), Some(last))], 2)]);
    var mem := Memory(s.version + tables, multiset{}, log, log + 2, last, log, {}, None,
                      {}, Resting, NoFlush, None, false, Doomed({}, {}, {}));
    c := Running(d', mem, g.(past := Surviving(g.past, d.logs, s.log.value)));
  }

  lemma EntriesOfOne(tables: map<nat, Table>, n: nat)
    requires n in tables
    ensures Entries(tables, {n}) == tables[n].entries
  {
    assert n in {n};
  }
}
