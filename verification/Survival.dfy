/** What the machine of Durability does for its callers, in terms of the events of a run alone: a
    write is read once it is acknowledged, a sync write is read ever after, and garbage goes. */
module Survival {
  import opened Keys
  import opened Lookup
  import opened Files
  import opened Durability

  predicate IsAppend(ev: Event) {
    ev.Does? && ev.step.Append?
  }

  /** Nothing here ends the write under way: no crash, no answer. */
  ghost predicate StillWriting(evs: seq<Event>, p: nat, q: nat)
    requires q <= |evs|
  {
    forall m :: p < m < q ==> !evs[m].Crash? && evs[m] != Does(Ack)
  }

  /** From Append at event `p` to the Ack at `q`. */
  ghost predicate IsWrite(evs: seq<Event>, p: nat, q: nat) {
    p < q < |evs| && IsAppend(evs[p]) && evs[q] == Does(Ack) && StillWriting(evs, p, q)
  }

  /** The writer is at work on this record. */
  predicate WorksOn(w: Writer, r: Record, count: nat, sync: bool) {
    match w
    case Resting => false
    case Logged(r', count', sync') => r' == r && count' == count && sync' == sync
    case Synced(r', count') => r' == r && count' == count && sync
    case Applied(r', count', sync') => r' == r && count' == count && sync' == sync
  }

  // ---------------------------------------------------------------- the line of records

  /** What the append made of the line, and nothing has changed since. */
  ghost predicate UnderWay(st: State, st': State, r: Record, count: nat, sync: bool)
    requires st.Running?
  {
    && st'.Running? && WorksOn(st'.m.writer, r, count, sync) && st'.m.lastSequence == st.m.lastSequence
    && Line(st'.m, st'.g) == Line(st.m, st.g) + r.entries
    && r.at < |st'.g.issued| && st'.g.issued[r.at] == r
  }

  lemma ContentMore(rs: seq<Record>, r: Record)
    ensures Content(rs + [r]) == Content(rs) + r.entries
  {
    var rs' := rs + [r];
    forall e | e in Content(rs) + r.entries ensures e in Content(rs') {
      if e in Content(rs) {
        var i :| 0 <= i < |rs| && e in rs[i].entries;
        assert rs'[i] == rs[i];
      } else {
        assert rs'[|rs|] == r;
      }
    }
  }

  lemma AppendToLine(past: map<nat, seq<Record>>, n: nat, r: Record)
    requires n in past
    ensures Between(past[n := past[n] + [r]], 0, n + 1) == Between(past, 0, n + 1) + r.entries
  {
    var past' := past[n := past[n] + [r]];
    BetweenSplits(past, 0, n, n + 1);
    BetweenSplits(past', 0, n, n + 1);
    BetweenSame(past, past', 0, n);
    assert Between(past, n, n + 1) == Content(past[n]) && Between(past', n, n + 1) == Content(past'[n]);
    ContentMore(past[n], r);
  }

  lemma AppendStarts(st: State, step: Step, st': State)
    requires step.Append? && Next(st, Does(step), st')
    ensures UnderWay(st, st', step.r, step.count, step.sync)
  {
    AppendToLine(st.g.past, st.m.curLog, step.r);
  }

  /** While a write is under way no other begins, no log is switched, and the line stays. */
  lemma WorkKeepsLine(st: State, step: Step, st': State)
    requires Next(st, Does(step), st') && !st.m.writer.Resting? && step != Ack
    ensures st'.m.curLog == st.m.curLog && st'.g == st.g && st'.m.lastSequence == st.m.lastSequence
  {
  }

  lemma WorkGoesOn(st: State, step: Step, st': State, r: Record, count: nat, sync: bool)
    requires Next(st, Does(step), st') && WorksOn(st.m.writer, r, count, sync) && step != Ack
    ensures WorksOn(st'.m.writer, r, count, sync)
  {
  }

  lemma {:induction false} StaysUnderWay(run: seq<State>, evs: seq<Event>, p: nat, m: nat)
    requires IsRun(run, evs) && p < m <= |evs| && IsAppend(evs[p]) && StillWriting(evs, p, m)
    ensures run[p].Running? && UnderWay(run[p], run[m], evs[p].step.r, evs[p].step.count, evs[p].step.sync)
  {
    assert StepAt(run, evs, p);
    if m == p + 1 {
      AppendStarts(run[p], evs[p].step, run[m]);
    } else {
      var h := m - 1;
      StaysUnderWay(run, evs, p, h);
      assert StepAt(run, evs, h);
      WorkKeepsLine(run[h], evs[h].step, run[m]);
      WorkGoesOn(run[h], evs[h].step, run[m], evs[p].step.r, evs[p].step.count, evs[p].step.sync);
    }
  }

  // ---------------------------------------------------------------- reading one's writes

  /** What a read returns. */
  ghost function Current(st: State, u: UserKey): Answer
    requires st.Running?
  {
    Read(Data(st.disk, st.m), u, st.m.lastSequence)
  }

  /** With no write under way, the whole line is at or below the last sequence. */
  lemma LineIsBounded(d: Disk, m: Memory, g: Ghost)
    requires RunInv(d, m, g) && m.writer.Resting?
    ensures UpTo(Line(m, g), m.lastSequence)
  {
    LineIsUpTo(m, g);
  }

  lemma LineIsUpTo(m: Memory, g: Ghost)
    requires LinesOk(m, g.past) && m.curLog in g.past && UpTo(Content(g.past[m.curLog]), m.lastSequence)
    ensures UpTo(Line(m, g), m.lastSequence)
  {
    BetweenSplits(g.past, 0, m.curLog, m.curLog + 1);
    assert Between(g.past, m.curLog, m.curLog + 1) == Content(g.past[m.curLog]);
  }

  lemma LineReads(run: seq<State>, evs: seq<Event>, i: nat, u: UserKey)
    requires IsRun(run, evs) && i < |run| && run[i].Running?
    ensures Current(run[i], u) == Read(Line(run[i].m, run[i].g), u, run[i].m.lastSequence) && UniqueSeq(Line(run[i].m, run[i].g))
  {
    RunKeepsInv(run, evs, i);
    ReadsTheLine(run[i].disk, run[i].m, run[i].g, u);
    LineIsUnique(run[i].disk, run[i].m, run[i].g);
  }

  lemma AckEnds(st: State, st': State, r: Record, count: nat, sync: bool)
    requires Next(st, Does(Ack), st') && WorksOn(st.m.writer, r, count, sync)
    ensures Line(st'.m, st'.g) == Line(st.m, st.g) && st'.m.lastSequence == st.m.lastSequence + count
    ensures sync ==> r.at in st'.g.acked
    ensures st'.g.issued == st.g.issued
  {
  }

  /** Entries with sequence numbers after `last`, up to `last'`. */
  ghost predicate Numbered(es: set<Entry>, last: nat, last': nat) {
    forall e :: e in es ==> last < e.key.sn <= last'
  }

  lemma AppendIsAbove(st: State, step: Step, st': State)
    requires step.Append? && Next(st, Does(step), st')
    ensures st.m.writer.Resting? && Numbered(step.r.entries, st.m.lastSequence, st.m.lastSequence + step.count)
  {
  }

  /** From the append to its answer. */
  lemma AckedLine(run: seq<State>, evs: seq<Event>, p: nat, q: nat)
    requires IsRun(run, evs) && IsWrite(evs, p, q)
    ensures run[p].Running? && run[q + 1].Running? && Line(run[q + 1].m, run[q + 1].g) == Line(run[p].m, run[p].g) + evs[p].step.r.entries
    ensures run[q + 1].m.lastSequence == run[p].m.lastSequence + evs[p].step.count
    ensures Numbered(evs[p].step.r.entries, run[p].m.lastSequence, run[q + 1].m.lastSequence)
    ensures UpTo(Line(run[p].m, run[p].g), run[p].m.lastSequence)
    ensures evs[p].step.sync ==> evs[p].step.r.at in run[q + 1].g.acked
    ensures evs[p].step.r.at < |run[q + 1].g.issued| && run[q + 1].g.issued[evs[p].step.r.at] == evs[p].step.r
  {
    var step := evs[p].step;
    assert StepAt(run, evs, p) && StepAt(run, evs, q);
    StaysUnderWay(run, evs, p, q);
    AppendIsAbove(run[p], step, run[p + 1]);
    AckEnds(run[q], run[q + 1], step.r, step.count, step.sync);
    BoundedAt(run, evs, p);
  }

  lemma BoundedAt(run: seq<State>, evs: seq<Event>, p: nat)
    requires IsRun(run, evs) && p < |run| && run[p].Running? && run[p].m.writer.Resting?
    ensures UpTo(Line(run[p].m, run[p].g), run[p].m.lastSequence)
  {
    RunKeepsInv(run, evs, p);
    LineIsBounded(run[p].disk, run[p].m, run[p].g);
  }

  /** When a write is acknowledged, the newest of its entries for a key is what is read, be it a value
      or a deletion, and other keys read as when it began. */
  lemma AckedIsReadAtOnce(run: seq<State>, evs: seq<Event>, p: nat, q: nat, u: UserKey)
    requires IsRun(run, evs) && IsWrite(evs, p, q)
    ensures run[p].Running? && run[q + 1].Running?
    ensures forall e :: Newest(evs[p].step.r.entries, u, e) ==> Current(run[q + 1], u) == AnswerOf(e)
    ensures (forall e :: e in evs[p].step.r.entries ==> e.key.user != u) ==> Current(run[q + 1], u) == Current(run[p], u)
  {
    AckedLine(run, evs, p, q);
    LineReads(run, evs, p, u);
    LineReads(run, evs, q + 1, u);
    Shows(Line(run[p].m, run[p].g), evs[p].step.r.entries, Line(run[q + 1].m, run[q + 1].g), u,
          run[p].m.lastSequence, run[q + 1].m.lastSequence, Current(run[p], u), Current(run[q + 1], u));
  }

  lemma Shows(a: set<Entry>, es: set<Entry>, a': set<Entry>, u: UserKey, last: nat, last': nat, was: Answer, now: Answer)
    requires a' == a + es && UniqueSeq(a') && UpTo(a, last) && Numbered(es, last, last')
    requires last <= last' && was == Read(a, u, last) && now == Read(a', u, last')
    ensures forall e :: Newest(es, u, e) ==> now == AnswerOf(e)
    ensures (forall e :: e in es ==> e.key.user != u) ==> now == was
  {
    WriteOver(a, es, u, last, last');
  }

  lemma LinesHold(run: seq<State>, evs: seq<Event>, i: nat)
    requires IsRun(run, evs) && i < |run| && run[i].Running?
    ensures LinesOk(run[i].m, run[i].g.past)
  {
    RunKeepsInv(run, evs, i);
  }

  /** Steps that are not an Ack do not change what is read. */
  lemma OthersKeepReads(run: seq<State>, evs: seq<Event>, i: nat, u: UserKey)
    requires IsRun(run, evs) && i < |evs| && evs[i].Does? && evs[i] != Does(Ack)
    ensures run[i].Running? && run[i + 1].Running? && Current(run[i + 1], u) == Current(run[i], u)
  {
    var st, st', step := run[i], run[i + 1], evs[i].step;
    assert StepAt(run, evs, i);
    LineReads(run, evs, i, u);
    LineReads(run, evs, i + 1, u);
    if step.Append? {
      AppendStarts(st, step, st');
      AppendIsAbove(st, step, st');
      OldReadsStay(Line(st.m, st.g), step.r.entries, u, st.m.lastSequence);
    } else {
      LinesHold(run, evs, i);
      OthersKeepLine(st, step, st');
    }
  }

  lemma QuietKeepsLine(st: State, step: Step, st': State)
    requires Next(st, Does(step), st') && !step.Append? && !step.Switch? && step != Ack
    ensures st'.m.curLog == st.m.curLog && st'.g == st.g && st'.m.lastSequence == st.m.lastSequence
  {
  }

  lemma SwitchMoves(st: State, st': State)
    requires st.Running? && LinesOk(st.m, st.g.past) && Next(st, Does(Switch), st')
    ensures Line(st'.m, st'.g) == Line(st.m, st.g) && st'.m.lastSequence == st.m.lastSequence
  {
    SwitchKeepsLine(st.g.past, st.m.curLog, st.m.nextFile);
  }

  lemma OthersKeepLine(st: State, step: Step, st': State)
    requires st.Running? && LinesOk(st.m, st.g.past) && Next(st, Does(step), st') && !step.Append? && step != Ack
    ensures Line(st'.m, st'.g) == Line(st.m, st.g) && st'.m.lastSequence == st.m.lastSequence
  {
    if step.Switch? { SwitchMoves(st, st'); } else { QuietKeepsLine(st, step, st'); }
  }

  lemma SwitchKeepsLine(past: map<nat, seq<Record>>, n: nat, n': nat)
    requires n < n' && forall k :: k in past ==> k <= n
    ensures Between(past[n' := []], 0, n' + 1) == Between(past, 0, n + 1)
  {
    var past' := past[n' := []];
    BetweenSplits(past', 0, n + 1, n' + 1);
    BetweenSame(past, past', 0, n + 1);
    assert Content([]) == {};
    assert Between(past', n + 1, n' + 1) == {};
  }

  // ---------------------------------------------------------------- sync writes survive

  lemma {:induction false} IssuedByAppend(run: seq<State>, evs: seq<Event>, k: nat, b: nat) returns (s: nat)
    requires IsRun(run, evs) && k < |run| && b < |run[k].g.issued|
    ensures s < k && IsAppend(evs[s]) && evs[s].step.r == run[k].g.issued[b] && |run[s].g.issued| == b
  {
    assert k > 0 && StepAt(run, evs, k - 1);
    if b < |run[k - 1].g.issued| {
      s := IssuedByAppend(run, evs, k - 1, b);
      IssuedGrows(run[k - 1], evs[k - 1], run[k]);
    } else {
      s := k - 1;
      IssuedGrows(run[k - 1], evs[k - 1], run[k]);
    }
  }

  lemma IssuedGrows(st: State, ev: Event, st': State)
    requires Next(st, ev, st')
    ensures st'.g.issued == if IsAppend(ev) then st.g.issued + [ev.step.r] else st.g.issued
  {
  }

  lemma {:induction false} IssuedGrowsAlong(run: seq<State>, evs: seq<Event>, i: nat, k: nat)
    requires IsRun(run, evs) && i <= k < |run|
    ensures run[i].g.issued <= run[k].g.issued
  {
    if i < k {
      IssuedGrowsAlong(run, evs, i, k - 1);
      assert StepAt(run, evs, k - 1);
      IssuedGrows(run[k - 1], evs[k - 1], run[k]);
    }
  }

  /** A sync write that was acknowledged is read in every later state in which the database is open,
      however many crashes there were, unless a write appended later to the same key is. */
  lemma SyncWriteSurvives(run: seq<State>, evs: seq<Event>, p: nat, q: nat, k: nat, e: Entry) returns (s: nat, x: Entry)
    requires IsRun(run, evs) && IsWrite(evs, p, q) && evs[p].step.sync && e in evs[p].step.r.entries
    requires q < k < |run| && run[k].Running?
    ensures p <= s < k && IsAppend(evs[s]) && x in evs[s].step.r.entries && x.key.user == e.key.user
    ensures s == p ==> x.key.sn >= e.key.sn
    ensures Current(run[k], e.key.user) == AnswerOf(x)
  {
    var r := evs[p].step.r;
    AckedLine(run, evs, p, q);
    var b;
    b, x := AckedWritesSurvive(run, evs, q + 1, k, r.at, e);
    s := IssuedByAppend(run, evs, k, b);
    IssuedGrowsAlong(run, evs, q + 1, k);
    LabelsInOrder(run, evs, p, s);
  }

  /** Records are labelled in the order of their appends. */
  lemma LabelsInOrder(run: seq<State>, evs: seq<Event>, p: nat, s: nat)
    requires IsRun(run, evs) && p < |evs| && s < |evs| && IsAppend(evs[p]) && IsAppend(evs[s])
    ensures evs[p].step.r.at == |run[p].g.issued|
    ensures s < p ==> |run[s].g.issued| < |run[p].g.issued|
  {
    assert StepAt(run, evs, p) && StepAt(run, evs, s);
    AppendLabels(run[p], evs[p].step, run[p + 1]);
    if s < p {
      IssuedGrows(run[s], evs[s], run[s + 1]);
      IssuedGrowsAlong(run, evs, s + 1, p);
    }
  }

  lemma AppendLabels(st: State, step: Step, st': State)
    requires step.Append? && Next(st, Does(step), st')
    ensures step.r.at == |st.g.issued|
  {
  }

  /** Whatever is read was handed to some earlier append. */
  lemma ReadWasAppended(run: seq<State>, evs: seq<Event>, i: nat, u: UserKey) returns (s: nat, x: Entry)
    requires IsRun(run, evs) && i < |run| && run[i].Running? && Current(run[i], u).Found?
    ensures s < i && IsAppend(evs[s]) && x in evs[s].step.r.entries && x.key.user == u && Current(run[i], u) == AnswerOf(x)
  {
    var b;
    b, x := NothingInvented(run, evs, i, u);
    s := IssuedByAppend(run, evs, i, b);
  }

  // ---------------------------------------------------------------- every write can finish

  /** Four states and three or four steps from any state in which the writer rests: a write with any
      entries under new sequence numbers, up to its answer. */
  lemma WriteCanFinish(st: State, es: set<Entry>, count: nat, sync: bool) returns (a: State, b: State, c: State, d: State, r: Record)
    requires Inv(st) && st.Running? && st.m.writer.Resting? && Numbered(es, st.m.lastSequence, st.m.lastSequence + count)
    requires forall x, y :: x in es && y in es && x.key.sn == y.key.sn ==> x == y
    ensures r.entries == es && Next(st, Does(Append(r, count, sync)), a)
    ensures if sync then Next(a, Does(SyncLog), b) else b == a
    ensures Next(b, Does(Apply), c) && Next(c, Does(Ack), d) && d.m.writer.Resting?
  {
    r := Record(|st.g.issued|, es);
    a := CanAppend(st, r, count, sync);
    b := a;
    if sync { b := CanSync(a); }
    c := CanApply(b);
    d := CanAck(c);
  }

  /** The files and records a step needs are there. */
  ghost predicate IsOpen(st: State) {
    st.Running? && st.disk.current in st.disk.manifests && st.m.curLog in st.disk.logs && st.m.curLog in st.g.past
  }

  lemma CanAppend(st: State, r: Record, count: nat, sync: bool) returns (st': State)
    requires IsOpen(st) && st.m.writer.Resting? && r.at == |st.g.issued| && Numbered(r.entries, st.m.lastSequence, st.m.lastSequence + count)
    requires forall x, y :: x in r.entries && y in r.entries && x.key.sn == y.key.sn ==> x == y
    ensures Next(st, Does(Append(r, count, sync)), st') && IsOpen(st') && st'.m.writer == Logged(r, count, sync)
  {
    var d, m, g := st.disk, st.m, st.g;
    st' := Running(d.(logs := d.logs[m.curLog := AppendTo(d.logs[m.curLog], r)]), m.(writer := Logged(r, count, sync)),
                   g.(past := g.past[m.curLog := g.past[m.curLog] + [r]], issued := g.issued + [r]));
  }

  lemma CanSync(st: State) returns (st': State)
    requires IsOpen(st) && st.m.writer.Logged? && st.m.writer.sync
    ensures Next(st, Does(SyncLog), st') && IsOpen(st') && st'.m.writer == Synced(st.m.writer.r, st.m.writer.count)
  {
    var d, m := st.disk, st.m;
    st' := Running(d.(logs := d.logs[m.curLog := SyncAll(d.logs[m.curLog])]), m.(writer := Synced(m.writer.r, m.writer.count)), st.g);
  }

  lemma CanApply(st: State) returns (st': State)
    requires IsOpen(st) && (st.m.writer.Synced? || (st.m.writer.Logged? && !st.m.writer.sync))
    ensures Next(st, Does(Apply), st') && IsOpen(st') && st'.m.writer.Applied?
  {
    var m := st.m;
    st' := Running(st.disk, m.(mem := m.mem + m.writer.r.entries, writer := Applied(m.writer.r, m.writer.count, m.writer.Synced?)), st.g);
  }

  lemma CanAck(st: State) returns (st': State)
    requires IsOpen(st) && st.m.writer.Applied?
    ensures Next(st, Does(Ack), st') && st'.Running? && st'.m.writer.Resting?
  {
    var m := st.m;
    st' := Running(st.disk, m.(lastSequence := m.lastSequence + m.writer.count, writer := Resting),
                   if m.writer.sync then st.g.(acked := st.g.acked + {m.writer.r.at}) else st.g);
  }

  // ---------------------------------------------------------------- garbage goes

  /** A file on disk that nothing needs: a table that no version in use and no job names, a log whose
      entries are in tables, a manifest CURRENT does not name any more. */
  datatype DiskFile = TableFile(n: nat) | LogFile(n: nat) | ManifestFile(n: nat)

  predicate OnDisk(d: Disk, f: DiskFile) {
    match f
    case TableFile(n) => n in d.tables
    case LogFile(n) => n in d.logs
    case ManifestFile(n) => n in d.manifests
  }

  ghost predicate IsUnused(d: Disk, m: Memory, f: DiskFile) {
    match f
    case TableFile(n) => n !in m.pending && !LiveTable(m, n)
    case LogFile(n) => n < m.logNumber
    case ManifestFile(n) => n < d.current
  }

  predicate IsDoomed(x: Doomed, f: DiskFile) {
    match f
    case TableFile(n) => n in x.tables
    case LogFile(n) => n in x.logs
    case ManifestFile(n) => n in x.manifests
  }

  /** Gone, or about to go. */
  ghost predicate Going(st: State, f: DiskFile) {
    && st.Running? && (OnDisk(st.disk, f) ==> IsDoomed(st.m.doomed, f))
    && match f
       case TableFile(n) => n !in st.m.pending
       case LogFile(n) => n <= st.m.curLog
       case ManifestFile(n) => n < st.disk.current
  }

  lemma GoingGoesOn(st: State, step: Step, st': State, f: DiskFile)
    requires Going(st, f) && !Unoccupied(st.m) && MakingOk(st.disk, st.m) && st.m.curLog < st.m.nextFile && Next(st, Does(step), st')
    ensures Going(st', f)
  {
  }

  /** Events i + 1 to j - 1 belong to the collection begun at event i. */
  ghost predicate Collecting(run: seq<State>, evs: seq<Event>, i: nat, j: nat)
    requires |run| == |evs| + 1
  {
    && i < j < |run| && run[i].Running? && evs[i] == Does(Collect)
    && forall m :: i < m < j ==> evs[m].Does? && run[m].Running? && !Unoccupied(run[m].m)
  }

  lemma {:induction false} StaysGoing(run: seq<State>, evs: seq<Event>, i: nat, j: nat, f: DiskFile)
    requires IsRun(run, evs) && Collecting(run, evs, i, j) && OnDisk(run[i].disk, f) && IsUnused(run[i].disk, run[i].m, f)
    ensures Going(run[j], f)
  {
    var h := j - 1;
    assert StepAt(run, evs, h);
    MakingHolds(run, evs, h);
    if i == h {
      CollectDooms(run[i], run[j], f);
    } else {
      StaysGoing(run, evs, i, h, f);
      GoingGoesOn(run[h], evs[h].step, run[j], f);
    }
  }

  lemma MakingHolds(run: seq<State>, evs: seq<Event>, i: nat)
    requires IsRun(run, evs) && i < |run| && run[i].Running?
    ensures MakingOk(run[i].disk, run[i].m) && run[i].m.logNumber <= run[i].m.curLog < run[i].m.nextFile
  {
    RunKeepsInv(run, evs, i);
  }

  lemma CollectDooms(st: State, st': State, f: DiskFile)
    requires st.Running? && Next(st, Does(Collect), st') && OnDisk(st.disk, f) && IsUnused(st.disk, st.m, f)
    requires st.m.logNumber <= st.m.curLog
    ensures Going(st', f)
  {
  }

  /** When a collection is done, every file that was unused when it began is gone. */
  lemma GarbageGoes(run: seq<State>, evs: seq<Event>, i: nat, j: nat, f: DiskFile)
    requires IsRun(run, evs) && Collecting(run, evs, i, j) && OnDisk(run[i].disk, f) && IsUnused(run[i].disk, run[i].m, f)
    requires run[j].Running? && Unoccupied(run[j].m)
    ensures !OnDisk(run[j].disk, f)
  {
    StaysGoing(run, evs, i, j, f);
  }

  /** Only tables that a flush or a compaction is making are kept for it. */
  ghost predicate PendingIsMade(m: Memory) {
    forall n :: n in m.pending ==>
      || (m.flush.Building? && n == m.flush.n)
      || (m.comp.Some? && (n in m.comp.value.outs || m.comp.value.open == Some(n)))
  }

  lemma TableStepKeepsPending(d: Disk, m: Memory, step: Step, d': Disk, m': Memory)
    requires TableStep(d, m, step, d', m') && PendingIsMade(m)
    ensures PendingIsMade(m')
  {
  }

  lemma OthersKeepPending(st: State, step: Step, st': State)
    requires Next(st, Does(step), st') && !TableStep(st.disk, st.m, step, st'.disk, st'.m) && PendingIsMade(st.m)
    ensures PendingIsMade(st'.m)
  {
    var c, c' := st.m.comp, st'.m.comp;
    assert st'.m.pending == st.m.pending && (st.m.flush.Building? ==> st'.m.flush == st.m.flush);
    assert c.Some? ==> c'.Some? && c'.value.outs == c.value.outs && c'.value.open == c.value.open;
  }

  lemma NextKeepsPending(st: State, ev: Event, st': State)
    requires Next(st, ev, st') && st'.Running? && (st.Running? ==> PendingIsMade(st.m))
    ensures PendingIsMade(st'.m)
  {
    if ev.Does? {
      if TableStep(st.disk, st.m, ev.step, st'.disk, st'.m) {
        TableStepKeepsPending(st.disk, st.m, ev.step, st'.disk, st'.m);
      } else {
        OthersKeepPending(st, ev.step, st');
      }
    }
  }

  lemma {:induction false} RunKeepsPending(run: seq<State>, evs: seq<Event>, i: nat)
    requires IsRun(run, evs) && i < |run| && run[i].Running?
    ensures PendingIsMade(run[i].m)
  {
    assert i > 0 && StepAt(run, evs, i - 1);
    if run[i - 1].Running? { RunKeepsPending(run, evs, i - 1); }
    NextKeepsPending(run[i - 1], evs[i - 1], run[i]);
  }

  // ---------------------------------------------------------------- what a reader holds stays

  lemma NextKeepsHeld(st: State, step: Step, st': State, v: set<nat>)
    requires Next(st, Does(step), st') && v in st.m.held && step != Release(v)
    ensures v in st'.m.held
  {
  }

  /** Between taking a version and giving it back, all of its tables are on disk. */
  lemma {:induction false} HeldTablesStay(run: seq<State>, evs: seq<Event>, i: nat, k: nat, n: nat)
    requires IsRun(run, evs) && i < k < |run| && evs[i] == Does(Hold) && run[i].Running? && n in run[i].m.version
    requires forall j :: i < j < k ==> evs[j].Does? && evs[j] != Does(Release(run[i].m.version))
    ensures run[k].Running? && run[i].m.version in run[k].m.held && n in run[k].disk.tables
  {
    assert StepAt(run, evs, k - 1);
    if i < k - 1 {
      HeldTablesStay(run, evs, i, k - 1, n);
      NextKeepsHeld(run[k - 1], evs[k - 1].step, run[k], run[i].m.version);
    }
    LiveTablesStay(run, evs, k, n);
  }
}
