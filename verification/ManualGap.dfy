/** Why Lsm guards the end of a manual compaction: a run, in which every level and every input is
    the choice of the code's own methods, whose last step leaves a level overlapping. */
module ManualGap {
  import opened Keys
  import opened Lookup
  import opened Files
  import opened Versions
  import opened Picker
  import opened Compaction
  import opened Install
  import opened Lsm

  function OneKey(u: UserKey, sn: nat): Entry {
    Entry(IKey(u, sn, Value), "")
  }

  function One(n: nat, u: UserKey, sn: nat): File {
    File(n, 1, IKey(u, sn, Value), IKey(u, sn, Value), [OneKey(u, sn)])
  }

  function Point(u: UserKey): Range {
    Range(Some(u), Some(u))
  }

  ghost predicate Untouched(v: Version, level: nat, u: UserKey) {
    forall l, f :: 0 <= l <= level && l < NUM_LEVELS && f in v[l] ==> !Overlaps(f, Point(u))
  }

  lemma {:induction false} SelectedSize(fs: seq<File>, r: Range)
    ensures TotalFileSize(Select(fs, r)) <= TotalFileSize(fs)
  {
    if fs != [] {
      var init, last := fs[..|fs| - 1], fs[|fs| - 1];
      SelectedSize(init, r);
      var sel := Select(init, r);
      assert (sel + [last])[..|sel|] == sel;
      assert sel + [] == sel;
    }
  }

  /** The level the code picks for a one-key memtable. */
  method Pick(v: Version, u: UserKey, want: nat, maxFileSize: nat) returns (level: nat)
    requires Good(v) && 0 < want <= 2 && Untouched(v, want, u) && (want < 2 ==> exists f :: f in v[want + 1] && Overlaps(f, Point(u)))
    requires forall l :: 2 <= l <= 3 ==> TotalFileSize(v[l]) <= 10 * maxFileSize
    ensures level == want && IsOutputLevel(v, Point(u), 10 * maxFileSize, level)
  {
    level := PickLevelForMemTableOutput(v, u, u, maxFileSize);
    if level < 2 { SelectedSize(v[level + 2], Point(u)); }
  }

  /** A step whose level or inputs are those the code chooses: PickLevelForMemTableOutput for a flush,
      CompactRange for a compaction. */
  ghost predicate OwnChoice(v: Version, step: Step, maxFileSize: nat) {
    match step
    case Flush(level, f) => IsOutputLevel(v, RangeOf(f), 10 * maxFileSize, level)
    case Start(level, up, low) => IsManualPick(v, level, Range(Some(1.0), Some(3.0)), maxFileSize, up, low)
    case _ => true
  }

  /** One key written, its memtable switched and flushed. */
  function Loaded(st: State, v': Version, level: nat, u: UserKey, n: nat): State
    requires level < |st.used|
  {
    st.(v := v', lastSequence := st.lastSequence + 1, logged := st.lastSequence + 1, nextFile := n + 1, nextLogged := n + 1,
        used := st.used[level := st.used[level] + {n}], history := st.history + {OneKey(u, st.lastSequence + 1)})
  }

  /** A run by the code's own choices. */
  ghost predicate Ends(run: seq<State>, steps: seq<Step>, st: State, maxFileSize: nat) {
    && IsRun(run, steps) && run[|run| - 1] == st
    && forall i :: 0 <= i < |steps| ==> OwnChoice(run[i].v, steps[i], maxFileSize)
  }

  lemma Extend(run: seq<State>, steps: seq<Step>, st: State, step: Step, st': State, maxFileSize: nat)
    requires Ends(run, steps, st, maxFileSize) && Next(st, step, st') && OwnChoice(st.v, step, maxFileSize)
    ensures Ends(run + [st'], steps + [step], st', maxFileSize)
  {
    var r, t := run + [st'], steps + [step];
    forall i | 0 <= i < |t| ensures StepAt(r, t, i) && OwnChoice(r[i].v, t[i], maxFileSize) {
      if i < |steps| { assert StepAt(run, steps, i) && OwnChoice(run[i].v, steps[i], maxFileSize); }
    }
  }

  function Written(st: State, u: UserKey): State {
    var e := OneKey(u, st.lastSequence + 1);
    st.(mem := {e}, lastSequence := st.lastSequence + 1, history := st.history + {e})
  }

  function Switched(st: State): State {
    st.(mem := {}, imm := st.mem)
  }

  lemma FlushStep(st: State, v': Version, level: nat, u: UserKey, n: nat)
    requires st.mem == {} == st.imm && |st.used| == NUM_LEVELS && st.nextFile <= n && 0 < level <= 2 && Untouched(st.v, level, u)
    requires st.lastSequence + 1 <= MAX_SEQ && Flushed(st.v, v', level, One(n, u, st.lastSequence + 1))
    ensures Next(Switched(Written(st, u)), Flush(level, One(n, u, st.lastSequence + 1)), Loaded(st, v', level, u, n))
  {
    var f := One(n, u, st.lastSequence + 1);
    assert f in [f];
    assert NumbersOf([f]) == {n};
    assert Elements(f.entries) == {f.entries[0]};
    forall l, g | 0 <= l <= level && g in st.v[l] ensures !Overlaps(g, RangeOf(f)) { assert !Overlaps(g, Point(u)); }
  }

  method Load(run: seq<State>, steps: seq<Step>, st: State, v': Version, want: nat, u: UserKey, n: nat, maxFileSize: nat)
    returns (run': seq<State>, steps': seq<Step>)
    requires Ends(run, steps, st, maxFileSize) && st.mem == {} == st.imm && st.lastSequence + 1 < MAX_SEQ && |st.used| == NUM_LEVELS && st.nextFile <= n
    requires 0 < want <= 2 && Untouched(st.v, want, u) && (want < 2 ==> exists f :: f in st.v[want + 1] && Overlaps(f, Point(u)))
    requires forall l :: 2 <= l <= 3 ==> TotalFileSize(st.v[l]) <= 10 * maxFileSize
    requires Flushed(st.v, v', want, One(n, u, st.lastSequence + 1))
    ensures Ends(run', steps', Loaded(st, v', want, u, n), maxFileSize)
  {
    GoodEnd(run, steps, st, maxFileSize);
    var level := Pick(st.v, u, want, maxFileSize);
    var write := Write({OneKey(u, st.lastSequence + 1)}, 1);
    var flush := Flush(level, One(n, u, st.lastSequence + 1));
    assert Next(st, write, Written(st, u));
    assert Next(Written(st, u), Switch, Switched(Written(st, u)));
    FlushStep(st, v', level, u, n);
    Extend(run, steps, st, write, Written(st, u), maxFileSize);
    run', steps' := run + [Written(st, u)], steps + [write];
    Extend(run', steps', Written(st, u), Switch, Switched(Written(st, u)), maxFileSize);
    run', steps' := run' + [Switched(Written(st, u))], steps' + [Switch];
    Extend(run', steps', Switched(Written(st, u)), flush, Loaded(st, v', level, u, n), maxFileSize);
    run', steps' := run' + [Loaded(st, v', level, u, n)], steps' + [flush];
  }

  lemma GoodEnd(run: seq<State>, steps: seq<Step>, st: State, maxFileSize: nat)
    requires Ends(run, steps, st, maxFileSize)
    ensures Good(st.v)
  {
    RunKeepsInv(run, steps, |run| - 1);
  }

  const A := One(2, 1.0, 1)
  const C := One(3, 3.0, 2)
  const A2 := One(4, 1.0, 3)
  const C2 := One(5, 3.0, 4)
  const B := One(7, 2.0, 5)
  const JOINED := File(6, 2, A2.smallest, C2.largest, A2.entries + C2.entries)

  const V0: Version := [[], [], [], [], [], [], []]
  const V1: Version := [[], [], [A], [], [], [], []]
  const V2: Version := [[], [], [A, C], [], [], [], []]
  const V3: Version := [[], [A2], [A, C], [], [], [], []]
  const V4: Version := [[], [A2, C2], [A, C], [], [], [], []]
  const V5: Version := [[], [A2, C2], [A, B, C], [], [], [], []]
  const V6: Version := [[], [], [JOINED, B], [], [], [], []]
  const NONE: seq<set<nat>> := [{}, {}, {}, {}, {}, {}, {}]

  lemma Sizes()
    ensures TotalFileSize([]) == 0 && TotalFileSize([A]) == 1 && TotalFileSize([A, C]) == 2 && TotalFileSize([A2]) == 1
  {
    assert [A][..0] == [] && [A, C][..1] == [A] && [A2][..0] == [];
  }

  /** A state between loads. */
  ghost predicate Quiet(st: State, v: Version, n: nat) {
    && st.v == v && st.mem == {} == st.imm && st.lastSequence == n && st.nextFile == n + 2
    && st.logged == n && st.snapshots == multiset{} && st.job.None? && st.floor == 0 && |st.used| == NUM_LEVELS
    && forall l, k :: 0 <= l < NUM_LEVELS && k in st.used[l] ==> k < n + 2
  }

  method LoadOne(maxFileSize: nat) returns (run: seq<State>, steps: seq<Step>, st: State)
    requires maxFileSize >= 2
    ensures Ends(run, steps, st, maxFileSize) && Quiet(st, V1, 1)
  {
    st := State(V0, {}, {}, 0, 0, multiset{}, 2, 2, NONE, None, 0, {});
    run, steps := [st], [];
    Sizes();
    run, steps := Load(run, steps, st, V1, 2, 1.0, 2, maxFileSize);
    st := Loaded(st, V1, 2, 1.0, 2);
  }

  /** Two files on level 2, with nothing between 1.0 and 3.0. */
  method LoadTwo(maxFileSize: nat) returns (run: seq<State>, steps: seq<Step>, st: State)
    requires maxFileSize >= 2
    ensures Ends(run, steps, st, maxFileSize) && Quiet(st, V2, 2)
  {
    run, steps, st := LoadOne(maxFileSize);
    Sizes();
    run, steps := Load(run, steps, st, V2, 2, 3.0, 3, maxFileSize);
    st := Loaded(st, V2, 2, 3.0, 3);
  }

  method LoadThree(maxFileSize: nat) returns (run: seq<State>, steps: seq<Step>, st: State)
    requires maxFileSize >= 2
    ensures Ends(run, steps, st, maxFileSize) && Quiet(st, V3, 3)
  {
    run, steps, st := LoadTwo(maxFileSize);
    Sizes();
    assert A in V2[2] && Overlaps(A, Point(1.0));
    run, steps := Load(run, steps, st, V3, 1, 1.0, 4, maxFileSize);
    st := Loaded(st, V3, 1, 1.0, 4);
  }

  /** Two newer ones over them, which therefore stay on level 1. */
  method LoadFour(maxFileSize: nat) returns (run: seq<State>, steps: seq<Step>, st: State)
    requires maxFileSize >= 2
    ensures Ends(run, steps, st, maxFileSize) && Quiet(st, V4, 4)
  {
    run, steps, st := LoadThree(maxFileSize);
    Sizes();
    assert C in V3[2] && Overlaps(C, Point(3.0));
    run, steps := Load(run, steps, st, V4, 1, 3.0, 5, maxFileSize);
    st := Loaded(st, V4, 1, 3.0, 5);
  }

  ghost predicate TakesAll(up: seq<File>, low: seq<File>) {
    (forall f :: f in up <==> f == A2 || f == C2) && forall f :: f in low <==> f == A || f == C
  }

  /** CompactRange over 1.0 to 3.0 takes all four files. */
  method ChooseAll(maxFileSize: nat) returns (up: seq<File>, low: seq<File>)
    requires maxFileSize >= 2 && Good(V4)
    ensures IsManualPick(V4, 1, Range(Some(1.0), Some(3.0)), maxFileSize, up, low) && TakesAll(up, low)
  {
    var r, any := Range(Some(1.0), Some(3.0)), true;
    assert A2 in V4[1] && Overlaps(A2, r);
    any, up, low := CompactRange(V4, 1, r, maxFileSize);
    SelectBoth(r);
    ghost var k: nat :| IsSizeCut(Select(V4[1], r), k, maxFileSize) && SubList(Select(V4[1], r)[..k], up);
    BothKept(up, k, maxFileSize);
    AllTaken(up, low);
  }

  lemma BothKept(up: seq<File>, k: nat, limit: nat)
    requires limit >= 2 && IsSizeCut([A2, C2], k, limit) && SubList([A2, C2][..k], up)
    ensures A2 in up && C2 in up
  {
    Sizes();
    assert [A2, C2][..1] == [A2] && [A2, C2][..2] == [A2, C2];
    assert A2 in [A2, C2][..k] && C2 in [A2, C2][..k];
  }

  lemma AllTaken(up: seq<File>, low: seq<File>)
    requires Chosen(V4, 1, up, low) && A2 in up && C2 in up
    ensures TakesAll(up, low)
  {
    HullCovers(up, A2);
    HullCovers(up, C2);
    assert V4[1] == [A2, C2] && V4[2] == [A, C];
    assert A in V4[2] && Overlaps(A, Hull(up));
    assert C in V4[2] && Overlaps(C, Hull(up));
  }

  lemma SelectBoth(r: Range)
    requires r == Range(Some(1.0), Some(3.0))
    ensures Select(V4[1], r) == [A2, C2]
  {
    assert [A2, C2][..1] == [A2] && [A2][..0] == [];
    assert Select([], r) == [] && Select([A2], r) == [A2];
  }

  lemma HullCovers(fs: seq<File>, f: File)
    requires f in fs
    ensures Inside(f, Hull(fs))
  {
  }

  lemma FourEntries(all: seq<File>, e: Entry)
    requires forall f :: f in all <==> f == A || f == C || f == A2 || f == C2
    ensures e in Contents(all) <==> e == A.entries[0] || e == C.entries[0] || e == A2.entries[0] || e == C2.entries[0]
  {
    assert A in all && C in all && A2 in all && C2 in all;
    assert A.entries[0] in A.entries && C.entries[0] in C.entries && A2.entries[0] in A2.entries && C2.entries[0] in C2.entries;
  }

  lemma TwoEntries(e: Entry)
    ensures e in Contents([JOINED]) <==> e == A2.entries[0] || e == C2.entries[0]
  {
    assert JOINED in [JOINED] && JOINED.entries == [A2.entries[0], C2.entries[0]];
    assert JOINED.entries[0] in JOINED.entries && JOINED.entries[1] in JOINED.entries;
  }

  lemma JoinedIsOutput(j: Job)
    requires j.input == V4 && j.level == 1 && j.snapshot == 4 && TakesAll(j.up, j.low)
    ensures OutputsOk(j, [JOINED])
  {
    var all := j.up + j.low;
    forall e ensures e in Contents([JOINED]) <==> e in Contents(all) && Survives(Contents(all), V4, 1, 4, e) {
      JoinedSurvives(all, e);
    }
  }

  lemma JoinedSurvives(all: seq<File>, e: Entry)
    requires forall f :: f in all <==> f == A || f == C || f == A2 || f == C2
    ensures e in Contents([JOINED]) <==> e in Contents(all) && Survives(Contents(all), V4, 1, 4, e)
  {
    var a2, c2 := A2.entries[0], C2.entries[0];
    FourEntries(all, e);
    FourEntries(all, a2);
    FourEntries(all, c2);
    TwoEntries(e);
    if x :| x in Contents(all) && x.key.user == e.key.user && e.key.sn < x.key.sn <= 4 { FourEntries(all, x); }
  }

  ghost predicate Runs(st: State, j: Job, n: nat) {
    && st.job == Some(j) && j.input == V4 && j.level == 1 && j.snapshot == 4 && TakesAll(j.up, j.low)
    && st.floor == 0 && st.mem == {} == st.imm && st.logged == st.lastSequence == n
    && (n == 5 ==> OneKey(2.0, 5) in st.history)
    && |st.used| == NUM_LEVELS && forall l :: 0 <= l < NUM_LEVELS ==> 6 !in st.used[l]
  }

  /** The manual compaction begins. */
  method StartAll(maxFileSize: nat) returns (run: seq<State>, steps: seq<Step>, st: State, j: Job)
    requires maxFileSize >= 2
    ensures Ends(run, steps, st, maxFileSize) && st.v == V4 && st.nextFile == 6 && Runs(st, j, 4)
  {
    var before;
    run, steps, before := LoadFour(maxFileSize);
    GoodEnd(run, steps, before, maxFileSize);
    var up, low := ChooseAll(maxFileSize);
    j := Job(1, up, low, 4, V4);
    st := before.(job := Some(j));
    assert SmallestSnapshot(before, 4);
    Extend(run, steps, before, Start(1, up, low), st, maxFileSize);
    run, steps := run + [st], steps + [Start(1, up, low)];
  }

  /** 2.0 is written, and flushed between the files being compacted. */
  method FlushIntoGap(maxFileSize: nat) returns (run: seq<State>, steps: seq<Step>, st: State, j: Job)
    requires maxFileSize >= 2
    ensures Ends(run, steps, st, maxFileSize) && st.v == V5 && st.nextFile == 8 && Runs(st, j, 5)
  {
    var before;
    run, steps, before, j := StartAll(maxFileSize);
    Sizes();
    GapIsOpen();
    run, steps := Load(run, steps, before, V5, 2, 2.0, 7, maxFileSize);
    st := Loaded(before, V5, 2, 2.0, 7);
  }

  lemma GapIsOpen()
    ensures Untouched(V4, 2, 2.0) && Flushed(V4, V5, 2, B)
  {
    assert V4[0] == [] && V4[1] == [A2, C2] && V4[2] == [A, C] && V5[2] == [A, B, C];
  }

  /** A run of the engine by its own choices, and the end of its manual compaction, after which level 2
      overlaps and a key that was written is no longer found. */
  method GapRun(maxFileSize: nat) returns (run: seq<State>, steps: seq<Step>, st: State, st': State, r: Answer)
    requires maxFileSize >= 2
    ensures Ends(run, steps, st, maxFileSize) && Moves(st, Finish([JOINED]), st') && !Good(st'.v)
    ensures st'.mem == {} == st'.imm && r == AnswerTo(DbHit([], [], st'.v, 2.0, st'.lastSequence)) == NotFound
    ensures Read(st'.history, 2.0, st'.lastSequence) == Found("")
  {
    var j;
    run, steps, st, j := FlushIntoGap(maxFileSize);
    st' := st.(v := V6, used := st.used[2 := st.used[2] + {6}], nextLogged := st.nextFile, job := None, floor := 4);
    JoinedIsOutput(j);
    FinishStep(st, st', j);
    assert V6[2][0] == JOINED && V6[2][1] == B;
    assert !SortedDisjoint(V6[2]);
    WrittenIsRead(run, steps, st, maxFileSize);
    NoLongerFound();
    r := DbGet([], [], st'.v, 2.0, st'.lastSequence);
  }

  lemma WrittenIsRead(run: seq<State>, steps: seq<Step>, st: State, maxFileSize: nat)
    requires Ends(run, steps, st, maxFileSize) && st.lastSequence == 5 && OneKey(2.0, 5) in st.history
    ensures Read(st.history, 2.0, 5) == Found("")
  {
    RunKeepsInv(run, steps, |run| - 1);
    assert Top(st.history, 2.0, 5, OneKey(2.0, 5));
    ReadTop(st.history, 2.0, 5, OneKey(2.0, 5));
  }

  /** The binary search of level 2 opens the output, which has a gap where the key was, and no other file. */
  lemma NoLongerFound()
    ensures DbHit([], [], V6, 2.0, 5) == None
  {
    assert LevelHit(true, V6[0], 2.0, 5) == None && LevelHit(false, V6[1], 2.0, 5) == None;
    MissesTheGap();
    assert LevelHit(false, V6[3], 2.0, 5) == None && LevelHit(false, V6[4], 2.0, 5) == None;
    assert LevelHit(false, V6[5], 2.0, 5) == None && LevelHit(false, V6[6], 2.0, 5) == None;
    assert VersionHit(V6, 2.0, 5, 5) == None;
    assert VersionHit(V6, 2.0, 5, 3) == None;
    assert VersionHit(V6, 2.0, 5, 1) == None;
  }

  lemma MissesTheGap()
    ensures LevelHit(false, V6[2], 2.0, 5) == None
  {
    var k := SeekKey(2.0, 5);
    assert Bisect([JOINED, B], k, 0, 2) == Bisect([JOINED, B], k, 0, 1) == Bisect([JOINED, B], k, 0, 0) == 0;
    var es := JOINED.entries;
    assert es == [OneKey(1.0, 3), OneKey(3.0, 4)] && es[1..] == [OneKey(3.0, 4)];
    assert Probe(es[1..], k) == None;
  }

  lemma FinishStep(st: State, st': State, j: Job)
    requires st.v == V5 && st.nextFile == 8 && Runs(st, j, 5) && OutputsOk(j, [JOINED])
    requires st' == st.(v := V6, used := st.used[2 := st.used[2] + {6}], nextLogged := st.nextFile, job := None, floor := 4)
    ensures Moves(st, Finish([JOINED]), st')
  {
    assert JOINED in [JOINED] && NumbersOf([JOINED]) == {6};
    assert Edited(V5[1], V6[1], j.up, []);
    assert Edited(V5[2], V6[2], j.low, [JOINED]) by {
      assert V5[2] == [A, B, C] && V6[2] == [JOINED, B];
    }
  }
}
