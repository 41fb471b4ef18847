/** What one compaction or flush does to a version, for every possible set of inputs that the
    picks can produce: the level invariants survive, and so does every read at or above the
    smallest live snapshot. */
module Install {
  import opened Keys
  import opened Lookup
  import opened Files
  import opened Versions
  import opened Picker
  import opened Compaction

  /** BySmallestKey: the order VersionSet::Builder keeps every level in. */
  predicate BySmallest(f: File, g: File) {
    Less(f.smallest, g.smallest) || (f.smallest == g.smallest && f.number < g.number)
  }

  ghost predicate InOrder(fs: seq<File>) {
    forall i, j :: 0 <= i < j < |fs| ==> BySmallest(fs[i], fs[j])
  }

  /** The effect of applying an edit to one level. */
  ghost predicate Edited(was: seq<File>, now: seq<File>, deleted: seq<File>, added: seq<File>) {
    && InOrder(now)
    && forall f :: f in now <==> (f in was && f !in deleted) || f in added
  }

  ghost predicate Clear(f: File, g: File) {
    Before(f.largest, g.smallest) || Before(g.largest, f.smallest)
  }

  /** A level in builder order whose files are pairwise clear of each other. */
  lemma ClearIsSorted(fs: seq<File>)
    requires AllWellFormed(fs) && InOrder(fs)
    requires forall f, g :: f in fs && g in fs && f != g ==> Clear(f, g)
    ensures SortedDisjoint(fs)
  {
    forall i, j | 0 <= i < j < |fs| ensures Before(fs[i].largest, fs[j].smallest) {
      assert fs[i] in fs && fs[j] in fs && BySmallest(fs[i], fs[j]);
      Ends(fs[i]);
      Ends(fs[j]);
      assert fs[i] != fs[j];
      assert Clear(fs[i], fs[j]);
    }
  }

  // ---------------------------------------------------------------- a running compaction

  datatype Job = Job(level: nat, up: seq<File>, low: seq<File>, snapshot: nat, input: Version)

  ghost predicate AllBefore(g: File, fs: seq<File>) {
    forall f :: f in fs ==> Before(g.largest, f.smallest)
  }

  ghost predicate AllAfter(g: File, fs: seq<File>) {
    forall f :: f in fs ==> Before(f.largest, g.smallest)
  }

  ghost predicate NewerThanAll(g: File, fs: seq<File>) {
    forall f :: f in fs ==> FileNewer(g, f)
  }

  ghost predicate ClearOfAll(g: File, fs: seq<File>) {
    forall f :: f in fs ==> Clear(g, f)
  }

  ghost predicate ApartFromAll(g: File, fs: seq<File>) {
    forall f :: f in fs ==> !Overlaps(g, RangeOf(f))
  }

  /** What must hold of a compaction's inputs in the version it will be installed on, which a
      flush may have changed since the inputs were picked. */
  ghost predicate JobOk(v: Version, j: Job) {
    && j.level + 1 < NUM_LEVELS && Good(j.input)
    && j.up != [] && SubList(j.up, v[j.level]) && SubList(j.low, v[j.level + 1])
    && (forall g :: g in v[j.level] && g !in j.up ==> NewerThanAll(g, j.up))
    && (forall g :: g in v[j.level + 1] && g !in j.low ==> NewerThanAll(g, j.up + j.low) && ClearOfAll(g, j.up + j.low))
    && (forall l, g :: j.level + 2 <= l < NUM_LEVELS && g in v[l] && g !in j.input[l] ==> ApartFromAll(g, j.up + j.low))
  }

  ghost predicate Gapless(j: Job) {
    j.up != [] && GapFree(j.up + j.low)
  }

  /** No other file of the output level lies between the inputs. */
  ghost predicate JobAside(v: Version, j: Job)
    requires j.level + 1 < NUM_LEVELS
  {
    forall g :: g in v[j.level + 1] && g !in j.low ==> AllBefore(g, j.up + j.low) || AllAfter(g, j.up + j.low)
  }

  /** The outputs fit among the files that stay on their level. */
  ghost predicate OutputsFit(v: Version, j: Job, outs: seq<File>)
    requires j.level + 1 < NUM_LEVELS
  {
    forall o, g :: o in outs && g in v[j.level + 1] && g !in j.low ==> Clear(o, g)
  }

  lemma ShareNothing(f: File, g: File)
    requires WellFormed(f) && WellFormed(g)
    requires f.largest.user < g.smallest.user || g.largest.user < f.smallest.user
    ensures FileNewer(f, g)
  {
    forall x, y | x in f.entries && y in g.entries ensures x.key.user != y.key.user {
      InRange(f, x);
      InRange(g, y);
    }
  }

  lemma EarlierIsNewer(f: File, g: File)
    requires WellFormed(f) && WellFormed(g) && Before(f.largest, g.smallest)
    ensures FileNewer(f, g)
  {
    forall x, y | x in f.entries && y in g.entries && x.key.user == y.key.user ensures x.key.sn > y.key.sn {
      InRange(f, x);
      InRange(g, y);
    }
  }

  /** A file left on the upper level holds nothing older for the keys of the inputs. */
  lemma UpperRestIsNewer(v: Version, level: nat, up: seq<File>, g: File)
    requires Good(v) && level < NUM_LEVELS && UpperOk(v, level, up) && g in v[level] && g !in up
    ensures NewerThanAll(g, up)
  {
    GoodLevel(v, level);
    forall f | f in up ensures FileNewer(g, f) {
      assert f in v[level];
      Ends(f);
      Ends(g);
      if level == 0 {
        ShareNothing(g, f);
      } else {
        Apart(v[level], g, f);
        if Before(g.largest, f.smallest) {
          EarlierIsNewer(g, f);
        } else {
          assert !Continues(f, g);
          ShareNothing(g, f);
        }
      }
    }
  }

  /** A file left on the lower level lies wholly to one side of the inputs. */
  lemma LowerRestIsAside(next: seq<File>, up: seq<File>, low: seq<File>, g: File)
    requires SortedDisjoint(next) && up != [] && AllWellFormed(up) && LowerOk(next, up, low) && g in next && g !in low
    ensures AllBefore(g, up + low) || AllAfter(g, up + low)
  {
    Ends(g);
    var h := Hull(up);
    if low == [] {
      assert up + low == up;
    } else {
      var c :| c in low && Overlaps(c, h);
      Apart(next, c, g);
      Ends(c);
      forall f | f in low ensures Before(c.largest, g.smallest) ==> Before(f.largest, g.smallest)
        ensures Before(g.largest, c.smallest) ==> Before(g.largest, f.smallest)
      {
        Apart(next, f, g);
        Ends(f);
      }
    }
  }

  lemma LowerRestIsNewer(next: seq<File>, up: seq<File>, low: seq<File>, g: File)
    requires SortedDisjoint(next) && up != [] && AllWellFormed(up) && LowerOk(next, up, low) && g in next && g !in low
    ensures NewerThanAll(g, up + low)
  {
    Ends(g);
    forall f | f in up + low ensures FileNewer(g, f) {
      if f in up {
        Ends(f);
        ShareNothing(g, f);
      } else {
        assert f in low && f in next;
        Ends(f);
        Apart(next, g, f);
        if Before(g.largest, f.smallest) { EarlierIsNewer(g, f); } else { ShareNothing(g, f); }
      }
    }
  }

  /** Whatever the picks choose is fit to run. */
  lemma ChosenIsOk(v: Version, level: nat, up: seq<File>, low: seq<File>, snapshot: nat)
    requires Good(v) && Chosen(v, level, up, low)
    ensures JobOk(v, Job(level, up, low, snapshot, v)) && JobAside(v, Job(level, up, low, snapshot, v))
  {
    GoodLevel(v, level);
    GoodLevel(v, level + 1);
    forall g | g in v[level] && g !in up ensures NewerThanAll(g, up) { UpperRestIsNewer(v, level, up, g); }
    forall g | g in v[level + 1] && g !in low
      ensures NewerThanAll(g, up + low) && (AllBefore(g, up + low) || AllAfter(g, up + low))
    {
      LowerRestIsAside(v[level + 1], up, low, g);
      LowerRestIsNewer(v[level + 1], up, low, g);
    }
  }

  // ---------------------------------------------------------------- flushing a memtable

  function RangeOf(f: File): Range {
    Range(Some(f.smallest.user), Some(f.largest.user))
  }

  /** A new table with only newer entries, on a level PickLevelForMemTableOutput allows. */
  ghost predicate FlushOk(v: Version, level: nat, f: File) {
    && level < NUM_LEVELS && WellFormed(f)
    && (forall l, g :: 0 <= l < NUM_LEVELS && g in v[l] ==> FileNewer(f, g) && g.number < f.number)
    && (level > 0 ==> forall l, g :: 0 <= l <= level && g in v[l] ==> !Overlaps(g, RangeOf(f)))
  }

  ghost predicate Flushed(v: Version, v': Version, level: nat, f: File)
    requires level < NUM_LEVELS
  {
    && Edited(v[level], v'[level], [], [f])
    && forall l :: 0 <= l < NUM_LEVELS && l != level ==> v'[l] == v[l]
  }

  lemma FlushKeepsGood(v: Version, v': Version, level: nat, f: File)
    requires Good(v) && FlushOk(v, level, f) && Flushed(v, v', level, f)
    ensures Good(v')
  {
    GoodLevel(v, level);
    if level == 0 {
      assert LevelZero(v'[0]);
    } else {
      forall g, h | g in v'[level] && h in v'[level] && g != h ensures Clear(g, h) {
        FlushedIsClear(v, level, f, g, h);
      }
      ClearIsSorted(v'[level]);
    }
    forall l, m, g, h | 0 <= l < m < NUM_LEVELS && g in v'[l] && h in v'[m] ensures FileNewer(g, h) {
      if g in v[l] && h !in v[m] {
        assert h == f && m == level;
        assert !Overlaps(g, RangeOf(f));
        ShareNothing(g, f);
      }
    }
  }

  lemma FlushedIsClear(v: Version, level: nat, f: File, g: File, h: File)
    requires Good(v) && FlushOk(v, level, f) && 0 < level < NUM_LEVELS
    requires (g in v[level] || g == f) && (h in v[level] || h == f) && g != h
    ensures Clear(g, h)
  {
    assert SortedDisjoint(v[level]);
    if g in v[level] && h in v[level] {
      Apart(v[level], g, h);
    } else {
      var k := if g == f then h else g;
      assert !Overlaps(k, RangeOf(f));
    }
  }

  /** A file clear of every input of a gap-free compaction is clear of their whole range. */
  lemma GapFreeKeepsOut(fs: seq<File>, f: File)
    requires fs != [] && GapFree(fs) && AllWellFormed(fs) && WellFormed(f)
    requires forall g :: g in fs ==> !Overlaps(g, RangeOf(f))
    ensures !Overlaps(f, Hull(fs))
  {
    Ends(f);
    Ends(fs[0]);
    var h := Hull(fs);
    assert fs[0] in fs;
    var x := if f.smallest.user >= h.lo.value then f.smallest.user else h.lo.value;
    assert x <= h.hi.value ==> Covers(fs, x);
  }

  /** A flush into a level the compaction also writes, or below it, avoids its inputs. */
  lemma GapFreeFlushAvoidsJob(v: Version, level: nat, f: File, j: Job)
    requires Good(v) && FlushOk(v, level, f) && JobOk(v, j) && GapFree(j.up + j.low) && level > j.level
    ensures !Overlaps(f, Hull(j.up + j.low))
  {
    InputsWellFormed(v, j);
    forall g | g in j.up + j.low ensures !Overlaps(g, RangeOf(f)) {
      assert g in v[j.level] || g in v[j.level + 1];
    }
    GapFreeKeepsOut(j.up + j.low, f);
  }

  /** A flush in the middle of a compaction leaves its inputs fit to finish. */
  lemma FlushKeepsJob(v: Version, v': Version, level: nat, f: File, j: Job)
    requires Good(v) && FlushOk(v, level, f) && Flushed(v, v', level, f) && JobOk(v, j)
    ensures JobOk(v', j)
  {
    forall g | g in j.up ensures g in v'[j.level] { assert g in v[j.level]; }
    forall g | g in j.low ensures g in v'[j.level + 1] { assert g in v[j.level + 1]; }
    FlushKeepsUpper(v, v', level, f, j);
    FlushKeepsLower(v, v', level, f, j);
    FlushKeepsDeep(v, v', level, f, j);
  }

  /** A file flushed below the level of a compaction touches none of its inputs. */
  lemma FlushIsApart(v: Version, level: nat, f: File, j: Job)
    requires Good(v) && FlushOk(v, level, f) && JobOk(v, j) && level > j.level
    ensures NewerThanAll(f, j.up + j.low) && ClearOfAll(f, j.up + j.low) && ApartFromAll(f, j.up + j.low)
  {
    InputsWellFormed(v, j);
    Ends(f);
    forall g | g in j.up + j.low ensures FileNewer(f, g) && Clear(f, g) && !Overlaps(f, RangeOf(g)) {
      assert g in v[j.level] || g in v[j.level + 1];
      Ends(g);
      assert !Overlaps(g, RangeOf(f));
    }
  }

  lemma FlushKeepsLower(v: Version, v': Version, level: nat, f: File, j: Job)
    requires Good(v) && FlushOk(v, level, f) && Flushed(v, v', level, f) && JobOk(v, j)
    ensures forall g :: g in v'[j.level + 1] && g !in j.low ==> NewerThanAll(g, j.up + j.low) && ClearOfAll(g, j.up + j.low)
  {
    forall g | g in v'[j.level + 1] && g !in j.low ensures NewerThanAll(g, j.up + j.low) && ClearOfAll(g, j.up + j.low) {
      if g !in v[j.level + 1] {
        assert g == f;
        FlushIsApart(v, level, f, j);
      }
    }
  }

  lemma FlushKeepsDeep(v: Version, v': Version, level: nat, f: File, j: Job)
    requires Good(v) && FlushOk(v, level, f) && Flushed(v, v', level, f) && JobOk(v, j)
    ensures forall l, g :: j.level + 2 <= l < NUM_LEVELS && g in v'[l] && g !in j.input[l] ==> ApartFromAll(g, j.up + j.low)
  {
    forall l, g | j.level + 2 <= l < NUM_LEVELS && g in v'[l] && g !in j.input[l] ensures ApartFromAll(g, j.up + j.low) {
      if g !in v[l] {
        assert g == f;
        FlushIsApart(v, level, f, j);
      }
    }
  }

  /** With gap-free inputs, no flush gets between them. */
  lemma GapFreeFlushKeepsAside(v: Version, v': Version, level: nat, f: File, j: Job)
    requires Good(v) && FlushOk(v, level, f) && Flushed(v, v', level, f) && JobOk(v, j) && JobAside(v, j) && GapFree(j.up + j.low)
    ensures JobAside(v', j)
  {
    var all := j.up + j.low;
    forall g | g in v'[j.level + 1] && g !in j.low ensures AllBefore(g, all) || AllAfter(g, all) {
      if g !in v[j.level + 1] {
        assert g == f;
        GapFreeFlushAvoidsJob(v, level, f, j);
        OutsideHull(all, f);
      }
    }
  }

  lemma FlushKeepsUpper(v: Version, v': Version, level: nat, f: File, j: Job)
    requires Good(v) && FlushOk(v, level, f) && Flushed(v, v', level, f) && JobOk(v, j)
    ensures forall g :: g in v'[j.level] && g !in j.up ==> NewerThanAll(g, j.up)
  {
    forall g | g in v'[j.level] && g !in j.up ensures NewerThanAll(g, j.up) {
      if g !in v[j.level] {
        assert g == f;
        forall h | h in j.up ensures FileNewer(f, h) { assert h in v[j.level]; }
      }
    }
  }

  lemma OutsideHull(fs: seq<File>, f: File)
    requires fs != [] && !Overlaps(f, Hull(fs))
    ensures AllBefore(f, fs) || AllAfter(f, fs)
  {
  }

  /** The level-0 tables recovery writes from the logs keep every invariant. */
  lemma RecoveryKeepsGood(v: Version, v': Version, ts: seq<File>)
    requires Good(v) && AllWellFormed(ts) && Edited(v[0], v'[0], [], ts) && forall l :: 0 < l < NUM_LEVELS ==> v'[l] == v[l]
    requires forall i, k :: 0 <= i < k < |ts| ==> ts[i].number < ts[k].number && FileNewer(ts[k], ts[i])
    requires forall t, l, g :: t in ts && 0 <= l < NUM_LEVELS && g in v[l] ==> FileNewer(t, g) && g.number < t.number
    ensures Good(v') && AllEntries(v') == AllEntries(v) + Contents(ts)
  {
    assert LevelZero(v'[0]);
    forall l, m, g, h | 0 <= l < m < NUM_LEVELS && g in v'[l] && h in v'[m] ensures FileNewer(g, h) {
      assert h in v[m] && (g in v[l] || (l == 0 && g in ts));
    }
    forall e ensures e in AllEntries(v') <==> e in AllEntries(v) + Contents(ts) { RecoveredEntry(v, v', ts, e); }
  }

  lemma RecoveredEntry(v: Version, v': Version, ts: seq<File>, e: Entry)
    requires Edited(v[0], v'[0], [], ts) && forall l :: 0 < l < NUM_LEVELS ==> v'[l] == v[l]
    ensures e in AllEntries(v') <==> e in AllEntries(v) + Contents(ts)
  {
    if e in AllEntries(v') {
      var l, g :| 0 <= l < NUM_LEVELS && g in v'[l] && e in g.entries;
      assert g in v[l] || g in ts;
    }
    if e in AllEntries(v) {
      var l, g :| 0 <= l < NUM_LEVELS && g in v[l] && e in g.entries;
      assert g in v'[l];
    }
    if e in Contents(ts) {
      var t :| t in ts && e in t.entries;
      assert t in v'[0];
    }
  }

  // ---------------------------------------------------------------- installing a compaction

  ghost predicate FromInputs(j: Job, outs: seq<File>) {
    SortedDisjoint(outs) && Contents(outs) <= Contents(j.up + j.low)
  }

  /** The outputs of DoCompactionWork, cut into files. */
  ghost predicate OutputsOk(j: Job, outs: seq<File>) {
    && FromInputs(j, outs)
    && forall e :: e in Contents(outs) <==>
         e in Contents(j.up + j.low) && Survives(Contents(j.up + j.low), j.input, j.level, j.snapshot, e)
  }

  ghost predicate Finished(v: Version, v': Version, j: Job, outs: seq<File>)
    requires j.level + 1 < NUM_LEVELS
  {
    && Edited(v[j.level], v'[j.level], j.up, [])
    && Edited(v[j.level + 1], v'[j.level + 1], j.low, outs)
    && forall l :: 0 <= l < NUM_LEVELS && l != j.level && l != j.level + 1 ==> v'[l] == v[l]
  }

  /** An output entry comes from an input file. */
  lemma Origin(j: Job, outs: seq<File>, o: File, x: Entry) returns (f: File)
    requires FromInputs(j, outs) && o in outs && x in o.entries
    ensures f in j.up + j.low && x in f.entries
  {
    assert x in Contents(outs);
    f :| f in j.up + j.low && x in f.entries;
  }

  lemma OutputStaysAside(j: Job, outs: seq<File>, o: File, g: File)
    requires FromInputs(j, outs) && o in outs && AllWellFormed(j.up + j.low) && WellFormed(g)
    requires AllBefore(g, j.up + j.low) || AllAfter(g, j.up + j.low)
    ensures Clear(o, g)
  {
    var first, last := o.entries[0], o.entries[|o.entries| - 1];
    var f := Origin(j, outs, o, first);
    InRange(f, first);
    var f' := Origin(j, outs, o, last);
    InRange(f', last);
  }

  lemma NewerThanOutput(j: Job, outs: seq<File>, o: File, g: File)
    requires FromInputs(j, outs) && o in outs && NewerThanAll(g, j.up + j.low)
    ensures FileNewer(g, o)
  {
    forall y, x | y in g.entries && x in o.entries && y.key.user == x.key.user ensures y.key.sn > x.key.sn {
      var f := Origin(j, outs, o, x);
      assert FileNewer(g, f);
    }
  }

  lemma OutputIsNewer(j: Job, outs: seq<File>, o: File, g: File)
    requires FromInputs(j, outs) && o in outs
    requires forall f :: f in j.up + j.low ==> FileNewer(f, g)
    ensures FileNewer(o, g)
  {
    forall x, y | x in o.entries && y in g.entries && y.key.user == x.key.user ensures x.key.sn > y.key.sn {
      var f := Origin(j, outs, o, x);
      assert FileNewer(f, g);
    }
  }

  /** Files on levels above the inputs, or left beside them, hold only newer entries. */
  lemma RestIsNewer(v: Version, j: Job, l: nat, g: File)
    requires Good(v) && JobOk(v, j) && l <= j.level + 1 && g in v[l]
    requires l == j.level ==> g !in j.up
    requires l == j.level + 1 ==> g !in j.low
    ensures NewerThanAll(g, j.up + j.low)
  {
    if l <= j.level {
      forall f | f in j.up + j.low ensures FileNewer(g, f) {
        if f in j.up {
          assert f in v[j.level];
          if l == j.level { assert NewerThanAll(g, j.up); }
        } else {
          assert f in v[j.level + 1];
        }
      }
    }
  }

  lemma InputsAreNewer(v: Version, j: Job, l: nat, g: File)
    requires Good(v) && JobOk(v, j) && j.level + 2 <= l < NUM_LEVELS && g in v[l]
    ensures forall f :: f in j.up + j.low ==> FileNewer(f, g)
  {
    forall f | f in j.up + j.low ensures FileNewer(f, g) {
      assert f in v[j.level] || f in v[j.level + 1];
    }
  }

  lemma InputsWellFormed(v: Version, j: Job)
    requires Good(v) && JobOk(v, j)
    ensures AllWellFormed(j.up + j.low)
  {
    GoodLevel(v, j.level);
    GoodLevel(v, j.level + 1);
    forall f | f in j.up + j.low ensures WellFormed(f) {
      assert f in v[j.level] || f in v[j.level + 1];
    }
  }

  /** With nothing between the inputs, outputs always fit. */
  lemma AsideFits(v: Version, j: Job, outs: seq<File>)
    requires Good(v) && JobOk(v, j) && JobAside(v, j) && FromInputs(j, outs)
    ensures OutputsFit(v, j, outs)
  {
    InputsWellFormed(v, j);
    GoodLevel(v, j.level + 1);
    forall o, g | o in outs && g in v[j.level + 1] && g !in j.low ensures Clear(o, g) { OutputStaysAside(j, outs, o, g); }
  }

  lemma FinishedLower(v: Version, v': Version, j: Job, outs: seq<File>)
    requires Good(v) && JobOk(v, j) && FromInputs(j, outs) && OutputsFit(v, j, outs) && Finished(v, v', j, outs)
    ensures SortedDisjoint(v'[j.level + 1])
  {
    var l := j.level + 1;
    GoodLevel(v, l);
    forall g, h | g in v'[l] && h in v'[l] && g != h ensures Clear(g, h) {
      if g in outs {
        if h in outs { Apart(outs, g, h); } else { assert Clear(g, h); }
      } else if h in outs {
        assert Clear(h, g);
      } else {
        Apart(v[l], g, h);
      }
    }
    ClearIsSorted(v'[l]);
  }

  lemma FinishedUpper(v: Version, v': Version, j: Job, outs: seq<File>)
    requires Good(v) && JobOk(v, j) && Finished(v, v', j, outs)
    ensures j.level == 0 ==> LevelZero(v'[0])
    ensures j.level > 0 ==> SortedDisjoint(v'[j.level])
  {
    var l := j.level;
    GoodLevel(v, l);
    if l > 0 {
      forall g, h | g in v'[l] && h in v'[l] && g != h ensures Clear(g, h) { Apart(v[l], g, h); }
      ClearIsSorted(v'[l]);
    }
  }

  /** The version a compaction installs is good again, if its outputs fit. */
  lemma FinishKeepsGood(v: Version, v': Version, j: Job, outs: seq<File>)
    requires Good(v) && JobOk(v, j) && FromInputs(j, outs) && OutputsFit(v, j, outs) && Finished(v, v', j, outs)
    ensures Good(v')
  {
    FinishedUpper(v, v', j, outs);
    FinishedLower(v, v', j, outs);
    forall l, m, g, h | 0 <= l < m < NUM_LEVELS && g in v'[l] && h in v'[m] ensures FileNewer(g, h) {
      if m == j.level + 1 && h in outs {
        RestIsNewer(v, j, l, g);
        NewerThanOutput(j, outs, h, g);
      } else if l == j.level + 1 && g in outs {
        InputsAreNewer(v, j, m, h);
        OutputIsNewer(j, outs, g, h);
      } else {
        assert g in v[l] && h in v[m];
      }
    }
  }

  ghost predicate IsInput(j: Job, l: nat, f: File) {
    (l == j.level && f in j.up) || (l == j.level + 1 && f in j.low)
  }

  /** The entries a compaction does not touch. */
  ghost function Rest(v: Version, j: Job): set<Entry> {
    set l, f, e | 0 <= l < NUM_LEVELS && f in v[l] && !IsInput(j, l, f) && e in f.entries :: e
  }

  lemma SplitBefore(v: Version, j: Job)
    requires j.level + 1 < NUM_LEVELS && SubList(j.up, v[j.level]) && SubList(j.low, v[j.level + 1])
    ensures AllEntries(v) == Rest(v, j) + Contents(j.up + j.low)
  {
    forall e | e in AllEntries(v) ensures e in Rest(v, j) + Contents(j.up + j.low) {
      var l, f :| 0 <= l < NUM_LEVELS && f in v[l] && e in f.entries;
      if IsInput(j, l, f) { assert f in j.up + j.low; }
    }
    forall e | e in Contents(j.up + j.low) ensures e in AllEntries(v) {
      var f :| f in j.up + j.low && e in f.entries;
      assert f in v[j.level] || f in v[j.level + 1];
    }
  }

  lemma SplitAfter(v: Version, v': Version, j: Job, outs: seq<File>)
    requires j.level + 1 < NUM_LEVELS && Finished(v, v', j, outs)
    ensures AllEntries(v') == Rest(v, j) + Contents(outs)
  {
    forall e | e in AllEntries(v') ensures e in Rest(v, j) + Contents(outs) {
      var l, f :| 0 <= l < NUM_LEVELS && f in v'[l] && e in f.entries;
      if f in v[l] && !IsInput(j, l, f) { assert e in Rest(v, j); } else { assert f in outs; }
    }
    forall e | e in Rest(v, j) ensures e in AllEntries(v') {
      var l, f :| 0 <= l < NUM_LEVELS && f in v[l] && !IsInput(j, l, f) && e in f.entries;
      assert f in v'[l];
    }
    forall e | e in Contents(outs) ensures e in AllEntries(v') {
      var f :| f in outs && e in f.entries;
      assert f in v'[j.level + 1];
    }
  }

  /** Below the output level, no file holds a key the base-level test found nowhere there. */
  lemma DeepFilesLackIt(v: Version, j: Job, f: File, u: UserKey, l: nat, g: File, x: Entry)
    requires Good(v) && JobOk(v, j) && IsBase(j.input, j.level, u) && f in j.up + j.low && Contains(RangeOf(f), u)
    requires j.level + 1 < l < NUM_LEVELS && g in v[l] && x in g.entries
    ensures x.key.user != u
  {
    GoodLevel(v, l);
    InRange(g, x);
    if g !in j.input[l] { assert ApartFromAll(g, j.up + j.low); }
  }

  /** A tombstone the compaction may drop has nothing older anywhere else. */
  lemma DroppedTombstone(v: Version, j: Job, e: Entry)
    requires Good(v) && JobOk(v, j) && e in Contents(j.up + j.low) && IsBase(j.input, j.level, e.key.user)
    ensures NothingOlder(Rest(v, j), e)
  {
    var f :| f in j.up + j.low && e in f.entries;
    InputsWellFormed(v, j);
    InRange(f, e);
    forall x | x in Rest(v, j) && x.key.user == e.key.user ensures x.key.sn > e.key.sn {
      var l, g :| 0 <= l < NUM_LEVELS && g in v[l] && !IsInput(j, l, g) && x in g.entries;
      if l <= j.level + 1 {
        RestIsNewer(v, j, l, g);
        assert FileNewer(g, f);
      } else {
        DeepFilesLackIt(v, j, f, e.key.user, l, g, x);
      }
    }
  }

  /** What the outputs leave out, the two drop rules allow. */
  lemma FinishIsProperDrop(v: Version, j: Job, outs: seq<File>, newer: set<Entry>)
    requires Good(v) && JobOk(v, j) && OutputsOk(j, outs) && NewerThan(newer, AllEntries(v))
    ensures ProperDrop(newer + Rest(v, j), Contents(j.up + j.low), Contents(outs), j.snapshot)
  {
    var rest, inputs, kept := newer + Rest(v, j), Contents(j.up + j.low), Contents(outs);
    SplitBefore(v, j);
    forall e | e in inputs && e !in kept && !Shadowed(inputs, j.snapshot, e)
      ensures e.key.kind.Deletion? && e.key.sn <= j.snapshot && NothingOlder(rest, e)
    {
      assert !Survives(inputs, j.input, j.level, j.snapshot, e);
      DroppedTombstone(v, j, e);
    }
  }

  lemma SplitUnder(v: Version, v': Version, j: Job, outs: seq<File>, newer: set<Entry>)
    requires Good(v) && JobOk(v, j) && OutputsOk(j, outs) && Finished(v, v', j, outs)
    ensures newer + Rest(v, j) + Contents(j.up + j.low) == newer + AllEntries(v)
    ensures newer + Rest(v, j) + Contents(outs) == newer + AllEntries(v')
  {
    SplitBefore(v, j);
    SplitAfter(v, v', j, outs);
  }

  lemma UniqueUnder(v: Version, newer: set<Entry>)
    requires Good(v) && UniqueSeq(newer) && NewerThan(newer, AllEntries(v))
    ensures UniqueSeq(newer + AllEntries(v))
  {
    GoodIsUnique(v);
  }

  /** No read at or above the compaction's snapshot changes when its result is installed. */
  lemma FinishPreservesReads(v: Version, v': Version, j: Job, outs: seq<File>, newer: set<Entry>, u: UserKey, s: nat)
    requires Good(v) && JobOk(v, j) && OutputsOk(j, outs) && Finished(v, v', j, outs)
    requires UniqueSeq(newer) && NewerThan(newer, AllEntries(v)) && j.snapshot <= s
    ensures Read(newer + AllEntries(v'), u, s) == Read(newer + AllEntries(v), u, s)
  {
    SplitUnder(v, v', j, outs, newer);
    UniqueUnder(v, newer);
    FinishIsProperDrop(v, j, outs, newer);
    DropPreservesReads(newer + Rest(v, j), Contents(j.up + j.low), Contents(outs), j.snapshot, u, s);
  }

  /** A trivial move is a compaction that keeps everything. */
  lemma MoveKeepsGood(v: Version, v': Version, level: nat, f: File)
    requires Good(v) && Chosen(v, level, [f], [])
    requires Finished(v, v', Job(level, [f], [], 0, v), [f])
    ensures Good(v') && AllEntries(v') == AllEntries(v)
  {
    var j := Job(level, [f], [], 0, v);
    ChosenIsOk(v, level, [f], [], 0);
    GoodLevel(v, level);
    assert f in v[level] by { assert f in [f]; }
    assert [f] + [] == [f];
    AsideFits(v, j, [f]);
    FinishKeepsGood(v, v', j, [f]);
    SplitBefore(v, j);
    SplitAfter(v, v', j, [f]);
  }

  /** Exactly when the outputs fit is the version a compaction installs good again. */
  lemma FinishIsGoodIff(v: Version, v': Version, j: Job, outs: seq<File>)
    requires Good(v) && JobOk(v, j) && FromInputs(j, outs) && Finished(v, v', j, outs)
    ensures Good(v') <==> OutputsFit(v, j, outs)
    ensures SortedDisjoint(v'[j.level + 1]) <==> OutputsFit(v, j, outs)
  {
    var l := j.level + 1;
    if OutputsFit(v, j, outs) {
      FinishKeepsGood(v, v', j, outs);
    }
    if SortedDisjoint(v'[l]) {
      forall o, g | o in outs && g in v[l] && g !in j.low ensures Clear(o, g) {
        OutputIsNoOther(v, j, outs, o, g);
        Apart(v'[l], o, g);
      }
    }
    if Good(v') { GoodLevel(v', l); }
  }

  lemma OutputIsNoOther(v: Version, j: Job, outs: seq<File>, o: File, g: File)
    requires JobOk(v, j) && FromInputs(j, outs) && o in outs && g in v[j.level + 1] && g !in j.low
    ensures o != g
  {
    var x := o.entries[0];
    var f := Origin(j, outs, o, x);
    assert FileNewer(g, f);
  }

  /** An output has entries on both sides of a file. */
  ghost predicate Straddles(o: File, g: File) {
    exists x, y :: x in o.entries && y in o.entries && Before(x.key, g.smallest) && Before(g.largest, y.key)
  }

  /** Among files clear of every input, an output fits exactly where it does not straddle. */
  lemma FitsUnlessStraddling(v: Version, j: Job, outs: seq<File>)
    requires Good(v) && JobOk(v, j) && FromInputs(j, outs)
    ensures OutputsFit(v, j, outs) <==> forall o, g :: o in outs && g in v[j.level + 1] && g !in j.low ==> !Straddles(o, g)
  {
    InputsWellFormed(v, j);
    GoodLevel(v, j.level + 1);
    forall o, g | o in outs && g in v[j.level + 1] && g !in j.low ensures Clear(o, g) <==> !Straddles(o, g) {
      ClearUnlessStraddling(j, outs, o, g);
    }
  }

  lemma ClearUnlessStraddling(j: Job, outs: seq<File>, o: File, g: File)
    requires FromInputs(j, outs) && o in outs && AllWellFormed(j.up + j.low) && WellFormed(g) && ClearOfAll(g, j.up + j.low)
    ensures Clear(o, g) <==> !Straddles(o, g)
  {
    var first, last := o.entries[0], o.entries[|o.entries| - 1];
    var f := Origin(j, outs, o, first);
    var h := Origin(j, outs, o, last);
    InRange(f, first);
    InRange(h, last);
    Ends(g);
    assert first in o.entries && last in o.entries;
    if Straddles(o, g) { StraddlersMeet(o, g); }
  }

  lemma StraddlersMeet(o: File, g: File)
    requires WellFormed(o) && WellFormed(g) && Straddles(o, g)
    ensures !Clear(o, g)
  {
    var x, y :| x in o.entries && y in o.entries && Before(x.key, g.smallest) && Before(g.largest, y.key);
    InRange(o, x);
    InRange(o, y);
    Ends(g);
  }

  // ---------------------------------------------------------------- the outputs of a compaction

  /** A table and its metadata. */
  predicate IsFileOf(f: File, es: seq<Entry>) {
    es != [] && f.entries == es && f.smallest == es[0].key && f.largest == es[|es| - 1].key
  }

  ghost predicate AreFilesOf(fs: seq<File>, outputs: seq<seq<Entry>>) {
    |fs| == |outputs| && forall i :: 0 <= i < |fs| ==> IsFileOf(fs[i], outputs[i])
  }

  lemma SortedParts(a: seq<Entry>, b: seq<Entry>, s: seq<Entry>)
    requires s == a + b && Sorted(s)
    ensures Sorted(a) && Sorted(b) && forall x, y :: x in a && y in b ==> Before(x.key, y.key)
  {
    assert forall i :: 0 <= i < |a| ==> s[i] == a[i];
    assert forall i :: 0 <= i < |b| ==> s[|a| + i] == b[i];
  }

  lemma {:induction false} FlattenMembers(outputs: seq<seq<Entry>>)
    ensures forall e :: e in Flatten(outputs) <==> exists o :: o in outputs && e in o
  {
    if outputs != [] {
      var init, last := outputs[..|outputs| - 1], outputs[|outputs| - 1];
      FlattenMembers(init);
      assert outputs == init + [last];
    }
  }

  lemma {:induction false} CutSorted(outputs: seq<seq<Entry>>, i: nat)
    requires Sorted(Flatten(outputs)) && i < |outputs|
    ensures Sorted(outputs[i])
    decreases |outputs|
  {
    var n := |outputs| - 1;
    SortedParts(Flatten(outputs[..n]), outputs[n], Flatten(outputs));
    if i < n { CutSorted(outputs[..n], i); }
  }

  lemma {:induction false} CutApart(outputs: seq<seq<Entry>>, i: nat, j: nat, x: Entry, y: Entry)
    requires Sorted(Flatten(outputs)) && i < j < |outputs| && x in outputs[i] && y in outputs[j]
    ensures Before(x.key, y.key)
    decreases |outputs|
  {
    var n := |outputs| - 1;
    SortedParts(Flatten(outputs[..n]), outputs[n], Flatten(outputs));
    if j < n {
      CutApart(outputs[..n], i, j, x, y);
    } else {
      FlattenMembers(outputs[..n]);
      assert outputs[..n][i] in outputs[..n];
    }
  }

  lemma CutFileIsWellFormed(f: File, outputs: seq<seq<Entry>>, i: nat)
    requires i < |outputs| && IsFileOf(f, outputs[i])
    requires Sorted(Flatten(outputs)) && forall e :: e in Flatten(outputs) ==> e.key.sn <= MAX_SEQ
    ensures WellFormed(f)
  {
    CutSorted(outputs, i);
    FlattenMembers(outputs);
    assert outputs[i] in outputs;
  }

  /** Output tables cut from a sorted stream are sorted and disjoint. */
  lemma CutFilesAreDisjoint(fs: seq<File>, outputs: seq<seq<Entry>>)
    requires AreFilesOf(fs, outputs) && Sorted(Flatten(outputs)) && forall e :: e in Flatten(outputs) ==> e.key.sn <= MAX_SEQ
    ensures SortedDisjoint(fs)
  {
    forall f | f in fs ensures WellFormed(f) {
      var i :| 0 <= i < |fs| && fs[i] == f;
      CutFileIsWellFormed(f, outputs, i);
    }
    forall i, j | 0 <= i < j < |fs| ensures Before(fs[i].largest, fs[j].smallest) {
      var a, b := outputs[i], outputs[j];
      assert IsFileOf(fs[i], a) && IsFileOf(fs[j], b);
      CutApart(outputs, i, j, a[|a| - 1], b[0]);
    }
  }

  lemma FilesHoldAll(fs: seq<File>, outputs: seq<seq<Entry>>)
    requires AreFilesOf(fs, outputs)
    ensures forall e :: e in Contents(fs) <==> e in Flatten(outputs)
  {
    FlattenMembers(outputs);
    forall e | e in Flatten(outputs) ensures e in Contents(fs) {
      var i :| 0 <= i < |outputs| && e in outputs[i];
      assert fs[i] in fs && e in fs[i].entries;
    }
    forall e | e in Contents(fs) ensures e in Flatten(outputs) {
      var f :| f in fs && e in f.entries;
      var i :| 0 <= i < |fs| && fs[i] == f;
      assert outputs[i] in outputs;
    }
  }

  /** The whole compaction: the merged inputs through the loop, and a table for every output. */
  method RunCompaction(v: Version, j: Job, input: seq<Entry>, cutBefore: seq<bool>, cutAfter: seq<bool>, first: nat, size: seq<Entry> -> nat)
    returns (outs: seq<File>)
    requires Good(v) && JobOk(v, j) && j.snapshot < MAX_SEQ
    requires Sorted(input) && Elements(input) == Contents(j.up + j.low) && |cutBefore| == |input| && |cutAfter| == |input|
    ensures OutputsOk(j, outs) && forall i :: 0 <= i < |outs| ==> outs[i].number == first + i
  {
    var outputs := DoCompactionWork(input, j.input, j.level, j.snapshot, cutBefore, cutAfter);
    outs := [];
    for i := 0 to |outputs|
      invariant |outs| == i && forall k :: 0 <= k < i ==> IsFileOf(outs[k], outputs[k]) && outs[k].number == first + k
    {
      var es := outputs[i];
      assert es in outputs;
      outs := outs + [File(first + i, size(es), es[0].key, es[|es| - 1].key, es)];
    }
    OutputsAreOk(v, j, input, outputs, outs);
  }

  lemma OutputsAreOk(v: Version, j: Job, input: seq<Entry>, outputs: seq<seq<Entry>>, outs: seq<File>)
    requires Good(v) && JobOk(v, j) && Elements(input) == Contents(j.up + j.low) && AreFilesOf(outs, outputs) && Sorted(Flatten(outputs))
    requires forall e :: e in Flatten(outputs) <==> e in input && Survives(Elements(input), j.input, j.level, j.snapshot, e)
    ensures OutputsOk(j, outs)
  {
    forall e | e in Flatten(outputs) ensures e.key.sn <= MAX_SEQ {
      assert e in Elements(input);
      var f :| f in j.up + j.low && e in f.entries;
      InputsWellFormed(v, j);
    }
    CutFilesAreDisjoint(outs, outputs);
    FilesHoldAll(outs, outputs);
    assert forall e :: e in input <==> e in Elements(input);
  }
}
