/** Choosing compaction inputs: boundary files, the two input levels, the whole pick, and the
    level a flushed memtable goes to. */
module Picker {
  import opened Keys
  import opened Files
  import opened Versions

  // ---------------------------------------------------------------- hulls and gaps

  ghost predicate IsHull(fs: seq<File>, r: Range) {
    && r.lo.Some? && r.hi.Some?
    && (forall f :: f in fs ==> Inside(f, r))
    && (exists f :: f in fs && f.smallest.user == r.lo.value)
    && (exists f :: f in fs && f.largest.user == r.hi.value)
  }

  /** The least user-key range around a nonempty list of files. */
  ghost function Hull(fs: seq<File>): (r: Range)
    requires fs != []
    ensures IsHull(fs, r)
  {
    var f := fs[0];
    var one := Range(Some(f.smallest.user), Some(f.largest.user));
    if |fs| == 1 then one
    else
      var rest := Hull(fs[1..]);
      assert forall g :: g in fs <==> g == f || g in fs[1..];
      Range(Some(if f.smallest.user <= rest.lo.value then f.smallest.user else rest.lo.value),
            Some(if f.largest.user >= rest.hi.value then f.largest.user else rest.hi.value))
  }

  /** Every user key between the outermost ends lies in the range of some file. */
  ghost predicate GapFree(fs: seq<File>)
    requires fs != []
  {
    forall x: UserKey :: Hull(fs).lo.value <= x <= Hull(fs).hi.value ==> Covers(fs, x)
  }

  lemma HullUnique(fs: seq<File>, r: Range)
    requires fs != [] && IsHull(fs, r)
    ensures r == Hull(fs)
  {
  }

  /** A file that touches a gap-free set extends it. */
  lemma TouchCovers(a: seq<File>, f: File, x: UserKey)
    requires a != [] && WellFormed(f) && Overlaps(f, Hull(a)) && !Contains(Hull(a), x) && Contains(Hull(a + [f]), x)
    ensures f.smallest.user <= x <= f.largest.user
  {
    var h := Hull(a + [f]);
    var lo :| lo in a + [f] && lo.smallest.user == h.lo.value;
    var hi :| hi in a + [f] && hi.largest.user == h.hi.value;
    assert lo in a || lo == f;
    assert hi in a || hi == f;
  }

  lemma TouchKeepsGapFree(a: seq<File>, f: File)
    requires a != [] && GapFree(a) && AllWellFormed(a) && WellFormed(f)
    requires Overlaps(f, Hull(a))
    ensures GapFree(a + [f])
  {
    var h := Hull(a + [f]);
    forall x: UserKey | h.lo.value <= x <= h.hi.value ensures Covers(a + [f], x) {
      if Contains(Hull(a), x) {
        assert Covers(a, x);
        var g :| g in a && g.smallest.user <= x <= g.largest.user;
        assert g in a + [f];
      } else {
        assert f in a + [f];
        TouchCovers(a, f, x);
      }
    }
  }

  /** Each file touches what comes before it. */
  ghost predicate TouchesSoFar(a: seq<File>, b: seq<File>, i: nat)
    requires a != [] && i < |b|
  {
    Overlaps(b[i], Hull(a + b[..i]))
  }

  lemma TouchesInit(a: seq<File>, b: seq<File>, i: nat)
    requires a != [] && i + 1 < |b| && TouchesSoFar(a, b, i)
    ensures TouchesSoFar(a, b[..|b| - 1], i)
  {
    assert b[..|b| - 1][..i] == b[..i];
  }

  /** Files that touch, one after the other, keep a set gap-free. */
  lemma {:induction false} ChainKeepsGapFree(a: seq<File>, b: seq<File>)
    requires a != [] && GapFree(a) && AllWellFormed(a) && AllWellFormed(b)
    requires forall i :: 0 <= i < |b| ==> TouchesSoFar(a, b, i)
    ensures GapFree(a + b)
    decreases |b|
  {
    if b == [] {
      assert a + b == a;
    } else {
      var n := |b| - 1;
      forall i | 0 <= i < n ensures TouchesSoFar(a, b[..n], i) { TouchesInit(a, b, i); }
      ChainKeepsGapFree(a, b[..n]);
      assert TouchesSoFar(a, b, n);
      TouchKeepsGapFree(a + b[..n], b[n]);
      assert a + b[..n] + [b[n]] == a + b;
    }
  }

  /** Gap-freeness is about the files, not their order. */
  lemma GapFreeBySet(a: seq<File>, b: seq<File>)
    requires a != [] && b != [] && AllWellFormed(a)
    requires forall f :: f in a <==> f in b
    requires GapFree(a)
    ensures GapFree(b)
  {
    assert IsHull(b, Hull(a));
    HullUnique(b, Hull(a));
    forall x: UserKey | Hull(b).lo.value <= x <= Hull(b).hi.value ensures Covers(b, x) {
      assert Covers(a, x);
    }
  }

  // ---------------------------------------------------------------- boundary files

  /** `g` holds older entries for the last user key of `f`. */
  ghost predicate Continues(f: File, g: File) {
    f.largest.user == g.smallest.user && Before(f.largest, g.smallest)
  }

  /** No file left behind continues a chosen one. */
  ghost predicate NoContinuation(level: seq<File>, chosen: seq<File>) {
    forall f, g :: f in chosen && g in level && g !in chosen ==> !Continues(f, g)
  }

  /** No file left behind lies between two chosen ones. */
  ghost predicate Convex(level: seq<File>, chosen: seq<File>) {
    forall f, g, h :: f in chosen && h in chosen && g in level && Before(f.largest, g.smallest) && Before(g.largest, h.smallest)
      ==> g in chosen
  }

  ghost predicate SubList(chosen: seq<File>, level: seq<File>) {
    forall f :: f in chosen ==> f in level
  }

  ghost predicate IsLargest(fs: seq<File>, k: IKey) {
    && (exists f :: f in fs && f.largest == k)
    && forall f :: f in fs ==> !Less(k, f.largest)
  }

  /** FindLargestKey. */
  method FindLargestKey(fs: seq<File>) returns (found: bool, k: IKey)
    ensures found <==> fs != []
    ensures found ==> IsLargest(fs, k)
  {
    if fs == [] { return false, IKey(0.0, 0, Value); }
    k := fs[0].largest;
    for i := 1 to |fs|
      invariant exists f :: f in fs && f.largest == k
      invariant forall j :: 0 <= j < i ==> !Less(k, fs[j].largest)
    {
      if Less(k, fs[i].largest) { k := fs[i].largest; assert fs[i] in fs; }
    }
    found := true;
  }

  /** The test FindSmallestBoundaryFile applies to a file. */
  predicate IsBoundary(f: File, k: IKey) {
    Less(k, f.smallest) && f.smallest.user == k.user
  }

  /** FindSmallestBoundaryFile. */
  method FindSmallestBoundaryFile(level: seq<File>, k: IKey) returns (r: Option<File>)
    ensures r.None? ==> forall f :: f in level ==> !IsBoundary(f, k)
    ensures r.Some? ==> r.value in level && IsBoundary(r.value, k)
    ensures r.Some? ==> forall f :: f in level && IsBoundary(f, k) ==> !Less(f.smallest, r.value.smallest)
  {
    r := None;
    for i := 0 to |level|
      invariant r.None? ==> forall j :: 0 <= j < i ==> !IsBoundary(level[j], k)
      invariant r.Some? ==> r.value in level && IsBoundary(r.value, k)
      invariant r.Some? ==> forall j :: 0 <= j < i && IsBoundary(level[j], k) ==> !Less(level[j].smallest, r.value.smallest)
    {
      if IsBoundary(level[i], k) && (r.None? || Less(level[i].smallest, r.value.smallest)) {
        r := Some(level[i]);
      }
    }
  }

  lemma Apart(level: seq<File>, f: File, g: File)
    requires SortedDisjoint(level) && f in level && g in level && f != g
    ensures Before(f.largest, g.smallest) || Before(g.largest, f.smallest)
  {
  }

  lemma Ends(f: File)
    requires WellFormed(f)
    ensures f.smallest.user <= f.largest.user && !Before(f.largest, f.smallest)
    ensures f.smallest == f.largest || Before(f.smallest, f.largest)
  {
    InRange(f, f.entries[0]);
  }

  lemma NothingBeforeBoundary(level: seq<File>, m: File, b: File, g: File)
    requires SortedDisjoint(level) && m in level && g in level && g != m
    requires IsBoundary(b, m.largest) && Before(g.largest, b.smallest)
    requires IsBoundary(g, m.largest) ==> !Less(g.smallest, b.smallest)
    ensures Before(g.largest, m.smallest)
  {
    Apart(level, m, g);
    Ends(g);
  }

  /** The file that joins has nothing of the level between it and a file already in. */
  lemma UpToBoundary(level: seq<File>, out: seq<File>, k: IKey, b: File, f: File, g: File)
    requires SortedDisjoint(level) && SubList(out, level) && Convex(level, out) && IsLargest(out, k)
    requires IsBoundary(b, k) && g in level && (IsBoundary(g, k) ==> !Less(g.smallest, b.smallest))
    requires f in out && Before(f.largest, g.smallest) && Before(g.largest, b.smallest)
    ensures g in out
  {
    var m :| m in out && m.largest == k;
    if g != m { NothingBeforeBoundary(level, m, b, g); }
  }

  lemma NothingAfterBoundary(k: IKey, b: File, g: File, h: File)
    requires WellFormed(b) && WellFormed(g) && WellFormed(h) && IsBoundary(b, k) && (h == b || !Less(k, h.largest))
    ensures !(Before(b.largest, g.smallest) && Before(g.largest, h.smallest))
  {
    Ends(b);
    Ends(g);
    Ends(h);
  }

  lemma BoundaryKeepsConvex(level: seq<File>, out: seq<File>, k: IKey, b: File)
    requires SortedDisjoint(level) && SubList(out, level) && Convex(level, out) && IsLargest(out, k)
    requires b in level && IsBoundary(b, k)
    requires forall f :: f in level && IsBoundary(f, k) ==> !Less(f.smallest, b.smallest)
    ensures Convex(level, out + [b])
  {
    forall f, g, h | f in out + [b] && h in out + [b] && g in level && Before(f.largest, g.smallest) && Before(g.largest, h.smallest)
      ensures g in out + [b]
    {
      if f == b {
        NothingAfterBoundary(k, b, g, h);
      } else if h == b {
        UpToBoundary(level, out, k, b, f, g);
      }
    }
  }

  lemma LargestHasNoContinuation(level: seq<File>, out: seq<File>, k: IKey)
    requires SortedDisjoint(level) && SubList(out, level) && Convex(level, out) && IsLargest(out, k)
    requires forall f :: f in level ==> !IsBoundary(f, k)
    ensures NoContinuation(level, out)
  {
    var m :| m in out && m.largest == k;
    forall f, g | f in out && g in level && g !in out ensures !Continues(f, g) {
      if Continues(f, g) {
        Apart(level, m, g);
        Ends(m);
        Ends(g);
        Ends(f);
        if f != m { Apart(level, f, m); }
      }
    }
  }

  ghost predicate Distinct(fs: seq<File>) {
    forall i, j :: 0 <= i < j < |fs| ==> fs[i] != fs[j]
  }

  ghost predicate Linked(fs: seq<File>, f: File) {
    exists g :: g in fs && IsBoundary(f, g.largest)
  }

  /** Each file after the first `n` was added because it continues the user key that ends an
      earlier one. */
  ghost predicate Chained(fs: seq<File>, n: nat) {
    forall i :: n <= i < |fs| ==> Linked(fs[..i], fs[i])
  }

  lemma ChainedStep(out: seq<File>, n: nat, k: IKey, b: File)
    requires Chained(out, n) && IsLargest(out, k) && IsBoundary(b, k)
    ensures Chained(out + [b], n)
  {
    var out' := out + [b];
    forall i | n <= i < |out'| ensures Linked(out'[..i], out'[i]) {
      assert out'[..i] == out[..i];
      assert out[..|out|] == out;
    }
  }

  ghost function Beyond(level: seq<File>, k: IKey): set<File> {
    set f | f in level && Less(k, f.smallest)
  }

  lemma BoundaryIsNew(level: seq<File>, out: seq<File>, k: IKey, b: File)
    requires AllWellFormed(level) && IsLargest(out, k) && b in level && IsBoundary(b, k)
    ensures b !in out && IsLargest(out + [b], b.largest)
    ensures Distinct(out) ==> Distinct(out + [b])
    ensures Beyond(level, b.largest) < Beyond(level, k)
  {
    Ends(b);
    assert b in out + [b];
    assert b in Beyond(level, k) && b !in Beyond(level, b.largest);
  }

  /** What one more boundary file keeps of the files collected so far. */
  ghost predicate Collected(level: seq<File>, chosen: seq<File>, out: seq<File>, k: IKey) {
    && chosen <= out && SubList(out, level) && Chained(out, |chosen|) && IsLargest(out, k)
    && (Distinct(chosen) ==> Distinct(out))
    && (SortedDisjoint(level) && Convex(level, chosen) ==> Convex(level, out))
  }

  lemma CollectNext(level: seq<File>, chosen: seq<File>, out: seq<File>, k: IKey, b: File)
    requires AllWellFormed(level) && Collected(level, chosen, out, k) && b in level && IsBoundary(b, k)
    requires forall f :: f in level && IsBoundary(f, k) ==> !Less(f.smallest, b.smallest)
    ensures Collected(level, chosen, out + [b], b.largest) && Beyond(level, b.largest) < Beyond(level, k)
  {
    BoundaryIsNew(level, out, k, b);
    ChainedStep(out, |chosen|, k, b);
    if SortedDisjoint(level) && Convex(level, chosen) { BoundaryKeepsConvex(level, out, k, b); }
  }

  /** AddBoundaryInputs. */
  method AddBoundaryInputs(level: seq<File>, chosen: seq<File>) returns (out: seq<File>)
    requires AllWellFormed(level) && SubList(chosen, level)
    ensures chosen <= out && SubList(out, level) && Chained(out, |chosen|)
    ensures chosen == [] ==> out == []
    ensures chosen != [] ==> exists k :: IsLargest(out, k) && forall f :: f in level ==> !IsBoundary(f, k)
    ensures (forall k, f :: IsLargest(chosen, k) && f in level ==> !IsBoundary(f, k)) ==> out == chosen
    ensures Distinct(chosen) ==> Distinct(out)
    ensures SortedDisjoint(level) && Convex(level, chosen) ==> Convex(level, out) && NoContinuation(level, out)
  {
    out := chosen;
    var found, k := FindLargestKey(out);
    if !found { return; }
    ghost var none := forall k, f :: IsLargest(chosen, k) && f in level ==> !IsBoundary(f, k);
    var searching := true;
    while searching
      invariant Collected(level, chosen, out, k)
      invariant none ==> out == chosen
      invariant !searching ==> forall f :: f in level ==> !IsBoundary(f, k)
      decreases Beyond(level, k), searching
    {
      var b := FindSmallestBoundaryFile(level, k);
      if b.Some? {
        CollectNext(level, chosen, out, k, b.value);
        out := out + [b.value];
        k := b.value.largest;
      } else {
        searching := false;
      }
    }
    if SortedDisjoint(level) && Convex(level, chosen) { LargestHasNoContinuation(level, out, k); }
  }

  // ---------------------------------------------------------------- the two input levels

  /** VersionSet::GetRange. */
  method GetRange(fs: seq<File>) returns (smallest: IKey, largest: IKey)
    requires fs != []
    ensures Range(Some(smallest.user), Some(largest.user)) == Hull(fs)
  {
    smallest, largest := fs[0].smallest, fs[0].largest;
    for i := 1 to |fs|
      invariant exists f :: f in fs && f.smallest == smallest
      invariant exists f :: f in fs && f.largest == largest
      invariant forall j :: 0 <= j < i ==> !Less(fs[j].smallest, smallest) && !Less(largest, fs[j].largest)
    {
      assert fs[i] in fs;
      if Less(fs[i].smallest, smallest) { smallest := fs[i].smallest; }
      if Less(largest, fs[i].largest) { largest := fs[i].largest; }
    }
    HullUnique(fs, Range(Some(smallest.user), Some(largest.user)));
  }

  lemma HullGrows(a: seq<File>, b: seq<File>)
    requires a != [] && forall f :: f in a ==> f in b
    ensures Within(Hull(a), Hull(b))
  {
  }

  /** Files that each touch `a`, then files chained to them. */
  lemma TouchAllKeepsGapFree(a: seq<File>, b: seq<File>, n: nat)
    requires a != [] && GapFree(a) && AllWellFormed(a) && AllWellFormed(b) && n <= |b|
    requires forall i :: 0 <= i < n ==> Overlaps(b[i], Hull(a))
    requires Chained(b, n)
    ensures GapFree(a + b)
  {
    forall i | 0 <= i < |b| ensures Overlaps(b[i], Hull(a + b[..i])) {
      HullGrows(a, a + b[..i]);
      if n <= i {
        assert Linked(b[..i], b[i]);
        var g :| g in b[..i] && IsBoundary(b[i], g.largest);
        assert g in a + b[..i];
        Ends(g);
        assert b[i] in b;
        Ends(b[i]);
      }
    }
    ChainKeepsGapFree(a, b);
  }

  lemma SelectConvex(level: seq<File>, r: Range)
    requires SortedDisjoint(level)
    ensures Convex(level, Select(level, r)) && SubList(Select(level, r), level)
  {
    forall f ensures f in Select(level, r) <==> f in level && Overlaps(f, r) { SelectMembers(level, r, f); }
    forall f, g, h | f in Select(level, r) && h in Select(level, r) && g in level
                     && Before(f.largest, g.smallest) && Before(g.largest, h.smallest)
      ensures g in Select(level, r)
    {
      Ends(f);
      Ends(g);
      Ends(h);
    }
  }

  /** What the level+1 inputs must be, given the level inputs. */
  ghost predicate LowerOk(next: seq<File>, up: seq<File>, low: seq<File>)
    requires up != []
  {
    && SubList(low, next) && Convex(next, low) && NoContinuation(next, low)
    && (forall g :: g in next && g !in low ==> !Overlaps(g, Hull(up)))
    && (low != [] ==> exists c :: c in low && Overlaps(c, Hull(up)))
  }

  /** `low` is what touches `up`, and then what continues that. */
  ghost predicate TouchThenChain(up: seq<File>, low: seq<File>)
    requires up != []
  {
    exists n :: 0 <= n <= |low| && Chained(low, n) && forall f :: f in low[..n] ==> Overlaps(f, Hull(up))
  }

  lemma LowerFacts(next: seq<File>, up: seq<File>, low: seq<File>, n: nat)
    requires up != [] && AllWellFormed(up) && n <= |low| && low[..n] == Select(next, Hull(up))
    requires n == 0 ==> low == []
    requires SortedDisjoint(next) && SubList(low, next) && Convex(next, low) && NoContinuation(next, low) && Chained(low, n)
    ensures LowerOk(next, up, low) && TouchThenChain(up, low)
    ensures GapFree(up) ==> GapFree(up + low)
  {
    forall f ensures f in low[..n] <==> f in next && Overlaps(f, Hull(up)) { SelectMembers(next, Hull(up), f); }
    if low != [] { assert low[0] in low[..n]; }
    assert forall i :: 0 <= i < n ==> low[i] in low[..n];
    if GapFree(up) { TouchAllKeepsGapFree(up, low, n); }
  }

  /** AddBoundaryInputs on a sorted level. */
  method CloseUp(level: seq<File>, chosen: seq<File>) returns (out: seq<File>)
    requires SortedDisjoint(level) && AllWellFormed(level) && SubList(chosen, level) && Convex(level, chosen)
    ensures chosen <= out && SubList(out, level) && Chained(out, |chosen|) && (chosen == [] ==> out == [])
    ensures Convex(level, out) && NoContinuation(level, out)
  {
    out := AddBoundaryInputs(level, chosen);
  }

  /** The level+1 half of SetupOtherInputs: overlapping files, then boundary files. */
  method SelectLower(next: seq<File>, up: seq<File>) returns (low: seq<File>)
    requires SortedDisjoint(next) && up != [] && AllWellFormed(up)
    ensures LowerOk(next, up, low) && TouchThenChain(up, low)
    ensures GapFree(up) ==> GapFree(up + low)
  {
    var small, large := GetRange(up);
    var sel, r := GetOverlappingInputs(false, next, Range(Some(small.user), Some(large.user)));
    SelectConvex(next, Hull(up));
    low := CloseUp(next, sel);
    assert low[..|sel|] == sel;
    LowerFacts(next, up, low, |sel|);
  }

  /** The level inputs take every file that could hold older entries for their keys. */
  ghost predicate UpperOk(v: Version, level: nat, up: seq<File>)
    requires level < NUM_LEVELS
  {
    && up != [] && SubList(up, v[level])
    && (level == 0 ==> forall g :: g in v[0] && g !in up ==> !Overlaps(g, Hull(up)))
    && (level > 0 ==> NoContinuation(v[level], up))
  }

  /** The inputs of a compaction from `level` to `level + 1`. */
  ghost predicate Chosen(v: Version, level: nat, up: seq<File>, low: seq<File>) {
    level + 1 < NUM_LEVELS && UpperOk(v, level, up) && LowerOk(v[level + 1], up, low)
  }

  lemma GoodLevel(v: Version, level: nat)
    requires Good(v) && level < NUM_LEVELS
    ensures AllWellFormed(v[level])
    ensures level > 0 ==> SortedDisjoint(v[level])
  {
  }

  /** A level-0 selection that no other file overlaps has no boundary file. */
  lemma LevelZeroHasNoBoundary(fs: seq<File>, chosen: seq<File>, k: IKey, f: File)
    requires AllWellFormed(fs) && SubList(chosen, fs) && chosen != []
    requires forall g :: g in fs && g !in chosen ==> !Overlaps(g, Hull(chosen))
    requires IsLargest(chosen, k) && f in fs
    ensures !IsBoundary(f, k)
  {
    var m :| m in chosen && m.largest == k;
    Ends(m);
    Ends(f);
  }

  /** The level half of SetupOtherInputs. */
  method CompleteUpper(v: Version, level: nat, chosen: seq<File>) returns (up: seq<File>)
    requires Good(v) && level < NUM_LEVELS && chosen != [] && SubList(chosen, v[level])
    requires level == 0 ==> forall g :: g in v[0] && g !in chosen ==> !Overlaps(g, Hull(chosen))
    requires level > 0 ==> Convex(v[level], chosen)
    ensures UpperOk(v, level, up)
    ensures chosen <= up && Chained(up, |chosen|)
  {
    GoodLevel(v, level);
    up := AddBoundaryInputs(v[level], chosen);
    if level == 0 {
      forall k, f | IsLargest(chosen, k) && f in v[0] ensures !IsBoundary(f, k) {
        LevelZeroHasNoBoundary(v[0], chosen, k, f);
      }
    }
  }

  function TotalFileSize(fs: seq<File>): nat {
    if fs == [] then 0 else TotalFileSize(fs[..|fs| - 1]) + fs[|fs| - 1].size
  }

  lemma BoundaryContinues(level: seq<File>, f: File, g: File)
    requires SortedDisjoint(level) && f in level && g in level && IsBoundary(g, f.largest)
    ensures Continues(f, g)
  {
    Ends(f);
    Ends(g);
    if f != g { Apart(level, f, g); }
  }

  /** Whatever follows by continuation from files a selection contains, it contains. */
  lemma {:induction false} ContinuationIsIn(level: seq<File>, low: seq<File>, n: nat, sel: seq<File>, i: nat)
    requires SortedDisjoint(level) && SubList(low, level) && n <= |low| && Chained(low, n)
    requires forall f :: f in low[..n] ==> f in sel
    requires NoContinuation(level, sel)
    requires i < |low|
    ensures low[i] in sel
  {
    if i < n {
      assert low[i] in low[..n];
    } else {
      assert Linked(low[..i], low[i]);
      var j :| 0 <= j < i && IsBoundary(low[i], low[j].largest);
      ContinuationIsIn(level, low, n, sel, j);
      assert low[i] in low && low[j] in low;
      BoundaryContinues(level, low[j], low[i]);
    }
  }

  /** Level-0 selection over the hull of a gap-free set leaves no gap. */
  lemma ClosureCovers(a: seq<File>, fs: seq<File>, r: Range, b: seq<File>, x: UserKey)
    requires a != [] && GapFree(a) && b == Select(fs, r) && Contains(r, x)
    requires Contains(Hull(a), x) || Covers(fs, x)
    ensures Covers(a + b, x)
  {
    if Contains(Hull(a), x) {
      assert Covers(a, x);
      var f :| f in a && f.smallest.user <= x <= f.largest.user;
      assert f in a + b;
    } else {
      var f :| f in fs && f.smallest.user <= x <= f.largest.user;
      SelectMembers(fs, r, f);
      assert f in a + b;
    }
  }

  lemma ClosureStaysInside(a: seq<File>, fs: seq<File>, r: Range, b: seq<File>)
    requires a != [] && b == Select(fs, r) && Within(Hull(a), r) && Closed(fs, r) && r.lo.Some? && r.hi.Some?
    ensures Within(Hull(a + b), r)
  {
    var h := Hull(a + b);
    var f :| f in a + b && f.smallest.user == h.lo.value;
    var g :| g in a + b && g.largest.user == h.hi.value;
    SelectMembers(fs, r, f);
    SelectMembers(fs, r, g);
  }

  lemma ClosureKeepsGapFree(a: seq<File>, fs: seq<File>, r: Range, b: seq<File>)
    requires a != [] && GapFree(a) && AllWellFormed(fs) && b == Select(fs, r)
    requires Within(Hull(a), r) && Closed(fs, r) && r.lo.Some? && r.hi.Some?
    requires forall x :: Contains(r, x) ==> Contains(Hull(a), x) || Covers(fs, x)
    ensures GapFree(a + b)
  {
    ClosureStaysInside(a, fs, r, b);
    forall x: UserKey | Hull(a + b).lo.value <= x <= Hull(a + b).hi.value ensures Covers(a + b, x) {
      assert Contains(r, x);
      ClosureCovers(a, fs, r, b, x);
    }
  }

  /** A larger upper set never gives up a lower file. */
  lemma LowerGrows(next: seq<File>, up: seq<File>, low: seq<File>, up': seq<File>, low': seq<File>)
    requires SortedDisjoint(next) && up != [] && SubList(up, up') && SubList(low, next) && up' != []
    requires TouchThenChain(up, low) && LowerOk(next, up', low')
    ensures SubList(low, low')
  {
    HullGrows(up, up');
    var m :| 0 <= m <= |low| && Chained(low, m) && forall f :: f in low[..m] ==> Overlaps(f, Hull(up));
    forall f | f in low[..m] ensures f in low' { assert f in low; }
    forall f | f in low ensures f in low' {
      var i :| 0 <= i < |low| && low[i] == f;
      ContinuationIsIn(next, low, m, low', i);
    }
  }

  lemma LowerTouches(all: seq<File>, up: seq<File>, low: seq<File>)
    requires up != [] && SubList(up, all) && AllWellFormed(all) && AllWellFormed(low) && all != []
    requires TouchThenChain(up, low) && GapFree(all)
    ensures GapFree(all + low)
  {
    HullGrows(up, all);
    var n :| 0 <= n <= |low| && Chained(low, n) && forall f :: f in low[..n] ==> Overlaps(f, Hull(up));
    forall i | 0 <= i < n ensures Overlaps(low[i], Hull(all)) { assert low[i] in low[..n]; }
    TouchAllKeepsGapFree(all, low, n);
  }

  /** Growing the level inputs over a gap-free pick leaves no gap. */
  lemma CompletedGapFree(level: seq<File>, chosen: seq<File>, up: seq<File>)
    requires chosen != [] && chosen <= up && Chained(up, |chosen|) && AllWellFormed(up) && GapFree(chosen)
    ensures GapFree(up)
  {
    assert forall i :: 0 <= i < |chosen| ==> up[i] == chosen[i] && chosen[i] in chosen;
    assert forall f :: f in chosen ==> Inside(f, Hull(chosen));
    forall i | 0 <= i < |chosen| ensures Overlaps(up[i], Hull(chosen)) { assert up[i] in up; Ends(up[i]); }
    assert forall f :: f in chosen ==> f in up;
    TouchAllKeepsGapFree(chosen, up, |chosen|);
    GapFreeBySet(chosen + up, up);
  }

  /** The level inputs over the hull of the first pick. */
  lemma ExpandedZero(fs: seq<File>, all: seq<File>, r: Range, sel: seq<File>)
    requires AllWellFormed(fs) && all != [] && sel == Select(fs, r) && LeastClosed(fs, Hull(all), r)
    requires forall x :: Contains(r, x) ==> Contains(Hull(all), x) || Covers(fs, x)
    requires r.lo.Some? && r.hi.Some?
    ensures sel != [] ==> forall g :: g in fs && g !in sel ==> !Overlaps(g, Hull(sel))
    ensures GapFree(all) ==> GapFree(all + sel)
  {
    if sel != [] { SelectHull(fs, r); }
    if GapFree(all) { ClosureKeepsGapFree(all, fs, r, sel); }
  }

  lemma ExpandedUpper(v: Version, level: nat, all: seq<File>, r: Range, sel: seq<File>)
    requires Good(v) && level < NUM_LEVELS && all != [] && AllWellFormed(all) && sel == Select(v[level], r)
    requires level == 0 ==> LeastClosed(v[0], Hull(all), r)
    requires level > 0 ==> r == Hull(all)
    requires forall x :: Contains(r, x) ==> Contains(Hull(all), x) || Covers(v[level], x)
    requires r.lo.Some? && r.hi.Some?
    ensures SubList(sel, v[level])
    ensures forall f :: f in all && f in v[level] ==> f in sel
    ensures level == 0 && sel != [] ==> forall g :: g in v[0] && g !in sel ==> !Overlaps(g, Hull(sel))
    ensures level > 0 ==> Convex(v[level], sel)
    ensures GapFree(all) ==> GapFree(all + sel)
  {
    GoodLevel(v, level);
    forall f ensures f in sel <==> f in v[level] && Overlaps(f, r) { SelectMembers(v[level], r, f); }
    forall f | f in all && f in v[level] ensures f in sel { Ends(f); }
    if level == 0 {
      ExpandedZero(v[0], all, r, sel);
    } else {
      SelectConvex(v[level], r);
      if GapFree(all) { SelectedTouches(all, v[level], sel); }
    }
  }

  lemma SelectedTouches(all: seq<File>, fs: seq<File>, sel: seq<File>)
    requires all != [] && AllWellFormed(all) && AllWellFormed(fs) && GapFree(all)
    requires forall f :: f in sel ==> f in fs && Overlaps(f, Hull(all))
    ensures GapFree(all + sel)
  {
    assert forall i :: 0 <= i < |sel| ==> sel[i] in sel;
    TouchAllKeepsGapFree(all, sel, |sel|);
  }

  lemma SelectHull(fs: seq<File>, r: Range)
    requires Closed(fs, r) && Select(fs, r) != []
    ensures Within(Hull(Select(fs, r)), r)
    ensures forall g :: g in fs && g !in Select(fs, r) ==> !Overlaps(g, Hull(Select(fs, r)))
  {
    forall f ensures f in Select(fs, r) <==> f in fs && Overlaps(f, r) { SelectMembers(fs, r, f); }
  }

  lemma OverlapSelected(fs: seq<File>, h: Range, r: Range, f: File)
    requires Within(h, r) && f in fs && Overlaps(f, h)
    ensures f in Select(fs, r)
  {
    SelectMembers(fs, r, f);
  }

  /** The files of the upper level that the range of both inputs selects. */
  method SelectUpper(v: Version, level: nat, up: seq<File>, low: seq<File>) returns (sel: seq<File>)
    requires Good(v) && Chosen(v, level, up, low)
    ensures SubList(up, sel) && SubList(sel, v[level]) && sel != []
    ensures level == 0 ==> forall g :: g in v[0] && g !in sel ==> !Overlaps(g, Hull(sel))
    ensures level > 0 ==> Convex(v[level], sel)
    ensures GapFree(up + low) ==> GapFree(up + low + sel)
    ensures forall f :: f in v[level] && Overlaps(f, Hull(up + low)) ==> f in sel
  {
    GoodLevel(v, level);
    GoodLevel(v, level + 1);
    var small, large := GetRange(up + low);
    ghost var r;
    sel, r := GetOverlappingInputs(level == 0, v[level], Range(Some(small.user), Some(large.user)));
    ExpandedUpper(v, level, up + low, r, sel);
    forall f | f in v[level] && Overlaps(f, Hull(up + low)) ensures f in sel { OverlapSelected(v[level], Hull(up + low), r, f); }
    assert SubList(up, sel) by {
      forall f | f in up ensures f in sel { assert f in up + low; }
    }
    assert up[0] in sel;
  }

  /** The upper files that the range of both inputs now selects, completed. */
  method GrowUpper(v: Version, level: nat, up: seq<File>, low: seq<File>) returns (sel: seq<File>, up': seq<File>)
    requires Good(v) && Chosen(v, level, up, low)
    ensures SubList(up, up') && UpperOk(v, level, up') && sel <= up' && Chained(up', |sel|)
    ensures GapFree(up + low) ==> GapFree(up + low + sel)
    ensures forall f :: f in v[level] && Overlaps(f, Hull(up + low)) ==> f in up'
  {
    sel := SelectUpper(v, level, up, low);
    up' := CompleteUpper(v, level, sel);
    assert SubList(sel, up');
  }

  /** The expansion is worth it: more files above, not too many bytes, and none more below. */
  predicate WorthIt(up: seq<File>, low: seq<File>, up': seq<File>, low': seq<File>, maxFileSize: nat) {
    |up'| > |up| && TotalFileSize(low) + TotalFileSize(up') < 25 * maxFileSize && |low'| == |low|
  }

  /** The expansion in SetupOtherInputs: more level inputs, if no more level+1 inputs follow. */
  method Expand(v: Version, level: nat, up: seq<File>, low: seq<File>, maxFileSize: nat)
    returns (up': seq<File>, low': seq<File>, ghost grown: seq<File>, ghost lower: seq<File>)
    requires Good(v) && Chosen(v, level, up, low) && TouchThenChain(up, low) && low != []
    ensures Chosen(v, level, up', low') && SubList(up, up')
    ensures GapFree(up + low) ==> GapFree(up' + low')
    ensures UpperOk(v, level, grown) && forall f :: f in v[level] && Overlaps(f, Hull(up + low)) ==> f in grown
    ensures (up', low') == if WorthIt(up, low, grown, lower, maxFileSize) then (grown, lower) else (up, low)
    ensures |grown| > |up| && TotalFileSize(low) + TotalFileSize(grown) < 25 * maxFileSize ==> LowerOk(v[level + 1], grown, lower)
  {
    GoodLevel(v, level + 1);
    var sel;
    sel, up' := GrowUpper(v, level, up, low);
    grown, lower := up', [];
    if |up'| > |up| && TotalFileSize(low) + TotalFileSize(up') < 25 * maxFileSize {
      low' := SelectLower(v[level + 1], up');
      lower := low';
      if |low'| == |low| {
        if GapFree(up + low) { ExpansionGapFree(v[level + 1], up, low, sel, up', low'); }
        return;
      }
    }
    up', low' := up, low;
  }

  /** SetupOtherInputs: boundary files on each level, then the optional expansion. */
  method SetupOtherInputs(v: Version, level: nat, chosen: seq<File>, maxFileSize: nat)
    returns (up: seq<File>, low: seq<File>)
    requires Good(v) && level + 1 < NUM_LEVELS && chosen != [] && SubList(chosen, v[level])
    requires level == 0 ==> forall g :: g in v[0] && g !in chosen ==> !Overlaps(g, Hull(chosen))
    requires level > 0 ==> Convex(v[level], chosen)
    ensures Chosen(v, level, up, low) && SubList(chosen, up)
    ensures GapFree(chosen) ==> GapFree(up + low)
  {
    GoodLevel(v, level);
    GoodLevel(v, level + 1);
    up := CompleteUpper(v, level, chosen);
    if GapFree(chosen) { CompletedGapFree(v[level], chosen, up); }
    low := SelectLower(v[level + 1], up);
    if low != [] {
      ghost var grown, lower;
      up, low, grown, lower := Expand(v, level, up, low, maxFileSize);
    }
  }

  lemma CompletedOverAll(all: seq<File>, sel: seq<File>, up: seq<File>)
    requires all != [] && sel <= up && Chained(up, |sel|) && AllWellFormed(up) && AllWellFormed(all) && GapFree(all + sel)
    ensures GapFree(all + up)
  {
    var a := all + sel;
    forall i | 0 <= i < |sel| ensures Overlaps(up[i], Hull(a)) {
      assert up[i] in up && up[i] in a && Inside(up[i], Hull(a));
      Ends(up[i]);
    }
    assert forall f :: f in sel ==> f in up;
    TouchAllKeepsGapFree(a, up, |sel|);
    GapFreeBySet(a + up, all + up);
  }

  lemma ExpansionGapFree(next: seq<File>, up: seq<File>, low: seq<File>, sel: seq<File>, up': seq<File>, low': seq<File>)
    requires SortedDisjoint(next) && up != [] && up' != []
    requires SubList(up, up') && AllWellFormed(up') && SubList(low, next)
    requires TouchThenChain(up, low) && TouchThenChain(up', low') && LowerOk(next, up', low')
    requires sel <= up' && Chained(up', |sel|) && GapFree(up + low + sel)
    ensures GapFree(up' + low')
  {
    CompletedOverAll(up + low, sel, up');
    var all := up + low + up';
    assert AllWellFormed(all) && AllWellFormed(low');
    LowerTouches(all, up', low');
    LowerGrows(next, up, low, up', low');
    GapFreeBySet(all + low', up' + low');
  }

  // ---------------------------------------------------------------- the picks

  lemma SingleGapFree(f: File)
    requires WellFormed(f)
    ensures GapFree([f])
  {
    assert f in [f];
    HullUnique([f], Range(Some(f.smallest.user), Some(f.largest.user)));
  }

  predicate IsPast(f: File, pointer: Option<IKey>) {
    pointer.Some? && Less(pointer.value, f.largest)
  }

  /** File `i` is the first past the compaction pointer, or the first of all when none is past it. */
  ghost predicate IsFirstPast(fs: seq<File>, pointer: Option<IKey>, i: nat) {
    && i < |fs| && (forall j :: 0 <= j < i ==> !IsPast(fs[j], pointer))
    && (IsPast(fs[i], pointer) || (i == 0 && forall f :: f in fs ==> !IsPast(f, pointer)))
  }

  method FirstPast(fs: seq<File>, pointer: Option<IKey>) returns (i: nat)
    requires fs != []
    ensures IsFirstPast(fs, pointer, i)
  {
    i := 0;
    if pointer.Some? {
      while i < |fs| && !Less(pointer.value, fs[i].largest)
        invariant 0 <= i <= |fs|
        invariant forall j :: 0 <= j < i ==> !IsPast(fs[j], pointer)
      {
        i := i + 1;
      }
      if i == |fs| { i := 0; }
    }
  }

  /** On level 0 the files that overlap the picked one join it before the lower level is asked. */
  method GrowLevelZero(v: Version, f: File) returns (sel: seq<File>)
    requires Good(v) && f in v[0]
    ensures f in sel && SubList(sel, v[0]) && GapFree(sel)
    ensures forall g :: g in v[0] && g !in sel ==> !Overlaps(g, Hull(sel))
  {
    GoodLevel(v, 0);
    SingleGapFree(f);
    var small, large := GetRange([f]);
    ghost var r;
    sel, r := GetOverlappingInputs(true, v[0], Range(Some(small.user), Some(large.user)));
    ExpandedUpper(v, 0, [f], r, sel);
    GapFreeBySet([f] + sel, sel);
  }

  /** PickCompaction on a level that needs work: the file that drew too many seeks, or else the
      first file after the level's compact pointer, wrapping around. */
  method PickCompaction(v: Version, level: nat, seek: Option<File>, pointer: Option<IKey>, maxFileSize: nat)
    returns (up: seq<File>, low: seq<File>)
    requires Good(v) && level + 1 < NUM_LEVELS && v[level] != []
    requires seek.Some? ==> seek.value in v[level]
    ensures Chosen(v, level, up, low) && GapFree(up + low)
    ensures seek.Some? ==> seek.value in up
    ensures seek.None? ==> exists i: nat :: IsFirstPast(v[level], pointer, i) && v[level][i] in up
  {
    var f;
    if seek.Some? {
      f := seek.value;
    } else {
      var i := FirstPast(v[level], pointer);
      f := v[level][i];
    }
    GoodLevel(v, level);
    SingleGapFree(f);
    var chosen := [f];
    if level == 0 {
      chosen := GrowLevelZero(v, f);
    }
    up, low := SetupOtherInputs(v, level, chosen, maxFileSize);
  }

  lemma {:induction false} SelectSorted(fs: seq<File>, r: Range)
    requires SortedDisjoint(fs)
    ensures SortedDisjoint(Select(fs, r))
  {
    if fs != [] {
      var n := |fs| - 1;
      SelectSorted(fs[..n], r);
      forall f | f in Select(fs[..n], r) ensures Before(f.largest, fs[n].smallest) { SelectMembers(fs[..n], r, f); }
      var s := Select(fs[..n], r);
      assert forall i :: 0 <= i < |s| ==> s[i] in s;
      assert fs[n] in fs;
    }
  }

  /** In a sorted list, what lies before the element at `j` has a smaller index. */
  lemma IndexBefore(s: seq<File>, i: nat, j: nat)
    requires SortedDisjoint(s) && i < |s| && j < |s| && Before(s[i].largest, s[j].smallest)
    ensures i < j
  {
    assert s[i] in s && s[j] in s;
    Ends(s[i]);
    Ends(s[j]);
  }

  lemma BeforeInPrefix(s: seq<File>, k: nat, g: File, h: File)
    requires SortedDisjoint(s) && k <= |s| && g in s && h in s[..k] && Before(g.largest, h.smallest)
    ensures g in s[..k]
  {
    var i :| 0 <= i < |s| && s[i] == g;
    var j :| 0 <= j < k && s[j] == h;
    IndexBefore(s, i, j);
    assert s[..k][i] == g;
  }

  lemma PrefixConvex(level: seq<File>, r: Range, k: nat)
    requires SortedDisjoint(level) && k <= |Select(level, r)|
    ensures Convex(level, Select(level, r)[..k])
  {
    var s := Select(level, r);
    SelectConvex(level, r);
    SelectSorted(level, r);
    forall f, g, h | f in s[..k] && h in s[..k] && g in level && Before(f.largest, g.smallest) && Before(g.largest, h.smallest)
      ensures g in s[..k]
    {
      assert f in s && h in s;
      BeforeInPrefix(s, k, g, h);
    }
  }

  lemma SomeRequested(fs: seq<File>, request: Range, r: Range, f: File)
    requires LeastClosed(fs, request, r) && f in fs && Overlaps(f, r)
    ensures exists g :: g in fs && Overlaps(g, request)
  {
    if forall g :: g in fs ==> !Overlaps(g, request) {
      assert Closed(fs, request);
    }
  }

  /** The shortest prefix of at least the given size, or everything. */
  ghost predicate IsSizeCut(fs: seq<File>, k: nat, limit: nat) {
    0 < k <= |fs| && (k == |fs| || TotalFileSize(fs[..k]) >= limit) && (k > 1 ==> TotalFileSize(fs[..k - 1]) < limit)
  }

  /** The loop of CompactRange that keeps a manual compaction small. */
  method SizeCut(fs: seq<File>, limit: nat) returns (kept: nat)
    requires fs != []
    ensures IsSizeCut(fs, kept, limit)
  {
    var total := 0;
    for i := 0 to |fs|
      invariant total == TotalFileSize(fs[..i]) && (i > 0 ==> total < limit)
    {
      assert fs[..i + 1][..i] == fs[..i];
      total := total + fs[i].size;
      if total >= limit { return i + 1; }
    }
    kept := |fs|;
    assert fs[..kept] == fs && fs[..kept][..kept - 1] == fs[..kept - 1];
  }

  /** A manual compaction of a range: the files of level 0 that overlap it, or below that the first ones
      up to the size limit, completed on both levels. */
  ghost predicate IsManualPick(v: Version, level: nat, request: Range, maxFileSize: nat, up: seq<File>, low: seq<File>) {
    && Chosen(v, level, up, low)
    && (level == 0 ==> forall f :: f in v[0] && Overlaps(f, request) ==> f in up)
    && (level > 0 ==> exists k: nat :: IsSizeCut(Select(v[level], request), k, maxFileSize) && SubList(Select(v[level], request)[..k], up))
  }

  /** The level-0 inputs of a request: every file its widened range overlaps. */
  method ManualLevelZero(fs: seq<File>, request: Range) returns (inputs: seq<File>)
    requires AllWellFormed(fs)
    ensures inputs != [] <==> exists f :: f in fs && Overlaps(f, request)
    ensures SubList(inputs, fs) && forall f :: f in fs && Overlaps(f, request) ==> f in inputs
    ensures inputs != [] ==> forall g :: g in fs && g !in inputs ==> !Overlaps(g, Hull(inputs))
  {
    ghost var r;
    inputs, r := GetOverlappingInputs(true, fs, request);
    forall f ensures f in inputs <==> f in fs && Overlaps(f, r) { SelectMembers(fs, r, f); }
    if inputs != [] {
      SelectHull(fs, r);
      SomeRequested(fs, request, r, inputs[0]);
    }
  }

  /** The inputs of a request on a lower level: the overlapping files, cut at the size limit. */
  method ManualLower(fs: seq<File>, request: Range, maxFileSize: nat) returns (inputs: seq<File>, kept: nat)
    requires SortedDisjoint(fs)
    ensures inputs != [] <==> exists f :: f in fs && Overlaps(f, request)
    ensures SubList(inputs, fs) && Convex(fs, inputs)
    ensures inputs != [] ==> IsSizeCut(Select(fs, request), kept, maxFileSize) && inputs == Select(fs, request)[..kept]
  {
    ghost var r;
    inputs, r := GetOverlappingInputs(false, fs, request);
    kept := 0;
    forall f ensures f in inputs <==> f in fs && Overlaps(f, r) { SelectMembers(fs, r, f); }
    if inputs != [] {
      assert inputs[0] in inputs;
      kept := SizeCut(inputs, maxFileSize);
      PrefixConvex(fs, r, kept);
      inputs := inputs[..kept];
    }
  }

  /** CompactRange: a manual compaction of a range, cut off by size above level 0. */
  method CompactRange(v: Version, level: nat, request: Range, maxFileSize: nat)
    returns (any: bool, up: seq<File>, low: seq<File>)
    requires Good(v) && level + 1 < NUM_LEVELS
    ensures any <==> exists f :: f in v[level] && Overlaps(f, request)
    ensures any ==> IsManualPick(v, level, request, maxFileSize, up, low)
  {
    GoodLevel(v, level);
    var inputs;
    if level == 0 {
      inputs := ManualLevelZero(v[0], request);
    } else {
      var kept;
      inputs, kept := ManualLower(v[level], request, maxFileSize);
    }
    if inputs == [] {
      return false, [], [];
    }
    up, low := SetupOtherInputs(v, level, inputs, maxFileSize);
    any := true;
  }

  /** Why a memtable goes no deeper: it touches level 0 or the next level, or too much below that. */
  ghost predicate StopsAt(v: Version, level: nat, r: Range, limit: nat)
    requires level < 2
  {
    || (level == 0 && exists f :: f in v[0] && Overlaps(f, r))
    || (exists f :: f in v[level + 1] && Overlaps(f, r))
    || TotalFileSize(Select(v[level + 2], r)) > limit
  }

  /** The level a memtable with this range goes to: past levels it does not touch, and none with too much
      two levels below, until it has to stop or is on level 2. */
  ghost predicate IsOutputLevel(v: Version, r: Range, limit: nat, level: nat) {
    && level <= 2 && (level < 2 ==> StopsAt(v, level, r, limit))
    && (level > 0 ==> forall l, f :: 0 <= l <= level && f in v[l] ==> !Overlaps(f, r))
    && forall l :: 0 <= l < level ==> LittleBelow(v, l, r, limit)
  }

  ghost predicate LittleBelow(v: Version, level: nat, r: Range, limit: nat)
    requires level + 2 < NUM_LEVELS
  {
    TotalFileSize(Select(v[level + 2], r)) <= limit
  }

  /** That is one level. */
  lemma OneOutputLevel(v: Version, r: Range, limit: nat, a: nat, b: nat)
    requires IsOutputLevel(v, r, limit, a) && IsOutputLevel(v, r, limit, b)
    ensures a == b
  {
    assert a < b ==> LittleBelow(v, a, r, limit);
    assert b < a ==> LittleBelow(v, b, r, limit);
  }

  /** PickLevelForMemTableOutput. */
  method PickLevelForMemTableOutput(v: Version, small: UserKey, large: UserKey, maxFileSize: nat) returns (level: nat)
    requires Good(v)
    ensures IsOutputLevel(v, Range(Some(small), Some(large)), 10 * maxFileSize, level)
  {
    var r := Range(Some(small), Some(large));
    level := 0;
    var b := SomeFileOverlapsRange(false, v[0], r);
    if !b {
      while level < 2
        invariant level <= 2
        invariant forall l, f :: 0 <= l <= level && f in v[l] ==> !Overlaps(f, r)
        invariant forall l :: 0 <= l < level ==> LittleBelow(v, l, r, 10 * maxFileSize)
      {
        b := SomeFileOverlapsRange(true, v[level + 1], r);
        if b { break; }
        if level + 2 < NUM_LEVELS {
          var overlaps, _ := GetOverlappingInputs(false, v[level + 2], r);
          if TotalFileSize(overlaps) > 10 * maxFileSize { break; }
        }
        level := level + 1;
      }
    }
  }
}
