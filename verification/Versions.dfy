/** Versions and point reads: Version::ForEachOverlapping, Version::Get and DBImpl::Get. */
module Versions {
  import opened Keys
  import opened Lookup
  import opened Files

  const NUM_LEVELS := 7

  /** Version::files_. */
  type Version = v: seq<seq<File>> | |v| == NUM_LEVELS witness [[], [], [], [], [], [], []]

  /** For every user key the two files share, the first holds only newer entries. */
  ghost predicate FileNewer(f: File, g: File) {
    forall x, y :: x in f.entries && y in g.entries && x.key.user == y.key.user ==> x.key.sn > y.key.sn
  }

  /** Level 0: files may overlap, and a higher number means newer. */
  ghost predicate LevelZero(fs: seq<File>) {
    && AllWellFormed(fs)
    && (forall f, g :: f in fs && g in fs && f.number == g.number ==> f == g)
    && forall f, g :: f in fs && g in fs && f.number > g.number ==> FileNewer(f, g)
  }

  /** Shallower levels hold only newer entries. */
  ghost predicate NewestFirst(v: Version) {
    forall l, m, f, g :: 0 <= l < m < NUM_LEVELS && f in v[l] && g in v[m] ==> FileNewer(f, g)
  }

  /** The invariant every version keeps. */
  ghost predicate Good(v: Version) {
    && LevelZero(v[0])
    && (forall l :: 1 <= l < NUM_LEVELS ==> SortedDisjoint(v[l]))
    && NewestFirst(v)
  }

  ghost function AllEntries(v: Version): set<Entry> {
    set l, f, e | 0 <= l < NUM_LEVELS && f in v[l] && e in f.entries :: e
  }

  ghost function Elements(es: seq<Entry>): set<Entry> {
    set e | e in es
  }

  /** No entry of `es` is visible for `u` at `s`. */
  ghost predicate NoMatch(es: seq<Entry>, u: UserKey, s: nat) {
    forall e :: e in es && e.key.user == u ==> e.key.sn > s
  }

  /** TableCache::Get with SaveValue, and MemTable::Get: the first entry at or after the seek
      key, provided it is for the same user key. */
  function Probe(es: seq<Entry>, key: IKey): Option<Entry> {
    if es == [] then None
    else if Less(es[0].key, key) then Probe(es[1..], key)
    else if es[0].key.user == key.user then Some(es[0])
    else None
  }

  lemma {:induction false} ProbeFinds(es: seq<Entry>, u: UserKey, s: nat)
    requires Sorted(es)
    ensures var p := Probe(es, SeekKey(u, s));
            match p
            case None => NoMatch(es, u, s)
            case Some(e) => Top(Elements(es), u, s, e)
  {
    var k := SeekKey(u, s);
    if es != [] && Less(es[0].key, k) {
      ProbeFinds(es[1..], u, s);
      assert forall x :: x in es <==> x == es[0] || x in es[1..];
    }
  }

  lemma UniqueAcross(v: Version, l: nat, f: File, a: Entry, m: nat, g: File, b: Entry)
    requires Good(v) && l <= m < NUM_LEVELS && f in v[l] && g in v[m] && a in f.entries && b in g.entries
    requires a.key.user == b.key.user && a.key.sn == b.key.sn
    ensures a == b
  {
    assert l < m ==> FileNewer(f, g);
    if l < m {
    } else if l == 0 {
      assert f.number > g.number ==> FileNewer(f, g);
      assert g.number > f.number ==> FileNewer(g, f);
      UniqueInFile(f, a, b);
    } else {
      assert SortedDisjoint(v[l]);
      InRange(f, a);
      InRange(g, b);
      var i, j :| 0 <= i < |v[l]| && 0 <= j < |v[l]| && v[l][i] == f && v[l][j] == g;
      if i == j { UniqueInFile(f, a, b); }
    }
  }

  lemma UniqueInFile(f: File, a: Entry, b: Entry)
    requires WellFormed(f) && a in f.entries && b in f.entries
    requires a.key.user == b.key.user && a.key.sn == b.key.sn
    ensures a == b
  {
  }

  lemma GoodIsUnique(v: Version)
    requires Good(v)
    ensures UniqueSeq(AllEntries(v))
  {
    forall a, b | a in AllEntries(v) && b in AllEntries(v) && a.key.user == b.key.user && a.key.sn == b.key.sn
      ensures a == b
    {
      var l, f :| 0 <= l < NUM_LEVELS && f in v[l] && a in f.entries;
      var m, g :| 0 <= m < NUM_LEVELS && g in v[m] && b in g.entries;
      if l <= m { UniqueAcross(v, l, f, a, m, g, b); } else { UniqueAcross(v, m, g, b, l, f, a); }
    }
  }

  /** A hit in file `f` of level `l` is the visible entry of the whole version. */
  lemma HitIsTop(v: Version, u: UserKey, s: nat, l: nat, f: File, e: Entry)
    requires Good(v) && l < NUM_LEVELS && f in v[l]
    requires Top(Elements(f.entries), u, s, e)
    requires forall m, g :: 0 <= m < l && g in v[m] ==> NoMatch(g.entries, u, s)
    requires forall g :: g in v[l] && g != f ==> NoMatch(g.entries, u, s) || FileNewer(f, g)
    ensures Read(AllEntries(v), u, s) == AnswerOf(e)
  {
    forall x | x in AllEntries(v) && x.key.user == u && x.key.sn <= s
      ensures x.key.sn <= e.key.sn
    {
      var m, g :| 0 <= m < NUM_LEVELS && g in v[m] && x in g.entries;
      assert m < l ==> NoMatch(g.entries, u, s);
      if m < l {
      } else if m > l {
        assert FileNewer(f, g);
      } else if g == f {
        assert x in Elements(f.entries);
      } else {
        assert NoMatch(g.entries, u, s) || FileNewer(f, g);
      }
    }
    GoodIsUnique(v);
    assert Top(AllEntries(v), u, s, e);
    ReadTop(AllEntries(v), u, s, e);
  }

  lemma MissEverywhere(v: Version, u: UserKey, s: nat)
    requires forall m, g :: 0 <= m < NUM_LEVELS && g in v[m] ==> NoMatch(g.entries, u, s)
    ensures Read(AllEntries(v), u, s) == NotFound
  {
  }

  ghost predicate Descending(fs: seq<File>) {
    forall i, j :: 0 <= i < j < |fs| ==> fs[i].number >= fs[j].number
  }

  /** Insertion into a list ordered by decreasing file number. */
  function Insert(f: File, fs: seq<File>): (r: seq<File>)
    requires Descending(fs)
    ensures Descending(r)
    ensures forall g :: g in r <==> g == f || g in fs
  {
    if fs == [] || f.number >= fs[0].number then [f] + fs
    else
      var tail := Insert(f, fs[1..]);
      assert forall g :: g in fs <==> g == fs[0] || g in fs[1..];
      assert forall i :: 0 <= i < |tail| ==> tail[i] in tail;
      [fs[0]] + tail
  }

  /** The files by decreasing number. */
  function ByNumber(fs: seq<File>): (r: seq<File>)
    ensures Descending(r) && forall g :: g in r <==> g in fs
  {
    if fs == [] then []
    else
      assert fs == fs[..|fs| - 1] + [fs[|fs| - 1]];
      Insert(fs[|fs| - 1], ByNumber(fs[..|fs| - 1]))
  }

  /** std::sort with NewestFirst. */
  method SortNewestFirst(fs: seq<File>) returns (r: seq<File>)
    ensures r == ByNumber(fs) && Descending(r)
    ensures forall g :: g in r <==> g in fs
  {
    r := [];
    for i := 0 to |fs|
      invariant r == ByNumber(fs[..i])
    {
      assert fs[..i + 1][..i] == fs[..i];
      r := Insert(fs[i], r);
    }
    assert fs[..|fs|] == fs;
  }

  // ---------------------------------------------------------------- what the searches come to

  predicate InRangeOf(f: File, u: UserKey) {
    f.smallest.user <= u <= f.largest.user
  }

  /** The files whose range has the key, in list order. */
  function Covering(fs: seq<File>, u: UserKey): (r: seq<File>)
    ensures forall g :: g in r <==> g in fs && InRangeOf(g, u)
  {
    if fs == [] then []
    else
      var last := fs[|fs| - 1];
      assert fs == fs[..|fs| - 1] + [last];
      Covering(fs[..|fs| - 1], u) + (if InRangeOf(last, u) then [last] else [])
  }

  /** The first file of a list that has a match. */
  function FirstHit(fs: seq<File>, u: UserKey, s: nat): Option<Entry> {
    if fs == [] then None
    else
      var hit := Probe(fs[0].entries, SeekKey(u, s));
      if hit.Some? then hit else FirstHit(fs[1..], u, s)
  }

  /** One level: files newest first on level 0, one binary-searched file elsewhere. */
  function LevelHit(zero: bool, fs: seq<File>, u: UserKey, s: nat): Option<Entry> {
    if zero then FirstHit(ByNumber(Covering(fs, u)), u, s)
    else
      var index := Bisect(fs, SeekKey(u, s), 0, |fs|);
      if index < |fs| && u >= fs[index].smallest.user then Probe(fs[index].entries, SeekKey(u, s)) else None
  }

  /** Version::Get from a level on, on any version. */
  function VersionHit(v: Version, u: UserKey, s: nat, level: nat): Option<Entry>
    requires level <= NUM_LEVELS
    decreases NUM_LEVELS - level
  {
    if level == NUM_LEVELS then None
    else
      var hit := LevelHit(level == 0, v[level], u, s);
      if hit.Some? then hit else VersionHit(v, u, s, level + 1)
  }

  /** DBImpl::Get: memtable, immutable memtable, version. */
  function DbHit(mem: seq<Entry>, imm: seq<Entry>, v: Version, u: UserKey, s: nat): Option<Entry> {
    var inMem, inImm := Probe(mem, SeekKey(u, s)), Probe(imm, SeekKey(u, s));
    if inMem.Some? then inMem else if inImm.Some? then inImm else VersionHit(v, u, s, 0)
  }

  function AnswerTo(hit: Option<Entry>): Answer {
    if hit.Some? then AnswerOf(hit.value) else NotFound
  }

  // ---------------------------------------------------------------- what they find

  /** The hit is the visible entry of a file, and other files have no match or only older ones. */
  ghost predicate IsHit(fs: seq<File>, u: UserKey, s: nat, e: Entry, f: File) {
    f in fs && Top(Elements(f.entries), u, s, e) && forall g :: g in fs && g != f ==> NoMatch(g.entries, u, s) || FileNewer(f, g)
  }

  ghost predicate Misses(fs: seq<File>, u: UserKey, s: nat) {
    forall g :: g in fs ==> NoMatch(g.entries, u, s)
  }

  ghost predicate Finds(fs: seq<File>, u: UserKey, s: nat, hit: Option<Entry>) {
    if hit.Some? then exists f :: IsHit(fs, u, s, hit.value, f) else Misses(fs, u, s)
  }

  lemma {:induction false} FirstHitFinds(fs: seq<File>, u: UserKey, s: nat)
    requires LevelZero(fs) && Descending(fs)
    ensures Finds(fs, u, s, FirstHit(fs, u, s))
    decreases |fs|
  {
    if fs != [] {
      var f, rest := fs[0], fs[1..];
      assert fs == [f] + rest && f in fs;
      ProbeFinds(f.entries, u, s);
      if Probe(f.entries, SeekKey(u, s)).Some? {
        forall g | g in fs && g != f ensures FileNewer(f, g) {
          var i :| 0 <= i < |fs| && fs[i] == g;
          assert f.number >= g.number;
        }
        assert IsHit(fs, u, s, FirstHit(fs, u, s).value, f);
      } else {
        FirstHitFinds(rest, u, s);
        FoundInRest(fs, u, s, FirstHit(rest, u, s));
      }
    }
  }

  lemma FoundInRest(fs: seq<File>, u: UserKey, s: nat, hit: Option<Entry>)
    requires fs != [] && NoMatch(fs[0].entries, u, s) && Finds(fs[1..], u, s, hit)
    ensures Finds(fs, u, s, hit)
  {
    assert fs == [fs[0]] + fs[1..];
    if hit.Some? {
      var f :| IsHit(fs[1..], u, s, hit.value, f);
      assert IsHit(fs, u, s, hit.value, f);
    }
  }

  /** Files whose range lacks the key have no match. */
  lemma LevelZeroFinds(fs: seq<File>, u: UserKey, s: nat)
    requires LevelZero(fs)
    ensures Finds(fs, u, s, LevelHit(true, fs, u, s))
  {
    var tmp := ByNumber(Covering(fs, u));
    var hit := FirstHit(tmp, u, s);
    FirstHitFinds(tmp, u, s);
    forall g | g in fs && g !in tmp ensures NoMatch(g.entries, u, s) {
      forall e | e in g.entries ensures e.key.user != u { InRange(g, e); }
    }
    if hit.Some? {
      var f :| IsHit(tmp, u, s, hit.value, f);
      assert IsHit(fs, u, s, hit.value, f);
    }
  }

  /** The one file of a sorted level that can hold the visible entry for a key. */
  lemma OneFilePerLevel(fs: seq<File>, u: UserKey, s: nat, index: nat)
    requires SortedDisjoint(fs) && index <= |fs|
    requires forall i :: 0 <= i < |fs| ==> (Less(fs[i].largest, SeekKey(u, s)) <==> i < index)
    ensures forall i :: 0 <= i < index ==> NoMatch(fs[i].entries, u, s)
    ensures forall i :: index < i < |fs| ==> FileNewer(fs[index], fs[i])
    ensures index < |fs| && (u < fs[index].smallest.user || Probe(fs[index].entries, SeekKey(u, s)).None?)
            ==> forall i :: index <= i < |fs| ==> NoMatch(fs[i].entries, u, s)
  {
    forall i, e | 0 <= i < |fs| && e in fs[i].entries
      ensures i < index && e.key.user == u ==> e.key.sn > s
      ensures index < i ==> forall x :: x in fs[index].entries ==> Before(x.key, e.key)
    {
      assert fs[i] in fs;
      InRange(fs[i], e);
      if index < i {
        assert fs[index] in fs;
        forall x | x in fs[index].entries ensures Before(x.key, e.key) { InRange(fs[index], x); }
      }
    }
    if index < |fs| {
      var f := fs[index];
      assert f in fs;
      ProbeFinds(f.entries, u, s);
      var last := f.entries[|f.entries| - 1];
      if u < f.smallest.user {
        forall e | e in f.entries ensures e.key.user != u { InRange(f, e); }
      }
      assert last in f.entries;
    }
  }

  lemma SortedLevelFinds(fs: seq<File>, u: UserKey, s: nat)
    requires SortedDisjoint(fs)
    ensures Finds(fs, u, s, LevelHit(false, fs, u, s))
  {
    var index := Bisect(fs, SeekKey(u, s), 0, |fs|);
    BisectFinds(fs, SeekKey(u, s), 0, |fs|);
    OneFilePerLevel(fs, u, s, index);
    if index < |fs| && u >= fs[index].smallest.user {
      var f := fs[index];
      assert f in fs;
      ProbeFinds(f.entries, u, s);
      var hit := Probe(f.entries, SeekKey(u, s));
      if hit.Some? { assert IsHit(fs, u, s, hit.value, f); }
    }
  }

  /** Every level of a good version is searched rightly. */
  lemma LevelFinds(v: Version, l: nat, u: UserKey, s: nat)
    requires Good(v) && l < NUM_LEVELS
    ensures Finds(v[l], u, s, LevelHit(l == 0, v[l], u, s))
  {
    if l == 0 { LevelZeroFinds(v[0], u, s); } else { SortedLevelFinds(v[l], u, s); }
  }

  lemma {:induction false} VersionReads(v: Version, u: UserKey, s: nat, l: nat)
    requires Good(v) && l <= NUM_LEVELS && forall m, g :: 0 <= m < l && g in v[m] ==> NoMatch(g.entries, u, s)
    ensures AnswerTo(VersionHit(v, u, s, l)) == Read(AllEntries(v), u, s)
    decreases NUM_LEVELS - l
  {
    if l == NUM_LEVELS {
      MissEverywhere(v, u, s);
    } else {
      LevelFinds(v, l, u, s);
      var hit := LevelHit(l == 0, v[l], u, s);
      if hit.Some? {
        var f :| IsHit(v[l], u, s, hit.value, f);
        HitIsTop(v, u, s, l, f, hit.value);
      } else {
        forall m, g | 0 <= m < l + 1 && g in v[m] ensures NoMatch(g.entries, u, s) {
          if m == l { assert Misses(v[l], u, s); }
        }
        VersionReads(v, u, s, l + 1);
      }
    }
  }

  // ---------------------------------------------------------------- the searches

  /** The level-0 half of ForEachOverlapping: overlapping files, newest first. */
  method SearchLevelZero(fs: seq<File>, u: UserKey, s: nat) returns (hit: Option<Entry>)
    ensures hit == LevelHit(true, fs, u, s)
    ensures LevelZero(fs) ==> Finds(fs, u, s, hit)
  {
    var tmp := [];
    for i := 0 to |fs|
      invariant tmp == Covering(fs[..i], u)
    {
      assert fs[..i + 1][..i] == fs[..i];
      if u >= fs[i].smallest.user && u <= fs[i].largest.user {
        tmp := tmp + [fs[i]];
      }
    }
    assert fs[..|fs|] == fs;
    tmp := SortNewestFirst(tmp);
    hit := TryEach(tmp, u, s);
    if LevelZero(fs) { LevelZeroFinds(fs, u, s); }
  }

  method TryEach(fs: seq<File>, u: UserKey, s: nat) returns (hit: Option<Entry>)
    ensures hit == FirstHit(fs, u, s)
  {
    for i := 0 to |fs|
      invariant FirstHit(fs[i..], u, s) == FirstHit(fs, u, s)
    {
      assert fs[i..][1..] == fs[i + 1..];
      hit := Probe(fs[i].entries, SeekKey(u, s));
      if hit.Some? { return; }
    }
    hit := None;
  }

  /** The other levels: at most one file is opened. */
  method SearchLevel(fs: seq<File>, u: UserKey, s: nat) returns (hit: Option<Entry>)
    ensures hit == LevelHit(false, fs, u, s)
    ensures SortedDisjoint(fs) ==> Finds(fs, u, s, hit)
  {
    hit := None;
    var index := FindFile(fs, SeekKey(u, s));
    if index < |fs| && u >= fs[index].smallest.user {
      hit := Probe(fs[index].entries, SeekKey(u, s));
    }
    if SortedDisjoint(fs) { SortedLevelFinds(fs, u, s); }
  }

  /** Version::Get: level 0 newest file first, then one binary-searched file per level. On a good
      version it returns what taking the newest visible entry over all files would return. */
  method Get(v: Version, u: UserKey, s: nat) returns (r: Answer)
    ensures r == AnswerTo(VersionHit(v, u, s, 0))
    ensures Good(v) ==> r == Read(AllEntries(v), u, s)
  {
    if Good(v) { VersionReads(v, u, s, 0); }
    var hit := SearchLevelZero(v[0], u, s);
    if hit.Some? { return AnswerOf(hit.value); }
    var level := 1;
    while level < NUM_LEVELS
      invariant 1 <= level <= NUM_LEVELS && VersionHit(v, u, s, level) == VersionHit(v, u, s, 0)
    {
      hit := SearchLevel(v[level], u, s);
      if hit.Some? { return AnswerOf(hit.value); }
      level := level + 1;
    }
    r := NotFound;
  }

  ghost predicate NewerThan(a: set<Entry>, b: set<Entry>) {
    forall x, y :: x in a && y in b && x.key.user == y.key.user ==> x.key.sn > y.key.sn
  }

  /** Newer data on top of older data. */
  ghost predicate Stacked(mem: seq<Entry>, imm: seq<Entry>, v: Version) {
    && Sorted(mem) && Sorted(imm) && Good(v)
    && NewerThan(Elements(mem), Elements(imm) + AllEntries(v)) && NewerThan(Elements(imm), AllEntries(v))
  }

  /** A match in a sorted list on top decides. */
  lemma OnTop(es: seq<Entry>, below: set<Entry>, u: UserKey, s: nat, e: Entry)
    requires Sorted(es) && NewerThan(Elements(es), below) && UniqueSeq(below) && Probe(es, SeekKey(u, s)) == Some(e)
    ensures Read(Elements(es) + below, u, s) == AnswerOf(e)
  {
    ProbeFinds(es, u, s);
    assert Top(Elements(es) + below, u, s, e);
    ReadTop(Elements(es) + below, u, s, e);
  }

  /** Without a match there, what is below decides. */
  lemma ThroughTop(es: seq<Entry>, below: set<Entry>, u: UserKey, s: nat)
    requires Sorted(es) && NewerThan(Elements(es), below) && UniqueSeq(below) && Probe(es, SeekKey(u, s)) == None
    ensures Read(Elements(es) + below, u, s) == Read(below, u, s)
  {
    ProbeFinds(es, u, s);
    assert below + Elements(es) == Elements(es) + below;
    OldReadsStay(below, Elements(es), u, s);
  }

  lemma StackReads(es: seq<Entry>, below: set<Entry>, u: UserKey, s: nat)
    requires Sorted(es) && NewerThan(Elements(es), below) && UniqueSeq(below)
    ensures UniqueSeq(Elements(es) + below)
    ensures var hit := Probe(es, SeekKey(u, s));
            Read(Elements(es) + below, u, s) == if hit.Some? then AnswerOf(hit.value) else Read(below, u, s)
  {
    var hit := Probe(es, SeekKey(u, s));
    if hit.Some? { OnTop(es, below, u, s, hit.value); } else { ThroughTop(es, below, u, s); }
  }

  lemma DbReads(mem: seq<Entry>, imm: seq<Entry>, v: Version, u: UserKey, s: nat)
    requires Stacked(mem, imm, v)
    ensures AnswerTo(DbHit(mem, imm, v, u, s)) == Read(Elements(mem) + Elements(imm) + AllEntries(v), u, s)
  {
    GoodIsUnique(v);
    StackReads(imm, AllEntries(v), u, s);
    StackReads(mem, Elements(imm) + AllEntries(v), u, s);
    VersionReads(v, u, s, 0);
    assert Elements(mem) + (Elements(imm) + AllEntries(v)) == Elements(mem) + Elements(imm) + AllEntries(v);
  }

  /** DBImpl::Get: memtable, immutable memtable, current version. */
  method DbGet(mem: seq<Entry>, imm: seq<Entry>, v: Version, u: UserKey, s: nat) returns (r: Answer)
    ensures r == AnswerTo(DbHit(mem, imm, v, u, s))
    ensures Stacked(mem, imm, v) ==> r == Read(Elements(mem) + Elements(imm) + AllEntries(v), u, s)
  {
    if Stacked(mem, imm, v) { DbReads(mem, imm, v, u, s); }
    var hit := Probe(mem, SeekKey(u, s));
    if hit.Some? { return AnswerOf(hit.value); }
    hit := Probe(imm, SeekKey(u, s));
    if hit.Some? { return AnswerOf(hit.value); }
    r := Get(v, u, s);
  }
}
