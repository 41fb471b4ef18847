/** Table files, levels, and the searches of version_set.cc over a list of files. */
module Files {
  import opened Keys

  datatype Option<+T> = None | Some(value: T)

  /** FileMetaData together with the entries of the table it names. */
  datatype File = File(number: nat, size: nat, smallest: IKey, largest: IKey, entries: seq<Entry>)

  ghost predicate WellFormed(f: File) {
    && f.entries != [] && Sorted(f.entries)
    && f.smallest == f.entries[0].key && f.largest == f.entries[|f.entries| - 1].key
    && forall e :: e in f.entries ==> e.key.sn <= MAX_SEQ
  }

  ghost predicate AllWellFormed(fs: seq<File>) {
    forall f :: f in fs ==> WellFormed(f)
  }

  /** The form of every level above 0. */
  ghost predicate SortedDisjoint(fs: seq<File>) {
    && AllWellFormed(fs)
    && forall i, j :: 0 <= i < j < |fs| ==> Before(fs[i].largest, fs[j].smallest)
  }

  ghost function Contents(fs: seq<File>): set<Entry> {
    set f, e | f in fs && e in f.entries :: e
  }

  lemma InRange(f: File, e: Entry)
    requires WellFormed(f) && e in f.entries
    ensures f.smallest.user <= e.key.user <= f.largest.user
    ensures !Before(e.key, f.smallest) && !Before(f.largest, e.key)
  {
    var i :| 0 <= i < |f.entries| && f.entries[i] == e;
  }

  // ---------------------------------------------------------------- user-key ranges

  /** A range of user keys; None stands for the null bound, before or after all keys. */
  datatype Range = Range(lo: Option<UserKey>, hi: Option<UserKey>)

  /** !AfterFile && !BeforeFile. */
  predicate Overlaps(f: File, r: Range) {
    && !(r.lo.Some? && r.lo.value > f.largest.user)
    && !(r.hi.Some? && r.hi.value < f.smallest.user)
  }

  predicate Inside(f: File, r: Range) {
    && (r.lo.Some? ==> r.lo.value <= f.smallest.user)
    && (r.hi.Some? ==> f.largest.user <= r.hi.value)
  }

  predicate Contains(r: Range, x: UserKey) {
    (r.lo.Some? ==> r.lo.value <= x) && (r.hi.Some? ==> x <= r.hi.value)
  }

  ghost predicate Covers(fs: seq<File>, x: UserKey) {
    exists f :: f in fs && f.smallest.user <= x <= f.largest.user
  }

  predicate Within(a: Range, b: Range) {
    && (b.lo.Some? ==> a.lo.Some? && b.lo.value <= a.lo.value)
    && (b.hi.Some? ==> a.hi.Some? && a.hi.value <= b.hi.value)
  }

  /** No file straddles the range. */
  ghost predicate Closed(fs: seq<File>, r: Range) {
    forall f :: f in fs && Overlaps(f, r) ==> Inside(f, r)
  }

  /** The files overlapping a range, in list order. */
  function Select(fs: seq<File>, r: Range): seq<File> {
    if fs == [] then []
    else Select(fs[..|fs| - 1], r) + (if Overlaps(fs[|fs| - 1], r) then [fs[|fs| - 1]] else [])
  }

  lemma {:induction false} SelectMembers(fs: seq<File>, r: Range, f: File)
    ensures f in Select(fs, r) <==> f in fs && Overlaps(f, r)
  {
    if fs != [] {
      var n := |fs| - 1;
      SelectMembers(fs[..n], r, f);
      assert fs == fs[..n] + [fs[n]];
    }
  }

  // ---------------------------------------------------------------- searches

  /** What the binary search of FindFile comes to, on any list. */
  function Bisect(fs: seq<File>, key: IKey, left: nat, right: nat): (r: nat)
    requires left <= right <= |fs|
    ensures left <= r <= right
    decreases right - left
  {
    if left == right then right
    else
      var mid := (left + right) / 2;
      if Less(fs[mid].largest, key) then Bisect(fs, key, mid + 1, right) else Bisect(fs, key, left, mid)
  }

  lemma LargestInOrder(fs: seq<File>, i: nat, j: nat)
    requires SortedDisjoint(fs) && i < j < |fs|
    ensures Before(fs[i].largest, fs[j].largest)
  {
    assert fs[j] in fs;
    InRange(fs[j], fs[j].entries[0]);
  }

  /** On a sorted level it is the first file whose largest key is at or after the key. */
  lemma {:induction false} BisectFinds(fs: seq<File>, key: IKey, left: nat, right: nat)
    requires SortedDisjoint(fs) && left <= right <= |fs|
    requires forall i :: 0 <= i < left ==> Less(fs[i].largest, key)
    requires forall i :: right <= i < |fs| ==> !Less(fs[i].largest, key)
    ensures forall i :: 0 <= i < |fs| ==> (Less(fs[i].largest, key) <==> i < Bisect(fs, key, left, right))
    decreases right - left
  {
    if left < right {
      var mid := (left + right) / 2;
      forall i | 0 <= i < |fs|
        ensures i < mid ==> Before(fs[i].largest, fs[mid].largest)
        ensures mid < i ==> Before(fs[mid].largest, fs[i].largest)
      {
        if i < mid { LargestInOrder(fs, i, mid); }
        if mid < i { LargestInOrder(fs, mid, i); }
      }
      if Less(fs[mid].largest, key) { BisectFinds(fs, key, mid + 1, right); } else { BisectFinds(fs, key, left, mid); }
    }
  }

  /** FindFile. */
  method FindFile(fs: seq<File>, key: IKey) returns (r: nat)
    ensures r == Bisect(fs, key, 0, |fs|)
    ensures SortedDisjoint(fs) ==> forall i :: 0 <= i < |fs| ==> (Less(fs[i].largest, key) <==> i < r)
  {
    var left := 0;
    r := |fs|;
    while left < r
      invariant 0 <= left <= r <= |fs| && Bisect(fs, key, left, r) == Bisect(fs, key, 0, |fs|)
    {
      var mid := (left + r) / 2;
      if Less(fs[mid].largest, key) {
        left := mid + 1;
      } else {
        r := mid;
      }
    }
    if SortedDisjoint(fs) { BisectFinds(fs, key, 0, |fs|); }
  }

  /** SomeFileOverlapsRange: linear over level 0, one binary search elsewhere. */
  method SomeFileOverlapsRange(disjoint: bool, fs: seq<File>, r: Range) returns (b: bool)
    requires AllWellFormed(fs)
    requires disjoint ==> SortedDisjoint(fs)
    ensures b <==> exists f :: f in fs && Overlaps(f, r)
  {
    if !disjoint {
      var i := 0;
      while i < |fs|
        invariant 0 <= i <= |fs|
        invariant forall j :: 0 <= j < i ==> !Overlaps(fs[j], r)
      {
        if Overlaps(fs[i], r) { return true; }
        i := i + 1;
      }
      return false;
    }
    var index := 0;
    if r.lo.Some? {
      index := FindFile(fs, SeekKey(r.lo.value, MAX_SEQ));
    }
    forall i | 0 <= i < |fs|
      ensures i < index ==> !Overlaps(fs[i], r)
      ensures index <= i ==> !(r.lo.Some? && r.lo.value > fs[i].largest.user)
      ensures index < i ==> fs[index].smallest.user <= fs[i].smallest.user
    {
      assert fs[i] in fs;
      assert fs[i].entries[|fs[i].entries| - 1] in fs[i].entries;
      if index < i {
        assert fs[index] in fs;
        InRange(fs[index], fs[index].entries[0]);
      }
    }
    if index >= |fs| { return false; }
    b := !(r.hi.Some? && r.hi.value < fs[index].smallest.user);
    assert b ==> fs[index] in fs && Overlaps(fs[index], r);
  }

  /** How many file ends stick out of the range: bounds the restarts of level 0. */
  ghost function Sticking(fs: seq<File>, r: Range): nat {
    if fs == [] then 0
    else
      Sticking(fs[1..], r)
      + (if r.lo.Some? && fs[0].smallest.user < r.lo.value then 1 else 0)
      + (if r.hi.Some? && fs[0].largest.user > r.hi.value then 1 else 0)
  }

  lemma {:induction false} WideningSticksLess(fs: seq<File>, r: Range, r': Range, f: File)
    requires Within(r, r') && r.lo.None? == r'.lo.None? && r.hi.None? == r'.hi.None?
    ensures Sticking(fs, r') <= Sticking(fs, r)
    ensures f in fs && r.lo.Some? && r'.lo.value <= f.smallest.user < r.lo.value ==> Sticking(fs, r') < Sticking(fs, r)
    ensures f in fs && r.hi.Some? && r'.hi.value >= f.largest.user > r.hi.value ==> Sticking(fs, r') < Sticking(fs, r)
  {
    if fs != [] { WideningSticksLess(fs[1..], r, r', f); }
  }

  /** What level-0 input selection computes: the least range that contains the request and
      that no level-0 file straddles. */
  ghost predicate LeastClosed(fs: seq<File>, request: Range, r: Range) {
    && Within(request, r) && Closed(fs, r)
    && forall x: Range :: Within(request, x) && Closed(fs, x) ==> Within(r, x)
  }

  /** What every restart of the level-0 scan keeps: the range holds the request, lies in every
      closed range that does, and grew only over keys of files. */
  ghost predicate Widened(fs: seq<File>, request: Range, r: Range) {
    && Within(request, r) && request.lo.None? == r.lo.None? && request.hi.None? == r.hi.None?
    && (forall x: Range :: Within(request, x) && Closed(fs, x) ==> Within(r, x))
    && forall x :: Contains(r, x) ==> Contains(request, x) || Covers(fs, x)
  }

  lemma WidenTo(fs: seq<File>, request: Range, r: Range, r': Range, f: File)
    requires AllWellFormed(fs) && Widened(fs, request, r) && f in fs && Overlaps(f, r)
    requires || (r.lo.Some? && f.smallest.user < r.lo.value && r' == r.(lo := Some(f.smallest.user)))
             || (r.hi.Some? && f.largest.user > r.hi.value && r' == r.(hi := Some(f.largest.user)))
    ensures Widened(fs, request, r') && Sticking(fs, r') < Sticking(fs, r)
  {
    InRange(f, f.entries[0]);
    WideningSticksLess(fs, r, r', f);
  }

  /** Version::GetOverlappingInputs. */
  method GetOverlappingInputs(level0: bool, fs: seq<File>, request: Range)
    returns (inputs: seq<File>, ghost r: Range)
    requires AllWellFormed(fs)
    ensures inputs == Select(fs, r)
    ensures !level0 ==> r == request
    ensures level0 ==> LeastClosed(fs, request, r)
    ensures request.lo.None? == r.lo.None? && request.hi.None? == r.hi.None?
    ensures forall x :: Contains(r, x) ==> Contains(request, x) || Covers(fs, x)
  {
    inputs := [];
    var range := request;
    var i := 0;
    while i < |fs|
      invariant 0 <= i <= |fs|
      invariant inputs == Select(fs[..i], range)
      invariant !level0 ==> range == request
      invariant Widened(fs, request, range)
      invariant level0 ==> forall j :: 0 <= j < i && Overlaps(fs[j], range) ==> Inside(fs[j], range)
      decreases Sticking(fs, range), |fs| - i
    {
      var f := fs[i];
      i := i + 1;
      assert fs[..i][..i - 1] == fs[..i - 1];
      ghost var was := range;
      if Overlaps(f, range) {
        inputs := inputs + [f];
        if level0 {
          if range.lo.Some? && f.smallest.user < range.lo.value {
            range := range.(lo := Some(f.smallest.user));
            inputs, i := [], 0;
            WidenTo(fs, request, was, range, f);
          } else if range.hi.Some? && f.largest.user > range.hi.value {
            range := range.(hi := Some(f.largest.user));
            inputs, i := [], 0;
            WidenTo(fs, request, was, range, f);
          }
        }
      }
    }
    assert fs[..|fs|] == fs;
    r := range;
  }
}
