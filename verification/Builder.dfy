/** VersionSet::Builder: applying edits to a version, and replaying a whole manifest. */
module Builder {
  import opened Keys
  import opened Files
  import opened Versions
  import opened Install

  /** The file lists of a VersionEdit. */
  datatype Edit = Edit(deleted: seq<(nat, nat)>, added: seq<(nat, File)>)

  ghost predicate EditOk(e: Edit) {
    && (forall d :: d in e.deleted ==> d.0 < NUM_LEVELS)
    && forall a :: a in e.added ==> a.0 < NUM_LEVELS
  }

  ghost function DeletedIn(ds: seq<(nat, nat)>, l: nat): set<nat> {
    if ds == [] then {}
    else
      var d := ds[|ds| - 1];
      DeletedIn(ds[..|ds| - 1], l) + (if d.0 == l then {d.1} else {})
  }

  ghost function AddedIn(fs: seq<(nat, File)>, l: nat): set<File> {
    if fs == [] then {}
    else
      var a := fs[|fs| - 1];
      AddedIn(fs[..|fs| - 1], l) + (if a.0 == l then {a.1} else {})
  }

  lemma {:induction false} AddedInIs(fs: seq<(nat, File)>, l: nat, f: File)
    ensures f in AddedIn(fs, l) <==> (l, f) in fs
  {
    if fs != [] {
      AddedInIs(fs[..|fs| - 1], l, f);
      assert fs == fs[..|fs| - 1] + [fs[|fs| - 1]];
    }
  }

  lemma {:induction false} DeletedInIs(ds: seq<(nat, nat)>, l: nat, n: nat)
    ensures n in DeletedIn(ds, l) <==> (l, n) in ds
  {
    if ds != [] {
      DeletedInIs(ds[..|ds| - 1], l, n);
      assert ds == ds[..|ds| - 1] + [ds[|ds| - 1]];
    }
  }

  ghost function Deleted(e: Edit, l: nat): set<nat> {
    DeletedIn(e.deleted, l)
  }

  ghost function Added(e: Edit, l: nat): set<File> {
    AddedIn(e.added, l)
  }

  ghost function Numbers(fs: set<File>): set<nat> {
    set f | f in fs :: f.number
  }

  ghost function Members(fs: seq<File>): set<File> {
    set f | f in fs
  }

  /** Files the set order cannot tell apart are the same file. */
  ghost predicate Distinguishable(fs: set<File>) {
    forall f, g :: f in fs && g in fs && f.smallest == g.smallest && f.number == g.number ==> f == g
  }

  /** Inserting into std::set<FileMetaData*, BySmallestKey>. */
  function SetInsert(fs: seq<File>, f: File): (r: seq<File>)
    requires InOrder(fs) && Distinguishable(Members(fs) + {f})
    ensures InOrder(r) && Members(r) == Members(fs) + {f}
  {
    if fs == [] then [f]
    else if BySmallest(f, fs[0]) then
      InsertFront(fs, f);
      [f] + fs
    else if !BySmallest(fs[0], f) then
      assert fs[0] in Members(fs);
      fs
    else
      MembersSplit(fs);
      var tail := SetInsert(fs[1..], f);
      InsertTail(fs, f, tail);
      [fs[0]] + tail
  }

  lemma InsertFront(fs: seq<File>, f: File)
    requires InOrder(fs) && fs != [] && BySmallest(f, fs[0])
    ensures InOrder([f] + fs) && Members([f] + fs) == Members(fs) + {f}
  {
    assert forall i :: 0 < i < |fs| ==> BySmallest(fs[0], fs[i]);
    assert forall i :: 0 < i < |fs| ==> BySmallest(f, fs[i]);
  }

  lemma MembersSplit(fs: seq<File>)
    requires fs != []
    ensures Members(fs) == {fs[0]} + Members(fs[1..])
  {
    assert forall g :: g in fs <==> g == fs[0] || g in fs[1..];
  }

  lemma InsertTail(fs: seq<File>, f: File, tail: seq<File>)
    requires InOrder(fs) && fs != [] && BySmallest(fs[0], f) && InOrder(tail) && Members(tail) == Members(fs[1..]) + {f}
    ensures InOrder([fs[0]] + tail) && Members([fs[0]] + tail) == Members(fs) + {f}
  {
    MembersSplit(fs);
    forall i | 0 <= i < |tail| ensures BySmallest(fs[0], tail[i]) {
      assert tail[i] in Members(tail);
    }
    MembersSplit([fs[0]] + tail);
    assert ([fs[0]] + tail)[1..] == tail;
  }

  /** LevelState::deleted_files after one more edit: an added number is no longer deleted. */
  ghost function DeletedAfter(d: set<nat>, e: Edit, l: nat): set<nat> {
    d + Deleted(e, l) - Numbers(Added(e, l))
  }

  class VersionBuilder {
    const base: Version
    var deleted: seq<set<nat>>
    var added: seq<seq<File>>

    ghost predicate Valid()
      reads this
    {
      && |deleted| == NUM_LEVELS && |added| == NUM_LEVELS
      && forall l :: 0 <= l < NUM_LEVELS ==> InOrder(added[l])
    }

    constructor (base: Version)
      ensures Valid() && this.base == base
      ensures forall l :: 0 <= l < NUM_LEVELS ==> deleted[l] == {} && added[l] == []
    {
      this.base := base;
      deleted := [{}, {}, {}, {}, {}, {}, {}];
      added := [[], [], [], [], [], [], []];
    }

    /** Builder::Apply: deletions first, then additions. */
    method Apply(e: Edit)
      requires Valid() && EditOk(e)
      requires forall l :: 0 <= l < NUM_LEVELS ==> Distinguishable(Members(added[l]) + Added(e, l))
      modifies this
      ensures Valid()
      ensures forall l :: 0 <= l < NUM_LEVELS ==> deleted[l] == DeletedAfter(old(deleted)[l], e, l)
      ensures forall l :: 0 <= l < NUM_LEVELS ==> Members(added[l]) == Members(old(added)[l]) + Added(e, l)
    {
      ApplyDeletions(e.deleted);
      ApplyAdditions(e.added);
    }

    /** Builder::SaveTo. */
    method SaveTo() returns (v: Version)
      requires Valid() && forall l :: 0 <= l < NUM_LEVELS ==> Mergeable(base[l], added[l])
      ensures forall l :: 0 <= l < NUM_LEVELS ==>
                InOrder(v[l]) && Members(v[l]) == Keep(Members(base[l]) + Members(added[l]), deleted[l])
    {
      v := [[], [], [], [], [], [], []];
      for level := 0 to NUM_LEVELS
        invariant forall l :: 0 <= l < level ==>
                    InOrder(v[l]) && Members(v[l]) == Keep(Members(base[l]) + Members(added[l]), deleted[l])
      {
        var files := SaveLevel(base[level], added[level], deleted[level]);
        v := v[level := files];
      }
    }

    method ApplyDeletions(ds: seq<(nat, nat)>)
      requires Valid() && forall d :: d in ds ==> d.0 < NUM_LEVELS
      modifies this`deleted
      ensures Valid()
      ensures forall l :: 0 <= l < NUM_LEVELS ==> deleted[l] == old(deleted)[l] + DeletedIn(ds, l)
    {
      for i := 0 to |ds|
        invariant Valid()
        invariant forall l :: 0 <= l < NUM_LEVELS ==> deleted[l] == old(deleted)[l] + DeletedIn(ds[..i], l)
      {
        var level, number := ds[i].0, ds[i].1;
        assert ds[..i + 1][..i] == ds[..i] && ds[i] in ds;
        deleted := deleted[level := deleted[level] + {number}];
      }
      assert ds[..|ds|] == ds;
    }

    method ApplyAdditions(fs: seq<(nat, File)>)
      requires Valid() && forall a :: a in fs ==> a.0 < NUM_LEVELS
      requires forall l :: 0 <= l < NUM_LEVELS ==> Distinguishable(Members(added[l]) + AddedIn(fs, l))
      modifies this
      ensures Valid()
      ensures forall l :: 0 <= l < NUM_LEVELS ==> deleted[l] == old(deleted)[l] - Numbers(AddedIn(fs, l))
      ensures forall l :: 0 <= l < NUM_LEVELS ==> Members(added[l]) == Members(old(added)[l]) + AddedIn(fs, l)
    {
      for i := 0 to |fs|
        invariant Valid()
        invariant forall l :: 0 <= l < NUM_LEVELS ==> deleted[l] == old(deleted)[l] - Numbers(AddedIn(fs[..i], l))
        invariant forall l :: 0 <= l < NUM_LEVELS ==> Members(added[l]) == Members(old(added)[l]) + AddedIn(fs[..i], l)
      {
        var level, f := fs[i].0, fs[i].1;
        assert fs[..i + 1][..i] == fs[..i] && fs[i] in fs;
        AddedInGrows(fs, i + 1, level);
        deleted := deleted[level := deleted[level] - {f.number}];
        added := added[level := SetInsert(added[level], f)];
      }
      assert fs[..|fs|] == fs;
    }
  }

  lemma {:induction false} AddedInGrows(fs: seq<(nat, File)>, i: nat, l: nat)
    requires i <= |fs|
    ensures AddedIn(fs[..i], l) <= AddedIn(fs, l)
    decreases |fs|
  {
    if i == |fs| {
      assert fs[..i] == fs;
    } else {
      AddedInGrows(fs[..|fs| - 1], i, l);
      assert fs[..|fs| - 1][..i] == fs[..i];
    }
  }

  // ---------------------------------------------------------------- SaveTo

  /** Drop the files whose numbers are deleted. */
  ghost function Keep(fs: set<File>, deleted: set<nat>): set<File> {
    set f | f in fs && f.number !in deleted
  }

  /** MaybeAddFile. */
  function MaybeAdd(r: seq<File>, deleted: set<nat>, f: File): seq<File> {
    if f.number in deleted then r else r + [f]
  }

  ghost predicate Precedes(fs: seq<File>, f: File) {
    forall g :: g in fs ==> BySmallest(g, f)
  }

  lemma MaybeAddStep(r: seq<File>, done: set<File>, deleted: set<nat>, f: File)
    requires InOrder(r) && Members(r) == Keep(done, deleted) && Precedes(r, f)
    ensures InOrder(MaybeAdd(r, deleted, f)) && Members(MaybeAdd(r, deleted, f)) == Keep(done + {f}, deleted)
  {
    assert forall i :: 0 <= i < |r| ==> r[i] in r;
    assert Members(r + [f]) == Members(r) + {f};
  }

  /** Every file consumed so far comes before every file still to come. */
  ghost predicate Split(base: seq<File>, i: nat, added: seq<File>, k: nat)
    requires i <= |base| && k <= |added|
  {
    && (forall x, y :: 0 <= x < i && k <= y < |added| ==> BySmallest(base[x], added[y]))
    && forall x, y :: i <= x < |base| && 0 <= y < k ==> BySmallest(added[y], base[x])
  }

  lemma Comparable(f: File, g: File)
    requires f.smallest != g.smallest || f.number != g.number
    ensures BySmallest(f, g) || BySmallest(g, f)
  {
  }

  lemma ConsumedPrecede(base: seq<File>, i: nat, added: seq<File>, k: nat, deleted: set<nat>, r: seq<File>, f: File)
    requires InOrder(base) && InOrder(added) && i <= |base| && k <= |added| && Split(base, i, added, k)
    requires Members(r) == Keep(Members(base[..i]) + Members(added[..k]), deleted)
    requires (i < |base| && f == base[i]) || (k < |added| && f == added[k])
    ensures Precedes(r, f)
  {
    forall g | g in r ensures BySmallest(g, f) {
      assert g in Members(r);
      if g in base[..i] {
        var x :| 0 <= x < i && base[x] == g;
      } else {
        var y :| 0 <= y < k && added[y] == g;
      }
    }
  }

  ghost predicate Mergeable(base: seq<File>, added: seq<File>) {
    && InOrder(base) && InOrder(added)
    && forall f, g :: f in base && g in added ==> f.smallest != g.smallest || f.number != g.number
  }

  /** The state of SaveTo's merge after `i` base files and `k` added files. */
  ghost predicate Merged(base: seq<File>, i: nat, added: seq<File>, k: nat, deleted: set<nat>, r: seq<File>) {
    && i <= |base| && k <= |added| && Split(base, i, added, k)
    && InOrder(r) && Members(r) == Keep(Members(base[..i]) + Members(added[..k]), deleted)
  }

  lemma TakeBase(base: seq<File>, i: nat, added: seq<File>, k: nat, deleted: set<nat>, r: seq<File>)
    requires Mergeable(base, added) && Merged(base, i, added, k, deleted, r) && i < |base|
    requires k < |added| ==> !BySmallest(added[k], base[i])
    ensures Merged(base, i + 1, added, k, deleted, MaybeAdd(r, deleted, base[i]))
  {
    if k < |added| {
      assert base[i] in base && added[k] in added;
      Comparable(base[i], added[k]);
      forall y | k < y < |added| ensures BySmallest(base[i], added[y]) { assert BySmallest(added[k], added[y]); }
    }
    ConsumedPrecede(base, i, added, k, deleted, r, base[i]);
    MaybeAddStep(r, Members(base[..i]) + Members(added[..k]), deleted, base[i]);
    assert Members(base[..i + 1]) + Members(added[..k]) == Members(base[..i]) + Members(added[..k]) + {base[i]} by {
      assert base[..i + 1] == base[..i] + [base[i]];
    }
  }

  lemma TakeAdded(base: seq<File>, i: nat, added: seq<File>, k: nat, deleted: set<nat>, r: seq<File>)
    requires Mergeable(base, added) && Merged(base, i, added, k, deleted, r) && k < |added|
    requires i < |base| ==> BySmallest(added[k], base[i])
    ensures Merged(base, i, added, k + 1, deleted, MaybeAdd(r, deleted, added[k]))
  {
    forall x | i < x < |base| ensures BySmallest(added[k], base[x]) { assert BySmallest(base[i], base[x]); }
    ConsumedPrecede(base, i, added, k, deleted, r, added[k]);
    MaybeAddStep(r, Members(base[..i]) + Members(added[..k]), deleted, added[k]);
    assert Members(base[..i]) + Members(added[..k + 1]) == Members(base[..i]) + Members(added[..k]) + {added[k]} by {
      assert added[..k + 1] == added[..k] + [added[k]];
    }
  }

  /** One level of Builder::SaveTo: the ordered merge, without the deleted files. */
  method SaveLevel(base: seq<File>, added: seq<File>, deleted: set<nat>) returns (r: seq<File>)
    requires Mergeable(base, added)
    ensures InOrder(r) && Members(r) == Keep(Members(base) + Members(added), deleted)
  {
    r := [];
    var i, k := 0, 0;
    while k < |added|
      invariant 0 <= k <= |added| && Merged(base, i, added, k, deleted, r)
    {
      // upper_bound: every base file not after the added one
      while i < |base| && !BySmallest(added[k], base[i])
        invariant Merged(base, i, added, k, deleted, r)
        decreases |base| - i
      {
        TakeBase(base, i, added, k, deleted, r);
        r, i := MaybeAdd(r, deleted, base[i]), i + 1;
      }
      TakeAdded(base, i, added, k, deleted, r);
      r, k := MaybeAdd(r, deleted, added[k]), k + 1;
    }
    while i < |base|
      invariant Merged(base, i, added, k, deleted, r) && k == |added|
      decreases |base| - i
    {
      TakeBase(base, i, added, k, deleted, r);
      r, i := MaybeAdd(r, deleted, base[i]), i + 1;
    }
    assert base[..i] == base && added[..k] == added;
  }

  // ---------------------------------------------------------------- replaying a manifest

  /** One edit applied to one level by a builder of its own, as LogAndApply does. */
  ghost function Apply1(fs: set<File>, e: Edit, l: nat): set<File> {
    Keep(fs + Added(e, l), DeletedAfter({}, e, l))
  }

  /** The edits one at a time. */
  ghost function Sequential(fs: set<File>, es: seq<Edit>, l: nat): set<File> {
    if es == [] then fs else Apply1(Sequential(fs, es[..|es| - 1], l), es[|es| - 1], l)
  }

  ghost function AllAdded(es: seq<Edit>, l: nat): set<File> {
    if es == [] then {} else AllAdded(es[..|es| - 1], l) + Added(es[|es| - 1], l)
  }

  ghost function StillDeleted(es: seq<Edit>, l: nat): set<nat> {
    if es == [] then {} else DeletedAfter(StillDeleted(es[..|es| - 1], l), es[|es| - 1], l)
  }

  /** All the edits through one builder, as VersionSet::Recover does. */
  ghost function Replay(fs: set<File>, es: seq<Edit>, l: nat): set<File> {
    Keep(fs + AllAdded(es, l), StillDeleted(es, l))
  }

  /** Replay loses nothing, whatever the edits are. */
  lemma {:induction false} ReplayKeepsAll(fs: set<File>, es: seq<Edit>, l: nat)
    ensures Sequential(fs, es, l) <= Replay(fs, es, l)
    decreases |es|
  {
    if es != [] { ReplayKeepsAll(fs, es[..|es| - 1], l); }
  }

  /** Edit `k` brings back no other file: one whose number is deleted so far, and added by the edit,
      is itself what the edit adds. */
  ghost predicate SameAgain(fs: set<File>, es: seq<Edit>, l: nat, k: nat)
    requires k < |es|
  {
    forall x :: x in fs + AllAdded(es[..k], l) && x.number in StillDeleted(es[..k], l) && x.number in Numbers(Added(es[k], l)) ==>
      x in Added(es[k], l)
  }

  /** One replay of the edits is what applying them one at a time gives. */
  ghost predicate Agree(fs: set<File>, es: seq<Edit>, l: nat) {
    Replay(fs, es, l) == Sequential(fs, es, l)
  }

  lemma AgreeStep(fs: set<File>, es: seq<Edit>, l: nat, k: nat)
    requires k < |es| && Agree(fs, es[..k], l)
    ensures Agree(fs, es[..k + 1], l) <==> SameAgain(fs, es, l, k)
  {
    var was, now, e := es[..k], es[..k + 1], es[k];
    assert now[..k] == was && now[k] == e;
    var all, gone, added := fs + AllAdded(was, l), StillDeleted(was, l), Added(e, l);
    assert Replay(fs, now, l) == Keep(all + added, DeletedAfter(gone, e, l));
    assert Sequential(fs, now, l) == Keep(Keep(all, gone) + added, DeletedAfter({}, e, l));
    if !SameAgain(fs, es, l, k) {
      var x :| x in all && x.number in gone && x.number in Numbers(added) && x !in added;
      assert x in Replay(fs, now, l) && x !in Sequential(fs, now, l);
    }
  }

  lemma {:induction false} AgreeUpTo(fs: set<File>, es: seq<Edit>, l: nat, k: nat)
    requires k <= |es| && forall i: nat :: i < k ==> SameAgain(fs, es, l, i)
    ensures Agree(fs, es[..k], l)
  {
    if k > 0 {
      AgreeUpTo(fs, es, l, k - 1);
      AgreeStep(fs, es, l, k - 1);
    }
  }

  /** One builder over all edits gives what one builder per edit gives, after every edit, exactly when
      no edit brings back another file under a number that was deleted. */
  lemma ReplayIsExact(fs: set<File>, es: seq<Edit>, l: nat)
    ensures (forall k: nat :: k <= |es| ==> Agree(fs, es[..k], l)) <==> (forall k: nat :: k < |es| ==> SameAgain(fs, es, l, k))
  {
    if forall k: nat :: k < |es| ==> SameAgain(fs, es, l, k) {
      forall k: nat | k <= |es| ensures Agree(fs, es[..k], l) { AgreeUpTo(fs, es, l, k); }
    }
    if forall k: nat :: k <= |es| ==> Agree(fs, es[..k], l) {
      forall k: nat | k < |es| ensures SameAgain(fs, es, l, k) {
        assert Agree(fs, es[..k], l) && Agree(fs, es[..k + 1], l);
        AgreeStep(fs, es, l, k);
      }
    }
  }

  lemma ReplayIsSequential(fs: set<File>, es: seq<Edit>, l: nat)
    requires forall k: nat :: k < |es| ==> SameAgain(fs, es, l, k)
    ensures Replay(fs, es, l) == Sequential(fs, es, l)
  {
    AgreeUpTo(fs, es, l, |es|);
    assert es[..|es|] == es;
  }

  /** No edit adds a number the level has already had. */
  ghost predicate NumbersFresh(fs: set<File>, es: seq<Edit>, l: nat) {
    forall i, f :: 0 <= i < |es| && f in Added(es[i], l) ==> f.number !in Numbers(fs + AllAdded(es[..i], l))
  }

  lemma FreshIsSameAgain(fs: set<File>, es: seq<Edit>, l: nat, k: nat)
    requires NumbersFresh(fs, es, l) && k < |es|
    ensures SameAgain(fs, es, l, k)
  {
    var all, added := fs + AllAdded(es[..k], l), Added(es[k], l);
    forall n | n in Numbers(added) ensures n !in Numbers(all) { var f :| f in added && f.number == n; }
    assert forall x :: x in all ==> x.number in Numbers(all);
  }

  lemma Singletons(f: File)
    ensures AddedIn([(1, f)], 1) == {f} && AddedIn([], 1) == {} && DeletedIn([(1, f.number)], 1) == {f.number}
  {
    assert [(1, f)][..0] == [] && [(1, f.number)][..0] == [];
  }

  /** Why fresh numbers are needed: a number deleted and added again brings the old file back. */
  lemma ReusedNumberComesBack(f: File, g: File)
    requires f.number == g.number && f != g
    ensures var es := [Edit([], [(1, f)]), Edit([(1, f.number)], []), Edit([], [(1, g)])];
            Sequential({}, es, 1) == {g} && Replay({}, es, 1) == {f, g}
  {
    var a, d, b := Edit([], [(1, f)]), Edit([(1, f.number)], []), Edit([], [(1, g)]);
    var es := [a, d, b];
    assert es[..2] == [a, d] && [a, d][..1] == [a] && [a][..0] == [];
    Singletons(f);
    Singletons(g);
    assert Added(a, 1) == {f} && Added(d, 1) == {} && Added(b, 1) == {g};
    assert Deleted(a, 1) == {} && Deleted(d, 1) == {f.number} && Deleted(b, 1) == {};
    assert Sequential({}, [a], 1) == {f};
    assert Sequential({}, [a, d], 1) == {};
    assert AllAdded([a], 1) == {f};
    assert AllAdded([a, d], 1) == AllAdded([a], 1) + Added(d, 1);
    assert AllAdded(es, 1) == AllAdded([a, d], 1) + Added(b, 1);
    assert StillDeleted([a], 1) == {} && StillDeleted([a, d], 1) == {f.number};
    assert g.number in Numbers(Added(b, 1));
    assert StillDeleted(es, 1) == {};
  }

  lemma {:induction false} SequentialFrom(fs: set<File>, e: Edit, es: seq<Edit>, l: nat)
    ensures Sequential(fs, [e] + es, l) == Sequential(Apply1(fs, e, l), es, l)
    decreases |es|
  {
    if es == [] {
      assert [e] + es == [e] && [e][..0] == [];
      assert Sequential(fs, [e][..0], l) == fs;
    } else {
      var n := |es| - 1;
      SequentialFrom(fs, e, es[..n], l);
      assert ([e] + es)[..n + 1] == [e] + es[..n];
    }
  }

  /** The file list of WriteSnapshot. */
  ghost predicate IsSnapshot(e: Edit, v: Version) {
    e.deleted == [] && forall l :: 0 <= l < NUM_LEVELS ==> Added(e, l) == Members(v[l])
  }

  /** Replaying a manifest from its snapshot record rebuilds the current version. */
  lemma ManifestRebuilds(v: Version, snapshot: Edit, es: seq<Edit>, l: nat)
    requires IsSnapshot(snapshot, v) && l < NUM_LEVELS
    requires forall k: nat :: k < |es| + 1 ==> SameAgain({}, [snapshot] + es, l, k)
    ensures Replay({}, [snapshot] + es, l) == Sequential(Members(v[l]), es, l)
  {
    ReplayIsSequential({}, [snapshot] + es, l);
    SequentialFrom({}, snapshot, es, l);
    assert Apply1({}, snapshot, l) == Members(v[l]);
  }

  /** Files in builder order are determined by their set. */
  lemma {:induction false} OrderIsCanonical(a: seq<File>, b: seq<File>)
    requires InOrder(a) && InOrder(b) && Members(a) == Members(b)
    ensures a == b
    decreases |a|
  {
    assert a != [] ==> a[0] in Members(b);
    assert b != [] ==> b[0] in Members(a);
    if a != [] && b != [] {
      assert a[0] == b[0];
      forall f ensures f in a[1..] <==> f in b[1..] {
        assert f in Members(a) <==> f in Members(b);
        assert a == [a[0]] + a[1..] && b == [b[0]] + b[1..];
      }
      OrderIsCanonical(a[1..], b[1..]);
      assert a == [a[0]] + a[1..] && b == [b[0]] + b[1..];
    }
  }

  /** VersionSet::LogAndApply: the version the edit makes of the current one. */
  method LogAndApply(v: Version, e: Edit) returns (v': Version)
    requires EditOk(e)
    requires forall l :: 0 <= l < NUM_LEVELS ==> InOrder(v[l]) && Distinguishable(Added(e, l))
    requires forall l, f, g :: 0 <= l < NUM_LEVELS && f in v[l] && g in Added(e, l) ==> f.smallest != g.smallest || f.number != g.number
    ensures forall l :: 0 <= l < NUM_LEVELS ==> InOrder(v'[l]) && Members(v'[l]) == Apply1(Members(v[l]), e, l)
  {
    var builder := new VersionBuilder(v);
    forall l | 0 <= l < NUM_LEVELS ensures Members(builder.added[l]) + Added(e, l) == Added(e, l) {
      assert Members(builder.added[l]) == {};
    }
    builder.Apply(e);
    forall l | 0 <= l < NUM_LEVELS ensures Mergeable(v[l], builder.added[l]) {
      forall g | g in builder.added[l] ensures g in Added(e, l) { assert g in Members(builder.added[l]); }
    }
    v' := builder.SaveTo();
  }

  /** The manifest loop of VersionSet::Recover: every record through one builder. */
  method Recover(es: seq<Edit>) returns (v: Version)
    requires forall e :: e in es ==> EditOk(e)
    requires forall l :: 0 <= l < NUM_LEVELS ==> Distinguishable(AllAdded(es, l))
    ensures forall l :: 0 <= l < NUM_LEVELS ==> InOrder(v[l]) && Members(v[l]) == Replay({}, es, l)
  {
    var builder := new VersionBuilder([[], [], [], [], [], [], []]);
    for i := 0 to |es|
      invariant builder.Valid() && fresh(builder) && builder.base == [[], [], [], [], [], [], []]
      invariant forall l :: 0 <= l < NUM_LEVELS ==> builder.deleted[l] == StillDeleted(es[..i], l)
      invariant forall l :: 0 <= l < NUM_LEVELS ==> Members(builder.added[l]) == AllAdded(es[..i], l)
    {
      assert es[..i + 1][..i] == es[..i] && es[i] in es;
      forall l | 0 <= l < NUM_LEVELS ensures Distinguishable(Members(builder.added[l]) + Added(es[i], l)) {
        AllAddedGrows(es, i + 1, l);
      }
      builder.Apply(es[i]);
    }
    assert es[..|es|] == es;
    v := builder.SaveTo();
  }

  lemma {:induction false} AllAddedGrows(es: seq<Edit>, i: nat, l: nat)
    requires i <= |es|
    ensures AllAdded(es[..i], l) <= AllAdded(es, l)
    decreases |es|
  {
    if i == |es| {
      assert es[..i] == es;
    } else {
      AllAddedGrows(es[..|es| - 1], i, l);
      assert es[..|es| - 1][..i] == es[..i];
    }
  }

  /** When numbers identify files, deleting by number is deleting the files. */
  lemma ApplyIsEdited(was: seq<File>, now: seq<File>, e: Edit, l: nat, deleted: seq<File>, added: seq<File>)
    requires Added(e, l) == Members(added) && Deleted(e, l) == Numbers(Members(deleted))
    requires forall f, g :: f in was && g in was && f.number == g.number ==> f == g
    requires forall f :: f in deleted ==> f in was
    requires forall f, g :: f in was && g in added ==> f.number != g.number
    ensures Edited(was, now, deleted, added) <==> InOrder(now) && Members(now) == Apply1(Members(was), e, l)
  {
    var after := Apply1(Members(was), e, l);
    forall f ensures f in after <==> (f in was && f !in deleted) || f in added {
      assert f in added ==> f.number in Numbers(Members(added));
      if f in was {
        assert f.number in Numbers(Members(deleted)) <==> f in deleted by {
          if f.number in Numbers(Members(deleted)) {
            var g :| g in Members(deleted) && g.number == f.number;
            assert g in was;
          }
          assert f in deleted ==> f in Members(deleted);
        }
        assert f.number !in Numbers(Members(added));
      }
    }
    assert forall f :: f in now <==> f in Members(now);
  }

  // ---------------------------------------------------------------- recovery and the current version

  lemma {:induction false} AddedEarlier(es: seq<Edit>, k: nat, l: nat)
    requires k < |es|
    ensures Added(es[k], l) <= AllAdded(es, l) && AllAdded(es[..k], l) <= AllAdded(es, l)
  {
    AllAddedGrows(es, k, l);
    AllAddedGrows(es, k + 1, l);
    assert es[..k + 1][..k] == es[..k];
  }

  lemma {:induction false} SequentialAdds(fs: set<File>, es: seq<Edit>, l: nat)
    ensures Sequential(fs, es, l) <= fs + AllAdded(es, l)
  {
    if es != [] { SequentialAdds(fs, es[..|es| - 1], l); }
  }

  /** Edits that can follow one another: the set order tells their files apart, and none adds a file
      the level has. */
  ghost predicate Appliable(fs: set<File>, es: seq<Edit>, l: nat) {
    && Distinguishable(fs + AllAdded(es, l))
    && forall k: nat :: k < |es| ==> Sequential(fs, es[..k], l) !! Added(es[k], l)
  }

  ghost predicate AllAppliable(v: Version, es: seq<Edit>) {
    forall l :: 0 <= l < NUM_LEVELS ==> InOrder(v[l]) && Appliable(Members(v[l]), es, l)
  }

  lemma EditApplies(fs: seq<File>, now: set<File>, es: seq<Edit>, k: nat, l: nat)
    requires Appliable(Members(fs), es, l) && k < |es| && now == Sequential(Members(fs), es[..k], l)
    ensures Distinguishable(Added(es[k], l))
    ensures forall f, g :: f in now && g in Added(es[k], l) ==> f.smallest != g.smallest || f.number != g.number
  {
    AddedEarlier(es, k, l);
    SequentialAdds(Members(fs), es[..k], l);
    assert now !! Added(es[k], l);
  }

  /** LogAndApply, edit after edit. */
  method ApplyAll(v: Version, es: seq<Edit>) returns (v': Version)
    requires (forall e :: e in es ==> EditOk(e)) && AllAppliable(v, es)
    ensures forall l :: 0 <= l < NUM_LEVELS ==> InOrder(v'[l]) && Members(v'[l]) == Sequential(Members(v[l]), es, l)
  {
    v' := v;
    for i := 0 to |es|
      invariant forall l :: 0 <= l < NUM_LEVELS ==> InOrder(v'[l]) && Members(v'[l]) == Sequential(Members(v[l]), es[..i], l)
    {
      assert es[i] in es && es[..i + 1][..i] == es[..i];
      forall l | 0 <= l < NUM_LEVELS
        ensures Distinguishable(Added(es[i], l))
        ensures forall f, g :: f in v'[l] && g in Added(es[i], l) ==> f.smallest != g.smallest || f.number != g.number
      {
        EditApplies(v[l], Members(v'[l]), es, i, l);
        assert forall f :: f in v'[l] ==> f in Members(v'[l]);
      }
      v' := LogAndApply(v', es[i]);
    }
    assert es[..|es|] == es;
  }

  /** A manifest whose every prefix means what its edits meant when they were applied. */
  ghost predicate Rebuildable(v: Version, snapshot: Edit, es: seq<Edit>) {
    && IsSnapshot(snapshot, v) && EditOk(snapshot) && (forall e :: e in es ==> EditOk(e)) && AllAppliable(v, es)
    && forall l, k: nat :: 0 <= l < NUM_LEVELS && k <= |es| ==> SameAgain({}, [snapshot] + es, l, k)
  }

  lemma {:induction false} AllAddedFrom(e: Edit, es: seq<Edit>, l: nat)
    ensures AllAdded([e] + es, l) == Added(e, l) + AllAdded(es, l)
    decreases |es|
  {
    if es == [] {
      assert [e] + es == [e] && [e][..0] == [];
    } else {
      AllAddedFrom(e, es[..|es| - 1], l);
      assert ([e] + es)[..|es|] == [e] + es[..|es| - 1];
    }
  }

  lemma ManifestApplies(v: Version, snapshot: Edit, es: seq<Edit>, l: nat)
    requires Rebuildable(v, snapshot, es) && 0 <= l < NUM_LEVELS
    ensures Distinguishable(AllAdded([snapshot] + es, l))
    ensures Replay({}, [snapshot] + es, l) == Sequential(Members(v[l]), es, l)
  {
    AllAddedFrom(snapshot, es, l);
    ManifestRebuilds(v, snapshot, es, l);
  }

  /** VersionSet::Recover on a manifest returns, list for list, the version that LogAndApply made. */
  method RecoverIsCurrent(v: Version, snapshot: Edit, es: seq<Edit>) returns (current: Version, recovered: Version)
    requires Rebuildable(v, snapshot, es)
    ensures recovered == current
    ensures forall l :: 0 <= l < NUM_LEVELS ==> InOrder(current[l]) && Members(current[l]) == Sequential(Members(v[l]), es, l)
  {
    current := ApplyAll(v, es);
    forall l | 0 <= l < NUM_LEVELS ensures Distinguishable(AllAdded([snapshot] + es, l)) { ManifestApplies(v, snapshot, es, l); }
    recovered := Recover([snapshot] + es);
    forall l | 0 <= l < NUM_LEVELS ensures recovered[l] == current[l] {
      ManifestApplies(v, snapshot, es, l);
      OrderIsCanonical(recovered[l], current[l]);
    }
  }

  lemma RebuildablePrefix(v: Version, snapshot: Edit, es: seq<Edit>, k: nat)
    requires Rebuildable(v, snapshot, es) && k <= |es|
    ensures Rebuildable(v, snapshot, es[..k])
  {
    var part := es[..k];
    forall l | 0 <= l < NUM_LEVELS ensures Appliable(Members(v[l]), part, l) {
      AllAddedGrows(es, k, l);
      assert Appliable(Members(v[l]), es, l);
      forall m: nat | m < k ensures Sequential(Members(v[l]), part[..m], l) !! Added(part[m], l) {
        assert part[..m] == es[..m] && part[m] == es[m];
      }
    }
    forall l, m: nat | 0 <= l < NUM_LEVELS && m <= k ensures SameAgain({}, [snapshot] + part, l, m) {
      assert ([snapshot] + part)[..m] == ([snapshot] + es)[..m] && ([snapshot] + part)[m] == ([snapshot] + es)[m];
      assert SameAgain({}, [snapshot] + es, l, m);
    }
  }

  /** Edits that delete and add the same, whatever the order of their deletions. */
  ghost predicate SameEdit(a: Edit, b: Edit) {
    a.added == b.added && forall d :: d in a.deleted <==> d in b.deleted
  }

  lemma SameEffect(a: Edit, b: Edit, l: nat)
    requires SameEdit(a, b)
    ensures Added(a, l) == Added(b, l) && Deleted(a, l) == Deleted(b, l)
  {
    forall n ensures n in Deleted(a, l) <==> n in Deleted(b, l) {
      DeletedInIs(a.deleted, l, n);
      DeletedInIs(b.deleted, l, n);
    }
  }

  lemma {:induction false} SameReplay(xs: seq<Edit>, ys: seq<Edit>, l: nat)
    requires |xs| == |ys| && forall i :: 0 <= i < |xs| ==> SameEdit(xs[i], ys[i])
    ensures AllAdded(xs, l) == AllAdded(ys, l) && StillDeleted(xs, l) == StillDeleted(ys, l)
    decreases |xs|
  {
    if xs != [] {
      var n := |xs| - 1;
      SameReplay(xs[..n], ys[..n], l);
      SameEffect(xs[n], ys[n], l);
    }
  }
}
