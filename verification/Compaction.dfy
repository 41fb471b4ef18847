/** The compaction loop of db_impl.cc: which entries survive, and how they are cut into files. */
module Compaction {
  import opened Keys
  import opened Lookup
  import opened Files
  import opened Versions

  /** No file two or more levels below `level` has the key in its range. */
  ghost predicate IsBase(v: Version, level: nat, u: UserKey) {
    forall l, f :: level + 2 <= l < NUM_LEVELS && f in v[l] ==> !(f.smallest.user <= u <= f.largest.user)
  }

  /** The part of class Compaction that IsBaseLevelForKey works on. Its cursors only move
      forward, so callers must ask in key order. */
  class BaseLevel {
    const version: Version
    const level: nat
    const levelPtrs: array<nat>
    ghost var asked: Option<UserKey>

    ghost predicate Valid()
      reads this, levelPtrs
    {
      && level + 1 < NUM_LEVELS && levelPtrs.Length == NUM_LEVELS
      && forall l :: level + 2 <= l < NUM_LEVELS ==>
           SortedDisjoint(version[l]) && levelPtrs[l] <= |version[l]| && Passed(l, levelPtrs[l])
    }

    /** The files before the cursor end before every key still to come. */
    ghost predicate Passed(l: nat, n: nat)
      requires l < NUM_LEVELS && n <= |version[l]|
      reads this
    {
      forall i :: 0 <= i < n ==> asked.Some? && version[l][i].largest.user < asked.value
    }

    constructor (v: Version, level: nat)
      requires Good(v) && level + 1 < NUM_LEVELS
      ensures Valid() && fresh(levelPtrs)
      ensures this.version == v && this.level == level && asked == None
    {
      version := v;
      this.level := level;
      levelPtrs := new nat[NUM_LEVELS](_ => 0);
      asked := None;
    }

    /** One level of IsBaseLevelForKey: is the key outside every file of the level? */
    method Outside(l: nat, u: UserKey) returns (b: bool)
      requires Valid() && asked == Some(u) && level + 2 <= l < NUM_LEVELS
      modifies levelPtrs
      ensures Valid()
      ensures b <==> forall f :: f in version[l] ==> !(f.smallest.user <= u <= f.largest.user)
    {
      while levelPtrs[l] < |version[l]| && version[l][levelPtrs[l]].largest.user < u
        invariant Valid()
        decreases |version[l]| - levelPtrs[l]
      {
        levelPtrs[l] := levelPtrs[l] + 1;
      }
      OutsideFrom(version[l], levelPtrs[l], u);
      b := !(levelPtrs[l] < |version[l]| && version[l][levelPtrs[l]].smallest.user <= u);
    }

    /** Compaction::IsBaseLevelForKey. */
    method IsBaseLevelForKey(u: UserKey) returns (b: bool)
      requires Valid()
      requires asked.Some? ==> asked.value <= u
      modifies this`asked, levelPtrs
      ensures Valid() && asked == Some(u)
      ensures b <==> IsBase(version, level, u)
    {
      asked := Some(u);
      for l := level + 2 to NUM_LEVELS
        invariant Valid() && asked == Some(u)
        invariant forall m, f :: level + 2 <= m < l && f in version[m] ==> !(f.smallest.user <= u <= f.largest.user)
      {
        b := Outside(l, u);
        if !b { return; }
      }
      b := true;
    }
  }

  lemma OutsideFrom(fs: seq<File>, p: nat, u: UserKey)
    requires SortedDisjoint(fs) && p <= |fs|
    requires forall i :: 0 <= i < p ==> fs[i].largest.user < u
    requires p < |fs| ==> u <= fs[p].largest.user
    ensures (p < |fs| && fs[p].smallest.user <= u) <==> exists f :: f in fs && f.smallest.user <= u <= f.largest.user
  {
    if p < |fs| {
      assert fs[p] in fs;
      InRange(fs[p], fs[p].entries[0]);
      assert forall i :: p < i < |fs| ==> Before(fs[p].largest, fs[i].smallest);
    }
  }

  // ---------------------------------------------------------------- the loop

  /** What must survive a compaction of `inputs` at the smallest live snapshot `low`. */
  ghost predicate Survives(inputs: set<Entry>, v: Version, level: nat, low: nat, e: Entry) {
    && !Shadowed(inputs, low, e)
    && !(e.key.kind.Deletion? && e.key.sn <= low && IsBase(v, level, e.key.user))
  }

  /** In key order, an entry is shadowed iff its immediate predecessor shadows it. */
  lemma ShadowedByPredecessor(input: seq<Entry>, low: nat, i: nat)
    requires Sorted(input) && i < |input|
    ensures Shadowed(Elements(input), low, input[i]) <==>
            i > 0 && input[i - 1].key.user == input[i].key.user && input[i - 1].key.sn <= low
  {
    var e := input[i];
    if x :| x in Elements(input) && x.key.user == e.key.user && e.key.sn < x.key.sn <= low {
      var j :| 0 <= j < |input| && input[j] == x;
      assert j < i;
      assert j == i - 1 || Before(input[j].key, input[i - 1].key);
      assert Before(input[i - 1].key, input[i].key);
    }
    if i > 0 && input[i - 1].key.user == e.key.user && input[i - 1].key.sn <= low {
      assert input[i - 1] in Elements(input);
    }
  }

  /** What a compaction leaves behind: of the entries of a key that no snapshot but the oldest can see,
      at most one, and not even that if it is a deletion with nothing below to hide. */
  lemma SurvivorsAreFew(inputs: set<Entry>, v: Version, level: nat, low: nat, a: Entry, b: Entry)
    requires a in inputs && b in inputs && a.key.user == b.key.user && a.key.sn <= low && b.key.sn <= low && a.key.sn != b.key.sn
    ensures !(Survives(inputs, v, level, low, a) && Survives(inputs, v, level, low, b))
    ensures a.key.kind.Deletion? && (forall l, f :: level + 1 < l < NUM_LEVELS && f in v[l] ==> !(f.smallest.user <= a.key.user <= f.largest.user)) ==>
              !Survives(inputs, v, level, low, a)
  {
    assert a.key.sn < b.key.sn ==> Shadowed(inputs, low, a);
    assert b.key.sn < a.key.sn ==> Shadowed(inputs, low, b);
  }

  function Flatten(outputs: seq<seq<Entry>>): seq<Entry> {
    if outputs == [] then [] else Flatten(outputs[..|outputs| - 1]) + outputs[|outputs| - 1]
  }

  /** The finished output files and the one being written (empty: none is open). */
  datatype Output = Output(files: seq<seq<Entry>>, builder: seq<Entry>) {
    ghost function All(): seq<Entry> {
      Flatten(files) + builder
    }

    ghost predicate NoEmptyFile() {
      forall o :: o in files ==> o != []
    }

    /** FinishCompactionOutputFile, if a file is open. */
    function Finish(): (r: Output)
      requires NoEmptyFile()
      ensures r.NoEmptyFile() && r.builder == [] && r.All() == All()
    {
      if builder == [] then this
      else
        assert (files + [builder])[..|files|] == files;
        Output(files + [builder], [])
    }

    function Add(e: Entry): (r: Output)
      requires NoEmptyFile()
      ensures r.NoEmptyFile() && r.All() == All() + [e]
    {
      Output(files, builder + [e])
    }
  }

  /** `kept` is the survivors among the first `i` inputs, in order. */
  ghost predicate KeptSoFar(input: seq<Entry>, i: nat, v: Version, level: nat, low: nat, kept: seq<Entry>)
    requires i <= |input|
  {
    Sorted(kept) && forall e :: e in kept <==> e in input[..i] && Survives(Elements(input), v, level, low, e)
  }

  lemma KeptStep(input: seq<Entry>, i: nat, v: Version, level: nat, low: nat, kept: seq<Entry>)
    requires Sorted(input) && i < |input| && KeptSoFar(input, i, v, level, low, kept)
    ensures KeptSoFar(input, i + 1, v, level, low,
                      if Survives(Elements(input), v, level, low, input[i]) then kept + [input[i]] else kept)
  {
    assert input[..i + 1] == input[..i] + [input[i]];
    forall x | x in kept ensures Before(x.key, input[i].key) { assert x in input[..i]; }
  }

  /** The decision for one entry; `last` is the sequence of the entry before it for the same user
      key, or the largest one. */
  method ShouldDrop(base: BaseLevel, input: seq<Entry>, i: nat, low: nat, last: nat) returns (drop: bool)
    requires Sorted(input) && i < |input| && low < MAX_SEQ && base.Valid()
    requires base.asked.Some? ==> base.asked.value <= input[i].key.user
    requires last == if i > 0 && input[i - 1].key.user == input[i].key.user then input[i - 1].key.sn else MAX_SEQ
    modifies base`asked, base.levelPtrs
    ensures base.Valid() && (base.asked.Some? ==> base.asked.value <= input[i].key.user)
    ensures drop <==> !Survives(Elements(input), base.version, base.level, low, input[i])
  {
    var e := input[i];
    ShadowedByPredecessor(input, low, i);
    drop := false;
    if last <= low {
      drop := true;
    } else if e.key.kind.Deletion? && e.key.sn <= low {
      drop := base.IsBaseLevelForKey(e.key.user);
    }
  }

  /** Entries in key order come with user keys in order. */
  lemma UsersInOrder(input: seq<Entry>, i: nat)
    requires Sorted(input) && 0 < i < |input|
    ensures input[i - 1].key.user <= input[i].key.user
  {
    assert Before(input[i - 1].key, input[i].key);
  }

  /** One turn of the loop: the entry is added or dropped, with the cuts before and after it. */
  method TakeEntry(base: BaseLevel, input: seq<Entry>, i: nat, low: nat, last: nat, out: Output, before: bool, after: bool)
    returns (out': Output)
    requires Sorted(input) && i < |input| && low < MAX_SEQ && base.Valid()
    requires base.asked.Some? ==> base.asked.value <= input[i].key.user
    requires last == if i > 0 && input[i - 1].key.user == input[i].key.user then input[i - 1].key.sn else MAX_SEQ
    requires out.NoEmptyFile() && KeptSoFar(input, i, base.version, base.level, low, out.All())
    modifies base`asked, base.levelPtrs
    ensures base.Valid() && (base.asked.Some? ==> base.asked.value <= input[i].key.user)
    ensures out'.NoEmptyFile() && KeptSoFar(input, i + 1, base.version, base.level, low, out'.All())
  {
    KeptStep(input, i, base.version, base.level, low, out.All());
    out' := if before then out.Finish() else out;
    var drop := ShouldDrop(base, input, i, low, last);
    if !drop {
      out' := out'.Add(input[i]);
      if after { out' := out'.Finish(); }
    }
  }

  /** DoCompactionWork over the merged input. `cutBefore` and `cutAfter` stand for the size
      heuristics (ShouldStopBefore and MaxOutputFileSize); any cut is allowed. */
  method DoCompactionWork(input: seq<Entry>, v: Version, level: nat, low: nat, cutBefore: seq<bool>, cutAfter: seq<bool>)
    returns (outputs: seq<seq<Entry>>)
    requires Sorted(input) && Good(v) && level + 1 < NUM_LEVELS && low < MAX_SEQ
    requires |cutBefore| == |input| && |cutAfter| == |input|
    ensures forall o :: o in outputs ==> o != []
    ensures Sorted(Flatten(outputs))
    ensures forall e :: e in Flatten(outputs) <==> e in input && Survives(Elements(input), v, level, low, e)
  {
    var out := Output([], []);
    var base := new BaseLevel(v, level);
    var currentUserKey: Option<UserKey> := None;
    var lastSequenceForKey := MAX_SEQ;
    for i := 0 to |input|
      invariant base.Valid() && base.version == v && base.level == level && fresh(base) && fresh(base.levelPtrs)
      invariant base.asked.Some? ==> i > 0 && base.asked.value <= input[i - 1].key.user
      invariant i > 0 ==> currentUserKey == Some(input[i - 1].key.user) && lastSequenceForKey == input[i - 1].key.sn
      invariant i == 0 ==> currentUserKey == None
      invariant out.NoEmptyFile() && KeptSoFar(input, i, v, level, low, out.All())
    {
      var e := input[i];
      if currentUserKey != Some(e.key.user) {
        currentUserKey := Some(e.key.user);
        lastSequenceForKey := MAX_SEQ;
      }
      if i > 0 { UsersInOrder(input, i); }
      out := TakeEntry(base, input, i, low, lastSequenceForKey, out, cutBefore[i], cutAfter[i]);
      lastSequenceForKey := e.key.sn;
    }
    assert input[..|input|] == input;
    out := out.Finish();
    outputs := out.files;
    assert out.All() == Flatten(outputs);
  }
}
