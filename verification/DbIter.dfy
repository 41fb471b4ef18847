/** DBIter (db_iter.cc): the user-level cursor over internal entries. Whatever the sequence of
    calls, it stands exactly on an entry visible at its sequence number. */
module DbIter {
  import opened Keys
  import opened Lookup
  import opened Files
  import opened Versions

  /** The entry a reader at `s` sees for its user key. */
  ghost predicate VisibleAt(es: seq<Entry>, s: nat, i: int) {
    && 0 <= i < |es| && es[i].key.sn <= s && es[i].key.kind.Value?
    && forall j :: 0 <= j < i && es[j].key.user == es[i].key.user ==> es[j].key.sn > s
  }

  ghost predicate NoneIn(es: seq<Entry>, s: nat, lo: int, hi: int) {
    forall i :: lo <= i < hi ==> !VisibleAt(es, s, i)
  }

  class DBIter {
    const entries: seq<Entry>   // what the internal iterator yields, in order
    const sequence: nat
    var pos: int                // the internal iterator: valid iff within bounds
    var savedKey: Option<UserKey>
    var savedValue: string
    var forward: bool
    var valid: bool
    ghost var at: int           // index of the current visible entry, -1 if none

    ghost predicate Visible(i: int) {
      VisibleAt(entries, sequence, i)
    }

    ghost predicate NoneVisible(lo: int, hi: int) {
      NoneIn(entries, sequence, lo, hi)
    }

    ghost predicate Inv()
      reads this
    {
      && Sorted(entries)
      && (valid <==> at >= 0)
      && (valid ==> Visible(at))
      && (valid && forward ==> pos == at)
      && (valid && !forward ==>
            && -1 <= pos < at
            && savedKey == Some(entries[at].key.user) && savedValue == entries[at].value
            && (pos >= 0 ==> entries[pos].key.user < entries[at].key.user)
            && forall k :: pos < k < at ==> entries[k].key.user == entries[at].key.user || entries[k].key.sn > sequence)
    }

    constructor (entries: seq<Entry>, sequence: nat)
      requires Sorted(entries)
      ensures Inv() && !valid
      ensures this.entries == entries && this.sequence == sequence
    {
      this.entries, this.sequence := entries, sequence;
      pos, savedKey, savedValue := -1, None, "";
      forward, valid, at := true, false, -1;
    }

    method Key() returns (k: UserKey)
      requires Inv() && valid
      ensures k == entries[at].key.user
    {
      if forward { k := entries[pos].key.user; } else { k := savedKey.value; }
    }

    method Value() returns (v: string)
      requires Inv() && valid
      ensures v == entries[at].value
    {
      if forward { v := entries[pos].value; } else { v := savedValue; }
    }

    /** Entries already consumed are hidden, or will be skipped. */
    ghost predicate ReadyToFind(start: int, skip: Option<UserKey>) {
      && Sorted(entries) && 0 <= start < |entries|
      && (forall j, i :: 0 <= j < start <= i < |entries| && entries[j].key.user == entries[i].key.user ==>
            entries[j].key.sn > sequence || (skip.Some? && entries[i].key.user <= skip.value))
      && (skip.Some? ==> forall i :: start <= i < |entries| && entries[i].key.sn <= sequence ==> entries[i].key.user >= skip.value)
    }

    /** A visible entry that is not to be skipped. */
    ghost predicate Wanted(i: int, skip: Option<UserKey>) {
      VisibleAt(entries, sequence, i) && (skip.Some? ==> entries[i].key.user > skip.value)
    }

    /** FindNextUserEntry: move forward to the first wanted entry. */
    method FindNextUserEntry(skip: Option<UserKey>)
      requires ReadyToFind(pos, skip) && forward
      modifies this
      ensures Inv() && forward
      ensures valid ==> old(pos) <= at && Wanted(at, skip) && forall i :: old(pos) <= i < at ==> !Wanted(i, skip)
      ensures !valid ==> forall i :: old(pos) <= i < |entries| ==> !Wanted(i, skip)
    {
      ghost var start := pos;
      var skipping := skip;
      while pos < |entries|
        invariant start <= pos <= |entries| && forward
        invariant forall i :: start <= i < pos ==> !Wanted(i, skip)
        invariant forall j :: start <= j < pos && entries[j].key.sn <= sequence ==> skipping.Some? && entries[j].key.user <= skipping.value
        invariant skipping == skip ||
                  exists j :: start <= j < pos && skipping == Some(entries[j].key.user) && entries[j].key.sn <= sequence
      {
        var e := entries[pos];
        if e.key.sn <= sequence {
          if e.key.kind.Deletion? {
            skipping := Some(e.key.user);
          } else if skipping.Some? && e.key.user <= skipping.value {
            // entry hidden
          } else {
            valid, savedKey := true, None;
            at := pos;
            return;
          }
        }
        pos := pos + 1;
      }
      savedKey, valid := None, false;
      at := -1;
    }

    /** FindPrevUserEntry: move back to the last visible entry at or before the position. */
    method FindPrevUserEntry()
      requires Sorted(entries) && -1 <= pos < |entries| && !forward
      modifies this
      ensures Inv()
      ensures valid ==> at <= old(pos) && NoneVisible(at + 1, old(pos) + 1)
      ensures !valid ==> NoneVisible(0, old(pos) + 1)
    {
      ghost var start := pos;
      ghost var c := -1;
      var isValue := false;
      while pos >= 0
        invariant -1 <= pos <= start && !forward
        invariant !isValue ==> NoneVisible(pos + 1, start + 1)
        invariant isValue ==> pos < c <= start && NoneVisible(c + 1, start + 1)
        invariant isValue ==> entries[c].key.sn <= sequence && entries[c].key.kind.Value?
        invariant isValue ==> savedKey == Some(entries[c].key.user) && savedValue == entries[c].value
        invariant isValue ==> forall k :: pos < k < c ==> entries[k].key.sn > sequence
      {
        var e := entries[pos];
        if e.key.sn <= sequence {
          if isValue && e.key.user < savedKey.value {
            break;
          }
          isValue := e.key.kind.Value?;
          if !isValue {
            savedKey, savedValue := None, "";
          } else {
            savedKey, savedValue := Some(e.key.user), e.value;
            c := pos;
          }
        }
        pos := pos - 1;
      }
      if !isValue {
        valid, savedKey, savedValue, forward := false, None, "", true;
        at := -1;
      } else {
        valid := true;
        at := c;
      }
    }

    /** DBIter::Next. */
    method Next()
      requires Inv() && valid
      modifies this
      ensures Inv()
      ensures valid ==> old(at) < at && NoneVisible(old(at) + 1, at)
      ensures !valid ==> NoneVisible(old(at) + 1, |entries|)
    {
      ghost var was := at;
      if !forward {
        // switch directions: step into the entries of the current key
        forward := true;
        if pos < 0 { pos := 0; } else { pos := pos + 1; }
      } else {
        savedKey := Some(entries[pos].key.user);
        pos := pos + 1;
      }
      if pos >= |entries| {
        valid, savedKey, at := false, None, -1;
        return;
      }
      ghost var skip := savedKey;
      FindNextUserEntry(savedKey);
      assert forall i :: was < i < |entries| && VisibleAt(entries, sequence, i) ==> Wanted(i, skip);
    }

    /** DBIter::Prev. */
    method Prev()
      requires Inv() && valid
      modifies this
      ensures Inv()
      ensures valid ==> at < old(at) && NoneVisible(at + 1, old(at))
      ensures !valid ==> NoneVisible(0, old(at))
    {
      ghost var was := at;
      if forward {
        // scan back until the key changes
        savedKey := Some(entries[pos].key.user);
        while true
          invariant 0 <= pos <= was && savedKey == Some(entries[was].key.user)
          invariant forall k :: pos <= k <= was ==> entries[k].key.user == entries[was].key.user
          decreases pos
        {
          pos := pos - 1;
          if pos < 0 {
            valid, savedKey, savedValue, at := false, None, "", -1;
            return;
          }
          if entries[pos].key.user < savedKey.value { break; }
        }
        forward := false;
      }
      assert NoneVisible(pos + 1, was);
      FindPrevUserEntry();
    }

    /** The internal iterator's Seek: the first entry at or after the key. */
    method IterSeek(key: IKey)
      requires Sorted(entries)
      modifies this`pos
      ensures 0 <= pos <= |entries|
      ensures forall i :: 0 <= i < pos ==> Less(entries[i].key, key)
      ensures forall i :: pos <= i < |entries| ==> !Less(entries[i].key, key)
    {
      pos := 0;
      while pos < |entries| && Less(entries[pos].key, key)
        invariant 0 <= pos <= |entries|
        invariant forall i :: 0 <= i < pos ==> Less(entries[i].key, key)
      {
        pos := pos + 1;
      }
    }

    /** DBIter::Seek. */
    method Seek(target: UserKey)
      requires Sorted(entries)
      modifies this
      ensures Inv()
      ensures valid ==> entries[at].key.user >= target && forall i :: 0 <= i < at && VisibleAt(entries, sequence, i) ==> entries[i].key.user < target
      ensures !valid ==> forall i :: VisibleAt(entries, sequence, i) ==> entries[i].key.user < target
    {
      forward, savedValue := true, "";
      savedKey := None;
      IterSeek(SeekKey(target, sequence));
      assert forall i :: 0 <= i < pos && VisibleAt(entries, sequence, i) ==> entries[i].key.user < target;
      assert forall i :: VisibleAt(entries, sequence, i) ==> Wanted(i, None);
      if pos < |entries| {
        FindNextUserEntry(None);
      } else {
        valid := false;
        at := -1;
      }
    }

    /** DBIter::SeekToFirst. */
    method SeekToFirst()
      requires Sorted(entries)
      modifies this
      ensures Inv()
      ensures valid ==> NoneVisible(0, at)
      ensures !valid ==> NoneVisible(0, |entries|)
    {
      forward, savedValue := true, "";
      pos := 0;
      if pos < |entries| {
        FindNextUserEntry(None);
        assert forall i :: VisibleAt(entries, sequence, i) ==> Wanted(i, None);
      } else {
        valid := false;
        at := -1;
      }
    }

    /** DBIter::SeekToLast. */
    method SeekToLast()
      requires Sorted(entries)
      modifies this
      ensures Inv()
      ensures valid ==> NoneVisible(at + 1, |entries|)
      ensures !valid ==> NoneVisible(0, |entries|)
    {
      forward, savedValue := false, "";
      pos := |entries| - 1;
      FindPrevUserEntry();
    }
  }

  // ---------------------------------------------------------------- the sorted map behind the cursor

  /** The indices of the visible entries, in order: the keys of the map a reader sees. */
  ghost function Indices(es: seq<Entry>, s: nat, n: nat): seq<nat>
    requires n <= |es|
  {
    if n == 0 then [] else Indices(es, s, n - 1) + (if VisibleAt(es, s, n - 1) then [n - 1] else [])
  }

  /** The map's keys are strictly increasing, and it answers every read. */
  lemma VisibleIsTheMap(es: seq<Entry>, s: nat, i: nat)
    requires Sorted(es) && VisibleAt(es, s, i)
    ensures Read(Elements(es), es[i].key.user, s) == Found(es[i].value)
    ensures forall j :: i < j && VisibleAt(es, s, j) ==> es[i].key.user < es[j].key.user
  {
    assert Top(Elements(es), es[i].key.user, s, es[i]);
    ReadTop(Elements(es), es[i].key.user, s, es[i]);
  }

  lemma ReadIsVisible(es: seq<Entry>, s: nat, u: UserKey)
    requires Sorted(es) && Read(Elements(es), u, s).Found?
    ensures exists i :: VisibleAt(es, s, i) && es[i].key.user == u && Read(Elements(es), u, s) == Found(es[i].value)
  {
    var t: Entry :| Top(Elements(es), u, s, t) && t.key.kind.Value? && Read(Elements(es), u, s) == Found(t.value);
    var i :| 0 <= i < |es| && es[i] == t;
    forall j | 0 <= j < i && es[j].key.user == u ensures es[j].key.sn > s { assert es[j] in Elements(es); }
    assert VisibleAt(es, s, i);
  }

  /** How many visible entries come before index `n`. */
  ghost function Rank(es: seq<Entry>, s: nat, n: nat): nat
    requires n <= |es|
  {
    |Indices(es, s, n)|
  }

  lemma {:induction false} RankSkips(es: seq<Entry>, s: nat, lo: nat, hi: nat)
    requires lo <= hi <= |es| && NoneIn(es, s, lo, hi)
    ensures Rank(es, s, lo) == Rank(es, s, hi)
    decreases hi
  {
    if lo < hi { RankSkips(es, s, lo, hi - 1); }
  }

  lemma {:induction false} RankIndex(es: seq<Entry>, s: nat, i: nat, n: nat)
    requires i < n <= |es| && VisibleAt(es, s, i)
    ensures Rank(es, s, i) < |Indices(es, s, n)| && Indices(es, s, n)[Rank(es, s, i)] == i
    decreases n
  {
    if i < n - 1 { RankIndex(es, s, i, n - 1); }
  }

  lemma {:induction false} IndicesMembers(es: seq<Entry>, s: nat, n: nat, k: nat)
    requires n <= |es| && k < |Indices(es, s, n)|
    ensures VisibleAt(es, s, Indices(es, s, n)[k]) && Indices(es, s, n)[k] < n
    ensures Rank(es, s, Indices(es, s, n)[k]) == k
    decreases n
  {
    if k < |Indices(es, s, n - 1)| { IndicesMembers(es, s, n - 1, k); }
  }

  datatype Op = OpNext | OpPrev | OpSeek(target: UserKey) | OpFirst | OpLast

  /** A cursor over the visible map, as a position in its key list. */
  ghost predicate CursorMoves(es: seq<Entry>, s: nat, c: Option<nat>, op: Op, c': Option<nat>) {
    var map_ := Indices(es, s, |es|);
    && (c'.Some? ==> c'.value < |map_|)
    && match op
       case OpNext => c.Some? ==> c' == if c.value + 1 < |map_| then Some(c.value + 1) else None
       case OpPrev => c.Some? ==> c' == if c.value > 0 then Some(c.value - 1) else None
       case OpFirst => c' == if map_ == [] then None else Some(0)
       case OpLast => c' == if map_ == [] then None else Some(|map_| - 1)
       case OpSeek(t) =>
         && (c'.Some? ==> forall k :: 0 <= k < |map_| && map_[k] < |es| ==> (k < c'.value <==> es[map_[k]].key.user < t))
         && (c'.None? ==> forall k :: 0 <= k < |map_| && map_[k] < |es| ==> es[map_[k]].key.user < t)
  }

  ghost function CursorAt(es: seq<Entry>, s: nat, at: int): Option<nat>
    requires at < |es|
  {
    if at >= 0 then Some(Rank(es, s, at)) else None
  }

  ghost function Cursor(it: DBIter): Option<nat>
    reads it
    requires it.Inv()
  {
    CursorAt(it.entries, it.sequence, it.at)
  }

  lemma NoneLeft(es: seq<Entry>, s: nat, lo: nat)
    requires lo <= |es| && NoneIn(es, s, lo, |es|)
    ensures Rank(es, s, lo) == |Indices(es, s, |es|)|
  {
    RankSkips(es, s, lo, |es|);
  }

  lemma SeekedTo(es: seq<Entry>, s: nat, at: int, t: UserKey)
    requires Sorted(es) && at < |es| && (at >= 0 ==> VisibleAt(es, s, at))
    requires at >= 0 ==> es[at].key.user >= t && forall i :: 0 <= i < at && VisibleAt(es, s, i) ==> es[i].key.user < t
    requires at < 0 ==> forall i :: VisibleAt(es, s, i) ==> es[i].key.user < t
    ensures forall c :: CursorMoves(es, s, c, OpSeek(t), CursorAt(es, s, at))
  {
    var m := Indices(es, s, |es|);
    if at >= 0 { RankIndex(es, s, at, |es|); }
    forall k | 0 <= k < |m| ensures m[k] < |es| { IndicesMembers(es, s, |es|, k); }
    forall k | 0 <= k < |m|
      ensures at >= 0 ==> (k < Rank(es, s, at) <==> es[m[k]].key.user < t)
      ensures at < 0 ==> es[m[k]].key.user < t
    {
      IndicesMembers(es, s, |es|, k);
      if at >= 0 {
        if m[k] < at { RankGrows(es, s, m[k], at); }
        if m[k] > at { VisibleIsTheMap(es, s, at); RankGrows(es, s, at, m[k]); }
      }
    }
  }

  lemma RankGrows(es: seq<Entry>, s: nat, i: nat, j: nat)
    requires i < j <= |es| && VisibleAt(es, s, i)
    ensures Rank(es, s, i) < Rank(es, s, j)
  {
    RankIndex(es, s, i, j);
  }

  lemma NextMoved(es: seq<Entry>, s: nat, was: int, at: int)
    requires 0 <= was < |es| && VisibleAt(es, s, was) && at < |es|
    requires if at >= 0 then was < at && VisibleAt(es, s, at) && NoneIn(es, s, was + 1, at) else NoneIn(es, s, was + 1, |es|)
    ensures CursorMoves(es, s, CursorAt(es, s, was), OpNext, CursorAt(es, s, at))
  {
    RankIndex(es, s, was, |es|);
    if at >= 0 {
      RankIndex(es, s, at, |es|);
      RankSkips(es, s, was + 1, at);
    } else {
      NoneLeft(es, s, was + 1);
    }
  }

  lemma PrevMoved(es: seq<Entry>, s: nat, was: int, at: int)
    requires 0 <= was < |es| && VisibleAt(es, s, was) && at < |es|
    requires if at >= 0 then at < was && VisibleAt(es, s, at) && NoneIn(es, s, at + 1, was) else NoneIn(es, s, 0, was)
    ensures CursorMoves(es, s, CursorAt(es, s, was), OpPrev, CursorAt(es, s, at))
  {
    if at >= 0 {
      RankIndex(es, s, at, |es|);
      RankSkips(es, s, at + 1, was);
    } else {
      RankSkips(es, s, 0, was);
    }
  }

  lemma EndMoved(es: seq<Entry>, s: nat, at: int, c: Option<nat>)
    requires at < |es| && (at >= 0 ==> VisibleAt(es, s, at)) && (at < 0 ==> NoneIn(es, s, 0, |es|))
    ensures at < 0 || NoneIn(es, s, 0, at) ==> CursorMoves(es, s, c, OpFirst, CursorAt(es, s, at))
    ensures at < 0 || NoneIn(es, s, at + 1, |es|) ==> CursorMoves(es, s, c, OpLast, CursorAt(es, s, at))
  {
    if at >= 0 {
      RankIndex(es, s, at, |es|);
      if NoneIn(es, s, 0, at) { RankSkips(es, s, 0, at); }
      if NoneIn(es, s, at + 1, |es|) { NoneLeft(es, s, at + 1); }
    } else {
      NoneLeft(es, s, 0);
    }
  }

  /** Any call, from any reachable state, moves the cursor as the map demands. */
  method Do(it: DBIter, op: Op)
    requires it.Inv() && (op.OpNext? || op.OpPrev? ==> it.valid)
    modifies it
    ensures it.Inv()
    ensures CursorMoves(it.entries, it.sequence, old(Cursor(it)), op, Cursor(it))
  {
    ghost var es, s, was := it.entries, it.sequence, it.at;
    ghost var c := CursorAt(es, s, was);
    match op {
      case OpNext =>
        it.Next();
        NextMoved(es, s, was, it.at);
      case OpPrev =>
        it.Prev();
        PrevMoved(es, s, was, it.at);
      case OpSeek(t) =>
        it.Seek(t);
        SeekedTo(es, s, it.at, t);
      case OpFirst =>
        it.SeekToFirst();
        EndMoved(es, s, it.at, c);
      case OpLast =>
        it.SeekToLast();
        EndMoved(es, s, it.at, c);
    }
  }
}
