/** What a read means: the newest entry at or below a snapshot, over an unordered set of
    entries. Everything else in the model is measured against this definition. */
module Lookup {
  import opened Keys

  datatype Answer = Found(value: string) | NotFound

  ghost predicate Top(db: set<Entry>, u: UserKey, s: nat, e: Entry) {
    && e in db && e.key.user == u && e.key.sn <= s
    && forall x :: x in db && x.key.user == u && x.key.sn <= s ==> x.key.sn <= e.key.sn
  }

  /** No two entries share a user key and a sequence number. */
  ghost predicate UniqueSeq(db: set<Entry>) {
    forall a, b :: a in db && b in db && a.key.user == b.key.user && a.key.sn == b.key.sn ==> a == b
  }

  ghost function Read(db: set<Entry>, u: UserKey, s: nat): Answer {
    if e: Entry :| Top(db, u, s, e) && e.key.kind.Value? then Found(e.value) else NotFound
  }

  function AnswerOf(e: Entry): Answer {
    if e.key.kind.Value? then Found(e.value) else NotFound
  }

  /** The visible entry decides the answer. */
  lemma ReadTop(db: set<Entry>, u: UserKey, s: nat, e: Entry)
    requires UniqueSeq(db)
    requires Top(db, u, s, e)
    ensures Read(db, u, s) == AnswerOf(e)
  {
    if x: Entry :| Top(db, u, s, x) && x.key.kind.Value? {
      assert x == e;
    }
  }

  /** A key with an entry at or below the snapshot has a visible one. */
  lemma {:induction false} TopExists(db: set<Entry>, u: UserKey, s: nat, e: Entry) returns (t: Entry)
    requires e in db && e.key.user == u && e.key.sn <= s
    ensures Top(db, u, s, t) && t.key.sn >= e.key.sn
    decreases s - e.key.sn
  {
    t := e;
    if x :| x in db && x.key.user == u && x.key.sn <= s && x.key.sn > e.key.sn {
      t := TopExists(db, u, s, x);
    }
  }

  /** Rule (A) of DoCompactionWork: a newer entry for the key is itself at or below `low`. */
  ghost predicate Shadowed(inputs: set<Entry>, low: nat, e: Entry) {
    exists x :: x in inputs && x.key.user == e.key.user && e.key.sn < x.key.sn <= low
  }

  /** Nothing outside the compaction holds an older entry for the key of `e`. */
  ghost predicate NothingOlder(rest: set<Entry>, e: Entry) {
    forall x :: x in rest && x.key.user == e.key.user ==> x.key.sn > e.key.sn
  }

  /** A set of survivors the two drop rules allow: shadowed entries go, the others stay
      unless they are obsolete tombstones. */
  ghost predicate ProperDrop(rest: set<Entry>, inputs: set<Entry>, kept: set<Entry>, low: nat) {
    && kept <= inputs
    && (forall e :: e in kept ==> !Shadowed(inputs, low, e))
    && forall e :: e in inputs && e !in kept && !Shadowed(inputs, low, e) ==>
         e.key.kind.Deletion? && e.key.sn <= low && NothingOlder(rest, e)
  }

  /** No snapshot at or above `low` can tell the survivors from the inputs. */
  lemma DropPreservesReads(rest: set<Entry>, inputs: set<Entry>, kept: set<Entry>, low: nat, u: UserKey, s: nat)
    requires UniqueSeq(rest + inputs)
    requires ProperDrop(rest, inputs, kept, low)
    requires low <= s
    ensures Read(rest + kept, u, s) == Read(rest + inputs, u, s)
  {
    var before, after := rest + inputs, rest + kept;
    if t :| Top(before, u, s, t) {
      ReadTop(before, u, s, t);
      if t in after {
        assert Top(after, u, s, t);
        ReadTop(after, u, s, t);
      } else {
        assert !Shadowed(inputs, low, t);
        if x :| Top(after, u, s, x) {
          assert x.key.sn < t.key.sn by { assert x in before; }
          assert x in kept;
          assert Shadowed(inputs, low, x);
        }
      }
    } else {
      forall x | x in after && x.key.user == u ensures x.key.sn > s {
        if x.key.sn <= s { var t := TopExists(before, u, s, x); }
      }
    }
  }

  /** Entries above the snapshot do not matter. */
  lemma OldReadsStay(a: set<Entry>, es: set<Entry>, u: UserKey, s: nat)
    requires UniqueSeq(a + es) && forall e :: e in es && e.key.user == u ==> e.key.sn > s
    ensures Read(a + es, u, s) == Read(a, u, s)
  {
    if t :| Top(a, u, s, t) {
      assert Top(a + es, u, s, t);
      ReadTop(a, u, s, t);
      ReadTop(a + es, u, s, t);
    } else if x :| Top(a + es, u, s, x) {
      var t := TopExists(a, u, s, x);
    }
  }

  /** The highest-numbered of some entries for a key. */
  ghost predicate Newest(es: set<Entry>, u: UserKey, e: Entry) {
    e in es && e.key.user == u && forall x :: x in es && x.key.user == u ==> x.key.sn <= e.key.sn
  }

  /** Writing `es` over `a`: for a key in `es` its newest entry answers, for any other nothing changes. */
  lemma WriteOver(a: set<Entry>, es: set<Entry>, u: UserKey, last: nat, last': nat)
    requires UniqueSeq(a + es) && (forall x :: x in a ==> x.key.sn <= last) && (forall x :: x in es ==> last < x.key.sn <= last')
    requires last <= last'
    ensures forall e :: Newest(es, u, e) ==> Read(a + es, u, last') == AnswerOf(e)
    ensures (forall e :: e in es ==> e.key.user != u) ==> Read(a + es, u, last') == Read(a, u, last)
  {
    forall e | Newest(es, u, e) ensures Read(a + es, u, last') == AnswerOf(e) {
      assert Top(a + es, u, last', e);
      ReadTop(a + es, u, last', e);
    }
    if forall e :: e in es ==> e.key.user != u {
      OldReadsStay(a, es, u, last');
      ReadAbove(a, u, last, last');
    }
  }

  /** Only the entries of a key decide about it. */
  lemma ReadOwn(a: set<Entry>, b: set<Entry>, u: UserKey, s: nat)
    requires UniqueSeq(a) && UniqueSeq(b) && forall e: Entry :: e.key.user == u ==> (e in a <==> e in b)
    ensures Read(a, u, s) == Read(b, u, s)
  {
    if t :| Top(a, u, s, t) {
      assert Top(b, u, s, t);
      ReadTop(a, u, s, t);
      ReadTop(b, u, s, t);
    } else if x :| Top(b, u, s, x) {
      var t := TopExists(a, u, s, x);
    }
  }

  /** Above every entry, the sequence number does not matter. */
  lemma ReadAbove(a: set<Entry>, u: UserKey, s: nat, s': nat)
    requires UniqueSeq(a) && s <= s' && forall x :: x in a && x.key.user == u ==> x.key.sn <= s
    ensures Read(a, u, s') == Read(a, u, s)
  {
    if t :| Top(a, u, s, t) {
      assert Top(a, u, s', t);
      ReadTop(a, u, s, t);
      ReadTop(a, u, s', t);
    } else if x :| Top(a, u, s', x) {
      var t := TopExists(a, u, s, x);
    }
  }

  ghost predicate AllNewer(a: set<Entry>, b: set<Entry>) {
    forall x, y :: x in a && y in b ==> x.key.sn > y.key.sn
  }

  /** Adding a newer layer to two sets that read alike. */
  lemma NewerLayerReads(a: set<Entry>, b: set<Entry>, es: set<Entry>, u: UserKey, s: nat)
    requires a <= b && UniqueSeq(b + es) && AllNewer(es, b) && Read(a, u, s) == Read(b, u, s)
    ensures Read(a + es, u, s) == Read(b + es, u, s)
  {
    if e :| e in es && e.key.user == u && e.key.sn <= s {
      var t := TopExists(es, u, s, e);
      assert Top(a + es, u, s, t) && Top(b + es, u, s, t);
      ReadTop(a + es, u, s, t);
      ReadTop(b + es, u, s, t);
    } else {
      OldReadsStay(a, es, u, s);
      OldReadsStay(b, es, u, s);
    }
  }
}
