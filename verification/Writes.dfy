/** What a batch does to reads: MemTableInserter of write_batch.cc turns operations into entries, and
    the engine then answers with the last operation on a key. */
module Writes {
  import opened Coding
  import opened Keys
  import opened Lookup
  import opened Files
  import opened Versions
  import opened WriteBatch
  import G = GroupCommit
  import L = Lsm

  /** Keys by their rank under the comparator, values as text. */
  datatype Naming = Naming(rank: Bytes -> UserKey, text: Bytes -> string)

  /** MemTableInserter::Put and Delete. */
  function EntryOf(n: Naming, sn: nat, op: Op): Entry {
    match op
    case Put(key, value) => Entry(IKey(n.rank(key), sn, Value), n.text(value))
    case Delete(key) => Entry(IKey(n.rank(key), sn, Deletion), "")
  }

  /** The entries of consecutive operations. */
  function Inserted(n: Naming, first: nat, ops: seq<Op>): (es: seq<Entry>)
    ensures |es| == |ops|
  {
    seq(|ops|, i requires 0 <= i < |ops| => EntryOf(n, first + i, ops[i]))
  }

  /** InsertInto: the operations of a batch, one by one, under consecutive sequence numbers. */
  method InsertInto(n: Naming, rep: Bytes, mem: seq<Entry>, ghost get: Parser<Op>) returns (mem': seq<Entry>, ok: bool)
    requires IsGetOp(get)
    ensures |rep| < HEADER ==> mem' == mem && !ok
    ensures |rep| >= HEADER ==>
              var w := ParseAll(get, rep[HEADER..], []);
              mem' == mem + Inserted(n, Sequence(rep), w.items) && ok == (w.ok && |w.items| == Count(rep))
  {
    var ops;
    ops, ok := Iterate(rep, get);
    mem' := mem;
    if |rep| >= HEADER {
      var sequence := Sequence(rep);
      ghost var es := Inserted(n, sequence, ops);
      for i := 0 to |ops|
        invariant sequence == Sequence(rep) + i && mem' == mem + es[..i]
      {
        assert es[..i + 1] == es[..i] + [es[i]];
        mem' := mem' + [EntryOf(n, sequence, ops[i])];
        sequence := sequence + 1;
      }
      assert es[..|ops|] == es;
    }
  }

  // ---------------------------------------------------------------- the engine

  /** The step a batch of operations is. */
  ghost function WriteOf(n: Naming, st: L.State, ops: seq<Op>): L.Step {
    L.Write(Elements(Inserted(n, st.lastSequence + 1, ops)), |ops|)
  }

  lemma InsertedAt(n: Naming, first: nat, ops: seq<Op>, e: Entry) returns (i: nat)
    requires e in Elements(Inserted(n, first, ops))
    ensures i < |ops| && e == EntryOf(n, first + i, ops[i]) && e.key.sn == first + i
  {
    i :| 0 <= i < |ops| && Inserted(n, first, ops)[i] == e;
  }

  lemma InsertedInOrder(n: Naming, last: nat, ops: seq<Op>)
    ensures var es := Elements(Inserted(n, last + 1, ops));
            && (forall e :: e in es ==> last < e.key.sn <= last + |ops|)
            && forall a, b :: a in es && b in es && a.key.sn == b.key.sn ==> a == b
  {
    var es := Elements(Inserted(n, last + 1, ops));
    forall e | e in es ensures last < e.key.sn <= last + |ops| { var i := InsertedAt(n, last + 1, ops, e); }
    forall a, b | a in es && b in es && a.key.sn == b.key.sn ensures a == b {
      var i := InsertedAt(n, last + 1, ops, a);
      var j := InsertedAt(n, last + 1, ops, b);
    }
  }

  /** Every batch is a write the engine takes, as long as there are sequence numbers for it. */
  lemma EveryBatchIsAWrite(n: Naming, st: L.State, ops: seq<Op>) returns (st': L.State)
    requires st.lastSequence + |ops| < MAX_SEQ
    ensures L.Next(st, WriteOf(n, st, ops), st')
  {
    InsertedInOrder(n, st.lastSequence, ops);
    st' := L.CanWrite(st, Elements(Inserted(n, st.lastSequence + 1, ops)), |ops|);
  }

  /** What an operation makes a read return. */
  function Says(n: Naming, op: Op): Answer {
    if op.Put? then Found(n.text(op.value)) else NotFound
  }

  /** Operation `j` is the last of the batch on the key. */
  ghost predicate LastOn(n: Naming, ops: seq<Op>, u: UserKey, j: nat) {
    j < |ops| && n.rank(ops[j].key) == u && forall k :: j < k < |ops| ==> n.rank(ops[k].key) != u
  }

  lemma LastIsNewest(n: Naming, first: nat, ops: seq<Op>, u: UserKey, j: nat)
    requires LastOn(n, ops, u, j)
    ensures Newest(Elements(Inserted(n, first, ops)), u, EntryOf(n, first + j, ops[j]))
  {
    var es := Inserted(n, first, ops);
    assert es[j] in Elements(es);
    forall x | x in Elements(es) && x.key.user == u ensures x.key.sn <= first + j { var i := InsertedAt(n, first, ops, x); }
  }

  /** Put, then Get: until the key is written again, and whatever the engine does meanwhile, a read
      returns what the last operation of the batch on the key said: its value, or nothing after Delete. */
  lemma BatchIsRead(n: Naming, run: seq<L.State>, steps: seq<L.Step>, i: nat, k: nat, ops: seq<Op>, u: UserKey, j: nat)
    requires L.IsRun(run, steps) && i < k < |run| && steps[i] == WriteOf(n, run[i], ops) && LastOn(n, ops, u, j)
    requires L.StaysUp(steps, i, k) && L.LeavesAlone(steps, i + 1, k, u)
    ensures L.Current(run[k], u) == Says(n, ops[j])
  {
    var first := run[i].lastSequence + 1;
    LastIsNewest(n, first, ops, u, j);
    L.LastWriteIsRead(run, steps, i, k, u, EntryOf(n, first + j, ops[j]));
  }

  /** A key no operation of a batch names reads as before. */
  lemma BatchLeavesOthers(n: Naming, run: seq<L.State>, steps: seq<L.Step>, i: nat, ops: seq<Op>, u: UserKey)
    requires L.IsRun(run, steps) && i < |steps| && steps[i] == WriteOf(n, run[i], ops)
    requires forall j :: 0 <= j < |ops| ==> n.rank(ops[j].key) != u
    ensures L.Current(run[i + 1], u) == L.Current(run[i], u)
  {
    forall e | e in steps[i].entries ensures e.key.user != u { var j := InsertedAt(n, run[i].lastSequence + 1, ops, e); }
    L.WriteIsRead(run, steps, i, u);
  }

  function AsEntries(n: Naming, stamps: seq<(nat, Op)>): seq<Entry> {
    seq(|stamps|, i requires 0 <= i < |stamps| => EntryOf(n, stamps[i].0, stamps[i].1))
  }

  lemma StampIsInserted(n: Naming, r: G.Record)
    ensures AsEntries(n, G.Stamp(r)) == Inserted(n, r.first, G.OpsOf(r.ws))
  {
  }

  lemma FinishIsOneWrite(n: Naming, bytes: G.Size, st: G.State, st': G.State) returns (before: seq<(nat, Op)>, stamps: seq<(nat, Op)>)
    requires G.Inv(st) && G.Next(bytes, st, G.Finish, st')
    ensures G.Leading(st) && st.applied == before + stamps
    ensures var ops := G.OpsOf(st.queue[..st.phase.n]);
            AsEntries(n, stamps) == Inserted(n, st.last + 1, ops) && st'.last == st.last + |ops|
  {
    G.FinishedIsApplied(bytes, st, st');
    before, stamps := G.Stamped(st.records, st.good), G.Stamp(G.Cur(st));
    StampIsInserted(n, G.Cur(st));
  }

  /** A group that finishes is one such step: the operations it has put into the memtable are, as
      entries, those of the batches of its writers in queue order, numbered on from the last sequence,
      which moves on by their count. */
  lemma GroupIsOneWrite(n: Naming, bytes: G.Size, run: seq<G.State>, steps: seq<G.Step>, m: nat)
    returns (before: seq<(nat, Op)>, stamps: seq<(nat, Op)>)
    requires G.IsRun(bytes, run, steps) && m < |steps| && steps[m].Finish?
    ensures G.Leading(run[m]) && run[m].applied == before + stamps
    ensures var ops := G.OpsOf(run[m].queue[..run[m].phase.n]);
            AsEntries(n, stamps) == Inserted(n, run[m].last + 1, ops) && run[m + 1].last == run[m].last + |ops|
  {
    G.RunKeepsInv(bytes, run, steps, m);
    assert G.Next(bytes, run[m], steps[m], run[m + 1]);
    before, stamps := FinishIsOneWrite(n, bytes, run[m], run[m + 1]);
  }
}
