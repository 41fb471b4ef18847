/** DBImpl::Write and BuildBatchGroup: writers queue up, the one at the front logs and applies
    a group for all, and readers look on at any moment. */
module GroupCommit {
  import opened Files
  import opened WriteBatch

  datatype Writer = Writer(id: nat, batch: Option<seq<Op>>, sync: bool)

  // ---------------------------------------------------------------- building a group

  const MAX_GROUP := 1048576
  const SMALL := 131072

  type Size = seq<Op> -> nat

  function MaxSize(first: nat): nat {
    if first <= SMALL then first + SMALL else MAX_GROUP
  }

  /** The first writer, from index `i` on, that stays out of the group. */
  function GroupEnd(bytes: Size, q: seq<Writer>, i: nat, size: nat, max: nat): (n: nat)
    requires 0 < i <= |q|
    ensures i <= n <= |q|
    decreases |q| - i
  {
    if i == |q| || (q[i].sync && !q[0].sync) then i
    else if q[i].batch.None? then GroupEnd(bytes, q, i + 1, size, max)
    else if size + bytes(q[i].batch.value) > max then i
    else GroupEnd(bytes, q, i + 1, size + bytes(q[i].batch.value), max)
  }

  function Group(bytes: Size, q: seq<Writer>): nat
    requires q != [] && q[0].batch.Some?
  {
    var size := bytes(q[0].batch.value);
    GroupEnd(bytes, q, 1, size, MaxSize(size))
  }

  function OpsOf(ws: seq<Writer>): seq<Op> {
    if ws == [] then []
    else
      var w := ws[|ws| - 1];
      OpsOf(ws[..|ws| - 1]) + (if w.batch.Some? then w.batch.value else [])
  }

  function BytesOf(bytes: Size, ws: seq<Writer>): nat {
    if ws == [] then 0
    else
      var w := ws[|ws| - 1];
      BytesOf(bytes, ws[..|ws| - 1]) + (if w.batch.Some? then bytes(w.batch.value) else 0)
  }

  /** Why a writer stays out: it asks for a sync the leader does not do, or would make the group too big. */
  ghost predicate StaysOut(bytes: Size, q: seq<Writer>, n: nat, max: nat)
    requires 0 < n < |q|
  {
    || (q[n].sync && !q[0].sync)
    || (q[n].batch.Some? && BytesOf(bytes, q[..n]) + bytes(q[n].batch.value) > max)
  }

  /** The group is as long as the rules allow, and keeps to the size limit unless its leader alone
      exceeds it. */
  lemma {:induction false} GroupIsMaximal(bytes: Size, q: seq<Writer>, i: nat, size: nat, max: nat, first: nat)
    requires 0 < i <= |q| && size == BytesOf(bytes, q[..i]) && (size <= max || size == first)
    ensures var n := GroupEnd(bytes, q, i, size, max);
            && (n < |q| ==> StaysOut(bytes, q, n, max))
            && (BytesOf(bytes, q[..n]) <= max || BytesOf(bytes, q[..n]) == first)
    decreases |q| - i
  {
    if i < |q| && !(q[i].sync && !q[0].sync) {
      assert q[..i + 1][..i] == q[..i];
      if q[i].batch.None? {
        GroupIsMaximal(bytes, q, i + 1, size, max, first);
      } else if size + bytes(q[i].batch.value) <= max {
        GroupIsMaximal(bytes, q, i + 1, size + bytes(q[i].batch.value), max, first);
      }
    }
  }

  /** A sync write is never carried by a leader that does not sync. */
  lemma {:induction false} SyncRule(bytes: Size, q: seq<Writer>, i: nat, size: nat, max: nat, k: nat)
    requires 0 < i <= |q| && k < GroupEnd(bytes, q, i, size, max) && (k < i ==> q[k].sync ==> q[0].sync)
    ensures q[k].sync ==> q[0].sync
    decreases |q| - i
  {
    if i < |q| && !(q[i].sync && !q[0].sync) {
      if q[i].batch.None? {
        SyncRule(bytes, q, i + 1, size, max, k);
      } else if size + bytes(q[i].batch.value) <= max {
        SyncRule(bytes, q, i + 1, size + bytes(q[i].batch.value), max, k);
      }
    }
  }

  lemma GroupRules(bytes: Size, q: seq<Writer>)
    requires q != [] && q[0].batch.Some?
    ensures var n, first := Group(bytes, q), bytes(q[0].batch.value);
            && (forall k :: 0 <= k < n && q[k].sync ==> q[0].sync)
            && (n < |q| ==> StaysOut(bytes, q, n, MaxSize(first)))
            && (BytesOf(bytes, q[..n]) <= MaxSize(first) || BytesOf(bytes, q[..n]) == first)
  {
    var size := bytes(q[0].batch.value);
    assert q[..1][..0] == [] && BytesOf(bytes, q[..1]) == BytesOf(bytes, []) + size;
    GroupIsMaximal(bytes, q, 1, size, MaxSize(size), size);
    forall k | 0 <= k < Group(bytes, q) && q[k].sync ensures q[0].sync { SyncRule(bytes, q, 1, size, MaxSize(size), k); }
  }

  /** BuildBatchGroup: the group's end, and the concatenation of its batches. */
  method BuildBatchGroup(bytes: Size, q: seq<Writer>) returns (n: nat, result: seq<Op>)
    requires q != [] && q[0].batch.Some?
    ensures n == Group(bytes, q) && result == OpsOf(q[..n])
    ensures forall k :: 0 <= k < n && q[k].sync ==> q[0].sync
    ensures n < |q| ==> StaysOut(bytes, q, n, MaxSize(bytes(q[0].batch.value)))
    ensures BytesOf(bytes, q[..n]) <= MaxSize(bytes(q[0].batch.value)) || BytesOf(bytes, q[..n]) == bytes(q[0].batch.value)
  {
    result := q[0].batch.value;
    var size: nat := bytes(result);
    var max: nat := MAX_GROUP;
    if size <= SMALL { max := size + SMALL; }
    n := 1;
    assert q[..1][..0] == [] && OpsOf(q[..1]) == OpsOf([]) + result == result;
    while n < |q|
      invariant 1 <= n <= |q| && result == OpsOf(q[..n])
      invariant GroupEnd(bytes, q, n, size, max) == Group(bytes, q)
    {
      var w := q[n];
      assert q[..n + 1][..n] == q[..n];
      if w.sync && !q[0].sync { break; }
      if w.batch.Some? {
        size := size + bytes(w.batch.value);
        if size > max { break; }
        result := result + w.batch.value;
      }
      n := n + 1;
    }
    GroupRules(bytes, q);
  }

  // ---------------------------------------------------------------- the protocol

  /** A log record: the sequence number of its first operation, and the writers it is for. */
  datatype Record = Record(first: nat, ws: seq<Writer>, log: nat)

  datatype Phase =
    | Idle                            // nobody writes
    | Built(n: nat)                   // the group is chosen, the mutex released
    | Logged(n: nat)
    | Synced(n: nat)
    | Applying(n: nat, k: nat)        // k operations are in the memtable
    | Failed(n: nat, logged: bool)

  datatype State = State(
    queue: seq<Writer>,
    phase: Phase,
    last: nat,                        // versions_->LastSequence()
    curLog: nat,
    records: seq<Record>,             // all logs, in the order written
    synced: set<nat>,                 // which of them a sync has followed
    applied: seq<(nat, Op)>,          // the memtables, in the order inserted
    good: seq<nat>,                   // records wholly applied
    results: map<nat, bool>,          // what finished writers were told
    writers: map<nat, Writer>,        // everyone who ever queued up
    nextId: nat,
    taken: set<nat>,                  // sequence numbers readers read at
    error: bool)

  datatype Step =
    | Enqueue(batch: Option<seq<Op>>, sync: bool)
    | TakeSnapshot
    | Refuse | NewLog | Nothing
    | Build | Append(ok: bool) | Sync(ok: bool) | Start | Insert | Finish | GiveUp

  /** The record the leader is writing. */
  ghost function Cur(st: State): Record
    requires !st.phase.Idle? && st.phase.n <= |st.queue|
  {
    Record(st.last + 1, st.queue[..st.phase.n], st.curLog)
  }

  ghost predicate Leading(st: State) {
    !st.phase.Idle? && 0 < st.phase.n <= |st.queue|
  }

  function InLog(rs: seq<Record>, log: nat): set<nat> {
    set i | 0 <= i < |rs| && rs[i].log == log
  }

  function Tell(results: map<nat, bool>, ws: seq<Writer>, ok: bool): map<nat, bool> {
    if ws == [] then results else Tell(results, ws[..|ws| - 1], ok)[ws[|ws| - 1].id := ok]
  }

  ghost predicate Next(bytes: Size, st: State, step: Step, st': State) {
    match step
    case Enqueue(batch, sync) =>
      var w := Writer(st.nextId, batch, sync);
      st' == st.(queue := st.queue + [w], writers := st.writers[st.nextId := w], nextId := st.nextId + 1)
    case TakeSnapshot =>
      st' == st.(taken := st.taken + {st.last})
    case Refuse =>
      // MakeRoomForWrite fails, always so after a background error
      st.phase.Idle? && st.queue != [] &&
      st' == st.(queue := st.queue[1..], results := Tell(st.results, st.queue[..1], false))
    case NewLog =>
      // MakeRoomForWrite switches to a new log and memtable
      st.phase.Idle? && st.queue != [] && !st.error && st' == st.(curLog := st.curLog + 1)
    case Nothing =>
      // a null batch only makes room
      st.phase.Idle? && st.queue != [] && !st.error && st.queue[0].batch.None? &&
      st' == st.(queue := st.queue[1..], results := Tell(st.results, st.queue[..1], true))
    case Build =>
      st.phase.Idle? && st.queue != [] && !st.error && st.queue[0].batch.Some? &&
      st' == st.(phase := Built(Group(bytes, st.queue)))
    case Append(ok) =>
      st.phase.Built? && Leading(st) &&
      st' == if ok then st.(records := st.records + [Cur(st)], phase := Logged(st.phase.n))
             else st.(phase := Failed(st.phase.n, false))
    case Sync(ok) =>
      st.phase.Logged? && Leading(st) && st.queue[0].sync &&
      st' == if ok then st.(synced := st.synced + InLog(st.records, st.curLog), phase := Synced(st.phase.n))
             else st.(phase := Failed(st.phase.n, true), error := true)
    case Start =>
      Leading(st) && (st.phase.Synced? || (st.phase.Logged? && !st.queue[0].sync)) &&
      st' == st.(phase := Applying(st.phase.n, 0))
    case Insert =>
      // one operation of the batch goes into the memtable
      Leading(st) && st.phase.Applying? && st.phase.k < |OpsOf(Cur(st).ws)| &&
      st' == st.(applied := st.applied + [(st.last + 1 + st.phase.k, OpsOf(Cur(st).ws)[st.phase.k])],
                 phase := Applying(st.phase.n, st.phase.k + 1))
    case Finish =>
      Leading(st) && st.phase.Applying? && st.phase.k == |OpsOf(Cur(st).ws)| && st.records != [] &&
      st' == st.(last := st.last + st.phase.k, phase := Idle, good := st.good + [|st.records| - 1],
                 results := Tell(st.results, st.queue[..st.phase.n], true), queue := st.queue[st.phase.n..])
    case GiveUp =>
      // the sequence numbers are used up all the same
      Leading(st) && st.phase.Failed? &&
      st' == st.(last := st.last + |OpsOf(Cur(st).ws)|, phase := Idle,
                 results := Tell(st.results, st.queue[..st.phase.n], false), queue := st.queue[st.phase.n..])
  }

  ghost predicate Init(st: State) {
    st == State([], Idle, 0, 0, [], {}, [], [], map[], map[], 0, {}, false)
  }

  ghost predicate IsRun(bytes: Size, run: seq<State>, steps: seq<Step>) {
    && |run| == |steps| + 1 && Init(run[0])
    && forall i :: 0 <= i < |steps| ==> Next(bytes, run[i], steps[i], run[i + 1])
  }

  // ---------------------------------------------------------------- the invariant

  ghost function End(r: Record): nat {
    r.first + |OpsOf(r.ws)|
  }

  /** The operations of a record under their sequence numbers. */
  ghost function Stamp(r: Record): (es: seq<(nat, Op)>)
    ensures |es| == |OpsOf(r.ws)|
  {
    seq(|OpsOf(r.ws)|, i requires 0 <= i < |OpsOf(r.ws)| => (r.first + i, OpsOf(r.ws)[i]))
  }

  ghost predicate InRange(good: seq<nat>, n: nat) {
    forall k :: 0 <= k < |good| ==> good[k] < n
  }

  ghost function Stamped(records: seq<Record>, good: seq<nat>): seq<(nat, Op)>
    requires InRange(good, |records|)
  {
    if good == [] then [] else Stamped(records, good[..|good| - 1]) + Stamp(records[good[|good| - 1]])
  }

  ghost predicate Increasing(ws: seq<Writer>) {
    forall i, j :: 0 <= i < j < |ws| ==> ws[i].id < ws[j].id
  }

  ghost predicate IdsBelow(ws: seq<Writer>, vs: seq<Writer>) {
    forall w, v :: w in ws && v in vs ==> w.id < v.id
  }

  ghost predicate RecordBefore(r: Record, q: Record) {
    End(r) <= q.first && IdsBelow(r.ws, q.ws)
  }

  ghost predicate RecordsOk(records: seq<Record>) {
    && (forall i :: 0 <= i < |records| ==> Increasing(records[i].ws))
    && forall i, j :: 0 <= i < j < |records| ==> RecordBefore(records[i], records[j])
  }

  /** Is the leader's record in the log yet? */
  predicate CurLogged(p: Phase) {
    p.Logged? || p.Synced? || p.Applying? || (p.Failed? && p.logged)
  }

  ghost predicate PhaseOk(st: State) {
    && (!st.phase.Idle? ==> 0 < st.phase.n <= |st.queue| && forall k :: 0 <= k < st.phase.n && st.queue[k].sync ==> st.queue[0].sync)
    && (CurLogged(st.phase) ==> st.records != [] && st.records[|st.records| - 1] == Cur(st))
    && (st.phase.Synced? || (st.phase.Applying? && st.queue[0].sync) ==> |st.records| - 1 in st.synced)
    && (st.phase.Applying? ==> st.phase.k <= |OpsOf(Cur(st).ws)|)
  }

  /** The records of finished groups. */
  ghost function Older(st: State): seq<Record> {
    if CurLogged(st.phase) && st.records != [] then st.records[..|st.records| - 1] else st.records
  }

  ghost predicate Settled(r: Record, queue: seq<Writer>, last: nat, taken: set<nat>) {
    && End(r) <= last + 1 && IdsBelow(r.ws, queue)
    && forall s :: s in taken ==> End(r) <= s + 1 || s < r.first
  }

  ghost predicate Known(ws: seq<Writer>, writers: map<nat, Writer>, nextId: nat) {
    forall w :: w in ws ==> w.id < nextId && w.id in writers && writers[w.id] == w
  }

  ghost predicate QueueOk(st: State) {
    && Increasing(st.queue) && Known(st.queue, st.writers, st.nextId)
    && (forall r :: r in st.records ==> Known(r.ws, st.writers, st.nextId))
    && (forall id :: id in st.writers ==> id < st.nextId && st.writers[id].id == id)
    && forall s :: s in st.taken ==> s <= st.last
  }

  /** What an OK answer is worth. */
  ghost predicate Honoured(st: State, id: nat) {
    && id in st.writers
    && (st.writers[id].batch.Some? ==>
          exists i: nat :: i in st.good && i < |st.records| && st.writers[id] in st.records[i].ws && (st.writers[id].sync ==> i in st.synced))
  }

  ghost predicate ResultsOk(st: State) {
    && (forall id, w :: id in st.results && w in st.queue ==> id < w.id)
    && (forall id :: id in st.results ==> id < st.nextId)
    && forall id :: id in st.results && st.results[id] ==> Honoured(st, id)
  }

  ghost predicate GoodOk(good: seq<nat>, n: nat) {
    && InRange(good, n)
    && forall a, b :: 0 <= a < b < |good| ==> good[a] < good[b]
  }

  ghost predicate OlderOk(st: State) {
    forall r :: r in Older(st) ==> Settled(r, st.queue, st.last, st.taken)
  }

  /** What the leader has inserted of its record so far. */
  ghost function Inserted(st: State): seq<(nat, Op)>
    requires st.phase.Applying? ==> st.phase.n <= |st.queue| && st.phase.k <= |OpsOf(Cur(st).ws)|
  {
    if st.phase.Applying? then Stamp(Cur(st))[..st.phase.k] else []
  }

  /** The first `n` records' good ones are applied, in order, and then `more`. */
  ghost predicate AppliedIs(records: seq<Record>, good: seq<nat>, n: nat, applied: seq<(nat, Op)>, more: seq<(nat, Op)>)
    requires n <= |records|
  {
    GoodOk(good, n) && applied == Stamped(records, good) + more
  }

  ghost predicate AppliedOk(st: State) {
    && (st.phase.Applying? ==> st.phase.n <= |st.queue| && st.phase.k <= |OpsOf(Cur(st).ws)|)
    && AppliedIs(st.records, st.good, |Older(st)|, st.applied, Inserted(st))
  }

  ghost predicate Inv(st: State) {
    PhaseOk(st) && QueueOk(st) && RecordsOk(st.records) && OlderOk(st) && ResultsOk(st) && AppliedOk(st)
  }

  // ---------------------------------------------------------------- every step keeps it

  lemma {:induction false} StampedStays(rs: seq<Record>, rs': seq<Record>, good: seq<nat>)
    requires rs <= rs' && InRange(good, |rs|)
    ensures Stamped(rs, good) == Stamped(rs', good)
    decreases |good|
  {
    if good != [] { StampedStays(rs, rs', good[..|good| - 1]); }
  }

  lemma {:induction false} Told(results: map<nat, bool>, ws: seq<Writer>, ok: bool, id: nat)
    ensures id in Tell(results, ws, ok) <==> id in results || exists w :: w in ws && w.id == id
    ensures id in Tell(results, ws, ok) ==>
              Tell(results, ws, ok)[id] == if exists w :: w in ws && w.id == id then ok else results[id]
    decreases |ws|
  {
    if ws != [] {
      var init, last := ws[..|ws| - 1], ws[|ws| - 1];
      Told(results, init, ok, id);
      assert ws == init + [last];
      assert (exists w :: w in ws && w.id == id) <==> last.id == id || exists w :: w in init && w.id == id;
    }
  }

  lemma HonouredStays(st: State, st': State)
    requires ResultsOk(st) && st.records <= st'.records && st.synced <= st'.synced
    requires (forall i :: i in st.good ==> i in st'.good) && (forall id :: id in st.writers ==> id in st'.writers && st'.writers[id] == st.writers[id])
    ensures forall id :: id in st.results && st.results[id] ==> Honoured(st', id)
  {
    forall id | id in st.results && st.results[id] ensures Honoured(st', id) {
      assert Honoured(st, id);
      if st.writers[id].batch.Some? {
        var i: nat :| i in st.good && i < |st.records| && st.writers[id] in st.records[i].ws && (st.writers[id].sync ==> i in st.synced);
        assert st'.records[i] == st.records[i];
      }
    }
  }

  lemma ResultsStay(st: State, st': State)
    requires ResultsOk(st) && st'.results == st.results && st'.queue == st.queue && st'.nextId == st.nextId
    requires st.records <= st'.records && st.synced <= st'.synced && st'.writers == st.writers && st'.good == st.good
    ensures ResultsOk(st')
  {
    HonouredStays(st, st');
  }

  /** Only the end of the queue, or nothing that the leader works on, changes. */
  lemma LeaderUnmoved(st: State, st': State)
    requires PhaseOk(st) && AppliedOk(st) && st.queue <= st'.queue && st'.phase == st.phase && st'.last == st.last
    requires st'.curLog == st.curLog && st'.records == st.records && st'.synced == st.synced && st'.good == st.good && st'.applied == st.applied
    ensures PhaseOk(st') && AppliedOk(st') && Older(st') == Older(st)
  {
    if !st.phase.Idle? { assert st'.queue[..st.phase.n] == st.queue[..st.phase.n]; }
  }

  lemma EnqueueKeepsOlder(st: State, w: Writer, st': State)
    requires QueueOk(st) && OlderOk(st) && w.id == st.nextId
    requires st' == st.(queue := st.queue + [w], writers := st.writers[w.id := w], nextId := w.id + 1)
    ensures QueueOk(st') && OlderOk(st')
  {
    forall r | r in st'.records ensures Known(r.ws, st'.writers, st'.nextId) { assert Known(r.ws, st.writers, st.nextId); }
    forall r | r in Older(st') ensures Settled(r, st'.queue, st'.last, st'.taken) {
      assert Settled(r, st.queue, st.last, st.taken);
      assert r in st.records && Known(r.ws, st.writers, st.nextId);
    }
  }

  lemma EnqueueKeepsResults(st: State, w: Writer, st': State)
    requires QueueOk(st) && ResultsOk(st) && w.id == st.nextId
    requires st' == st.(queue := st.queue + [w], writers := st.writers[w.id := w], nextId := w.id + 1)
    ensures ResultsOk(st')
  {
    HonouredStays(st, st');
  }

  lemma EnqueueKeeps(bytes: Size, st: State, step: Step, st': State)
    requires Inv(st) && step.Enqueue? && Next(bytes, st, step, st')
    ensures Inv(st')
  {
    var w := Writer(st.nextId, step.batch, step.sync);
    LeaderUnmoved(st, st');
    EnqueueKeepsOlder(st, w, st');
    EnqueueKeepsResults(st, w, st');
  }

  lemma SnapshotKeepsOlder(st: State, st': State)
    requires OlderOk(st) && st' == st.(taken := st.taken + {st.last})
    ensures OlderOk(st')
  {
    forall r | r in Older(st') ensures Settled(r, st'.queue, st'.last, st'.taken) { assert Settled(r, st.queue, st.last, st.taken); }
  }

  lemma SnapshotKeeps(bytes: Size, st: State, step: Step, st': State)
    requires Inv(st) && step.TakeSnapshot? && Next(bytes, st, step, st')
    ensures Inv(st')
  {
    LeaderUnmoved(st, st');
    ResultsStay(st, st');
    SnapshotKeepsOlder(st, st');
  }

  lemma FrontIsFirst(q: seq<Writer>, n: nat)
    requires Increasing(q) && n <= |q|
    ensures IdsBelow(q[..n], q[n..])
  {
    forall w, v | w in q[..n] && v in q[n..] ensures w.id < v.id {
      var i :| 0 <= i < n && q[i] == w;
      var j :| 0 <= j < |q[n..]| && q[n..][j] == v;
      assert q[n + j] == v;
    }
  }

  ghost predicate Leaves(st: State, n: nat, ok: bool, st': State)
    requires n <= |st.queue|
  {
    && st'.queue == st.queue[n..] && st'.results == Tell(st.results, st.queue[..n], ok)
    && st'.nextId == st.nextId && st'.writers == st.writers && st'.records == st.records
  }

  lemma LeaverResult(st: State, n: nat, ok: bool, st': State, id: nat)
    requires QueueOk(st) && ResultsOk(st) && n <= |st.queue| && Leaves(st, n, ok, st') && id in st'.results
    ensures id < st'.nextId && forall v :: v in st'.queue ==> id < v.id
    ensures st'.results[id] ==> (id in st.results && st.results[id]) || (ok && exists w :: w in st.queue[..n] && w.id == id)
  {
    Told(st.results, st.queue[..n], ok, id);
    FrontIsFirst(st.queue, n);
    if w :| w in st.queue[..n] && w.id == id { assert w in st.queue; }
    assert forall v :: v in st'.queue ==> v in st.queue;
  }

  lemma LeaversQueue(st: State, n: nat, ok: bool, st': State)
    requires QueueOk(st) && n <= |st.queue| && Leaves(st, n, ok, st') && forall s :: s in st'.taken ==> s <= st'.last
    ensures QueueOk(st')
  {
    assert forall v :: v in st'.queue ==> v in st.queue;
  }

  /** The first `n` writers leave. */
  lemma LeaversKnown(st: State, n: nat, ok: bool, st': State)
    requires QueueOk(st) && ResultsOk(st) && n <= |st.queue| && Leaves(st, n, ok, st')
    requires forall s :: s in st'.taken ==> s <= st'.last
    requires forall id :: id in st.results && st.results[id] ==> Honoured(st', id)
    requires ok ==> forall w :: w in st.queue[..n] ==> Honoured(st', w.id)
    ensures QueueOk(st') && ResultsOk(st')
  {
    LeaversQueue(st, n, ok, st');
    forall id | id in st'.results
      ensures id < st'.nextId && (forall v :: v in st'.queue ==> id < v.id) && (st'.results[id] ==> Honoured(st', id))
    {
      LeaverResult(st, n, ok, st', id);
    }
  }

  lemma FewerWaiting(st: State, n: nat, last: nat, taken: set<nat>)
    requires n <= |st.queue| && last >= st.last && taken == st.taken
    ensures forall r :: Settled(r, st.queue, st.last, st.taken) ==> Settled(r, st.queue[n..], last, taken)
  {
    assert forall w :: w in st.queue[n..] ==> w in st.queue;
  }

  /** The front writer leaves without having written. */
  lemma LeaveKeeps(bytes: Size, st: State, step: Step, st': State)
    requires Inv(st) && (step.Refuse? || step.Nothing?) && Next(bytes, st, step, st')
    ensures Inv(st')
  {
    HonouredStays(st, st');
    LeaversKnown(st, 1, step.Nothing?, st');
    FewerWaiting(st, 1, st.last, st.taken);
  }

  lemma AppendedOk(st: State, r: Record)
    requires PhaseOk(st) && QueueOk(st) && RecordsOk(st.records) && OlderOk(st) && st.phase.Built? && r == Cur(st)
    ensures RecordsOk(st.records + [r]) && Known(r.ws, st.writers, st.nextId)
  {
    var rs := st.records + [r];
    forall i, j | 0 <= i < j < |rs| ensures RecordBefore(rs[i], rs[j]) {
      assert rs[i] in Older(st) && Settled(rs[i], st.queue, st.last, st.taken);
    }
  }

  /** Only the phase changes, and not which record is current. */
  lemma PhaseOnly(st: State, st': State)
    requires QueueOk(st) && RecordsOk(st.records) && OlderOk(st) && ResultsOk(st) && AppliedOk(st) && !st.phase.Applying?
    requires st' == st.(phase := st'.phase, synced := st'.synced, error := st'.error, curLog := st'.curLog) && st.synced <= st'.synced
    requires CurLogged(st'.phase) == CurLogged(st.phase) && (st'.phase.Applying? ==> st'.phase.k == 0 && st'.phase.n <= |st.queue|)
    ensures QueueOk(st') && RecordsOk(st'.records) && OlderOk(st') && ResultsOk(st') && AppliedOk(st')
  {
    ResultsStay(st, st');
    assert Older(st') == Older(st);
    assert st.applied + [] == st.applied;
  }

  lemma LogRecordKeeps(st: State, st': State)
    requires PhaseOk(st) && QueueOk(st) && RecordsOk(st.records) && OlderOk(st) && ResultsOk(st) && AppliedOk(st) && st.phase.Built?
    requires st' == st.(records := st.records + [Cur(st)], phase := Logged(st.phase.n))
    ensures QueueOk(st') && RecordsOk(st'.records) && OlderOk(st') && ResultsOk(st') && AppliedOk(st')
  {
    ResultsStay(st, st');
    AppendedOk(st, Cur(st));
    assert Older(st') == Older(st) == st.records;
    StampedStays(st.records, st'.records, st.good);
  }

  lemma AppendKeepsPhase(bytes: Size, st: State, step: Step, st': State)
    requires PhaseOk(st) && (step.Append? || step.Sync?) && Next(bytes, st, step, st')
    ensures PhaseOk(st')
  {
    if step.Sync? { assert |st.records| - 1 in InLog(st.records, st.curLog); }
  }

  lemma AppendKeeps(bytes: Size, st: State, step: Step, st': State)
    requires Inv(st) && step.Append? && Next(bytes, st, step, st')
    ensures Inv(st')
  {
    AppendKeepsPhase(bytes, st, step, st');
    if step.ok { LogRecordKeeps(st, st'); } else { PhaseOnly(st, st'); }
  }

  lemma SyncKeeps(bytes: Size, st: State, step: Step, st': State)
    requires Inv(st) && step.Sync? && Next(bytes, st, step, st')
    ensures Inv(st')
  {
    AppendKeepsPhase(bytes, st, step, st');
    PhaseOnly(st, st');
  }

  lemma StartKeepsPhase(st: State, st': State)
    requires PhaseOk(st) && Leading(st) && (st.phase.Synced? || (st.phase.Logged? && !st.queue[0].sync))
    requires st' == st.(phase := Applying(st.phase.n, 0))
    ensures PhaseOk(st')
  {
  }

  lemma StartKeeps(bytes: Size, st: State, step: Step, st': State)
    requires Inv(st) && step.Start? && Next(bytes, st, step, st')
    ensures Inv(st')
  {
    StartKeepsPhase(st, st');
    PhaseOnly(st, st');
  }

  lemma NewLogKeeps(bytes: Size, st: State, step: Step, st': State)
    requires Inv(st) && step.NewLog? && Next(bytes, st, step, st')
    ensures Inv(st')
  {
    PhaseOnly(st, st');
  }

  lemma BuildKeepsPhase(bytes: Size, st: State, st': State)
    requires st.queue != [] && st.queue[0].batch.Some? && st' == st.(phase := Built(Group(bytes, st.queue)))
    ensures PhaseOk(st')
  {
    GroupRules(bytes, st.queue);
  }

  lemma BuildKeeps(bytes: Size, st: State, step: Step, st': State)
    requires Inv(st) && step.Build? && Next(bytes, st, step, st')
    ensures Inv(st')
  {
    BuildKeepsPhase(bytes, st, st');
    PhaseOnly(st, st');
  }

  lemma InsertedMore(records: seq<Record>, good: seq<nat>, n: nat, applied: seq<(nat, Op)>, r: Record, k: nat)
    requires n <= |records| && k < |OpsOf(r.ws)| && AppliedIs(records, good, n, applied, Stamp(r)[..k])
    ensures AppliedIs(records, good, n, applied + [(r.first + k, OpsOf(r.ws)[k])], Stamp(r)[..k + 1])
  {
    var x := Stamp(r);
    assert x[..k + 1] == x[..k] + [x[k]];
  }

  lemma InsertKeepsApplied(st: State, st': State)
    requires AppliedOk(st) && st.phase.Applying? && st.phase.k < |OpsOf(Cur(st).ws)|
    requires st' == st.(applied := st.applied + [(st.last + 1 + st.phase.k, OpsOf(Cur(st).ws)[st.phase.k])],
                        phase := Applying(st.phase.n, st.phase.k + 1))
    ensures AppliedOk(st')
  {
    assert Older(st') == Older(st) && Cur(st') == Cur(st);
    InsertedMore(st.records, st.good, |Older(st)|, st.applied, Cur(st), st.phase.k);
    assert Inserted(st') == Stamp(Cur(st))[..st'.phase.k];
  }

  lemma InsertKeepsPhase(st: State, st': State)
    requires PhaseOk(st) && OlderOk(st) && st.phase.Applying? && st.phase.k < |OpsOf(Cur(st).ws)|
    requires st' == st.(applied := st'.applied, phase := Applying(st.phase.n, st.phase.k + 1))
    ensures PhaseOk(st') && OlderOk(st')
  {
    assert Older(st') == Older(st) && Cur(st') == Cur(st);
  }

  lemma InsertKeeps(bytes: Size, st: State, step: Step, st': State)
    requires Inv(st) && step.Insert? && Next(bytes, st, step, st')
    ensures Inv(st')
  {
    InsertKeepsPhase(st, st');
    ResultsStay(st, st');
    InsertKeepsApplied(st, st');
  }

  lemma FinishKeepsOlder(st: State, last: nat, st': State)
    requires PhaseOk(st) && OlderOk(st) && RecordsOk(st.records) && QueueOk(st) && !st.phase.Idle?
    requires st'.phase.Idle? && st'.records == st.records && st'.queue == st.queue[st.phase.n..] && st'.taken == st.taken
    requires st'.last == st.last + |OpsOf(Cur(st).ws)|
    ensures OlderOk(st')
  {
    var n := st.phase.n;
    FewerWaiting(st, n, st'.last, st.taken);
    forall r | r in Older(st') ensures Settled(r, st'.queue, st'.last, st'.taken) {
      if r in Older(st) {
        assert Settled(r, st.queue, st.last, st.taken);
      } else {
        assert r == Cur(st);
        FrontIsFirst(st.queue, n);
      }
    }
  }

  lemma StampedMore(records: seq<Record>, good: seq<nat>, m: nat)
    requires InRange(good, |records|) && m < |records|
    ensures InRange(good + [m], |records|) && Stamped(records, good + [m]) == Stamped(records, good) + Stamp(records[m])
  {
    assert (good + [m])[..|good|] == good;
  }

  lemma WholeThenNothing(a: seq<(nat, Op)>, x: seq<(nat, Op)>, k: nat)
    requires k == |x|
    ensures a + x[..k] == a + x + []
  {
  }

  /** The last record, all of it applied, becomes one of the good ones. */
  lemma GoodMore(records: seq<Record>, good: seq<nat>, r: Record, k: nat, applied: seq<(nat, Op)>)
    requires records != [] && records[|records| - 1] == r && k == |Stamp(r)|
    requires AppliedIs(records, good, |records| - 1, applied, Stamp(r)[..k])
    ensures AppliedIs(records, good + [|records| - 1], |records|, applied, [])
  {
    StampedMore(records, good, |records| - 1);
    WholeThenNothing(Stamped(records, good), Stamp(r), k);
  }

  /** All of the group's operations are in the memtable when it finishes. */
  lemma FinishedIsApplied(bytes: Size, st: State, st': State)
    requires Inv(st) && Next(bytes, st, Finish, st')
    ensures Leading(st) && st.applied == Stamped(st.records, st.good) + Stamp(Cur(st))
    ensures st'.last == st.last + |OpsOf(st.queue[..st.phase.n])|
  {
    assert Stamp(Cur(st))[..st.phase.k] == Stamp(Cur(st));
  }

  lemma FinishKeepsApplied(st: State, st': State)
    requires PhaseOk(st) && AppliedOk(st) && st.phase.Applying? && st.phase.k == |OpsOf(Cur(st).ws)|
    requires st'.phase.Idle? && st'.records == st.records && st'.applied == st.applied && st'.good == st.good + [|st.records| - 1]
    ensures AppliedOk(st')
  {
    GoodMore(st.records, st.good, Cur(st), st.phase.k, st.applied);
  }

  lemma FinishHonours(st: State, st': State)
    requires PhaseOk(st) && QueueOk(st) && st.phase.Applying?
    requires st'.good == st.good + [|st.records| - 1] && st'.records == st.records && st'.synced == st.synced && st'.writers == st.writers
    ensures forall w :: w in st.queue[..st.phase.n] ==> Honoured(st', w.id)
  {
    forall w | w in st.queue[..st.phase.n] ensures Honoured(st', w.id) {
      var i := |st.records| - 1;
      assert w in st.queue && w in st.records[i].ws;
      assert i == st'.good[|st.good|];
    }
  }

  lemma FinishKeepsResults(st: State, st': State)
    requires PhaseOk(st) && QueueOk(st) && ResultsOk(st) && st.phase.Applying? && Leaves(st, st.phase.n, true, st')
    requires st'.good == st.good + [|st.records| - 1] && st'.synced == st.synced && st'.taken == st.taken && st'.last >= st.last
    ensures QueueOk(st') && ResultsOk(st')
  {
    HonouredStays(st, st');
    FinishHonours(st, st');
    LeaversKnown(st, st.phase.n, true, st');
  }

  lemma FinishKeeps(bytes: Size, st: State, step: Step, st': State)
    requires Inv(st) && step.Finish? && Next(bytes, st, step, st')
    ensures Inv(st')
  {
    FinishKeepsOlder(st, st'.last, st');
    FinishKeepsApplied(st, st');
    FinishKeepsResults(st, st');
  }

  /** Writers leave and are told no. */
  lemma RefusedResults(st: State, n: nat, st': State)
    requires QueueOk(st) && ResultsOk(st) && n <= |st.queue| && Leaves(st, n, false, st')
    requires st'.good == st.good && st'.synced == st.synced && st'.taken == st.taken && st'.last >= st.last
    ensures QueueOk(st') && ResultsOk(st')
  {
    HonouredStays(st, st');
    LeaversKnown(st, n, false, st');
  }

  lemma GiveUpKeepsApplied(st: State, st': State)
    requires PhaseOk(st) && AppliedOk(st) && st.phase.Failed?
    requires st'.phase.Idle? && st'.records == st.records && st'.applied == st.applied && st'.good == st.good
    ensures AppliedOk(st')
  {
  }

  lemma GiveUpKeeps(bytes: Size, st: State, step: Step, st': State)
    requires Inv(st) && step.GiveUp? && Next(bytes, st, step, st')
    ensures Inv(st')
  {
    FinishKeepsOlder(st, st'.last, st');
    GiveUpKeepsApplied(st, st');
    RefusedResults(st, st.phase.n, st');
  }

  lemma NextKeepsInv(bytes: Size, st: State, step: Step, st': State)
    requires Inv(st) && Next(bytes, st, step, st')
    ensures Inv(st')
  {
    match step
    case Enqueue(_, _) => EnqueueKeeps(bytes, st, step, st');
    case TakeSnapshot => SnapshotKeeps(bytes, st, step, st');
    case Refuse => LeaveKeeps(bytes, st, step, st');
    case Nothing => LeaveKeeps(bytes, st, step, st');
    case Build => BuildKeeps(bytes, st, step, st');
    case Append(_) => AppendKeeps(bytes, st, step, st');
    case Insert => InsertKeeps(bytes, st, step, st');
    case Finish => FinishKeeps(bytes, st, step, st');
    case GiveUp => GiveUpKeeps(bytes, st, step, st');
    case Sync(_) => SyncKeeps(bytes, st, step, st');
    case Start => StartKeeps(bytes, st, step, st');
    case NewLog => NewLogKeeps(bytes, st, step, st');
  }

  lemma {:induction false} RunKeepsInv(bytes: Size, run: seq<State>, steps: seq<Step>, i: nat)
    requires IsRun(bytes, run, steps) && i < |run|
    ensures Inv(run[i])
  {
    if i > 0 {
      RunKeepsInv(bytes, run, steps, i - 1);
      NextKeepsInv(bytes, run[i - 1], steps[i - 1], run[i]);
    }
  }

  // ---------------------------------------------------------------- what writers and readers can rely on

  /** Writer number `p` of record `i`. */
  ghost predicate IsPart(st: State, i: nat, p: nat, w: Writer) {
    i < |st.records| && p < |st.records[i].ws| && st.records[i].ws[p] == w && w.batch.Some?
  }

  /** The sequence number of its operation `k`. */
  ghost function Sn(r: Record, p: nat, k: nat): nat
    requires p <= |r.ws|
  {
    r.first + |OpsOf(r.ws[..p])| + k
  }

  lemma {:induction false} OpsPrefix(ws: seq<Writer>, p: nat)
    requires p <= |ws|
    ensures OpsOf(ws[..p]) <= OpsOf(ws)
    decreases |ws|
  {
    if p == |ws| {
      assert ws[..p] == ws;
    } else {
      OpsPrefix(ws[..|ws| - 1], p);
      assert ws[..|ws| - 1][..p] == ws[..p];
    }
  }

  lemma PartOps(r: Record, p: nat, k: nat)
    requires p < |r.ws| && r.ws[p].batch.Some? && k < |r.ws[p].batch.value|
    ensures r.first <= Sn(r, p, k) < End(r) && Sn(r, p, k) < Sn(r, p + 1, 0)
    ensures (Sn(r, p, k), r.ws[p].batch.value[k]) in Stamp(r)
  {
    var at := |OpsOf(r.ws[..p])| + k;
    assert r.ws[..p + 1][..p] == r.ws[..p];
    OpsPrefix(r.ws, p + 1);
    assert OpsOf(r.ws[..p + 1])[at] == r.ws[p].batch.value[k];
    assert Stamp(r)[at] == (Sn(r, p, k), r.ws[p].batch.value[k]);
  }

  lemma LaterPart(r: Record, p: nat, q: nat)
    requires p <= q <= |r.ws|
    ensures Sn(r, p, 0) <= Sn(r, q, 0)
  {
    OpsPrefix(r.ws[..q], p);
    assert r.ws[..q][..p] == r.ws[..p];
  }

  lemma PartsInOrder(r: Record, p: nat, k: nat, q: nat, l: nat)
    requires p < q < |r.ws| && r.ws[p].batch.Some? && k < |r.ws[p].batch.value|
    ensures Sn(r, p, k) < Sn(r, q, l)
  {
    PartOps(r, p, k);
    LaterPart(r, p + 1, q);
  }

  lemma RecordsInOrder(r: Record, p: nat, k: nat, t: Record, q: nat, l: nat)
    requires RecordBefore(r, t) && p < |r.ws| && r.ws[p].batch.Some? && k < |r.ws[p].batch.value|
    requires q < |t.ws| && t.ws[q].batch.Some? && l < |t.ws[q].batch.value|
    ensures Sn(r, p, k) < Sn(t, q, l)
  {
    PartOps(r, p, k);
    PartOps(t, q, l);
  }

  lemma NumbersFollowIds(records: seq<Record>, i: nat, p: nat, k: nat, j: nat, q: nat, l: nat)
    requires RecordsOk(records) && i < |records| && p < |records[i].ws| && j < |records| && q < |records[j].ws|
    requires var v, w := records[i].ws[p], records[j].ws[q];
             v.batch.Some? && k < |v.batch.value| && w.batch.Some? && l < |w.batch.value| && v.id < w.id
    ensures Sn(records[i], p, k) < Sn(records[j], q, l)
  {
    var r, t := records[i], records[j];
    if i == j {
      PartsInOrder(r, p, k, q, l);
    } else {
      assert j < i ==> RecordBefore(t, r);
      RecordsInOrder(r, p, k, t, q, l);
    }
  }

  /** Sequence numbers follow the queue: of two logged writers, the one that queued up first has
      the smaller numbers. */
  lemma SequencesFollowTheQueue(st: State, i: nat, p: nat, v: Writer, k: nat, j: nat, q: nat, w: Writer, l: nat)
    requires Inv(st) && IsPart(st, i, p, v) && IsPart(st, j, q, w) && k < |v.batch.value| && l < |w.batch.value|
    requires v.id < w.id
    ensures Sn(st.records[i], p, k) < Sn(st.records[j], q, l)
  {
    NumbersFollowIds(st.records, i, p, k, j, q, l);
  }

  /** A writer is in at most one place of the log. */
  lemma LoggedOnce(st: State, i: nat, p: nat, v: Writer, j: nat, q: nat, w: Writer)
    requires Inv(st) && IsPart(st, i, p, v) && IsPart(st, j, q, w) && v.id == w.id
    ensures i == j && p == q
  {
    assert i < j ==> RecordBefore(st.records[i], st.records[j]);
    assert j < i ==> RecordBefore(st.records[j], st.records[i]);
  }

  lemma {:induction false} StampedFrom(records: seq<Record>, good: seq<nat>, e: (nat, Op)) returns (a: nat)
    requires InRange(good, |records|) && e in Stamped(records, good)
    ensures a < |good| && e in Stamp(records[good[a]])
    decreases |good|
  {
    if e in Stamp(records[good[|good| - 1]]) {
      a := |good| - 1;
    } else {
      a := StampedFrom(records, good[..|good| - 1], e);
    }
  }

  lemma {:induction false} StampedHas(records: seq<Record>, good: seq<nat>, a: nat, e: (nat, Op))
    requires InRange(good, |records|) && a < |good| && e in Stamp(records[good[a]])
    ensures e in Stamped(records, good)
    decreases |good|
  {
    if a < |good| - 1 { StampedHas(records, good[..|good| - 1], a, e); }
  }

  lemma StampRange(r: Record, e: (nat, Op))
    requires e in Stamp(r)
    ensures r.first <= e.0 < End(r)
  {
  }

  /** Memtables are filled in sequence order, so nothing is applied twice. */
  lemma {:induction false} StampedIncreases(records: seq<Record>, good: seq<nat>, a: nat, b: nat)
    requires RecordsOk(records) && GoodOk(good, |records|) && a < b < |Stamped(records, good)|
    ensures Stamped(records, good)[a].0 < Stamped(records, good)[b].0
    decreases |good|
  {
    var init, g := good[..|good| - 1], good[|good| - 1];
    var before := Stamped(records, init);
    if b < |before| {
      StampedIncreases(records, init, a, b);
    } else if a < |before| {
      var k := StampedFrom(records, init, before[a]);
      assert RecordBefore(records[good[k]], records[g]);
      StampRange(records[good[k]], before[a]);
    }
  }

  lemma AppliedOnce(st: State, a: nat, b: nat)
    requires Inv(st) && a < b < |st.applied|
    ensures st.applied[a].0 < st.applied[b].0
  {
    var done := Stamped(st.records, st.good);
    if b < |done| {
      StampedIncreases(st.records, st.good, a, b);
    } else if a < |done| {
      var k := StampedFrom(st.records, st.good, done[a]);
      StampRange(st.records[st.good[k]], done[a]);
      assert st.records[st.good[k]] in Older(st);
    }
  }

  ghost predicate AllApplied(st: State, i: nat, p: nat, ops: seq<Op>)
    requires i < |st.records| && p <= |st.records[i].ws|
  {
    forall k :: 0 <= k < |ops| ==> (Sn(st.records[i], p, k), ops[k]) in st.applied
  }

  lemma GoodIsApplied(st: State, i: nat, p: nat, w: Writer)
    requires Inv(st) && i in st.good && IsPart(st, i, p, w)
    ensures AllApplied(st, i, p, w.batch.value)
  {
    var a :| 0 <= a < |st.good| && st.good[a] == i;
    forall k | 0 <= k < |w.batch.value| ensures (Sn(st.records[i], p, k), w.batch.value[k]) in st.applied {
      PartOps(st.records[i], p, k);
      StampedHas(st.records, st.good, a, (Sn(st.records[i], p, k), w.batch.value[k]));
    }
  }

  /** An OK answer means: logged, in one place only; every operation applied under its own
      sequence number; and, for a sync writer, a sync after the record was logged. */
  lemma OkMeansWritten(bytes: Size, run: seq<State>, steps: seq<Step>, n: nat, id: nat) returns (i: nat, p: nat)
    requires IsRun(bytes, run, steps) && n < |run|
    requires id in run[n].results && run[n].results[id] && id in run[n].writers && run[n].writers[id].batch.Some?
    ensures IsPart(run[n], i, p, run[n].writers[id])
    ensures run[n].writers[id].sync ==> i in run[n].synced
    ensures AllApplied(run[n], i, p, run[n].writers[id].batch.value)
    ensures forall j: nat, q: nat, w :: IsPart(run[n], j, q, w) && w.id == id ==> j == i && q == p
  {
    RunKeepsInv(bytes, run, steps, n);
    var st := run[n];
    var w := st.writers[id];
    assert Honoured(st, id);
    i :| i in st.good && i < |st.records| && w in st.records[i].ws && (w.sync ==> i in st.synced);
    p :| 0 <= p < |st.records[i].ws| && st.records[i].ws[p] == w;
    assert IsPart(st, i, p, w);
    GoodIsApplied(st, i, p, w);
    forall j: nat, q: nat, v | IsPart(st, j, q, v) && v.id == id ensures j == i && q == p {
      LoggedOnce(st, i, p, w, j, q, v);
    }
  }

  // ---------------------------------------------------------------- every writer gets its answer

  /** Nobody is forgotten, and the writers of a wholly applied record are told OK. */
  ghost predicate Answered(st: State) {
    && (forall id :: id in st.writers ==> id in st.results || exists w :: w in st.queue && w.id == id)
    && forall i: nat, w :: i in st.good && i < |st.records| && w in st.records[i].ws ==> w.id in st.results && st.results[w.id]
  }

  /** Telling the front of the queue changes no answer given before. */
  lemma OldAnswersStay(st: State, n: nat, ok: bool, st': State, id: nat)
    requires ResultsOk(st) && n <= |st.queue| && Leaves(st, n, ok, st') && id in st.results
    ensures id in st'.results && st'.results[id] == st.results[id]
  {
    Told(st.results, st.queue[..n], ok, id);
    assert forall w :: w in st.queue[..n] ==> w in st.queue;
  }

  lemma FrontIsTold(st: State, n: nat, ok: bool, st': State, w: Writer)
    requires n <= |st.queue| && Leaves(st, n, ok, st') && w in st.queue[..n]
    ensures w.id in st'.results && st'.results[w.id] == ok
  {
    Told(st.results, st.queue[..n], ok, w.id);
  }

  lemma NobodyForgotten(st: State, n: nat, ok: bool, st': State, id: nat)
    requires ResultsOk(st) && Answered(st) && n <= |st.queue| && Leaves(st, n, ok, st') && id in st.writers
    ensures id in st'.results || exists w :: w in st'.queue && w.id == id
  {
    if id in st.results {
      OldAnswersStay(st, n, ok, st', id);
    } else {
      var w :| w in st.queue && w.id == id;
      assert st.queue == st.queue[..n] + st.queue[n..];
      if w in st.queue[..n] { FrontIsTold(st, n, ok, st', w); }
    }
  }

  /** The first writers leave the queue; if a record was wholly applied by it, it is theirs. */
  lemma LeavingKeepsAnswered(st: State, n: nat, ok: bool, st': State)
    requires ResultsOk(st) && GoodOk(st.good, |st.records|) && Answered(st) && n <= |st.queue| && Leaves(st, n, ok, st')
    requires || st'.good == st.good
             || (ok && st.records != [] && st'.good == st.good + [|st.records| - 1] && st.records[|st.records| - 1].ws == st.queue[..n])
    ensures Answered(st')
  {
    forall id | id in st'.writers ensures id in st'.results || exists w :: w in st'.queue && w.id == id {
      NobodyForgotten(st, n, ok, st', id);
    }
    forall i: nat, w | i in st'.good && i < |st'.records| && w in st'.records[i].ws ensures w.id in st'.results && st'.results[w.id] {
      if i in st.good { OldAnswersStay(st, n, ok, st', w.id); } else { FrontIsTold(st, n, ok, st', w); }
    }
  }

  /** Nobody leaves the queue, and no record becomes wholly applied. */
  lemma StayingKeepsAnswered(st: State, st': State)
    requires GoodOk(st.good, |st.records|) && Answered(st) && st'.results == st.results && st'.good == st.good && st.records <= st'.records
    requires (forall w :: w in st.queue ==> w in st'.queue)
    requires forall id :: id in st'.writers ==> id in st.writers || exists w :: w in st'.queue && w.id == id
    ensures Answered(st')
  {
    forall i: nat, w | i in st'.good && i < |st'.records| && w in st'.records[i].ws ensures w.id in st'.results && st'.results[w.id] {
      assert i < |st.records| && st'.records[i] == st.records[i];
    }
  }

  lemma GoodInLog(st: State)
    requires AppliedOk(st)
    ensures GoodOk(st.good, |st.records|)
  {
  }

  lemma EnqueueKeepsAnswered(bytes: Size, st: State, step: Step, st': State)
    requires Inv(st) && Answered(st) && step.Enqueue? && Next(bytes, st, step, st')
    ensures Answered(st')
  {
    GoodInLog(st);
    assert st'.queue[|st.queue|].id == st.nextId;
    StayingKeepsAnswered(st, st');
  }

  lemma NextKeepsAnswered(bytes: Size, st: State, step: Step, st': State)
    requires Inv(st) && Answered(st) && Next(bytes, st, step, st')
    ensures Answered(st')
  {
    GoodInLog(st);
    match step
    case Enqueue(_, _) => EnqueueKeepsAnswered(bytes, st, step, st');
    case Refuse => LeavingKeepsAnswered(st, 1, false, st');
    case Nothing => LeavingKeepsAnswered(st, 1, true, st');
    case Finish => LeavingKeepsAnswered(st, st.phase.n, true, st');
    case GiveUp => LeavingKeepsAnswered(st, st.phase.n, false, st');
    case _ => StayingKeepsAnswered(st, st');
  }

  lemma {:induction false} RunKeepsAnswered(bytes: Size, run: seq<State>, steps: seq<Step>, n: nat)
    requires IsRun(bytes, run, steps) && n < |run|
    ensures Answered(run[n])
  {
    if n > 0 {
      RunKeepsAnswered(bytes, run, steps, n - 1);
      RunKeepsInv(bytes, run, steps, n - 1);
      NextKeepsAnswered(bytes, run[n - 1], steps[n - 1], run[n]);
    }
  }

  /** A writer with a batch is told OK exactly when its record has been applied whole, and everyone
      who ever queued up has an answer or still waits for it. */
  lemma OkIffApplied(bytes: Size, run: seq<State>, steps: seq<Step>, n: nat, id: nat)
    requires IsRun(bytes, run, steps) && n < |run| && id in run[n].writers
    ensures id in run[n].results || exists w :: w in run[n].queue && w.id == id
    ensures run[n].writers[id].batch.Some? ==>
              ((id in run[n].results && run[n].results[id]) <==>
               exists i: nat :: i in run[n].good && i < |run[n].records| && run[n].writers[id] in run[n].records[i].ws)
  {
    RunKeepsInv(bytes, run, steps, n);
    RunKeepsAnswered(bytes, run, steps, n);
    var st := run[n];
    if id in st.results && st.results[id] { assert Honoured(st, id); }
  }

  /** The ways to be told of an error: MakeRoomForWrite refuses, or the log cannot be written or
      synced for the group. */
  ghost predicate FailsAt(run: seq<State>, steps: seq<Step>, k: nat, id: nat)
    requires k < |steps| < |run|
  {
    || (steps[k].Refuse? && run[k].queue != [] && run[k].queue[0].id == id)
    || ((steps[k] == Append(false) || steps[k] == Sync(false)) && Leading(run[k])
        && exists w :: w in run[k].queue[..run[k].phase.n] && w.id == id)
  }

  lemma FailStep(bytes: Size, st: State, step: Step, st': State)
    requires Next(bytes, st, step, st') && st'.phase.Failed? && Leading(st')
    ensures || (st.phase == st'.phase && st.queue <= st'.queue && !step.Append? && !step.Sync?)
            || ((step == Append(false) || step == Sync(false)) && Leading(st) && st.queue == st'.queue && st.phase.n == st'.phase.n)
  {
  }

  /** A group gives up only because its append or its sync failed. */
  lemma {:induction false} FailedBecause(bytes: Size, run: seq<State>, steps: seq<Step>, n: nat) returns (k: nat)
    requires IsRun(bytes, run, steps) && n < |run| && run[n].phase.Failed? && Leading(run[n])
    ensures k < n && (steps[k] == Append(false) || steps[k] == Sync(false)) && Leading(run[k])
    ensures run[k].queue[..run[k].phase.n] == run[n].queue[..run[n].phase.n]
  {
    assert n > 0 && Next(bytes, run[n - 1], steps[n - 1], run[n]);
    FailStep(bytes, run[n - 1], steps[n - 1], run[n]);
    k := n - 1;
    if run[n - 1].phase == run[n].phase {
      PhaseHolds(bytes, run, steps, n - 1);
      k := FailedBecause(bytes, run, steps, n - 1);
      SameFront(run[n - 1].queue, run[n].queue, run[n].phase.n);
    }
  }

  lemma PhaseHolds(bytes: Size, run: seq<State>, steps: seq<Step>, n: nat)
    requires IsRun(bytes, run, steps) && n < |run|
    ensures PhaseOk(run[n])
  {
    RunKeepsInv(bytes, run, steps, n);
  }

  lemma SameFront(q: seq<Writer>, q': seq<Writer>, n: nat)
    requires q <= q' && n <= |q|
    ensures q'[..n] == q[..n]
  {
  }

  /** An error answer has a reason. */
  lemma {:induction false} NoMeansFailed(bytes: Size, run: seq<State>, steps: seq<Step>, n: nat, id: nat) returns (k: nat)
    requires IsRun(bytes, run, steps) && n < |run| && id in run[n].results && !run[n].results[id]
    ensures k < n && FailsAt(run, steps, k, id)
  {
    var st, step := run[n - 1], steps[n - 1];
    assert Next(bytes, st, step, run[n]);
    if id in st.results && !st.results[id] {
      k := NoMeansFailed(bytes, run, steps, n - 1, id);
    } else {
      ToldNoBy(bytes, st, step, run[n], id);
      k := n - 1;
      if step.GiveUp? { k := FailedBecause(bytes, run, steps, n - 1); }
    }
  }

  lemma ToldNoBy(bytes: Size, st: State, step: Step, st': State, id: nat)
    requires Next(bytes, st, step, st') && id in st'.results && !st'.results[id] && !(id in st.results && !st.results[id])
    ensures (step.Refuse? && st.queue != [] && st.queue[0].id == id)
            || (step.GiveUp? && Leading(st) && st.phase.Failed? && exists w :: w in st.queue[..st.phase.n] && w.id == id)
  {
    match step
    case Refuse => Told(st.results, st.queue[..1], false, id);
    case Nothing => Told(st.results, st.queue[..1], true, id);
    case Finish => Told(st.results, st.queue[..st.phase.n], true, id);
    case GiveUp => Told(st.results, st.queue[..st.phase.n], false, id);
    case _ =>
  }

  lemma {:induction false} QueuedStays(bytes: Size, run: seq<State>, steps: seq<Step>, i: nat, n: nat)
    requires IsRun(bytes, run, steps) && i < n < |run| && steps[i].Enqueue?
    ensures var id := run[i].nextId;
            id in run[n].writers && run[n].writers[id] == Writer(id, steps[i].batch, steps[i].sync) && id < run[n].nextId
  {
    assert Next(bytes, run[n - 1], steps[n - 1], run[n]);
    if i < n - 1 { QueuedStays(bytes, run, steps, i, n - 1); }
  }

  /** A record counts as synced only after a sync of its log that came when it was logged. */
  ghost predicate SyncedAt(run: seq<State>, steps: seq<Step>, m: nat, r: Record)
    requires m < |steps| < |run|
  {
    steps[m] == Sync(true) && r in run[m].records && r.log == run[m].curLog
  }

  lemma {:induction false} SyncedBecause(bytes: Size, run: seq<State>, steps: seq<Step>, n: nat, j: nat) returns (m: nat)
    requires IsRun(bytes, run, steps) && n < |run| && j in run[n].synced && j < |run[n].records|
    ensures m < n && SyncedAt(run, steps, m, run[n].records[j])
  {
    assert n > 0 && Next(bytes, run[n - 1], steps[n - 1], run[n]);
    m := n - 1;
    if j in run[n - 1].synced {
      SyncedInLog(bytes, run, steps, n - 1, j);
      m := SyncedBecause(bytes, run, steps, n - 1, j);
      LogGrows(bytes, run[n - 1], steps[n - 1], run[n]);
    }
  }

  lemma LogGrows(bytes: Size, st: State, step: Step, st': State)
    requires Next(bytes, st, step, st')
    ensures st.records <= st'.records
  {
  }

  lemma {:induction false} SyncedInLog(bytes: Size, run: seq<State>, steps: seq<Step>, n: nat, j: nat)
    requires IsRun(bytes, run, steps) && n < |run| && j in run[n].synced
    ensures j < |run[n].records|
  {
    if n > 0 {
      assert Next(bytes, run[n - 1], steps[n - 1], run[n]);
      LogGrows(bytes, run[n - 1], steps[n - 1], run[n]);
      if j in run[n - 1].synced { SyncedInLog(bytes, run, steps, n - 1, j); }
    }
  }

  /** DBImpl::Write from the caller's side: whoever called it with a batch and got OK has every operation
      of that batch applied, and for a sync write a successful sync of the log that holds it; whoever got
      an error was refused, or its group's append or sync failed. */
  lemma AnswersAreTrue(bytes: Size, run: seq<State>, steps: seq<Step>, i: nat, n: nat) returns (j: nat, p: nat, m: nat)
    requires IsRun(bytes, run, steps) && i < n < |run| && steps[i].Enqueue? && steps[i].batch.Some? && run[i].nextId in run[n].results
    ensures var id := run[i].nextId;
            if run[n].results[id] then
              && IsPart(run[n], j, p, Writer(id, steps[i].batch, steps[i].sync)) && AllApplied(run[n], j, p, steps[i].batch.value)
              && (steps[i].sync ==> m < n && SyncedAt(run, steps, m, run[n].records[j]))
            else m < n && FailsAt(run, steps, m, id)
  {
    var id := run[i].nextId;
    j, p, m := 0, 0, 0;
    QueuedStays(bytes, run, steps, i, n);
    if run[n].results[id] {
      j, p := OkMeansWritten(bytes, run, steps, n, id);
      if steps[i].sync { m := SyncedBecause(bytes, run, steps, n, j); }
    } else {
      m := NoMeansFailed(bytes, run, steps, n, id);
    }
  }

  /** A step that goes on, towards OK unless there was an error. */
  ghost predicate GoesOn(bytes: Size, st: State, step: Step, st': State) {
    && Next(bytes, st, step, st') && !step.Enqueue? && !step.TakeSnapshot? && step != Append(false) && step != Sync(false)
    && (step.Refuse? ==> st.error) && (step.GiveUp? ==> st.phase.Failed?)
  }

  lemma IdleCanMove(bytes: Size, st: State) returns (step: Step, st': State)
    requires st.queue != [] && st.phase.Idle?
    ensures GoesOn(bytes, st, step, st')
  {
    if st.error {
      step, st' := Refuse, st.(queue := st.queue[1..], results := Tell(st.results, st.queue[..1], false));
    } else if st.queue[0].batch.None? {
      step, st' := Nothing, st.(queue := st.queue[1..], results := Tell(st.results, st.queue[..1], true));
    } else {
      step, st' := Build, st.(phase := Built(Group(bytes, st.queue)));
    }
  }

  lemma LogCanMove(bytes: Size, st: State) returns (step: Step, st': State)
    requires Leading(st) && (st.phase.Built? || st.phase.Logged? || st.phase.Synced?)
    ensures GoesOn(bytes, st, step, st')
  {
    var n := st.phase.n;
    if st.phase.Built? {
      step, st' := Append(true), st.(records := st.records + [Cur(st)], phase := Logged(n));
    } else if st.phase.Logged? && st.queue[0].sync {
      step, st' := Sync(true), st.(synced := st.synced + InLog(st.records, st.curLog), phase := Synced(n));
    } else {
      step, st' := Start, st.(phase := Applying(n, 0));
    }
  }

  lemma ApplyCanMove(bytes: Size, st: State) returns (step: Step, st': State)
    requires Leading(st) && st.phase.Applying? && st.phase.k <= |OpsOf(Cur(st).ws)| && st.records != []
    ensures GoesOn(bytes, st, step, st')
  {
    var n, k, ops := st.phase.n, st.phase.k, OpsOf(Cur(st).ws);
    if k < |ops| {
      step, st' := Insert, st.(applied := st.applied + [(st.last + 1 + k, ops[k])], phase := Applying(n, k + 1));
    } else {
      step, st' := Finish, st.(last := st.last + k, phase := Idle, good := st.good + [|st.records| - 1],
                               results := Tell(st.results, st.queue[..n], true), queue := st.queue[n..]);
    }
  }

  lemma GiveUpCanMove(bytes: Size, st: State) returns (step: Step, st': State)
    requires Leading(st) && st.phase.Failed?
    ensures GoesOn(bytes, st, step, st')
  {
    var n := st.phase.n;
    step, st' := GiveUp, st.(last := st.last + |OpsOf(Cur(st).ws)|, phase := Idle,
                             results := Tell(st.results, st.queue[..n], false), queue := st.queue[n..]);
  }

  /** No writer waits for nothing: whoever is at the front can go on. */
  lemma LeaderCanMove(bytes: Size, st: State) returns (step: Step, st': State)
    requires Inv(st) && st.queue != []
    ensures GoesOn(bytes, st, step, st')
  {
    match st.phase
    case Idle => step, st' := IdleCanMove(bytes, st);
    case Applying(_, _) => step, st' := ApplyCanMove(bytes, st);
    case Failed(_, _) => step, st' := GiveUpCanMove(bytes, st);
    case _ => step, st' := LogCanMove(bytes, st);
  }

  /** What a reader at `s` sees of an operation. */
  ghost predicate Sees(st: State, s: nat, e: (nat, Op)) {
    e in st.applied && e.0 <= s
  }

  lemma OnlyOneRecord(records: seq<Record>, i: nat, j: nat, sn: nat)
    requires RecordsOk(records) && i < |records| && j < |records|
    requires records[i].first <= sn < End(records[i]) && records[j].first <= sn < End(records[j])
    ensures i == j
  {
    assert i < j ==> RecordBefore(records[i], records[j]);
    assert j < i ==> RecordBefore(records[j], records[i]);
  }

  /** Whose operations are in the memtables under the numbers of record `i`. */
  lemma AppliedFrom(st: State, i: nat, e: (nat, Op))
    requires Inv(st) && i < |Older(st)| && st.records[i].first <= e.0 < End(st.records[i]) && e in st.applied
    ensures i in st.good
  {
    assert st.records[i] in Older(st) && Settled(st.records[i], st.queue, st.last, st.taken);
    assert e in Stamped(st.records, st.good);
    var a := StampedFrom(st.records, st.good, e);
    StampRange(st.records[st.good[a]], e);
    OnlyOneRecord(st.records, i, st.good[a], e.0);
  }

  lemma SeesAlike(st: State, s: nat, i: nat, p: nat, w: Writer, k: nat, l: nat)
    requires Inv(st) && s in st.taken && IsPart(st, i, p, w) && k < |w.batch.value| && l < |w.batch.value|
    requires Sees(st, s, (Sn(st.records[i], p, k), w.batch.value[k]))
    ensures Sees(st, s, (Sn(st.records[i], p, l), w.batch.value[l]))
  {
    var r := st.records[i];
    PartOps(r, p, k);
    PartOps(r, p, l);
    if i < |Older(st)| {
      assert r in Older(st) && Settled(r, st.queue, st.last, st.taken);
      AppliedFrom(st, i, (Sn(r, p, k), w.batch.value[k]));
      GoodIsApplied(st, i, p, w);
    }
  }

  /** No reader sees part of a batch: at a sequence number it took, either all operations of a
      writer are there or none is. */
  lemma BatchesAreAtomic(bytes: Size, run: seq<State>, steps: seq<Step>, n: nat, s: nat, i: nat, p: nat, w: Writer, k: nat, l: nat)
    requires IsRun(bytes, run, steps) && n < |run| && s in run[n].taken
    requires IsPart(run[n], i, p, w) && k < |w.batch.value| && l < |w.batch.value|
    ensures var r := run[n].records[i];
            Sees(run[n], s, (Sn(r, p, k), w.batch.value[k])) <==> Sees(run[n], s, (Sn(r, p, l), w.batch.value[l]))
  {
    RunKeepsInv(bytes, run, steps, n);
    var st := run[n];
    var r := st.records[i];
    if Sees(st, s, (Sn(r, p, k), w.batch.value[k])) { SeesAlike(st, s, i, p, w, k, l); }
    if Sees(st, s, (Sn(r, p, l), w.batch.value[l])) { SeesAlike(st, s, i, p, w, l, k); }
  }
}
