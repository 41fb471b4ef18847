/** The skip list of skiplist.h: one writer, readers without locks, and every load and store a
    step of its own. Links are loads and stores of single pointers, seen in one order by all. */
module SkipList {
  import opened Files

  type Key = real

  const HEAD: nat := 0
  const MAX_HEIGHT := 12

  datatype Node = Node(key: Key, next: seq<Option<nat>>)

  type Heap = map<nat, Node>

  /** The nodes linked into each level so far: what the proof knows about the heap. */
  type Linked = seq<set<nat>>

  // ---------------------------------------------------------------- sorted levels

  /** Node `x` sorts before the key; the head sorts before everything. */
  predicate Below(heap: Heap, x: nat, k: Key)
    requires x in heap
  {
    x == HEAD || heap[x].key < k
  }

  predicate Before(heap: Heap, x: nat, y: nat)
    requires x in heap && y in heap
  {
    y != HEAD && Below(heap, x, heap[y].key)
  }

  ghost predicate Present(heap: Heap, s: set<nat>, i: nat) {
    HEAD in s && forall x :: x in s ==> x in heap && i < |heap[x].next|
  }

  /** The link of `x` leads to its successor in `s`. */
  ghost predicate LinkOk(heap: Heap, s: set<nat>, i: nat, x: nat)
    requires Present(heap, s, i) && x in s
  {
    match heap[x].next[i]
    case None => forall z :: z in s ==> !Before(heap, x, z)
    case Some(y) => y in s && Before(heap, x, y) && forall z :: z in s && Before(heap, x, z) ==> z == y || Before(heap, y, z)
  }

  ghost predicate LevelOk(heap: Heap, s: set<nat>, i: nat) {
    Present(heap, s, i) && forall x :: x in s ==> LinkOk(heap, s, i, x)
  }

  ghost predicate DistinctKeys(heap: Heap, s: set<nat>)
    requires forall x :: x in s ==> x in heap
  {
    forall x, y :: x in s && y in s && x != HEAD && y != HEAD && heap[x].key == heap[y].key ==> x == y
  }

  ghost predicate ListOk(heap: Heap, maxHeight: nat, linked: Linked) {
    && |linked| == MAX_HEIGHT && 1 <= maxHeight <= MAX_HEIGHT
    && (forall i :: 0 <= i < MAX_HEIGHT ==> LevelOk(heap, linked[i], i))
    && (forall i :: 0 <= i < MAX_HEIGHT - 1 ==> linked[i + 1] <= linked[i])
    && (forall i :: maxHeight <= i < MAX_HEIGHT ==> linked[i] == {HEAD})
    && DistinctKeys(heap, linked[0])
  }

  // ---------------------------------------------------------------- searches

  /** The three searches differ in when they move on along a level. */
  datatype Search = AtOrAfter(key: Key) | JustBefore(key: Key) | Last

  predicate MovesOn(heap: Heap, q: Search, next: Option<nat>)
    requires next.Some? ==> next.value in heap
  {
    next.Some? && (q.Last? || heap[next.value].key < q.key)
  }

  /** `n` is the first node of `s` at or after the key. */
  ghost predicate IsFirstFrom(heap: Heap, s: set<nat>, k: Key, n: Option<nat>)
    requires forall x :: x in s ==> x in heap
  {
    match n
    case None => forall z :: z in s ==> Below(heap, z, k)
    case Some(y) => y in s && !Below(heap, y, k) && forall z :: z in s && !Below(heap, z, k) ==> z == y || Before(heap, y, z)
  }

  /** `x` is the last node of `s` before the key, the head if there is none. */
  ghost predicate IsLastBefore(heap: Heap, s: set<nat>, k: Key, x: nat)
    requires forall z :: z in s ==> z in heap
  {
    x in s && Below(heap, x, k) && forall z :: z in s && Below(heap, z, k) ==> z == x || Before(heap, z, x)
  }

  ghost predicate IsLast(heap: Heap, s: set<nat>, x: nat)
    requires forall z :: z in s ==> z in heap
  {
    x in s && forall z :: z in s ==> z == x || Before(heap, z, x)
  }

  /** What a search that ends at `x`, with `next` after it, has found. */
  ghost predicate Answers(heap: Heap, s: set<nat>, q: Search, x: nat, next: Option<nat>)
    requires forall z :: z in s ==> z in heap
  {
    match q
    case AtOrAfter(k) => IsFirstFrom(heap, s, k, next)
    case JustBefore(k) => IsLastBefore(heap, s, k, x)
    case Last => IsLast(heap, s, x)
  }

  ghost predicate OnTheWay(heap: Heap, q: Search, x: nat)
    requires x in heap
  {
    q.Last? || Below(heap, x, q.key)
  }

  /** The load that ends a search sees the answer. */
  lemma LastLoadAnswers(heap: Heap, s: set<nat>, q: Search, x: nat)
    requires LevelOk(heap, s, 0) && DistinctKeys(heap, s) && x in s && OnTheWay(heap, q, x)
    requires LinkOk(heap, s, 0, x) && !MovesOn(heap, q, heap[x].next[0])
    ensures Answers(heap, s, q, x, heap[x].next[0])
  {
    forall z | z in s && z != x ensures Before(heap, x, z) || Before(heap, z, x) {}
  }

  // ---------------------------------------------------------------- a level is a sorted list

  ghost function After(heap: Heap, s: set<nat>, x: nat): set<nat>
    requires x in heap && forall z :: z in s ==> z in heap
  {
    set z | z in s && Before(heap, x, z)
  }

  /** The nodes met by following level `i` from `x`. */
  ghost function Chain(heap: Heap, s: set<nat>, i: nat, x: nat): seq<nat>
    requires LevelOk(heap, s, i) && x in s
    decreases After(heap, s, x)
  {
    assert LinkOk(heap, s, i, x);
    match heap[x].next[i]
    case None => [x]
    case Some(y) =>
      assert y in After(heap, s, x) && y !in After(heap, s, y) && After(heap, s, y) <= After(heap, s, x);
      [x] + Chain(heap, s, i, y)
  }

  /** It meets exactly the linked nodes behind `x`, in key order. */
  lemma {:induction false} ChainIsSorted(heap: Heap, s: set<nat>, i: nat, x: nat)
    requires LevelOk(heap, s, i) && x in s
    ensures var c := Chain(heap, s, i, x);
            && |c| > 0 && c[0] == x && (forall z :: z in c <==> z == x || z in After(heap, s, x))
            && forall a, b :: 0 <= a < b < |c| ==> c[a] in heap && c[b] in heap && Before(heap, c[a], c[b])
    decreases After(heap, s, x)
  {
    assert LinkOk(heap, s, i, x);
    if heap[x].next[i].Some? {
      var y := heap[x].next[i].value;
      assert y in After(heap, s, x) && y !in After(heap, s, y) && After(heap, s, y) <= After(heap, s, x);
      ChainIsSorted(heap, s, i, y);
      var c, rest := Chain(heap, s, i, x), Chain(heap, s, i, y);
      assert c == [x] + rest;
      assert forall b :: 0 <= b < |rest| ==> rest[b] in rest;
    }
  }

  // ---------------------------------------------------------------- searching a quiet list

  /** `p` is where a node with key `k` goes on level `l`. */
  ghost predicate Fits(heap: Heap, s: set<nat>, l: nat, k: Key, p: nat)
    requires Present(heap, s, l)
  {
    p in s && Below(heap, p, k) && (heap[p].next[l].Some? ==> heap[p].next[l].value in heap && !Below(heap, heap[p].next[l].value, k))
  }

  /** FindGreaterOrEqual with its `prev` array, FindLessThan and FindLast. */
  method Find(heap: Heap, maxHeight: nat, q: Search, ghost linked: Linked) returns (x: nat, next: Option<nat>, prev: seq<nat>)
    requires ListOk(heap, maxHeight, linked)
    ensures Answers(heap, linked[0], q, x, next)
    ensures |prev| == MAX_HEIGHT
    ensures q.AtOrAfter? ==> forall l :: 0 <= l < maxHeight ==> Fits(heap, linked[l], l, q.key, prev[l])
  {
    x := HEAD;
    prev := seq(MAX_HEIGHT, _ => HEAD);
    var level := maxHeight - 1;
    while true
      invariant 0 <= level < maxHeight && x in linked[level] && OnTheWay(heap, q, x) && |prev| == MAX_HEIGHT
      invariant q.AtOrAfter? ==> forall l :: level < l < maxHeight ==> Fits(heap, linked[l], l, q.key, prev[l])
      decreases level, After(heap, linked[level], x)
    {
      assert LevelOk(heap, linked[level], level) && LinkOk(heap, linked[level], level, x);
      next := heap[x].next[level];
      if MovesOn(heap, q, next) {
        assert next.value in After(heap, linked[level], x) && next.value !in After(heap, linked[level], next.value);
        assert After(heap, linked[level], next.value) <= After(heap, linked[level], x);
        x := next.value;
      } else {
        prev := prev[level := x];
        if level == 0 {
          LastLoadAnswers(heap, linked[0], q, x);
          return;
        }
        assert linked[level - 1 + 1] <= linked[level - 1];
        level := level - 1;
      }
    }
  }

  // ---------------------------------------------------------------- the protocol

  datatype Writer =
    | Quiet
    | Finding(key: Key, x: nat, level: nat, prev: seq<nat>)
    | Found(key: Key, prev: seq<nat>)
    | Ready(key: Key, prev: seq<nat>, height: nat)
    | Linking(node: nat, prev: seq<nat>, height: nat, i: nat, copied: bool)

  datatype Reader =
    | Resting
    | Reading(q: Search, x: nat, level: nat)
    | Done(q: Search, x: nat, next: Option<nat>)

  datatype State = State(heap: Heap, maxHeight: nat, linked: Linked, w: Writer, r: Reader)

  datatype Step =
    | Insert(key: Key) | WriterLoad | Choose(height: nat) | NewNode(id: nat, garbage: seq<Option<nat>>) | Copy | Publish
    | StartReading(q: Search, height: nat) | ReaderLoad | StopReading

  ghost predicate Absent(st: State, k: Key) {
    |st.linked| == MAX_HEIGHT && forall z :: z in st.linked[0] && z in st.heap && z != HEAD ==> st.heap[z].key != k
  }

  function SetNext(heap: Heap, x: nat, i: nat, y: Option<nat>): Heap
    requires x in heap && i < |heap[x].next|
  {
    heap[x := Node(heap[x].key, heap[x].next[i := y])]
  }

  /** Can `x` be loaded from at this level? */
  predicate Loadable(heap: Heap, x: nat, level: nat) {
    x in heap && level < |heap[x].next| && (heap[x].next[level].Some? ==> heap[x].next[level].value in heap)
  }

  ghost predicate WriterStep(st: State, step: Step, st': State) {
    match step
    case Insert(k) =>
      // the caller may not insert a key twice
      && st.w.Quiet? && Absent(st, k) && st.maxHeight > 0
      && st' == st.(w := Finding(k, HEAD, st.maxHeight - 1, seq(MAX_HEIGHT, _ => HEAD)))
    case WriterLoad =>
      && st.w.Finding? && Loadable(st.heap, st.w.x, st.w.level) && st.w.level < |st.w.prev|
      && var next := st.heap[st.w.x].next[st.w.level];
      st' == if MovesOn(st.heap, AtOrAfter(st.w.key), next) then st.(w := st.w.(x := next.value))
             else if st.w.level > 0 then st.(w := st.w.(prev := st.w.prev[st.w.level := st.w.x], level := st.w.level - 1))
             else st.(w := Found(st.w.key, st.w.prev[0 := st.w.x]))
    case Choose(height) =>
      // RandomHeight; levels the list did not have yet start at the head, where `prev` points already
      && st.w.Found? && 1 <= height <= MAX_HEIGHT
      && st' == st.(w := Ready(st.w.key, st.w.prev, height), maxHeight := if height > st.maxHeight then height else st.maxHeight)
    case NewNode(id, garbage) =>
      && st.w.Ready? && id !in st.heap && |garbage| == st.w.height
      && st' == st.(heap := st.heap[id := Node(st.w.key, garbage)], w := Linking(id, st.w.prev, st.w.height, 0, false))
    case Copy =>
      && st.w.Linking? && !st.w.copied && st.w.i < st.w.height && st.w.i < |st.w.prev|
      && st.w.prev[st.w.i] in st.heap && st.w.i < |st.heap[st.w.prev[st.w.i]].next|
      && st.w.node in st.heap && st.w.i < |st.heap[st.w.node].next|
      && st' == st.(heap := SetNext(st.heap, st.w.node, st.w.i, st.heap[st.w.prev[st.w.i]].next[st.w.i]), w := st.w.(copied := true))
    case Publish =>
      && st.w.Linking? && st.w.copied && st.w.i < st.w.height && st.w.i < |st.w.prev| && st.w.i < |st.linked|
      && st.w.prev[st.w.i] in st.heap && st.w.i < |st.heap[st.w.prev[st.w.i]].next|
      && st' == st.(heap := SetNext(st.heap, st.w.prev[st.w.i], st.w.i, Some(st.w.node)),
                    linked := st.linked[st.w.i := st.linked[st.w.i] + {st.w.node}],
                    w := if st.w.i + 1 < st.w.height then st.w.(i := st.w.i + 1, copied := false) else Quiet)
    case _ => false
  }

  ghost predicate ReaderStep(st: State, step: Step, st': State) {
    match step
    case StartReading(q, height) =>
      // the height read may be an old one
      && st.r.Resting? && 1 <= height <= st.maxHeight && st' == st.(r := Reading(q, HEAD, height - 1))
    case ReaderLoad =>
      && st.r.Reading? && Loadable(st.heap, st.r.x, st.r.level)
      && var next := st.heap[st.r.x].next[st.r.level];
      st' == if MovesOn(st.heap, st.r.q, next) then st.(r := Reading(st.r.q, next.value, st.r.level))
             else if st.r.level > 0 then st.(r := Reading(st.r.q, st.r.x, st.r.level - 1))
             else st.(r := Done(st.r.q, st.r.x, next))
    case StopReading =>
      st.r.Done? && st' == st.(r := Resting)
    case _ => false
  }

  ghost predicate Next(st: State, step: Step, st': State) {
    WriterStep(st, step, st') || ReaderStep(st, step, st')
  }

  ghost predicate Init(st: State) {
    st == State(map[HEAD := Node(0.0, seq(MAX_HEIGHT, _ => None))], 1, seq(MAX_HEIGHT, _ => {HEAD}), Quiet, Resting)
  }

  ghost predicate IsRun(run: seq<State>, steps: seq<Step>) {
    && |run| == |steps| + 1 && Init(run[0])
    && forall i :: 0 <= i < |steps| ==> Next(run[i], steps[i], run[i + 1])
  }

  // ---------------------------------------------------------------- the invariant

  ghost predicate FitsFrom(st: State, k: Key, prev: seq<nat>, lo: nat)
    requires ListOk(st.heap, st.maxHeight, st.linked)
  {
    |prev| == MAX_HEIGHT && forall l :: lo <= l < MAX_HEIGHT ==> Fits(st.heap, st.linked[l], l, k, prev[l])
  }

  ghost predicate WriterOk(st: State)
    requires ListOk(st.heap, st.maxHeight, st.linked)
  {
    match st.w
    case Quiet => true
    case Finding(k, x, level, prev) =>
      && Absent(st, k) && level < MAX_HEIGHT && x in st.linked[level] && Below(st.heap, x, k) && FitsFrom(st, k, prev, level + 1)
    case Found(k, prev) => Absent(st, k) && FitsFrom(st, k, prev, 0)
    case Ready(k, prev, height) => Absent(st, k) && FitsFrom(st, k, prev, 0) && 1 <= height <= st.maxHeight
    case Linking(id, prev, height, i, copied) =>
      && id in st.heap && id != HEAD && i < height <= st.maxHeight && |st.heap[id].next| == height
      && (forall l :: 0 <= l < MAX_HEIGHT ==> (id in st.linked[l] <==> l < i))
      && FitsFrom(st, st.heap[id].key, prev, i)
      && (copied ==> st.heap[id].next[i] == st.heap[prev[i]].next[i])
      && forall z :: z in st.linked[0] && z != HEAD && z != id ==> st.heap[z].key != st.heap[id].key
  }

  ghost predicate ReaderOk(st: State)
    requires ListOk(st.heap, st.maxHeight, st.linked)
  {
    st.r.Reading? ==> st.r.level < MAX_HEIGHT && st.r.x in st.linked[st.r.level] && OnTheWay(st.heap, st.r.q, st.r.x)
  }

  ghost predicate Inv(st: State) {
    ListOk(st.heap, st.maxHeight, st.linked) && WriterOk(st) && ReaderOk(st)
  }

  /** A level does not notice changes to other links. */
  lemma LevelStays(heap: Heap, heap': Heap, s: set<nat>, i: nat)
    requires LevelOk(heap, s, i)
    requires forall x :: x in s ==> x in heap' && i < |heap'[x].next| && heap'[x].key == heap[x].key && heap'[x].next[i] == heap[x].next[i]
    ensures LevelOk(heap', s, i)
  {
    forall x | x in s ensures LinkOk(heap', s, i, x) { assert LinkOk(heap, s, i, x); }
  }

  /** What holds when node `id` goes after `p`: all of the list but `p` and its successor is
      further away. */
  ghost predicate Goes(heap: Heap, s: set<nat>, i: nat, p: nat, id: nat) {
    && LevelOk(heap, s, i) && DistinctKeys(heap, s) && id in heap && id !in s && id != HEAD && i < |heap[id].next|
    && Fits(heap, s, i, heap[id].key, p) && heap[id].next[i] == heap[p].next[i]
    && forall z :: z in s && z != HEAD ==> heap[z].key != heap[id].key
  }

  lemma PublishedBetween(heap: Heap, s: set<nat>, i: nat, p: nat, id: nat, z: nat)
    requires Goes(heap, s, i, p, id) && z in s
    ensures Before(heap, p, z) ==> Before(heap, id, z)
    ensures Before(heap, id, z) ==> Before(heap, p, z)
    ensures Before(heap, z, id) ==> z == p || Before(heap, z, p)
    ensures z == p || Before(heap, z, p) ==> Before(heap, z, id)
  {
    assert LinkOk(heap, s, i, p);
  }

  /** Publishing a node on one level. */
  lemma PredLinkOk(heap: Heap, s: set<nat>, i: nat, p: nat, id: nat)
    requires Goes(heap, s, i, p, id)
    ensures Present(SetNext(heap, p, i, Some(id)), s + {id}, i) && LinkOk(SetNext(heap, p, i, Some(id)), s + {id}, i, p)
  {
    PublishedBetween(heap, s, i, p, id, p);
    forall z | z in s + {id} && Before(heap, p, z) ensures z == id || Before(heap, id, z) {
      if z in s { PublishedBetween(heap, s, i, p, id, z); }
    }
  }

  lemma NewLinkOk(heap: Heap, s: set<nat>, i: nat, p: nat, id: nat)
    requires Goes(heap, s, i, p, id)
    ensures Present(SetNext(heap, p, i, Some(id)), s + {id}, i) && LinkOk(SetNext(heap, p, i, Some(id)), s + {id}, i, id)
  {
    assert LinkOk(heap, s, i, p);
    forall z | z in s + {id} && Before(heap, id, z) ensures z in s && Before(heap, p, z) {
      PublishedBetween(heap, s, i, p, id, z);
    }
    if heap[p].next[i].Some? { PublishedBetween(heap, s, i, p, id, heap[p].next[i].value); }
  }

  lemma OldLinkOk(heap: Heap, s: set<nat>, i: nat, p: nat, id: nat, x: nat)
    requires Goes(heap, s, i, p, id) && x in s && x != p
    ensures Present(SetNext(heap, p, i, Some(id)), s + {id}, i) && LinkOk(SetNext(heap, p, i, Some(id)), s + {id}, i, x)
  {
    assert LinkOk(heap, s, i, x);
    OtherLinkStays(heap, s, i, p, id, x);
  }

  lemma PublishKeepsLevel(heap: Heap, s: set<nat>, i: nat, p: nat, id: nat)
    requires Goes(heap, s, i, p, id)
    ensures LevelOk(SetNext(heap, p, i, Some(id)), s + {id}, i)
  {
    var heap', s' := SetNext(heap, p, i, Some(id)), s + {id};
    PredLinkOk(heap, s, i, p, id);
    NewLinkOk(heap, s, i, p, id);
    forall x | x in s' ensures LinkOk(heap', s', i, x) {
      if x != p && x != id { OldLinkOk(heap, s, i, p, id, x); }
    }
  }

  lemma OtherLinkStays(heap: Heap, s: set<nat>, i: nat, p: nat, id: nat, x: nat)
    requires Goes(heap, s, i, p, id) && x in s && x != p
    ensures match heap[x].next[i]
            case None => !Before(heap, x, id)
            case Some(y) => Before(heap, x, id) ==> y == id || Before(heap, y, id)
  {
    assert LinkOk(heap, s, i, x);
    PublishedBetween(heap, s, i, p, id, x);
    if heap[x].next[i].Some? { PublishedBetween(heap, s, i, p, id, heap[x].next[i].value); }
  }

  lemma {:induction false} InLevelBelow(linked: Linked, i: nat, j: nat)
    requires |linked| == MAX_HEIGHT && j <= i < MAX_HEIGHT && forall l :: 0 <= l < MAX_HEIGHT - 1 ==> linked[l + 1] <= linked[l]
    ensures linked[i] <= linked[j]
    decreases i
  {
    if j < i {
      InLevelBelow(linked, i - 1, j);
      assert linked[i - 1 + 1] <= linked[i - 1];
    }
  }

  /** Steps that touch no link of a linked node. */
  lemma ListStays(st: State, heap': Heap, maxHeight': nat)
    requires ListOk(st.heap, st.maxHeight, st.linked) && st.maxHeight <= maxHeight' <= MAX_HEIGHT
    requires forall i, x :: 0 <= i < MAX_HEIGHT && x in st.linked[i] ==>
               x in heap' && |heap'[x].next| == |st.heap[x].next| && heap'[x].key == st.heap[x].key && heap'[x].next[i] == st.heap[x].next[i]
    ensures ListOk(heap', maxHeight', st.linked)
  {
    forall i | 0 <= i < MAX_HEIGHT ensures LevelOk(heap', st.linked[i], i) { LevelStays(st.heap, heap', st.linked[i], i); }
  }

  lemma InsertKeeps(st: State, step: Step, st': State)
    requires Inv(st) && step.Insert? && WriterStep(st, step, st')
    ensures Inv(st')
  {
    forall l | st.maxHeight <= l < MAX_HEIGHT ensures Fits(st.heap, st.linked[l], l, step.key, HEAD) {
      assert LevelOk(st.heap, st.linked[l], l) && LinkOk(st.heap, st.linked[l], l, HEAD);
    }
  }

  lemma WriterLoadKeeps(st: State, step: Step, st': State)
    requires Inv(st) && step.WriterLoad? && WriterStep(st, step, st')
    ensures Inv(st')
  {
    var l, x := st.w.level, st.w.x;
    assert LevelOk(st.heap, st.linked[l], l) && LinkOk(st.heap, st.linked[l], l, x);
    assert l > 0 ==> st.linked[l - 1 + 1] <= st.linked[l - 1];
  }

  lemma NewNodeKeeps(st: State, step: Step, st': State)
    requires Inv(st) && step.NewNode? && WriterStep(st, step, st')
    ensures Inv(st')
  {
    forall i, x | 0 <= i < MAX_HEIGHT && x in st.linked[i] ensures x in st.heap && x != step.id { assert LevelOk(st.heap, st.linked[i], i); }
    ListStays(st, st'.heap, st'.maxHeight);
    FitsStays(st, st', st.w.key, st.w.prev, 0);
  }

  /** Where a node goes does not change while the list does not. */
  lemma FitsStays(st: State, st': State, k: Key, prev: seq<nat>, lo: nat)
    requires ListOk(st.heap, st.maxHeight, st.linked) && ListOk(st'.heap, st'.maxHeight, st'.linked) && FitsFrom(st, k, prev, lo)
    requires forall i :: lo <= i < MAX_HEIGHT ==> st'.linked[i] == st.linked[i]
    requires forall i, x :: lo <= i < MAX_HEIGHT && x in st.linked[i] ==>
               x in st'.heap && i < |st'.heap[x].next| && st'.heap[x].key == st.heap[x].key && st'.heap[x].next[i] == st.heap[x].next[i]
    ensures FitsFrom(st', k, prev, lo)
  {
    forall l | lo <= l < MAX_HEIGHT ensures Fits(st'.heap, st'.linked[l], l, k, prev[l]) {
      assert Fits(st.heap, st.linked[l], l, k, prev[l]);
      assert LevelOk(st.heap, st.linked[l], l) && LinkOk(st.heap, st.linked[l], l, prev[l]);
    }
  }

  lemma CopyKeeps(st: State, step: Step, st': State)
    requires Inv(st) && step.Copy? && WriterStep(st, step, st')
    ensures Inv(st')
  {
    var id, i := st.w.node, st.w.i;
    forall l, x | 0 <= l < MAX_HEIGHT && x in st.linked[l]
      ensures x in st.heap && l < |st.heap[x].next| && st'.heap[x].next[l] == st.heap[x].next[l]
    {
      assert LevelOk(st.heap, st.linked[l], l);
      assert x == id ==> l < i;
    }
    ListStays(st, st'.heap, st'.maxHeight);
    FitsStays(st, st', st.heap[id].key, st.w.prev, i);
  }

  lemma PublishKeepsLevels(heap: Heap, linked: Linked, p: nat, id: nat, i: nat, l: nat)
    requires |linked| == MAX_HEIGHT && i < MAX_HEIGHT && l < MAX_HEIGHT && LevelOk(heap, linked[l], l) && Goes(heap, linked[i], i, p, id)
    ensures LevelOk(SetNext(heap, p, i, Some(id)), linked[i := linked[i] + {id}][l], l)
  {
    if l == i {
      PublishKeepsLevel(heap, linked[i], i, p, id);
    } else {
      LevelStays(heap, SetNext(heap, p, i, Some(id)), linked[l], l);
    }
  }

  lemma LinkingGoes(st: State)
    requires Inv(st) && st.w.Linking? && st.w.copied
    ensures Goes(st.heap, st.linked[st.w.i], st.w.i, st.w.prev[st.w.i], st.w.node)
  {
    InLevelBelow(st.linked, st.w.i, 0);
    assert LevelOk(st.heap, st.linked[0], 0) && LevelOk(st.heap, st.linked[st.w.i], st.w.i);
  }

  lemma PublishKeepsList(st: State, step: Step, st': State)
    requires Inv(st) && step.Publish? && WriterStep(st, step, st')
    ensures ListOk(st'.heap, st'.maxHeight, st'.linked)
  {
    var id, i, p := st.w.node, st.w.i, st.w.prev[st.w.i];
    LinkingGoes(st);
    forall l | 0 <= l < MAX_HEIGHT ensures LevelOk(st'.heap, st'.linked[l], l) {
      PublishKeepsLevels(st.heap, st.linked, p, id, i, l);
    }
    PublishKeepsShape(st, st');
  }

  lemma PublishKeepsShape(st: State, st': State)
    requires Inv(st) && st.w.Linking? && st'.maxHeight == st.maxHeight
    requires st.w.prev[st.w.i] in st.heap && st.w.i < |st.heap[st.w.prev[st.w.i]].next|
    requires st'.heap == SetNext(st.heap, st.w.prev[st.w.i], st.w.i, Some(st.w.node))
    requires st'.linked == st.linked[st.w.i := st.linked[st.w.i] + {st.w.node}]
    ensures forall l :: 0 <= l < MAX_HEIGHT - 1 ==> st'.linked[l + 1] <= st'.linked[l]
    ensures forall l :: st'.maxHeight <= l < MAX_HEIGHT ==> st'.linked[l] == {HEAD}
    ensures (forall x :: x in st'.linked[0] ==> x in st'.heap) && DistinctKeys(st'.heap, st'.linked[0])
  {
    assert LevelOk(st.heap, st.linked[0], 0);
    forall l | 0 <= l < MAX_HEIGHT - 1 ensures st'.linked[l + 1] <= st'.linked[l] {
      assert st.linked[l + 1] <= st.linked[l];
    }
  }

  lemma PublishKeepsWriter(st: State, st': State)
    requires Inv(st) && WriterStep(st, Publish, st') && ListOk(st'.heap, st'.maxHeight, st'.linked)
    ensures WriterOk(st')
  {
    var id, i := st.w.node, st.w.i;
    assert LevelOk(st.heap, st.linked[i], i) && LevelOk(st.heap, st.linked[0], 0);
    if st'.w.Linking? {
      PublishKeepsUpper(st, st');
      FitsStays(st, st', st.heap[id].key, st.w.prev, i + 1);
    }
  }

  lemma PublishKeepsUpper(st: State, st': State)
    requires Inv(st) && WriterStep(st, Publish, st')
    ensures forall l, x :: st.w.i + 1 <= l < MAX_HEIGHT && x in st.linked[l] ==>
              x in st.heap && x in st'.heap && l < |st.heap[x].next| && l < |st'.heap[x].next| && st'.heap[x].next[l] == st.heap[x].next[l]
  {
    forall l, x | st.w.i + 1 <= l < MAX_HEIGHT && x in st.linked[l]
      ensures x in st.heap && x in st'.heap && l < |st.heap[x].next| && l < |st'.heap[x].next| && st'.heap[x].next[l] == st.heap[x].next[l]
    {
      assert LevelOk(st.heap, st.linked[l], l);
    }
  }

  lemma PublishKeeps(st: State, step: Step, st': State)
    requires Inv(st) && step.Publish? && WriterStep(st, step, st')
    ensures Inv(st')
  {
    PublishKeepsList(st, step, st');
    PublishKeepsWriter(st, st');
    if st.r.Reading? { assert LevelOk(st.heap, st.linked[st.r.level], st.r.level); }
  }

  lemma ReaderKeeps(st: State, step: Step, st': State)
    requires Inv(st) && ReaderStep(st, step, st')
    ensures Inv(st')
  {
    if step.ReaderLoad? {
      var l, x := st.r.level, st.r.x;
      assert LevelOk(st.heap, st.linked[l], l) && LinkOk(st.heap, st.linked[l], l, x);
      assert l > 0 ==> st.linked[l - 1 + 1] <= st.linked[l - 1];
    }
  }

  lemma NextKeepsInv(st: State, step: Step, st': State)
    requires Inv(st) && Next(st, step, st')
    ensures Inv(st')
  {
    if ReaderStep(st, step, st') {
      ReaderKeeps(st, step, st');
    } else {
      match step
      case Insert(_) => InsertKeeps(st, step, st');
      case WriterLoad => WriterLoadKeeps(st, step, st');
      case Choose(_) => ListStays(st, st.heap, st'.maxHeight); FitsStays(st, st', st.w.key, st.w.prev, 0);
      case NewNode(_, _) => NewNodeKeeps(st, step, st');
      case Copy => CopyKeeps(st, step, st');
      case Publish => PublishKeeps(st, step, st');
    }
  }

  lemma {:induction false} RunKeepsInv(run: seq<State>, steps: seq<Step>, i: nat)
    requires IsRun(run, steps) && i < |run|
    ensures Inv(run[i])
  {
    if i > 0 {
      RunKeepsInv(run, steps, i - 1);
      NextKeepsInv(run[i - 1], steps[i - 1], run[i]);
    }
  }

  /** In every reachable state, between any two stores of Insert, each level is a sorted list of
      the nodes linked into it and a sublist of the level below. */
  lemma LevelsStaySorted(run: seq<State>, steps: seq<Step>, n: nat, i: nat)
    requires IsRun(run, steps) && n < |run| && i < MAX_HEIGHT
    ensures |run[n].linked| == MAX_HEIGHT && LevelOk(run[n].heap, run[n].linked[i], i)
    ensures i + 1 < MAX_HEIGHT ==> run[n].linked[i + 1] <= run[n].linked[i]
    ensures forall x :: x in run[n].linked[i] <==> x in Chain(run[n].heap, run[n].linked[i], i, HEAD)
  {
    RunKeepsInv(run, steps, n);
    var heap, s := run[n].heap, run[n].linked[i];
    assert LevelOk(heap, s, i);
    ChainIsSorted(heap, s, i, HEAD);
  }

  /** A reader's last load returns the true answer for the bottom list as it is at that moment. */
  lemma ReadersSeeTheTruth(run: seq<State>, steps: seq<Step>, n: nat)
    requires IsRun(run, steps) && n < |steps| && steps[n].ReaderLoad? && run[n + 1].r.Done?
    ensures |run[n].linked| == MAX_HEIGHT && LevelOk(run[n].heap, run[n].linked[0], 0)
    ensures Answers(run[n].heap, run[n].linked[0], run[n + 1].r.q, run[n + 1].r.x, run[n + 1].r.next)
  {
    RunKeepsInv(run, steps, n);
    var st := run[n];
    assert Next(st, steps[n], run[n + 1]);
    assert LevelOk(st.heap, st.linked[0], 0) && LinkOk(st.heap, st.linked[0], 0, st.r.x);
    LastLoadAnswers(st.heap, st.linked[0], st.r.q, st.r.x);
  }

  /** No load of a reader ever follows a bad pointer. */
  lemma LoadsAreSafe(run: seq<State>, steps: seq<Step>, n: nat)
    requires IsRun(run, steps) && n < |run| && run[n].r.Reading?
    ensures Loadable(run[n].heap, run[n].r.x, run[n].r.level)
  {
    RunKeepsInv(run, steps, n);
    var st := run[n];
    assert LevelOk(st.heap, st.linked[st.r.level], st.r.level) && LinkOk(st.heap, st.linked[st.r.level], st.r.level, st.r.x);
  }

  /** Neither does the writer: whatever it is about to load, copy or store, it can. */
  lemma WriterNeverSticks(run: seq<State>, steps: seq<Step>, n: nat) returns (step: Step, st': State)
    requires IsRun(run, steps) && n < |run| && (run[n].w.Finding? || run[n].w.Linking?)
    ensures step == if run[n].w.Finding? then WriterLoad else if run[n].w.copied then Publish else Copy
    ensures WriterStep(run[n], step, st')
  {
    RunKeepsInv(run, steps, n);
    var st := run[n];
    if st.w.Finding? {
      step := WriterLoad;
      st' := LoadCanGo(st);
    } else {
      step := if st.w.copied then Publish else Copy;
      st' := LinkCanGo(st, step);
    }
  }

  lemma LoadCanGo(st: State) returns (st': State)
    requires Inv(st) && st.w.Finding?
    ensures WriterStep(st, WriterLoad, st')
  {
    var w := st.w;
    assert LevelOk(st.heap, st.linked[w.level], w.level) && LinkOk(st.heap, st.linked[w.level], w.level, w.x);
    var next := st.heap[w.x].next[w.level];
    st' := if MovesOn(st.heap, AtOrAfter(w.key), next) then st.(w := w.(x := next.value))
           else if w.level > 0 then st.(w := w.(prev := w.prev[w.level := w.x], level := w.level - 1))
           else st.(w := Found(w.key, w.prev[0 := w.x]));
  }

  lemma LinkCanGo(st: State, step: Step) returns (st': State)
    requires Inv(st) && st.w.Linking? && step == if st.w.copied then Publish else Copy
    ensures WriterStep(st, step, st')
  {
    var w := st.w;
    assert Fits(st.heap, st.linked[w.i], w.i, st.heap[w.node].key, w.prev[w.i]);
    assert LevelOk(st.heap, st.linked[w.i], w.i);
    st' := if w.copied
           then st.(heap := SetNext(st.heap, w.prev[w.i], w.i, Some(w.node)), linked := st.linked[w.i := st.linked[w.i] + {w.node}],
                    w := if w.i + 1 < w.height then w.(i := w.i + 1, copied := false) else Quiet)
           else st.(heap := SetNext(st.heap, w.node, w.i, st.heap[w.prev[w.i]].next[w.i]), w := w.(copied := true));
  }

  // ---------------------------------------------------------------- Insert inserts

  /** A walk along a level from the head. */
  ghost predicate IsPath(heap: Heap, i: nat, p: seq<nat>) {
    && p != [] && p[0] == HEAD
    && forall j :: 0 <= j < |p| - 1 ==> p[j] in heap && i < |heap[p[j]].next| && heap[p[j]].next[i] == Some(p[j + 1])
  }

  /** A walk along the level meets `x`. */
  ghost predicate OnLevel(heap: Heap, i: nat, x: nat) {
    exists p :: IsPath(heap, i, p) && p[|p| - 1] == x
  }

  /** The list has the key. */
  ghost predicate HasKey(heap: Heap, k: Key) {
    exists x :: x in heap && x != HEAD && heap[x].key == k && OnLevel(heap, 0, x)
  }

  lemma {:induction false} PathStays(heap: Heap, s: set<nat>, i: nat, p: seq<nat>)
    requires LevelOk(heap, s, i) && IsPath(heap, i, p)
    ensures p[|p| - 1] in s
    decreases |p|
  {
    if |p| > 1 {
      var q := p[..|p| - 1];
      PathStays(heap, s, i, q);
      assert LinkOk(heap, s, i, q[|q| - 1]);
    }
  }

  lemma {:induction false} ChainIsPath(heap: Heap, s: set<nat>, i: nat, x: nat, z: nat)
    requires LevelOk(heap, s, i) && x in s && OnLevel(heap, i, x) && z in Chain(heap, s, i, x)
    ensures OnLevel(heap, i, z)
    decreases After(heap, s, x)
  {
    assert LinkOk(heap, s, i, x);
    if z != x {
      var y := heap[x].next[i].value;
      assert y in After(heap, s, x) && y !in After(heap, s, y) && After(heap, s, y) <= After(heap, s, x);
      var p :| IsPath(heap, i, p) && p[|p| - 1] == x;
      assert IsPath(heap, i, p + [y]) && (p + [y])[|p + [y]| - 1] == y;
      ChainIsPath(heap, s, i, y, z);
    }
  }

  /** The nodes linked into a level are those a walk along it meets. */
  lemma LinkedIsMet(heap: Heap, s: set<nat>, i: nat, x: nat)
    requires LevelOk(heap, s, i)
    ensures OnLevel(heap, i, x) <==> x in s
  {
    if OnLevel(heap, i, x) {
      var p :| IsPath(heap, i, p) && p[|p| - 1] == x;
      PathStays(heap, s, i, p);
    }
    if x in s {
      ChainIsSorted(heap, s, i, HEAD);
      assert IsPath(heap, i, [HEAD]) && [HEAD][|[HEAD]| - 1] == HEAD;
      ChainIsPath(heap, s, i, HEAD, x);
    }
  }

  ghost function KeysOf(heap: Heap, s: set<nat>): set<Key> {
    set x | x in s && x in heap && x != HEAD :: heap[x].key
  }

  lemma KeysAreMet(st: State, k: Key)
    requires Inv(st)
    ensures HasKey(st.heap, k) <==> k in KeysOf(st.heap, st.linked[0])
  {
    assert LevelOk(st.heap, st.linked[0], 0);
    forall x ensures OnLevel(st.heap, 0, x) <==> x in st.linked[0] { LinkedIsMet(st.heap, st.linked[0], 0, x); }
  }

  /** How far the insertion of `k`, into a list with the keys `ks`, has got. */
  ghost predicate Halfway(st: State, k: Key, ks: set<Key>)
    requires |st.linked| == MAX_HEIGHT
  {
    var now := KeysOf(st.heap, st.linked[0]);
    match st.w
    case Quiet => now == ks + {k}
    case Finding(key, _, _, _) => key == k && now == ks
    case Found(key, _) => key == k && now == ks
    case Ready(key, _, height) => key == k && now == ks && height > 0
    case Linking(id, _, height, i, _) => id in st.heap && st.heap[id].key == k && i < height && now == if i == 0 then ks else ks + {k}
  }

  lemma SameKeys(heap: Heap, heap': Heap, s: set<nat>)
    requires forall x :: x in s ==> x in heap && x in heap' && heap'[x].key == heap[x].key
    ensures KeysOf(heap', s) == KeysOf(heap, s)
  {
  }

  lemma OneMoreKey(heap: Heap, heap': Heap, s: set<nat>, id: nat)
    requires (forall x :: x in s ==> x in heap) && id in heap && id != HEAD
    requires forall x :: x in heap ==> x in heap' && heap'[x].key == heap[x].key
    ensures KeysOf(heap', s + {id}) == KeysOf(heap, s) + {heap[id].key}
  {
    assert id in s + {id};
  }

  lemma PublishGetsOn(st: State, st': State, k: Key, ks: set<Key>)
    requires Inv(st) && Halfway(st, k, ks) && WriterStep(st, Publish, st')
    ensures |st'.linked| == MAX_HEIGHT && Halfway(st', k, ks)
  {
    assert LevelOk(st.heap, st.linked[0], 0);
    if st.w.i == 0 {
      OneMoreKey(st.heap, st'.heap, st.linked[0], st.w.node);
    } else {
      SameKeys(st.heap, st'.heap, st.linked[0]);
    }
  }

  lemma StepGetsOn(st: State, step: Step, st': State, k: Key, ks: set<Key>)
    requires Inv(st) && !st.w.Quiet? && Halfway(st, k, ks) && Next(st, step, st')
    ensures |st'.linked| == MAX_HEIGHT && Halfway(st', k, ks)
  {
    if step.Publish? {
      PublishGetsOn(st, st', k, ks);
    } else {
      KeysUnchanged(st, step, st');
    }
  }

  lemma KeysUnchanged(st: State, step: Step, st': State)
    requires Inv(st) && Next(st, step, st') && !step.Publish?
    ensures st'.linked == st.linked && KeysOf(st'.heap, st'.linked[0]) == KeysOf(st.heap, st.linked[0])
  {
    assert LevelOk(st.heap, st.linked[0], 0);
    SameKeys(st.heap, st'.heap, st.linked[0]);
  }

  lemma InsertStarts(st: State, st': State, k: Key)
    requires Inv(st) && Next(st, Insert(k), st')
    ensures |st'.linked| == MAX_HEIGHT && Halfway(st', k, KeysOf(st.heap, st.linked[0]))
  {
  }

  /** Insert, begun in state `i` of a run, has got somewhere in state `j`. */
  ghost predicate UnderWay(run: seq<State>, i: nat, j: nat, k: Key)
    requires i < |run| && j < |run|
  {
    |run[i].linked| == MAX_HEIGHT == |run[j].linked| && Halfway(run[j], k, KeysOf(run[i].heap, run[i].linked[0]))
  }

  lemma GetsUnderWay(run: seq<State>, steps: seq<Step>, i: nat, k: Key)
    requires IsRun(run, steps) && i < |steps| && steps[i] == Insert(k)
    ensures UnderWay(run, i, i + 1, k)
  {
    RunKeepsInv(run, steps, i);
    assert Next(run[i], steps[i], run[i + 1]);
    InsertStarts(run[i], run[i + 1], k);
  }

  lemma StaysUnderWay(run: seq<State>, steps: seq<Step>, i: nat, j: nat, k: Key)
    requires IsRun(run, steps) && i < j < |steps| && UnderWay(run, i, j, k) && !run[j].w.Quiet?
    ensures UnderWay(run, i, j + 1, k)
  {
    RunKeepsInv(run, steps, j);
    assert Next(run[j], steps[j], run[j + 1]);
    StepGetsOn(run[j], steps[j], run[j + 1], k, KeysOf(run[i].heap, run[i].linked[0]));
  }

  lemma {:induction false} RunGetsOn(run: seq<State>, steps: seq<Step>, i: nat, j: nat, k: Key)
    requires IsRun(run, steps) && i < j < |run| && steps[i] == Insert(k) && forall m :: i < m < j ==> !run[m].w.Quiet?
    ensures UnderWay(run, i, j, k)
  {
    var h := j - 1;
    if i == h {
      GetsUnderWay(run, steps, i, k);
    } else {
      RunGetsOn(run, steps, i, h, k);
      StaysUnderWay(run, steps, i, h, k);
    }
  }

  /** Insert inserts: when the writer is quiet again, the list has the new key, and besides it exactly
      the keys it had. */
  lemma InsertInserts(run: seq<State>, steps: seq<Step>, i: nat, j: nat, k: Key, key: Key)
    requires IsRun(run, steps) && i < j < |run| && steps[i] == Insert(k)
    requires run[j].w.Quiet? && forall m :: i < m < j ==> !run[m].w.Quiet?
    ensures HasKey(run[j].heap, key) <==> HasKey(run[i].heap, key) || key == k
  {
    RunGetsOn(run, steps, i, j, k);
    RunKeepsInv(run, steps, i);
    RunKeepsInv(run, steps, j);
    KeysAreMet(run[i], key);
    KeysAreMet(run[j], key);
  }

  /** A node with the key is on the lowest `h` levels and on no other. */
  ghost predicate IsTower(st: State, x: nat, k: Key, h: nat)
    requires |st.linked| == MAX_HEIGHT
  {
    x in st.heap && x != HEAD && st.heap[x].key == k && forall l :: 0 <= l < MAX_HEIGHT ==> (x in st.linked[l] <==> l < h)
  }

  ghost predicate Rising(st: State, k: Key, h: nat)
    requires |st.linked| == MAX_HEIGHT
  {
    match st.w
    case Quiet => exists x :: IsTower(st, x, k, h)
    case Ready(key, _, height) => key == k && height == h
    case Linking(id, _, height, _, _) => id in st.heap && st.heap[id].key == k && height == h
    case _ => false
  }

  lemma StepRises(st: State, step: Step, st': State, k: Key, h: nat)
    requires Inv(st) && !st.w.Quiet? && Rising(st, k, h) && Next(st, step, st')
    ensures |st'.linked| == MAX_HEIGHT && Rising(st', k, h)
  {
    if step.Publish? && st.w.i + 1 == h { assert IsTower(st', st.w.node, k, h); }
  }

  ghost predicate KeyOfWriter(st: State, k: Key) {
    st.w.Found? && st.w.key == k
  }

  lemma {:induction false} RunRises(run: seq<State>, steps: seq<Step>, m: nat, j: nat, k: Key, h: nat)
    requires IsRun(run, steps) && m < j < |run| && steps[m] == Choose(h) && KeyOfWriter(run[m], k)
    requires forall a :: m < a < j ==> !run[a].w.Quiet?
    ensures |run[j].linked| == MAX_HEIGHT && Rising(run[j], k, h)
  {
    var b := j - 1;
    RunKeepsInv(run, steps, b);
    assert Next(run[b], steps[b], run[j]);
    if m < b {
      RunRises(run, steps, m, b, k, h);
      StepRises(run[b], steps[b], run[j], k, h);
    }
  }

  /** The new node ends up on exactly as many levels as the height chosen for it. */
  lemma InsertBuildsTower(run: seq<State>, steps: seq<Step>, m: nat, j: nat, k: Key, h: nat) returns (x: nat)
    requires IsRun(run, steps) && m < j < |run| && steps[m] == Choose(h) && KeyOfWriter(run[m], k)
    requires run[j].w.Quiet? && forall a :: m < a < j ==> !run[a].w.Quiet?
    ensures x in run[j].heap && run[j].heap[x].key == k && forall l :: 0 <= l < MAX_HEIGHT ==> (OnLevel(run[j].heap, l, x) <==> l < h)
  {
    RunRises(run, steps, m, j, k, h);
    RunKeepsInv(run, steps, j);
    x :| IsTower(run[j], x, k, h);
    forall l | 0 <= l < MAX_HEIGHT ensures OnLevel(run[j].heap, l, x) <==> l < h {
      assert LevelOk(run[j].heap, run[j].linked[l], l);
      LinkedIsMet(run[j].heap, run[j].linked[l], l, x);
    }
  }

  lemma StepKeepsKeys(st: State, step: Step, st': State)
    requires Inv(st) && Next(st, step, st')
    ensures |st'.linked| == MAX_HEIGHT && KeysOf(st.heap, st.linked[0]) <= KeysOf(st'.heap, st'.linked[0])
  {
    if step.Publish? {
      assert LevelOk(st.heap, st.linked[0], 0);
      SameKeys(st.heap, st'.heap, st.linked[0]);
    } else {
      KeysUnchanged(st, step, st');
    }
  }

  /** No key ever leaves the list. */
  lemma {:induction false} KeysStay(run: seq<State>, steps: seq<Step>, i: nat, j: nat, k: Key)
    requires IsRun(run, steps) && i <= j < |run| && HasKey(run[i].heap, k)
    ensures HasKey(run[j].heap, k)
  {
    if i < j {
      KeysStay(run, steps, i, j - 1, k);
      RunKeepsInv(run, steps, j - 1);
      RunKeepsInv(run, steps, j);
      StepKeepsKeys(run[j - 1], steps[j - 1], run[j]);
      KeysAreMet(run[j - 1], k);
      KeysAreMet(run[j], k);
    }
  }

  /** And it gets none but by Insert. */
  lemma KeysWereInserted(run: seq<State>, steps: seq<Step>, j: nat, k: Key) returns (i: nat)
    requires IsRun(run, steps) && j < |run| && HasKey(run[j].heap, k)
    ensures i < j && steps[i] == Insert(k)
  {
    RunKeepsInv(run, steps, j);
    KeysAreMet(run[j], k);
    i := WasInserted(run, steps, j, k);
  }

  /** A key in the list, or on its way into it, has been handed to Insert. */
  ghost predicate Given(st: State, k: Key) {
    || (|st.linked| > 0 && k in KeysOf(st.heap, st.linked[0]))
    || (match st.w
        case Quiet => false
        case Finding(key, _, _, _) => key == k
        case Found(key, _) => key == k
        case Ready(key, _, _) => key == k
        case Linking(id, _, _, _, _) => id in st.heap && st.heap[id].key == k)
  }

  lemma {:induction false} WasInserted(run: seq<State>, steps: seq<Step>, j: nat, k: Key) returns (i: nat)
    requires IsRun(run, steps) && j < |run| && Given(run[j], k)
    ensures i < j && steps[i] == Insert(k)
  {
    assert j > 0 && Next(run[j - 1], steps[j - 1], run[j]);
    RunKeepsInv(run, steps, j - 1);
    GivenBy(run[j - 1], steps[j - 1], run[j], k);
    i := j - 1;
    if Given(run[j - 1], k) { i := WasInserted(run, steps, j - 1, k); }
  }

  lemma GivenBy(st: State, step: Step, st': State, k: Key)
    requires Inv(st) && Next(st, step, st') && Given(st', k)
    ensures step == Insert(k) || Given(st, k)
  {
    if step.Publish? { PublishGives(st, st', k); } else { KeysUnchanged(st, step, st'); }
  }

  lemma PublishGives(st: State, st': State, k: Key)
    requires Inv(st) && WriterStep(st, Publish, st') && Given(st', k)
    ensures Given(st, k)
  {
    assert LevelOk(st.heap, st.linked[0], 0);
    if st.w.i == 0 {
      OneMoreKey(st.heap, st'.heap, st.linked[0], st.w.node);
    } else {
      SameKeys(st.heap, st'.heap, st.linked[0]);
    }
  }

  /** A search for a key that was in the list when it began ends at a node with that key. */
  lemma SearchFinds(run: seq<State>, steps: seq<Step>, i: nat, n: nat, k: Key)
    requires IsRun(run, steps) && i <= n < |steps| && HasKey(run[i].heap, k)
    requires steps[n].ReaderLoad? && run[n + 1].r.Done? && run[n + 1].r.q == AtOrAfter(k)
    ensures var found := run[n + 1].r.next; found.Some? && found.value in run[n].heap && run[n].heap[found.value].key == k
  {
    KeysStay(run, steps, i, n, k);
    ReadersSeeTheTruth(run, steps, n);
    RunKeepsInv(run, steps, n);
    KeysAreMet(run[n], k);
    FirstFromIs(run[n].heap, run[n].linked[0], k, run[n + 1].r.next);
  }

  lemma FirstFromIs(heap: Heap, s: set<nat>, k: Key, found: Option<nat>)
    requires (forall x :: x in s ==> x in heap) && k in KeysOf(heap, s) && IsFirstFrom(heap, s, k, found)
    ensures found.Some? && heap[found.value].key == k
  {
    var z :| z in s && z in heap && z != HEAD && heap[z].key == k;
    assert !Below(heap, z, k);
  }

  /** And a search ends without one only if the list lacks the key at that moment. */
  lemma SearchMissesRightly(run: seq<State>, steps: seq<Step>, n: nat, k: Key)
    requires IsRun(run, steps) && n < |steps|
    requires steps[n].ReaderLoad? && run[n + 1].r.Done? && run[n + 1].r.q == AtOrAfter(k)
    ensures var found := run[n + 1].r.next;
            !(found.Some? && found.value in run[n].heap && run[n].heap[found.value].key == k) ==> !HasKey(run[n].heap, k)
  {
    if HasKey(run[n].heap, k) { SearchFinds(run, steps, n, n, k); }
  }
}
