/** LRUCache of cache.cc: reference-counted handles on two lists, a hash table, and deleters that
    run once each. List links are modelled as sequences of handles. */
module LruCache {
  import opened Files
  import opened HandleTable

  datatype Handle = Handle(key: Key, hash: nat, charge: nat, inCache: bool, refs: nat)

  type Heap = map<nat, Handle>

  // ---------------------------------------------------------------- lists

  function Without(s: seq<nat>, x: nat): seq<nat> {
    if s == [] then [] else if s[|s| - 1] == x then s[..|s| - 1] else Without(s[..|s| - 1], x) + [s[|s| - 1]]
  }

  ghost predicate NoRepeats(s: seq<nat>) {
    forall i, j :: 0 <= i < j < |s| ==> s[i] != s[j]
  }

  lemma {:induction false} WithoutIs(s: seq<nat>, x: nat)
    requires NoRepeats(s)
    ensures NoRepeats(Without(s, x)) && forall y :: y in Without(s, x) <==> y in s && y != x
    decreases |s|
  {
    if s != [] {
      var init, last := s[..|s| - 1], s[|s| - 1];
      WithoutIs(init, x);
      assert s == init + [last];
      assert last !in init;
    }
  }

  lemma AppendNew(s: seq<nat>, x: nat)
    requires NoRepeats(s) && x !in s
    ensures NoRepeats(s + [x]) && forall y :: y in s + [x] <==> y in s || y == x
  {
  }

  /** The charges of the handles on a list. */
  ghost function Sum(heap: Heap, s: seq<nat>): nat {
    if s == [] then 0
    else Sum(heap, s[..|s| - 1]) + (if s[|s| - 1] in heap then heap[s[|s| - 1]].charge else 0)
  }

  lemma {:induction false} SumWithout(heap: Heap, s: seq<nat>, x: nat)
    requires x in s && x in heap
    ensures Sum(heap, s) == Sum(heap, Without(s, x)) + heap[x].charge
    decreases |s|
  {
    var init, last := s[..|s| - 1], s[|s| - 1];
    assert s == init + [last];
    if last != x {
      SumWithout(heap, init, x);
      assert Without(s, x)[..|Without(s, x)| - 1] == Without(init, x);
    }
  }

  lemma {:induction false} SumSame(heap: Heap, heap': Heap, s: seq<nat>)
    requires forall x :: x in s ==> x in heap && x in heap' && heap[x].charge == heap'[x].charge
    ensures Sum(heap, s) == Sum(heap', s)
    decreases |s|
  {
    if s != [] {
      assert s == s[..|s| - 1] + [s[|s| - 1]];
      SumSame(heap, heap', s[..|s| - 1]);
    }
  }

  lemma SumAppend(heap: Heap, s: seq<nat>, x: nat)
    requires x in heap
    ensures Sum(heap, s + [x]) == Sum(heap, s) + heap[x].charge
  {
    assert (s + [x])[..|s|] == s;
  }

  // ---------------------------------------------------------------- the invariant

  /** All of a cache but its capacity: `held` counts the handles clients have not released. */
  datatype Cache = Cache(
    usage: nat,
    lru: seq<nat>,             // oldest first
    inUse: seq<nat>,
    heap: Heap,                // every handle not yet freed
    deleted: seq<nat>,         // whose deleter has run
    next: nat,
    held: map<nat, nat>)

  type Index = map<(Key, nat), nat>

  function SlotOf(h: Handle): (Key, nat) {
    (h.key, h.hash)
  }

  /** A client has the handle. */
  predicate Held(c: Cache, id: nat) {
    id in c.held && id in c.heap && c.held[id] > 0
  }

  ghost predicate RefsOk(c: Cache) {
    && c.held.Keys == c.heap.Keys
    && forall id :: id in c.heap ==> id < c.next && c.heap[id].refs > 0 && c.heap[id].refs == c.held[id] + (if c.heap[id].inCache then 1 else 0)
  }

  /** On lru iff cached and only the cache refers to it; on in_use iff cached and a client does. */
  ghost predicate ListsOk(c: Cache) {
    && NoRepeats(c.lru) && NoRepeats(c.inUse)
    && (forall id :: id in c.lru <==> id in c.heap && c.heap[id].inCache && c.heap[id].refs == 1)
    && forall id :: id in c.inUse <==> id in c.heap && c.heap[id].inCache && c.heap[id].refs >= 2
  }

  ghost predicate UsageOk(c: Cache) {
    c.usage == Sum(c.heap, c.lru) + Sum(c.heap, c.inUse)
  }

  /** Every deleter has run at most once, and exactly when its handle is gone. */
  ghost predicate DeletedOk(c: Cache) {
    NoRepeats(c.deleted) && forall id: nat :: id in c.deleted <==> id < c.next && id !in c.heap
  }

  ghost predicate CoreOk(c: Cache) {
    RefsOk(c) && ListsOk(c) && UsageOk(c) && DeletedOk(c)
  }

  /** The table leads from a cached handle's key to the handle. */
  ghost predicate Tabled(heap: Heap, m: Index, id: nat) {
    id in heap && SlotOf(heap[id]) in m && m[SlotOf(heap[id])] == id
  }

  ghost predicate Points(heap: Heap, m: Index, s: (Key, nat)) {
    s in m && m[s] in heap && heap[m[s]].inCache && SlotOf(heap[m[s]]) == s
  }

  /** The table knows exactly the cached handles, but for one just taken out of it. */
  ghost predicate IndexOk(heap: Heap, m: Index, gone: Option<nat>) {
    && (forall s {:trigger Points(heap, m, s)} :: s in m ==> Points(heap, m, s) && gone != Some(m[s]))
    && forall id {:trigger Tabled(heap, m, id)} :: id in heap && heap[id].inCache && gone != Some(id) ==> Tabled(heap, m, id)
  }

  /** Changes of reference counts and lists do not touch the index. */
  lemma IndexStays(heap: Heap, m: Index, gone: Option<nat>, heap': Heap, gone': Option<nat>)
    requires IndexOk(heap, m, gone)
    requires forall id :: id in heap' && heap'[id].inCache && gone' != Some(id) ==> id in heap && heap[id].inCache && gone != Some(id) && SlotOf(heap'[id]) == SlotOf(heap[id])
    requires forall id :: id in heap && heap[id].inCache && gone != Some(id) ==> id in heap' && heap'[id].inCache && gone' != Some(id)
    ensures IndexOk(heap', m, gone')
  {
    forall s | s in m ensures Points(heap', m, s) && gone' != Some(m[s]) { assert Points(heap, m, s); }
    forall id | id in heap' && heap'[id].inCache && gone' != Some(id) ensures Tabled(heap', m, id) { assert Tabled(heap, m, id); }
  }

  // ---------------------------------------------------------------- references

  /** Ref. */
  function Ref(c: Cache, id: nat): Cache
    requires id in c.heap && id in c.held
  {
    var h := c.heap[id];
    var moved := h.refs == 1 && h.inCache;
    c.(lru := if moved then Without(c.lru, id) else c.lru,
       inUse := if moved then c.inUse + [id] else c.inUse,
       heap := c.heap[id := h.(refs := h.refs + 1)],
       held := c.held[id := c.held[id] + 1])
  }

  /** Unref of a handle whose one reference less is already counted in `held` or `inCache`. */
  function Unref(c: Cache, id: nat): Cache
    requires id in c.heap && c.heap[id].refs > 0
  {
    var h := c.heap[id].(refs := c.heap[id].refs - 1);
    if h.refs == 0 then
      c.(heap := c.heap - {id}, held := c.held - {id}, deleted := c.deleted + [id])
    else
      var moved := h.inCache && h.refs == 1;
      c.(heap := c.heap[id := h],
         inUse := if moved then Without(c.inUse, id) else c.inUse,
         lru := if moved then c.lru + [id] else c.lru)
  }

  /** Release: a client gives a handle back. */
  function GiveBack(c: Cache, id: nat): Cache
    requires id in c.heap && id in c.held && c.heap[id].refs > 0 && c.held[id] > 0
  {
    Unref(c.(held := c.held[id := c.held[id] - 1]), id)
  }

  /** FinishErase: the cache drops a handle that is no longer in the table. */
  function Drop(c: Cache, id: nat): Cache
    requires id in c.heap && c.heap[id].refs > 0 && c.usage >= c.heap[id].charge
  {
    Unref(c.(lru := Without(c.lru, id), inUse := Without(c.inUse, id), usage := c.usage - c.heap[id].charge,
             heap := c.heap[id := c.heap[id].(inCache := false)]), id)
  }

  lemma {:induction false} WithoutAbsent(s: seq<nat>, x: nat)
    requires x !in s
    ensures Without(s, x) == s
    decreases |s|
  {
    if s != [] {
      assert s == s[..|s| - 1] + [s[|s| - 1]];
      WithoutAbsent(s[..|s| - 1], x);
    }
  }

  lemma RefKeepsUsage(c: Cache, id: nat)
    requires CoreOk(c) && id in c.heap
    ensures UsageOk(Ref(c, id))
  {
    var h, c' := c.heap[id], Ref(c, id);
    SumSame(c.heap, c'.heap, c.lru);
    SumSame(c.heap, c'.heap, c.inUse);
    if h.refs == 1 && h.inCache {
      SumWithout(c'.heap, c.lru, id);
      SumAppend(c'.heap, c.inUse, id);
    }
  }

  lemma RefKeeps(c: Cache, m: Index, id: nat)
    requires CoreOk(c) && IndexOk(c.heap, m, None) && id in c.heap
    ensures CoreOk(Ref(c, id)) && IndexOk(Ref(c, id).heap, m, None)
  {
    IndexStays(c.heap, m, None, Ref(c, id).heap, None);
    RefKeepsUsage(c, id);
    RefKeepsRefs(c, id);
    RefKeepsLists(c, id);
  }

  lemma RefKeepsRefs(c: Cache, id: nat)
    requires RefsOk(c) && DeletedOk(c) && id in c.heap
    ensures RefsOk(Ref(c, id)) && DeletedOk(Ref(c, id))
  {
  }

  lemma RefKeepsLists(c: Cache, id: nat)
    requires RefsOk(c) && ListsOk(c) && id in c.heap
    ensures ListsOk(Ref(c, id))
  {
    var h := c.heap[id];
    WithoutIs(c.lru, id);
    if h.refs == 1 && h.inCache { AppendNew(c.inUse, id); }
  }

  lemma ReleaseKeepsUsage(c: Cache, id: nat)
    requires CoreOk(c) && id in c.heap && c.held[id] > 0
    ensures UsageOk(GiveBack(c, id))
  {
    var h, c' := c.heap[id], GiveBack(c, id);
    SumSame(c.heap, c'.heap, c.lru);
    if h.refs == 2 && h.inCache {
      WithoutIs(c.inUse, id);
      SumWithout(c.heap, c.inUse, id);
      SumSame(c.heap, c'.heap, Without(c.inUse, id));
      SumAppend(c'.heap, c.lru, id);
    } else {
      SumSame(c.heap, c'.heap, c.inUse);
    }
  }

  lemma ReleaseKeeps(c: Cache, m: Index, id: nat)
    requires CoreOk(c) && IndexOk(c.heap, m, None) && id in c.heap && c.held[id] > 0
    ensures CoreOk(GiveBack(c, id)) && IndexOk(GiveBack(c, id).heap, m, None)
  {
    IndexStays(c.heap, m, None, GiveBack(c, id).heap, None);
    ReleaseKeepsUsage(c, id);
    ReleaseKeepsRefs(c, id);
    ReleaseKeepsLists(c, id);
  }

  lemma ReleaseKeepsRefs(c: Cache, id: nat)
    requires RefsOk(c) && DeletedOk(c) && id in c.heap && c.held[id] > 0
    ensures RefsOk(GiveBack(c, id)) && DeletedOk(GiveBack(c, id))
  {
    if c.heap[id].refs == 1 { AppendNew(c.deleted, id); }
  }

  lemma ReleaseKeepsLists(c: Cache, id: nat)
    requires RefsOk(c) && ListsOk(c) && id in c.heap && c.held[id] > 0
    ensures ListsOk(GiveBack(c, id))
  {
    var h := c.heap[id];
    WithoutIs(c.inUse, id);
    if h.refs == 2 && h.inCache { AppendNew(c.lru, id); }
  }

  lemma SumsWithout(c: Cache, id: nat)
    requires CoreOk(c) && id in c.heap && c.heap[id].inCache
    ensures Sum(c.heap, Without(c.lru, id)) + Sum(c.heap, Without(c.inUse, id)) + c.heap[id].charge == c.usage
  {
    if c.heap[id].refs == 1 {
      SumWithout(c.heap, c.lru, id);
      WithoutAbsent(c.inUse, id);
    } else {
      SumWithout(c.heap, c.inUse, id);
      WithoutAbsent(c.lru, id);
    }
  }

  lemma DropKeepsUsage(c: Cache, id: nat)
    requires CoreOk(c) && id in c.heap && c.heap[id].inCache
    ensures c.usage >= c.heap[id].charge && UsageOk(Drop(c, id))
  {
    SumsWithout(c, id);
    WithoutIs(c.lru, id);
    WithoutIs(c.inUse, id);
    var c' := Drop(c, id);
    SumSame(c.heap, c'.heap, Without(c.lru, id));
    SumSame(c.heap, c'.heap, Without(c.inUse, id));
  }

  lemma DropKeeps(c: Cache, m: Index, id: nat)
    requires CoreOk(c) && IndexOk(c.heap, m, Some(id)) && id in c.heap && c.heap[id].inCache
    ensures c.usage >= c.heap[id].charge && CoreOk(Drop(c, id)) && IndexOk(Drop(c, id).heap, m, None)
  {
    DropKeepsUsage(c, id);
    IndexStays(c.heap, m, Some(id), Drop(c, id).heap, None);
    DropKeepsRefs(c, id);
    DropKeepsLists(c, id);
  }

  lemma DropKeepsRefs(c: Cache, id: nat)
    requires RefsOk(c) && DeletedOk(c) && id in c.heap && c.heap[id].inCache && c.usage >= c.heap[id].charge
    ensures RefsOk(Drop(c, id)) && DeletedOk(Drop(c, id))
  {
    if c.heap[id].refs == 1 { AppendNew(c.deleted, id); }
  }

  lemma DropKeepsLists(c: Cache, id: nat)
    requires RefsOk(c) && ListsOk(c) && id in c.heap && c.heap[id].inCache && c.usage >= c.heap[id].charge
    ensures ListsOk(Drop(c, id))
  {
    WithoutIs(c.lru, id);
    WithoutIs(c.inUse, id);
  }

  // ---------------------------------------------------------------- inserting

  /** The new handle, on in_use with two references, or outside the cache with one. */
  function Create(c: Cache, key: Key, hash: nat, charge: nat, cached: bool): Cache {
    c.(heap := c.heap[c.next := Handle(key, hash, charge, cached, if cached then 2 else 1)],
       held := c.held[c.next := 1],
       next := c.next + 1,
       inUse := if cached then c.inUse + [c.next] else c.inUse,
       usage := if cached then c.usage + charge else c.usage)
  }

  predicate IsNew(h: Handle, key: Key, hash: nat, charge: nat, cached: bool) {
    h == Handle(key, hash, charge, cached, if cached then 2 else 1)
  }

  lemma CreateKeepsUsage(c: Cache, key: Key, hash: nat, charge: nat, cached: bool)
    requires CoreOk(c)
    ensures UsageOk(Create(c, key, hash, charge, cached))
  {
    var c' := Create(c, key, hash, charge, cached);
    SumSame(c.heap, c'.heap, c.lru);
    SumSame(c.heap, c'.heap, c.inUse);
    if cached { SumAppend(c'.heap, c.inUse, c.next); }
  }

  lemma CreateKeepsLists(c: Cache, key: Key, hash: nat, charge: nat, cached: bool)
    requires CoreOk(c)
    ensures RefsOk(Create(c, key, hash, charge, cached)) && ListsOk(Create(c, key, hash, charge, cached))
    ensures DeletedOk(Create(c, key, hash, charge, cached)) && c.next !in c.heap
  {
    AppendNew(c.inUse, c.next);
  }

  lemma CreateKeeps(c: Cache, key: Key, hash: nat, charge: nat, cached: bool)
    requires CoreOk(c)
    ensures CoreOk(Create(c, key, hash, charge, cached)) && c.next !in c.heap
  {
    CreateKeepsUsage(c, key, hash, charge, cached);
    CreateKeepsLists(c, key, hash, charge, cached);
  }

  /** What the table's Insert does to the index. */
  lemma CreateKeepsIndex(c: Cache, m: Index, key: Key, hash: nat, charge: nat)
    requires c.next !in c.heap && IndexOk(c.heap, m, None)
    ensures IndexOk(Create(c, key, hash, charge, true).heap, m[(key, hash) := c.next], if (key, hash) in m then Some(m[(key, hash)]) else None)
  {
    var heap', m', slot := Create(c, key, hash, charge, true).heap, m[(key, hash) := c.next], (key, hash);
    var gone := if slot in m then Some(m[slot]) else None;
    assert slot in m ==> Points(c.heap, m, slot);
    forall s | s in m' ensures Points(heap', m', s) && gone != Some(m'[s]) {
      if s != slot { assert Points(c.heap, m, s); }
    }
    forall id | id in heap' && heap'[id].inCache && gone != Some(id) ensures Tabled(heap', m', id) {
      if id != c.next { assert Tabled(c.heap, m, id); }
    }
  }

  lemma RemoveKeepsIndex(heap: Heap, m: Index, s: (Key, nat))
    requires IndexOk(heap, m, None) && s in m
    ensures IndexOk(heap, m - {s}, Some(m[s])) && m[s] in heap && heap[m[s]].inCache
  {
    assert Points(heap, m, s);
    forall t | t in m - {s} ensures Points(heap, m - {s}, t) && m[t] != m[s] { assert Points(heap, m, t); }
    forall id | id in heap && heap[id].inCache && id != m[s] ensures Tabled(heap, m - {s}, id) { assert Tabled(heap, m, id); }
  }

  ghost predicate IsEmpty(c: Cache) {
    |c.lru| == 0 && |c.inUse| == 0 && |c.deleted| == 0 && |c.heap| == 0 && c.next == 0 && c.usage == 0
  }

  method NewCache() returns (c: Cache)
    ensures CoreOk(c) && IsEmpty(c)
  {
    c := Cache(0, [], [], map[], [], 0, map[]);
  }

  lemma EmptyIndex(heap: Heap, m: Index)
    requires |heap| == 0 && |m| == 0
    ensures IndexOk(heap, m, None)
  {
  }

  // ---------------------------------------------------------------- evicting

  /** Drop, on any handle. */
  function Discard(c: Cache, id: nat): Cache {
    if id in c.heap && c.heap[id].refs > 0 && c.usage >= c.heap[id].charge then Drop(c, id) else c
  }

  /** The cache after Insert, before it evicts: the new handle is in, and a handle it replaces in the
      table is dropped. */
  function Inserted(c: Cache, m: Index, key: Key, hash: nat, charge: nat, cached: bool): Cache {
    var c' := Create(c, key, hash, charge, cached);
    if cached && (key, hash) in m then Discard(c', m[(key, hash)]) else c'
  }

  predicate Replaceable(c: Cache, id: nat) {
    id in c.heap && c.heap[id].inCache
  }

  lemma CreateReplaces(c: Cache, m: Index, key: Key, hash: nat, charge: nat)
    requires c.next !in c.heap && IndexOk(c.heap, m, None)
    ensures var created := Create(c, key, hash, charge, true);
            && IndexOk(created.heap, m[(key, hash) := c.next], if (key, hash) in m then Some(m[(key, hash)]) else None)
            && ((key, hash) in m ==> Replaceable(created, m[(key, hash)]))
  {
    CreateKeepsIndex(c, m, key, hash, charge);
    assert (key, hash) in m ==> Points(c.heap, m, (key, hash));
  }

  lemma DiscardSpares(c: Cache, gone: nat, id: nat)
    requires id != gone && id in c.heap && id in c.held
    ensures var d := Discard(c, gone);
            d.next == c.next && id in d.heap && d.heap[id] == c.heap[id] && id in d.held && d.held[id] == c.held[id]
  {
  }

  lemma NewIsHeld(c: Cache, m: Index, key: Key, hash: nat, charge: nat, cached: bool)
    requires CoreOk(c) && ((key, hash) in m ==> m[(key, hash)] in c.heap)
    ensures var c', id := Inserted(c, m, key, hash, charge, cached), c.next;
            c'.next == id + 1 && Held(c', id) && c'.held[id] == 1 && IsNew(c'.heap[id], key, hash, charge, cached)
  {
    if cached && (key, hash) in m { DiscardSpares(Create(c, key, hash, charge, cached), m[(key, hash)], c.next); }
  }

  /** The charges left when the first `k` of lru are gone. */
  ghost function Left(c: Cache, k: nat): nat
    requires k <= |c.lru|
  {
    Sum(c.heap, c.lru[k..]) + Sum(c.heap, c.inUse)
  }

  /** The `k` oldest unused handles are freed, and nothing else changes. */
  ghost predicate Freed(a: Cache, b: Cache, k: nat) {
    && k <= |a.lru| && b.lru == a.lru[k..] && b.inUse == a.inUse && b.deleted == a.deleted + a.lru[..k] && b.next == a.next
    && (forall id :: id in b.heap <==> id in a.heap && id !in a.lru[..k])
    && (forall id :: id in b.heap ==> b.heap[id] == a.heap[id])
    && (forall id :: id in b.held <==> id in a.held && id !in a.lru[..k])
    && (forall id :: id in b.held ==> b.held[id] == a.held[id])
  }

  /** Eviction: oldest first, until within the limit or out of unused handles, and no further. */
  ghost predicate Evicted(a: Cache, b: Cache, k: nat, limit: nat) {
    Evicting(a, b, k, limit) && (b.usage <= limit || k == |a.lru|)
  }

  lemma {:induction false} WithoutHead(s: seq<nat>)
    requires s != [] && NoRepeats(s)
    ensures Without(s, s[0]) == s[1..]
    decreases |s|
  {
    if |s| > 1 {
      var t := s[..|s| - 1];
      assert t[0] == s[0] && s == t + [s[|s| - 1]];
      WithoutHead(t);
      assert t[1..] + [s[|s| - 1]] == s[1..];
    }
  }

  lemma DropOldest(c: Cache)
    requires CoreOk(c) && c.lru != []
    ensures c.lru[0] in c.heap && c.heap[c.lru[0]].refs == 1 && c.heap[c.lru[0]].inCache && c.usage >= c.heap[c.lru[0]].charge
    ensures Freed(c, Drop(c, c.lru[0]), 1)
  {
    var id := c.lru[0];
    assert id in c.lru;
    WithoutHead(c.lru);
    WithoutAbsent(c.inUse, id);
    DropKeepsUsage(c, id);
    assert c.lru[..1] == [id];
  }

  lemma FreedMore(a: Cache, b: Cache, d: Cache, k: nat)
    requires Freed(a, b, k) && k < |a.lru| && Freed(b, d, 1)
    ensures Freed(a, d, k + 1)
  {
    assert b.lru[..1] == [a.lru[k]] && a.lru[..k + 1] == a.lru[..k] + [a.lru[k]];
  }

  lemma LeftIsUsage(a: Cache, b: Cache, k: nat)
    requires CoreOk(a) && CoreOk(b) && Freed(a, b, k)
    ensures b.usage == Left(a, k)
  {
    SumSame(a.heap, b.heap, b.lru);
    SumSame(a.heap, b.heap, b.inUse);
  }

  /** Eviction that has not overshot. */
  ghost predicate Evicting(a: Cache, b: Cache, k: nat, limit: nat) {
    Freed(a, b, k) && (k > 0 ==> Left(a, k - 1) > limit)
  }

  lemma EvictMore(a: Cache, b: Cache, d: Cache, k: nat, limit: nat)
    requires CoreOk(a) && CoreOk(b) && Evicting(a, b, k, limit) && b.usage > limit && b.lru != [] && Freed(b, d, 1)
    ensures Evicting(a, d, k + 1, limit)
  {
    LeftIsUsage(a, b, k);
    FreedMore(a, b, d, k);
  }

  // ---------------------------------------------------------------- what the calls do, field by field

  /** `b` is `a` without `x`, in the same order. */
  ghost predicate Removed(a: seq<nat>, b: seq<nat>, x: nat) {
    if x in a then exists k :: 0 <= k < |a| && a[k] == x && b == a[..k] + a[k + 1..] else b == a
  }

  lemma RemovedLater(t: seq<nat>, u: seq<nat>, x: nat, last: nat)
    requires Removed(t, u, x) && last != x
    ensures Removed(t + [last], u + [last], x)
  {
    if x in t {
      var k :| 0 <= k < |t| && t[k] == x && u == t[..k] + t[k + 1..];
      var s := t + [last];
      assert s[k] == x && u + [last] == s[..k] + s[k + 1..];
    }
  }

  lemma {:induction false} WithoutRemoves(s: seq<nat>, x: nat)
    ensures Removed(s, Without(s, x), x)
    decreases |s|
  {
    if s != [] {
      var t, last := s[..|s| - 1], s[|s| - 1];
      assert s == t + [last];
      if last == x {
        assert s[|t|] == x && t == s[..|t|] + s[|t| + 1..];
      } else {
        WithoutRemoves(t, x);
        RemovedLater(t, Without(t, x), x, last);
      }
    }
  }

  /** Maps that differ at one handle alone. */
  ghost predicate OnlyAt<T>(a: map<nat, T>, b: map<nat, T>, id: nat) {
    a.Keys == b.Keys && forall x :: x in a && x != id ==> b[x] == a[x]
  }

  /** A client gives a handle back: one reference less. Without any left the handle is freed and its
      deleter runs; left to the cache alone it becomes the newest of the unused ones. */
  ghost predicate Released(a: Cache, b: Cache, id: nat)
    requires id in a.heap && id in a.held
  {
    var h := a.heap[id];
    && b.usage == a.usage && b.next == a.next
    && if h.refs == 1 then
         && b.heap == a.heap - {id} && b.held == a.held - {id} && b.deleted == a.deleted + [id]
         && b.lru == a.lru && b.inUse == a.inUse
       else
         && OnlyAt(a.heap, b.heap, id) && b.heap[id] == h.(refs := b.heap[id].refs) && b.heap[id].refs + 1 == h.refs
         && OnlyAt(a.held, b.held, id) && b.held[id] + 1 == a.held[id]
         && b.deleted == a.deleted
         && if h.inCache && h.refs == 2 then b.lru == a.lru + [id] && Removed(a.inUse, b.inUse, id) else b.lru == a.lru && b.inUse == a.inUse
  }

  /** A client takes a handle: one reference more, and off the unused ones. */
  ghost predicate Taken(a: Cache, b: Cache, id: nat)
    requires id in a.heap && id in a.held
  {
    var h := a.heap[id];
    && b.usage == a.usage && b.next == a.next && b.deleted == a.deleted
    && OnlyAt(a.heap, b.heap, id) && b.heap[id] == h.(refs := h.refs + 1)
    && OnlyAt(a.held, b.held, id) && b.held[id] == a.held[id] + 1
    && if h.inCache && h.refs == 1 then Removed(a.lru, b.lru, id) && b.inUse == a.inUse + [id] else b.lru == a.lru && b.inUse == a.inUse
  }

  /** The cache lets go of a handle: off its list and the usage, and freed if no client holds it. */
  ghost predicate Dropped(a: Cache, b: Cache, id: nat)
    requires id in a.heap
  {
    var h := a.heap[id];
    && b.usage == a.usage - h.charge && b.next == a.next && Removed(a.lru, b.lru, id) && Removed(a.inUse, b.inUse, id)
    && if h.refs == 1 then b.heap == a.heap - {id} && b.held == a.held - {id} && b.deleted == a.deleted + [id]
       else
         && OnlyAt(a.heap, b.heap, id) && b.heap[id] == h.(inCache := false, refs := b.heap[id].refs) && b.heap[id].refs + 1 == h.refs
         && b.held == a.held && b.deleted == a.deleted
  }

  lemma RefTakes(c: Cache, id: nat)
    requires RefsOk(c) && id in c.heap
    ensures Taken(c, Ref(c, id), id)
  {
    WithoutRemoves(c.lru, id);
  }

  lemma DropKeepsTime(c: Cache, id: nat, times: map<nat, nat>, clock: nat)
    requires id in c.heap && c.heap[id].refs > 0 && c.usage >= c.heap[id].charge && ByTime(c.lru, times, clock)
    ensures ByTime(Drop(c, id).lru, times, clock)
  {
    WithoutRemoves(c.lru, id);
    RemovedByTime(c.lru, Without(c.lru, id), id, times, clock);
  }

  lemma RefKeepsTime(c: Cache, id: nat, times: map<nat, nat>, clock: nat)
    requires id in c.heap && id in c.held && ByTime(c.lru, times, clock)
    ensures ByTime(Ref(c, id).lru, times, clock)
  {
    WithoutRemoves(c.lru, id);
    RemovedByTime(c.lru, Without(c.lru, id), id, times, clock);
  }

  lemma ReleaseKeepsTime(c: Cache, id: nat, times: map<nat, nat>, clock: nat)
    requires RefsOk(c) && ListsOk(c) && id in c.heap && c.held[id] > 0 && ByTime(c.lru, times, clock)
    ensures ByTime(GiveBack(c, id).lru, times[id := clock], clock + 1)
  {
    NewestByTime(c.lru, id, times, clock);
  }

  lemma ReleaseDone(c: Cache, m: Index, id: nat, times: map<nat, nat>, clock: nat)
    requires CoreOk(c) && IndexOk(c.heap, m, None) && id in c.heap && c.held[id] > 0 && ByTime(c.lru, times, clock)
    ensures var d := GiveBack(c, id);
            CoreOk(d) && IndexOk(d.heap, m, None) && ByTime(d.lru, times[id := clock], clock + 1) && Released(c, d, id)
  {
    ReleaseKeeps(c, m, id);
    GiveBackReleases(c, id);
    ReleaseKeepsTime(c, id, times, clock);
  }

  lemma GiveBackReleases(c: Cache, id: nat)
    requires RefsOk(c) && id in c.heap && c.held[id] > 0
    ensures Released(c, GiveBack(c, id), id)
  {
    WithoutRemoves(c.inUse, id);
    var h := c.held[id := c.held[id] - 1];
    assert h - {id} == c.held - {id};
  }

  lemma DropsLists(c: Cache, id: nat)
    requires id in c.heap && c.heap[id].refs > 0 && c.usage >= c.heap[id].charge
    ensures var d := Drop(c, id);
            d.usage == c.usage - c.heap[id].charge && d.next == c.next && Removed(c.lru, d.lru, id) && Removed(c.inUse, d.inUse, id)
  {
    WithoutRemoves(c.lru, id);
    WithoutRemoves(c.inUse, id);
  }

  lemma DropsHandle(c: Cache, id: nat)
    requires id in c.heap && c.heap[id].refs > 0 && c.usage >= c.heap[id].charge
    ensures var d, h := Drop(c, id), c.heap[id];
            if h.refs == 1 then d.heap == c.heap - {id} && d.held == c.held - {id} && d.deleted == c.deleted + [id]
            else OnlyAt(c.heap, d.heap, id) && d.heap[id] == h.(inCache := false, refs := h.refs - 1) && d.held == c.held && d.deleted == c.deleted
  {
    var h := c.heap[id := c.heap[id].(inCache := false)];
    assert h - {id} == c.heap - {id};
  }

  lemma DropDrops(c: Cache, id: nat)
    requires id in c.heap && c.heap[id].refs > 0 && c.usage >= c.heap[id].charge
    ensures Dropped(c, Drop(c, id), id)
  {
    DropsLists(c, id);
    DropsHandle(c, id);
  }

  // ---------------------------------------------------------------- least recently used

  /** The unused handles stand in the order in which they were last given back. */
  ghost predicate ByTime(lru: seq<nat>, times: map<nat, nat>, clock: nat) {
    && (forall x :: x in lru ==> x in times && times[x] < clock)
    && forall i, j :: 0 <= i < j < |lru| ==> times[lru[i]] < times[lru[j]]
  }

  lemma CutByTime(a: seq<nat>, k: nat, times: map<nat, nat>, clock: nat)
    requires ByTime(a, times, clock) && k < |a|
    ensures ByTime(a[..k] + a[k + 1..], times, clock)
  {
    var b := a[..k] + a[k + 1..];
    forall i | 0 <= i < |b| ensures b[i] in a && b[i] == if i < k then a[i] else a[i + 1] {}
    forall i, j | 0 <= i < j < |b| ensures times[b[i]] < times[b[j]] {
      var i', j' := if i < k then i else i + 1, if j < k then j else j + 1;
      assert b[i] == a[i'] && b[j] == a[j'];
    }
  }

  lemma RemovedByTime(a: seq<nat>, b: seq<nat>, x: nat, times: map<nat, nat>, clock: nat)
    requires ByTime(a, times, clock) && Removed(a, b, x)
    ensures ByTime(b, times, clock)
  {
    if x in a {
      var k :| 0 <= k < |a| && a[k] == x && b == a[..k] + a[k + 1..];
      CutByTime(a, k, times, clock);
    }
  }

  /** The handle given back now is the newest. */
  lemma NewestByTime(lru: seq<nat>, x: nat, times: map<nat, nat>, clock: nat)
    requires ByTime(lru, times, clock) && x !in lru
    ensures ByTime(lru, times[x := clock], clock + 1) && ByTime(lru + [x], times[x := clock], clock + 1)
  {
    assert forall i :: 0 <= i < |lru| ==> lru[i] in lru;
  }

  /** Of two unused handles the one given back earlier is freed first. */
  lemma FreedByTime(a: Cache, b: Cache, k: nat, times: map<nat, nat>, clock: nat, x: nat, y: nat)
    requires CoreOk(a) && Freed(a, b, k) && ByTime(a.lru, times, clock)
    requires x in a.lru && y in a.lru && times[x] < times[y] && y !in b.heap
    ensures x !in b.heap
  {
    var i :| 0 <= i < |a.lru| && a.lru[i] == x;
    var j :| 0 <= j < |a.lru| && a.lru[j] == y;
    assert i < j;
    assert y in a.lru[..k];
    var m :| 0 <= m < k && a.lru[m] == y;
    assert a.lru[..k][i] == x;
  }

  /** When one of two unused handles went and the other did not, the one that went had been given back
      earlier, unless it is the one excepted. */
  ghost predicate EvictsByTime(a: Cache, b: Cache, times: map<nat, nat>, except: Option<nat>) {
    forall x, y :: x in a.lru && y in a.lru && x in times && y in times && times[x] < times[y] && x in b.heap && y !in b.heap ==> except == Some(y)
  }

  lemma EvictionIsByTime(a: Cache, b: Cache, k: nat, times: map<nat, nat>, clock: nat)
    requires CoreOk(a) && Freed(a, b, k) && ByTime(a.lru, times, clock)
    ensures EvictsByTime(a, b, times, None)
  {
    forall x, y | x in a.lru && y in a.lru && times[x] < times[y] && y !in b.heap ensures x !in b.heap {
      FreedByTime(a, b, k, times, clock, x, y);
    }
  }

  lemma RemovedMembers(a: seq<nat>, b: seq<nat>, x: nat, y: nat)
    requires Removed(a, b, x) && y in a && y != x
    ensures y in b
  {
    if x in a {
      var k :| 0 <= k < |a| && a[k] == x && b == a[..k] + a[k + 1..];
      var i :| 0 <= i < |a| && a[i] == y;
      assert b[if i < k then i else i - 1] == y;
    }
  }

  /** A new handle replaces the one excepted, if any, and eviction follows. */
  lemma ReplacingByTime(a: Cache, mid: Cache, b: Cache, k: nat, times: map<nat, nat>, clock: nat, gone: Option<nat>)
    requires CoreOk(mid) && Freed(mid, b, k) && ByTime(a.lru, times, clock)
    requires gone.None? ==> mid.lru == a.lru
    requires gone.Some? ==> Removed(a.lru, mid.lru, gone.value) && (gone.value in a.lru ==> gone.value !in mid.heap)
    ensures EvictsByTime(a, b, times, gone)
  {
    if gone.Some? { RemovedByTime(a.lru, mid.lru, gone.value, times, clock); }
    forall x, y | x in a.lru && y in a.lru && times[x] < times[y] && x in b.heap && y !in b.heap ensures gone == Some(y) {
      if gone != Some(y) {
        if gone.Some? {
          RemovedMembers(a.lru, mid.lru, gone.value, x);
          RemovedMembers(a.lru, mid.lru, gone.value, y);
        }
        FreedByTime(mid, b, k, times, clock, x, y);
      }
    }
  }

  function Indexed(m: Index, key: Key, hash: nat): Option<nat> {
    if (key, hash) in m then Some(m[(key, hash)]) else None
  }

  lemma DroppedUnused(c: Cache, d: Cache, id: nat)
    requires RefsOk(c) && ListsOk(c) && id in c.heap && Dropped(c, d, id)
    ensures Removed(c.lru, d.lru, id) && (id in c.lru ==> id !in d.heap)
  {
  }

  lemma InsertedByDrop(c: Cache, m: Index, key: Key, hash: nat, charge: nat, id: nat)
    requires (key, hash) in m && m[(key, hash)] == id
    requires var d := Create(c, key, hash, charge, true); id in d.heap && d.heap[id].refs > 0 && d.usage >= d.heap[id].charge
    ensures Inserted(c, m, key, hash, charge, true) == Drop(Create(c, key, hash, charge, true), id)
  {
  }

  /** What Insert does to the unused handles before it evicts. */
  lemma InsertedUnused(c: Cache, m: Index, key: Key, hash: nat, charge: nat, cached: bool)
    requires CoreOk(c) && CoreOk(Create(c, key, hash, charge, cached)) && ((key, hash) in m ==> Replaceable(c, m[(key, hash)]))
    ensures var d, gone := Inserted(c, m, key, hash, charge, cached), if cached then Indexed(m, key, hash) else None;
            && (gone.None? ==> d.lru == c.lru)
            && (gone.Some? ==> Removed(c.lru, d.lru, gone.value) && (gone.value in c.lru ==> gone.value !in d.heap))
  {
    if cached && (key, hash) in m {
      var id, created := m[(key, hash)], Create(c, key, hash, charge, cached);
      DropKeepsUsage(created, id);
      DropDrops(created, id);
      InsertedByDrop(c, m, key, hash, charge, id);
      DroppedUnused(created, Drop(created, id), id);
    }
  }

  lemma NewIsFound(heap: Heap, m: Index, id: nat, key: Key, hash: nat, charge: nat)
    requires IndexOk(heap, m, None) && id in heap && IsNew(heap[id], key, hash, charge, true)
    ensures (key, hash) in m && m[(key, hash)] == id
  {
    assert Tabled(heap, m, id);
  }

  lemma InsertReady(c: Cache, m: Index, key: Key, hash: nat, charge: nat, cached: bool)
    requires CoreOk(c) && IndexOk(c.heap, m, None)
    ensures CoreOk(Create(c, key, hash, charge, cached)) && ((key, hash) in m ==> Replaceable(c, m[(key, hash)]))
  {
    CreateKeeps(c, key, hash, charge, cached);
    assert (key, hash) in m ==> Points(c.heap, m, (key, hash));
  }

  /** Insert as a whole: the new handle is held, and what was evicted for it was given back earlier
      than what was not. */
  lemma InsertDone(a: Cache, m: Index, key: Key, hash: nat, charge: nat, cached: bool, b: Cache, k: nat, times: map<nat, nat>, clock: nat)
    requires CoreOk(a) && CoreOk(Create(a, key, hash, charge, cached)) && ((key, hash) in m ==> Replaceable(a, m[(key, hash)]))
    requires CoreOk(Inserted(a, m, key, hash, charge, cached)) && Freed(Inserted(a, m, key, hash, charge, cached), b, k)
    requires ByTime(a.lru, times, clock)
    ensures Held(b, a.next) && b.held[a.next] == 1 && IsNew(b.heap[a.next], key, hash, charge, cached)
    ensures EvictsByTime(a, b, times, Indexed(m, key, hash))
  {
    var mid := Inserted(a, m, key, hash, charge, cached);
    NewIsHeld(a, m, key, hash, charge, cached);
    HeldIsNotEvicted(mid, b, k, a.next);
    InsertedUnused(a, m, key, hash, charge, cached);
    ReplacingByTime(a, mid, b, k, times, clock, if cached then Indexed(m, key, hash) else None);
  }

  // ---------------------------------------------------------------- the class

  class LRUCache {
    const capacity: nat
    const table: Table
    var c: Cache
    ghost var times: map<nat, nat>   // when each handle was last given back
    ghost var clock: nat

    ghost predicate Ok()
      reads this, table
    {
      table.Valid() && CoreOk(c) && IndexOk(c.heap, table.m, None) && ByTime(c.lru, times, clock)
    }

    constructor (capacity: nat, table: Table)
      requires table.Valid() && |table.m| == 0
      ensures Ok() && this.table == table && this.capacity == capacity && IsEmpty(c)
    {
      var e := NewCache();
      EmptyIndex(e.heap, table.m);
      this.capacity, this.table, c := capacity, table, e;
      times, clock := map[], 0;
    }

    method Lookup(key: Key, hash: nat) returns (r: Option<nat>)
      requires Ok()
      modifies this`c, table
      ensures Ok() && table.m == old(table.m)
      ensures r == if (key, hash) in table.m then Some(table.m[(key, hash)]) else None
      ensures r.Some? ==> r.value in old(c).heap && r.value in old(c).held && Taken(old(c), c, r.value)
      ensures r.None? ==> c == old(c)
    {
      r := table.Lookup(key, hash);
      if r.Some? {
        assert Points(c.heap, table.m, (key, hash));
        RefKeeps(c, table.m, r.value);
        RefTakes(c, r.value);
        RefKeepsTime(c, r.value, times, clock);
        c := Ref(c, r.value);
      }
    }

    method Release(id: nat)
      requires Ok() && id in c.held && c.held[id] > 0
      modifies this
      ensures Ok() && table.m == old(table.m) && Released(old(c), c, id)
      ensures times == old(times)[id := old(clock)] && clock == old(clock) + 1
    {
      ReleaseDone(c, table.m, id, times, clock);
      c := GiveBack(c, id);
      times, clock := times[id := clock], clock + 1;
    }

    /** FinishErase: the handle has already been taken out of the table. */
    method FinishErase(id: nat)
      requires table.Valid() && CoreOk(c) && IndexOk(c.heap, table.m, Some(id)) && id in c.heap && c.heap[id].inCache
      requires ByTime(c.lru, times, clock)
      modifies this`c
      ensures Ok() && old(c).heap[id].refs > 0 && old(c).usage >= old(c).heap[id].charge && c == Drop(old(c), id)
    {
      DropKeeps(c, table.m, id);
      DropKeepsTime(c, id, times, clock);
      c := Drop(c, id);
    }

    /** Take a key out of the table and, if it was there, drop its handle. */
    method RemoveKey(key: Key, hash: nat) returns (erased: bool)
      requires Ok()
      modifies this`c, table
      ensures Ok() && table.m == old(table.m) - {(key, hash)} && erased == ((key, hash) in old(table.m))
      ensures erased ==> var id := old(table.m)[(key, hash)];
                         && id in old(c).heap && old(c).heap[id].refs > 0 && old(c).usage >= old(c).heap[id].charge
                         && c == Drop(old(c), id)
      ensures !erased ==> c == old(c)
    {
      ghost var m := table.m;
      var r := table.Remove(key, hash);
      erased := r.Some?;
      assert r.None? ==> m - {(key, hash)} == m;
      if r.Some? {
        RemoveKeepsIndex(c.heap, m, (key, hash));
        FinishErase(r.value);
      }
    }

    method Erase(key: Key, hash: nat)
      requires Ok()
      modifies this`c, table
      ensures Ok() && table.m == old(table.m) - {(key, hash)}
      ensures if (key, hash) in old(table.m)
              then old(table.m)[(key, hash)] in old(c).heap && Dropped(old(c), c, old(table.m)[(key, hash)])
              else c == old(c)
    {
      var erased := RemoveKey(key, hash);
      if erased { DropDrops(old(c), old(table.m)[(key, hash)]); }
    }

    /** Drop the oldest unused handle. */
    method EvictOldest()
      requires Ok() && c.lru != []
      modifies this`c, table
      ensures Ok() && Freed(old(c), c, 1)
    {
      var id := c.lru[0];
      DropOldest(c);
      assert Tabled(c.heap, table.m, id);
      var _ := RemoveKey(c.heap[id].key, c.heap[id].hash);
    }

    /** Evict until within capacity, or until every cached handle is in use. */
    method Evict(limit: nat) returns (ghost k: nat)
      requires Ok()
      modifies this`c, table
      ensures Ok() && Evicted(old(c), c, k, limit)
      ensures EvictsByTime(old(c), c, times, None)
    {
      k := 0;
      while c.usage > limit && c.lru != []
        invariant Ok() && Evicting(old(c), c, k, limit)
        decreases |c.lru|
      {
        ghost var before := c;
        EvictOldest();
        EvictMore(old(c), before, c, k, limit);
        k := k + 1;
      }
      EvictionIsByTime(old(c), c, k, times, clock);
    }

    method Prune()
      requires Ok()
      modifies this`c, table
      ensures Ok() && c.lru == [] && Freed(old(c), c, old(|c.lru|))
    {
      ghost var k := 0;
      while c.lru != []
        invariant Ok() && Freed(old(c), c, k)
        decreases |c.lru|
      {
        ghost var before := c;
        EvictOldest();
        FreedMore(old(c), before, c, k);
        k := k + 1;
      }
    }

    /** Insert: the handle returned is held; an older one under the same key is dropped; and the
        cache ends within capacity or with nothing left to evict, having evicted no more than that
        takes, oldest first. */
    method Insert(key: Key, hash: nat, charge: nat) returns (id: nat, ghost k: nat)
      requires Ok()
      modifies this`c, table
      ensures Ok() && Evicted(Inserted(old(c), old(table.m), key, hash, charge, capacity > 0), c, k, capacity)
      ensures id == old(c.next) && Held(c, id) && c.held[id] == 1 && IsNew(c.heap[id], key, hash, charge, capacity > 0)
      ensures capacity > 0 ==> (key, hash) in table.m && table.m[(key, hash)] == id
      ensures EvictsByTime(old(c), c, times, old(Indexed(table.m, key, hash)))
    {
      InsertReady(c, table.m, key, hash, charge, capacity > 0);
      ghost var m := table.m;
      id := c.next;
      k := AddAndEvict(key, hash, charge);
      InsertDone(old(c), m, key, hash, charge, capacity > 0, c, k, times, clock);
      if capacity > 0 { NewIsFound(c.heap, table.m, id, key, hash, charge); }
    }

    method AddAndEvict(key: Key, hash: nat, charge: nat) returns (ghost k: nat)
      requires Ok()
      modifies this`c, table
      ensures Ok() && CoreOk(Inserted(old(c), old(table.m), key, hash, charge, capacity > 0))
      ensures Evicted(Inserted(old(c), old(table.m), key, hash, charge, capacity > 0), c, k, capacity)
    {
      Add(key, hash, charge);
      k := Evict(capacity);
    }

    /** The first half of Insert. */
    method Add(key: Key, hash: nat, charge: nat)
      requires Ok()
      modifies this`c, table
      ensures Ok() && c == Inserted(old(c), old(table.m), key, hash, charge, capacity > 0)
    {
      CreateKeeps(c, key, hash, charge, capacity > 0);
      if capacity > 0 {
        AddCached(key, hash, charge);
      } else {
        // caching is turned off
        IndexStays(c.heap, table.m, None, Create(c, key, hash, charge, false).heap, None);
        c := Create(c, key, hash, charge, false);
      }
    }

    method AddCached(key: Key, hash: nat, charge: nat)
      requires Ok() && CoreOk(Create(c, key, hash, charge, true)) && c.next !in c.heap
      modifies this`c, table
      ensures Ok() && c == Inserted(old(c), old(table.m), key, hash, charge, true)
    {
      CreateReplaces(c, table.m, key, hash, charge);
      ghost var m := table.m;
      var r := Enter(key, hash, charge);
      if r.Some? {
        FinishErase(r.value);
        InsertedByDrop(old(c), m, key, hash, charge, r.value);
      }
    }

    /** The new handle goes on in_use and into the table, which returns the one it replaces. */
    method Enter(key: Key, hash: nat, charge: nat) returns (r: Option<nat>)
      requires Ok()
      modifies this`c, table
      ensures table.Valid() && c == Create(old(c), key, hash, charge, true)
      ensures table.m == old(table.m)[(key, hash) := old(c.next)] && r == Indexed(old(table.m), key, hash)
    {
      var node := Node(c.next, key, hash);
      c := Create(c, key, hash, charge, true);
      r := table.Insert(node);
    }
  }

  lemma HeldIsNotEvicted(a: Cache, b: Cache, k: nat, id: nat)
    requires CoreOk(a) && Freed(a, b, k) && Held(a, id)
    ensures Held(b, id) && b.held[id] == a.held[id] && b.heap[id] == a.heap[id]
  {
    assert id !in a.lru;
  }
}
