/** The hash table of the block cache: HandleTable in cache.cc, chained buckets with resizing. */
module HandleTable {
  import opened Files

  type Key = string

  /** A cache handle as the table sees it. */
  datatype Node = Node(id: nat, key: Key, hash: nat)

  function Slot(n: Node): (Key, nat) {
    (n.key, n.hash)
  }

  predicate IsPow2(n: nat) {
    n == 1 || (n > 1 && n % 2 == 0 && IsPow2(n / 2))
  }

  // ---------------------------------------------------------------- one chain

  /** No two nodes of a chain match the same key and hash. */
  ghost predicate Distinct(c: seq<Node>) {
    forall i, j :: 0 <= i < j < |c| ==> Slot(c[i]) != Slot(c[j])
  }

  /** FindPointer's walk: the place of the match, or the end of the chain. */
  method FindPlace(c: seq<Node>, key: Key, hash: nat) returns (i: nat)
    ensures i <= |c| && (i < |c| ==> Slot(c[i]) == (key, hash))
    ensures forall j :: 0 <= j < i ==> Slot(c[j]) != (key, hash)
  {
    i := 0;
    while i < |c| && (c[i].hash != hash || key != c[i].key)
      invariant i <= |c| && forall j :: 0 <= j < i ==> Slot(c[j]) != (key, hash)
    {
      i := i + 1;
    }
  }

  // ---------------------------------------------------------------- all chains

  type Buckets = seq<seq<Node>>

  ghost predicate ChainOk(b: Buckets, i: nat)
    requires i < |b|
  {
    Distinct(b[i]) && forall n :: n in b[i] ==> n.hash % |b| == i
  }

  ghost predicate BucketsOk(b: Buckets) {
    |b| > 0 && forall i :: 0 <= i < |b| ==> ChainOk(b, i)
  }

  ghost predicate In(b: Buckets, n: Node) {
    |b| > 0 && n in b[n.hash % |b|]
  }

  /** The table is the map `m`: the nodes in the chains are exactly its items. */
  ghost predicate Represents(b: Buckets, m: map<(Key, nat), nat>) {
    BucketsOk(b) && forall n :: In(b, n) <==> Slot(n) in m && m[Slot(n)] == n.id
  }

  /** A slot's match is in its own chain, if anywhere. */
  lemma Lookups(b: Buckets, m: map<(Key, nat), nat>, key: Key, hash: nat, i: nat)
    requires Represents(b, m) && i <= |b[hash % |b|]|
    requires i < |b[hash % |b|]| ==> Slot(b[hash % |b|][i]) == (key, hash)
    requires i == |b[hash % |b|]| ==> forall j :: 0 <= j < i ==> Slot(b[hash % |b|][j]) != (key, hash)
    ensures (key, hash) in m <==> i < |b[hash % |b|]|
    ensures i < |b[hash % |b|]| ==> m[(key, hash)] == b[hash % |b|][i].id
  {
    var c := b[hash % |b|];
    assert i < |c| ==> In(b, c[i]);
    assert (key, hash) in m ==> In(b, Node(m[(key, hash)], key, hash));
  }

  /** A chain with one node put in, replaced or taken out. */
  lemma ChainChanges(b: Buckets, m: map<(Key, nat), nat>, at: nat, c: seq<Node>, m': map<(Key, nat), nat>, slot: (Key, nat))
    requires Represents(b, m) && at == slot.1 % |b| && Distinct(c) && (forall n :: n in c ==> n.hash % |b| == at)
    requires forall n :: Slot(n) != slot ==> (n in c <==> n in b[at])
    requires forall n :: Slot(n) == slot ==> (n in c <==> slot in m' && m'[slot] == n.id)
    requires forall s :: s != slot ==> (s in m <==> s in m') && (s in m ==> m[s] == m'[s])
    ensures Represents(b[at := c], m')
  {
    var b' := b[at := c];
    forall i | 0 <= i < |b'| ensures ChainOk(b', i) { assert ChainOk(b, i); }
    forall n ensures In(b', n) <==> Slot(n) in m' && m'[Slot(n)] == n.id {
      assert In(b, n) <==> Slot(n) in m && m[Slot(n)] == n.id;
    }
  }

  // ---------------------------------------------------------------- resizing

  ghost predicate UniqueSlots(s: set<Node>) {
    forall a, b :: a in s && b in s && Slot(a) == Slot(b) ==> a == b
  }

  /** The chains hold exactly these nodes. */
  ghost predicate Holds(b: Buckets, s: set<Node>) {
    BucketsOk(b) && UniqueSlots(s) && forall n :: In(b, n) <==> n in s
  }

  /** One node moved to the front of its new chain. */
  lemma MoveOne(b: Buckets, s: set<Node>, n: Node)
    requires Holds(b, s) && UniqueSlots(s + {n}) && n !in s
    ensures Holds(b[n.hash % |b| := [n] + b[n.hash % |b|]], s + {n})
  {
    var at := n.hash % |b|;
    var c := [n] + b[at];
    var b' := b[at := c];
    assert ChainOk(b, at);
    forall x | x in b[at] ensures Slot(x) != Slot(n) { assert In(b, x); }
    forall i | 0 <= i < |b'| ensures ChainOk(b', i) { assert ChainOk(b, i); }
    forall x ensures In(b', x) <==> x in s + {n} { assert In(b, x) <==> x in s; }
  }

  /** The nodes of the first `i` chains, and of the next one up to `j`. */
  ghost function Nodes(b: Buckets, i: nat, j: nat): set<Node>
    requires i <= |b| && (i < |b| ==> j <= |b[i]|)
  {
    (set k, n | 0 <= k < i && n in b[k] :: n) + (if i < |b| then set n | n in b[i][..j] else {})
  }

  lemma NodeIn(b: Buckets, i: nat, j: nat, n: Node)
    requires BucketsOk(b) && i <= |b| && (i < |b| ==> j <= |b[i]|)
    ensures n in Nodes(b, i, j) <==> In(b, n) && (n.hash % |b| < i || (i < |b| && n.hash % |b| == i && n in b[i][..j]))
  {
    if n in Nodes(b, i, j) {
      if k :| 0 <= k < i && n in b[k] {
        assert ChainOk(b, k);
      } else {
        assert n in b[i][..j] && ChainOk(b, i);
      }
    }
  }

  lemma NodesStep(b: Buckets, i: nat, j: nat)
    requires BucketsOk(b) && i < |b| && j < |b[i]|
    ensures Nodes(b, i, j + 1) == Nodes(b, i, j) + {b[i][j]} && b[i][j] !in Nodes(b, i, j) && UniqueSlots(Nodes(b, i, j + 1))
  {
    assert b[i][..j + 1] == b[i][..j] + [b[i][j]];
    assert ChainOk(b, i);
    NodeIn(b, i, j, b[i][j]);
    forall n | n in Nodes(b, i, j + 1) ensures In(b, n) { NodeIn(b, i, j + 1, n); }
    OneNodeASlot(b);
  }

  lemma OneNodeASlot(b: Buckets)
    requires BucketsOk(b)
    ensures forall x, y :: In(b, x) && In(b, y) && Slot(x) == Slot(y) ==> x == y
  {
    forall x, y | In(b, x) && In(b, y) && Slot(x) == Slot(y) ensures x == y { assert ChainOk(b, x.hash % |b|); }
  }

  lemma NodesNext(b: Buckets, i: nat)
    requires i < |b|
    ensures Nodes(b, i, |b[i]|) == Nodes(b, i + 1, 0)
  {
    assert b[i][..|b[i]|] == b[i];
  }

  lemma NodesAll(b: Buckets)
    requires BucketsOk(b)
    ensures forall n :: n in Nodes(b, |b|, 0) <==> In(b, n)
  {
    forall n ensures n in Nodes(b, |b|, 0) <==> In(b, n) { NodeIn(b, |b|, 0, n); }
  }

  /** The rehashing loop: every node into its chain among `length` new ones. */
  method Rehash(b: Buckets, length: nat) returns (nb: Buckets)
    requires BucketsOk(b) && length > 0
    ensures |nb| == length && BucketsOk(nb) && forall n :: In(nb, n) <==> In(b, n)
  {
    nb := seq(length, _ => []);
    assert Nodes(b, 0, 0) == {};
    for i := 0 to |b|
      invariant |nb| == length && Holds(nb, Nodes(b, i, 0))
    {
      for j := 0 to |b[i]|
        invariant |nb| == length && Holds(nb, Nodes(b, i, j))
      {
        NodesStep(b, i, j);
        var n := b[i][j];
        MoveOne(nb, Nodes(b, i, j), n);
        nb := nb[n.hash % length := [n] + nb[n.hash % length]];
      }
      NodesNext(b, i);
    }
    NodesAll(b);
  }

  // ---------------------------------------------------------------- the table

  class Table {
    var buckets: Buckets
    var elems: nat
    ghost var m: map<(Key, nat), nat>

    ghost predicate Valid()
      reads this
    {
      Represents(buckets, m) && elems == |m| && IsPow2(|buckets|)
    }

    constructor ()
      ensures Valid() && m == map[]
    {
      buckets, elems, m := [[], [], [], []], 0, map[];
    }

    method Lookup(key: Key, hash: nat) returns (r: Option<nat>)
      requires Valid()
      ensures r == if (key, hash) in m then Some(m[(key, hash)]) else None
    {
      var c := buckets[hash % |buckets|];
      var i := FindPlace(c, key, hash);
      Lookups(buckets, m, key, hash, i);
      r := if i < |c| then Some(c[i].id) else None;
    }

    method Resize()
      requires Valid()
      modifies this`buckets
      ensures Valid() && |buckets| >= elems && |buckets| >= 4
    {
      var length := 4;
      while length < elems
        invariant length >= 4 && IsPow2(length)
        decreases elems - length
      {
        length := length * 2;
      }
      buckets := Rehash(buckets, length);
    }

    /** Insert: take the place of the match, or go to the end of the chain. */
    method Insert(n: Node) returns (r: Option<nat>)
      requires Valid()
      modifies this
      ensures Valid() && m == old(m)[Slot(n) := n.id]
      ensures r == if Slot(n) in old(m) then Some(old(m)[Slot(n)]) else None
    {
      var at := n.hash % |buckets|;
      var c := buckets[at];
      var i := FindPlace(c, n.key, n.hash);
      Lookups(buckets, m, n.key, n.hash, i);
      InsertChanges(buckets, m, n, i);
      buckets := buckets[at := if i < |c| then c[i := n] else c + [n]];
      m := m[Slot(n) := n.id];
      if i < |c| { return Some(c[i].id); }
      elems := elems + 1;
      if elems > |buckets| { Resize(); }
      r := None;
    }

    method Remove(key: Key, hash: nat) returns (r: Option<nat>)
      requires Valid()
      modifies this
      ensures Valid() && m == old(m) - {(key, hash)}
      ensures r == if (key, hash) in old(m) then Some(old(m)[(key, hash)]) else None
    {
      var at := hash % |buckets|;
      var c := buckets[at];
      var i := FindPlace(c, key, hash);
      Lookups(buckets, m, key, hash, i);
      if i == |c| {
        assert m - {(key, hash)} == m;
        return None;
      }
      RemoveChanges(buckets, m, c[i], i);
      MapShrinks(m, (key, hash));
      buckets := buckets[at := c[..i] + c[i + 1..]];
      m := m - {(key, hash)};
      elems := elems - 1;
      r := Some(c[i].id);
    }
  }

  lemma MapShrinks(m: map<(Key, nat), nat>, s: (Key, nat))
    requires s in m
    ensures |m - {s}| == |m| - 1
  {
    assert (m - {s})[s := m[s]] == m;
  }

  lemma InsertChanges(b: Buckets, m: map<(Key, nat), nat>, n: Node, i: nat)
    requires Represents(b, m) && i <= |b[n.hash % |b|]|
    requires forall j :: 0 <= j < i ==> Slot(b[n.hash % |b|][j]) != Slot(n)
    requires i < |b[n.hash % |b|]| ==> Slot(b[n.hash % |b|][i]) == Slot(n)
    ensures var at, c := n.hash % |b|, b[n.hash % |b|];
            Represents(b[at := if i < |c| then c[i := n] else c + [n]], m[Slot(n) := n.id])
  {
    var at, c := n.hash % |b|, b[n.hash % |b|];
    assert ChainOk(b, at);
    var c' := if i < |c| then c[i := n] else c + [n];
    forall x | Slot(x) != Slot(n) ensures x in c' <==> x in c {
      if k :| 0 <= k < |c| && c[k] == x { assert c'[k] == x; }
    }
    assert c'[i] == n;
    ChainChanges(b, m, at, c', m[Slot(n) := n.id], Slot(n));
  }

  lemma RemoveChanges(b: Buckets, m: map<(Key, nat), nat>, n: Node, i: nat)
    requires Represents(b, m) && i < |b[n.hash % |b|]| && b[n.hash % |b|][i] == n
    ensures var at, c := n.hash % |b|, b[n.hash % |b|]; Represents(b[at := c[..i] + c[i + 1..]], m - {Slot(n)})
  {
    var at, c := n.hash % |b|, b[n.hash % |b|];
    assert ChainOk(b, at);
    var c' := c[..i] + c[i + 1..];
    assert forall k :: 0 <= k < |c'| ==> c'[k] == if k < i then c[k] else c[k + 1];
    forall x | Slot(x) != Slot(n) ensures x in c' <==> x in c {
      if k :| 0 <= k < |c| && c[k] == x { assert c'[if k < i then k else k - 1] == x; }
    }
    ChainChanges(b, m, at, c', m - {Slot(n)}, Slot(n));
  }
}
