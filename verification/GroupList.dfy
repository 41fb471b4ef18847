/** The persistent node list of one partition: groupManager.cc. Persistent memory is a map from the
    offset of an allocated node to the offset in its `next`; offset zero is the null object. */
module GroupList {

  type Memory = map<nat, nat>

  /** The root object and the memory. */
  datatype List = List(memory: Memory, head: nat, tail: nat, count: nat)

  // ---------------------------------------------------------------- following next

  /** At most `n` nodes from `x` on. */
  function Walk(m: Memory, x: nat, n: nat): seq<nat>
    decreases n
  {
    if n == 0 then [] else if x in m then [x] + Walk(m, m[x], n - 1) else [x]
  }

  function Chain(s: List): seq<nat> {
    Walk(s.memory, s.head, s.count)
  }

  ghost predicate Distinct(c: seq<nat>) {
    forall i, j :: 0 <= i < j < |c| ==> c[i] != c[j]
  }

  /** The chain of `count` nodes from head has no cycle and only allocated nodes, and ends at tail
      with a null next; nodes off the chain are unlinked. */
  ghost predicate Valid(s: List) {
    var c := Chain(s);
    && 0 !in s.memory && s.count > 0 && |c| == s.count
    && Distinct(c) && (forall x :: x in c ==> x in s.memory)
    && c[|c| - 1] == s.tail && s.memory[s.tail] == 0
    && forall x :: x in s.memory && x !in c ==> s.memory[x] == 0
  }

  ghost predicate IsPath(m: Memory, c: seq<nat>) {
    forall k :: 0 <= k < |c| - 1 ==> c[k] in m && m[c[k]] == c[k + 1]
  }

  lemma {:induction false} WalkIsPath(m: Memory, x: nat, n: nat)
    ensures IsPath(m, Walk(m, x, n)) && (n > 0 ==> |Walk(m, x, n)| > 0 && Walk(m, x, n)[0] == x) && |Walk(m, x, n)| <= n
    decreases n
  {
    if n > 0 && x in m { WalkIsPath(m, m[x], n - 1); }
  }

  /** A path is how the walk begins. */
  lemma {:induction false} PathIsWalk(m: Memory, c: seq<nat>, n: nat)
    requires 0 < |c| <= n && IsPath(m, c)
    ensures |Walk(m, c[0], n)| >= |c| && Walk(m, c[0], n)[..|c|] == c
    decreases n
  {
    if |c| > 1 {
      var rest := c[1..];
      forall k | 0 <= k < |rest| - 1
        ensures rest[k] in m && m[rest[k]] == rest[k + 1]
      {
        assert rest[k] == c[k + 1] && rest[k + 1] == c[(k + 1) + 1];
      }
      PathIsWalk(m, rest, n - 1);
      assert m[c[0]] == rest[0];
      assert c == [c[0]] + rest;
    }
  }

  // ---------------------------------------------------------------- the operations

  /** check_list_exist. */
  predicate Exists(s: List) {
    s.count != 0 && s.head != 0 && s.tail != 0
  }

  function Appended(s: List, node: nat): List
    requires s.tail in s.memory
  {
    List(s.memory[s.tail := node], s.head, node, s.count + 1)
  }

  function Without(m: Memory, x: nat): Memory {
    map y | y in m && y != x :: m[y]
  }

  function Deleted(s: List, prev: nat, node: nat): List
    requires prev in s.memory && node in s.memory && s.count > 0
  {
    List(Without(s.memory[prev := s.memory[node]], node), s.head, if node == s.tail then prev else s.tail, s.count - 1)
  }

  /** A node that can be appended: allocated, unlinked. */
  ghost predicate Fresh(s: List, node: nat) {
    node in s.memory && node !in Chain(s)
  }

  /** `prev` is on the chain, and `node` comes next. */
  ghost predicate Precedes(s: List, prev: nat, node: nat) {
    prev in Chain(s) && prev in s.memory && s.memory[prev] == node
  }

  // ---------------------------------------------------------------- appending

  lemma AppendedChain(s: List, node: nat)
    requires Valid(s)
    ensures Chain(Appended(s, node)) == Chain(s) + [node]
  {
    var c, t := Chain(s), Appended(s, node);
    WalkIsPath(s.memory, s.head, s.count);
    var d := c + [node];
    forall k | 0 <= k < |d| - 1
      ensures d[k] in t.memory && t.memory[d[k]] == d[k + 1]
    {
      assert d[k] == c[k] && c[k] in c;
      if k < |c| - 1 { assert c[k] != c[|c| - 1]; }
    }
    PathIsWalk(t.memory, d, t.count);
    WalkIsPath(t.memory, s.head, t.count);
  }

  /** add_node_to_tail keeps the list well formed exactly when its argument is a fresh node. */
  lemma AppendKeeps(s: List, node: nat)
    requires Valid(s)
    ensures Valid(Appended(s, node)) <==> Fresh(s, node)
  {
    var c, t := Chain(s), Appended(s, node);
    AppendedChain(s, node);
    var d := c + [node];
    assert s.tail in c;
    assert forall x :: x in d <==> x in c || x == node;
    assert d[|c|] == node && forall i :: 0 <= i < |c| ==> d[i] == c[i];
    if Fresh(s, node) {
      assert Valid(t);
    }
  }

  // ---------------------------------------------------------------- deleting

  lemma DeletedChain(s: List, prev: nat, node: nat, i: nat)
    requires Valid(s) && i + 1 < |Chain(s)| && Chain(s)[i] == prev && Chain(s)[i + 1] == node
    ensures prev in s.memory && node in s.memory
    ensures Chain(Deleted(s, prev, node)) == Chain(s)[..i + 1] + Chain(s)[i + 2..]
  {
    var c := Chain(s);
    WalkIsPath(s.memory, s.head, s.count);
    assert prev in c && node in c;
    var t := Deleted(s, prev, node);
    var d := c[..i + 1] + c[i + 2..];
    forall k | 0 <= k < |d| - 1
      ensures d[k] in t.memory && t.memory[d[k]] == d[k + 1]
    {
      var j := if k <= i then k else k + 1;
      assert d[k] == c[j] && c[j] in c && c[j] != node;
      if k == i {
        assert d[k + 1] == c[i + 2] && s.memory[node] == c[i + 2];
      } else {
        assert c[j] != prev && d[k + 1] == c[j + 1];
      }
    }
    PathIsWalk(t.memory, d, t.count);
    WalkIsPath(t.memory, s.head, t.count);
  }

  lemma RemovedAt(c: seq<nat>, d: seq<nat>, i: nat)
    requires Distinct(c) && i + 1 < |c| && d == c[..i + 1] + c[i + 2..]
    ensures Distinct(d) && |d| == |c| - 1 && d[|d| - 1] == if i + 2 == |c| then c[i] else c[|c| - 1]
    ensures forall x :: x in d <==> x in c && x != c[i + 1]
  {
    forall x | x in c && x != c[i + 1]
      ensures x in d
    {
      var k :| 0 <= k < |c| && c[k] == x;
      assert d[if k <= i then k else k - 1] == x;
    }
    forall x | x in d
      ensures x in c && x != c[i + 1]
    {
      var k :| 0 <= k < |d| && d[k] == x;
      assert x == c[if k <= i then k else k + 1];
    }
  }

  lemma DeleteForward(s: List, prev: nat, node: nat, i: nat)
    requires Valid(s) && i + 1 < |Chain(s)| && Chain(s)[i] == prev && Chain(s)[i + 1] == node
    requires prev in s.memory && node in s.memory
    ensures Valid(Deleted(s, prev, node))
  {
    var c, t := Chain(s), Deleted(s, prev, node);
    DeletedChain(s, prev, node, i);
    var d := Chain(t);
    RemovedAt(c, d, i);
    WalkIsPath(s.memory, s.head, s.count);
    assert node == s.tail <==> i + 2 == |c|;
    assert prev in c && prev in d && s.tail in c;
  }

  /** How the chain begins after a deletion: up to `prev`, or all but its last node. */
  lemma DeletedBegins(s: List, prev: nat, node: nat, k: nat)
    requires Valid(s) && prev in s.memory && node in s.memory && 0 < k < s.count
    requires forall j :: 0 <= j < k - 1 ==> Chain(s)[j] != prev && Chain(s)[j] != node
    ensures |Chain(Deleted(s, prev, node))| >= k && Chain(Deleted(s, prev, node))[..k] == Chain(s)[..k]
  {
    var c, t := Chain(s), Deleted(s, prev, node);
    WalkIsPath(s.memory, s.head, s.count);
    var p := c[..k];
    forall j | 0 <= j < |p| - 1
      ensures p[j] in t.memory && t.memory[p[j]] == p[j + 1]
    {
      assert c[j] in c && c[j] != prev && c[j] != node;
    }
    PathIsWalk(t.memory, p, t.count);
  }

  /** Deleting a node that is off the chain. */
  lemma DeleteUnlinked(s: List, prev: nat, node: nat, f: nat)
    requires Valid(s) && prev in s.memory && node in s.memory && f + 2 < s.count
    requires Chain(s)[f] == prev && node !in Chain(s)
    ensures !Valid(Deleted(s, prev, node))
  {
    var c, t := Chain(s), Deleted(s, prev, node);
    WalkIsPath(s.memory, s.head, s.count);
    var p := c[..f + 1] + [0];
    forall k | 0 <= k < |p| - 1
      ensures p[k] in t.memory && t.memory[p[k]] == p[k + 1]
    {
      assert p[k] == c[k] && c[k] in c;
    }
    PathIsWalk(t.memory, p, t.count);
    assert Chain(t)[f + 1] == 0;
  }

  lemma DeleteUnlinkedLast(s: List, prev: nat, node: nat, f: nat)
    requires Valid(s) && prev in s.memory && node in s.memory && f + 2 == s.count
    requires Chain(s)[f] == prev && node !in Chain(s)
    ensures !Valid(Deleted(s, prev, node))
  {
    var c, t := Chain(s), Deleted(s, prev, node);
    assert forall j :: 0 <= j < |c| ==> c[j] in c;
    DeletedBegins(s, prev, node, f + 1);
    WalkIsPath(t.memory, s.head, t.count);
    assert s.tail in c;
  }

  /** Deleting with a wrong predecessor that is met first, before the last node. */
  lemma DeleteTooFar(s: List, prev: nat, node: nat, f: nat)
    requires Valid(s) && prev in s.memory && node in s.memory && f + 1 < s.count
    requires Chain(s)[f] == prev && prev != node && Chain(s)[f + 1] != node
    requires forall j :: 0 <= j < f ==> Chain(s)[j] != node
    ensures !Valid(Deleted(s, prev, node))
  {
    var c := Chain(s);
    if node in c {
      var j :| 0 <= j < |c| && c[j] == node;
      assert f + 1 < j;
      CutEndsEarly(s, prev, node, f, j);
    } else if f + 2 < s.count {
      DeleteUnlinked(s, prev, node, f);
    } else {
      DeleteUnlinkedLast(s, prev, node, f);
    }
  }

  /** The nodes left by cutting out those after `f` up to `j`, with the null that ends them. */
  ghost function Cut(c: seq<nat>, f: nat, j: nat): (p: seq<nat>)
    requires f < j < |c|
    ensures |p| == |c| - (j - f) + 1 && p[|p| - 1] == 0
    ensures forall k :: 0 <= k < |p| - 1 ==> p[k] == c[if k <= f then k else k + j - f]
  {
    c[..f + 1] + c[j + 1..] + [0]
  }

  lemma CutIsPath(s: List, prev: nat, node: nat, f: nat, j: nat, k: nat)
    requires Valid(s) && prev in s.memory && node in s.memory && f + 1 < j < s.count
    requires Chain(s)[f] == prev && Chain(s)[j] == node && k < s.count - (j - f)
    ensures var p, m := Cut(Chain(s), f, j), Deleted(s, prev, node).memory; p[k] in m && m[p[k]] == p[k + 1]
  {
    var c, p := Chain(s), Cut(Chain(s), f, j);
    WalkIsPath(s.memory, s.head, s.count);
    var i := if k <= f then k else k + j - f;
    assert p[k] == c[i] && c[i] in c && c[i] != node;
    var next := if k < f then k + 1 else k + 1 + j - f;
    assert p[k + 1] == if next < |c| then c[next] else 0;
    if k == f {
      assert s.memory[node] == if next < |c| then c[next] else 0;
    } else {
      assert c[i] != prev && s.memory[c[i]] == if next < |c| then c[next] else 0;
    }
  }

  lemma CutEndsEarly(s: List, prev: nat, node: nat, f: nat, j: nat)
    requires Valid(s) && prev in s.memory && node in s.memory && f + 1 < j < s.count
    requires Chain(s)[f] == prev && Chain(s)[j] == node
    ensures !Valid(Deleted(s, prev, node))
  {
    var c, t := Chain(s), Deleted(s, prev, node);
    var p := Cut(c, f, j);
    forall k | 0 <= k < |p| - 1
      ensures p[k] in t.memory && t.memory[p[k]] == p[k + 1]
    {
      CutIsPath(s, prev, node, f, j, k);
    }
    WalkIsPath(s.memory, s.head, s.count);
    PathIsWalk(t.memory, p, t.count);
    assert Chain(t)[|p| - 1] == 0;
  }

  /** Neither argument is met before the last node. */
  lemma DeleteTooLate(s: List, prev: nat, node: nat)
    requires Valid(s) && prev in s.memory && node in s.memory
    requires forall j :: 0 <= j < s.count - 1 ==> Chain(s)[j] != prev && Chain(s)[j] != node
    ensures !Valid(Deleted(s, prev, node))
  {
    var c, t := Chain(s), Deleted(s, prev, node);
    if s.count > 1 {
      DeletedBegins(s, prev, node, s.count - 1);
      WalkIsPath(t.memory, s.head, t.count);
      assert Chain(t)[s.count - 2] == c[s.count - 2];
    }
  }

  /** The first place where one of two nodes is met. */
  lemma FirstMet(c: seq<nat>, a: nat, b: nat) returns (f: nat)
    ensures f <= |c| && (f < |c| ==> c[f] == a || c[f] == b)
    ensures forall j :: 0 <= j < f ==> c[j] != a && c[j] != b
  {
    f := 0;
    while f < |c| && c[f] != a && c[f] != b
      invariant f <= |c| && forall j :: 0 <= j < f ==> c[j] != a && c[j] != b
    {
      f := f + 1;
    }
  }

  lemma DeleteBackward(s: List, prev: nat, node: nat)
    requires Valid(s) && prev in s.memory && node in s.memory && !Precedes(s, prev, node)
    ensures !Valid(Deleted(s, prev, node))
  {
    var c, t := Chain(s), Deleted(s, prev, node);
    WalkIsPath(s.memory, s.head, s.count);
    var f := FirstMet(c, prev, node);
    if f + 1 >= s.count {
      DeleteTooLate(s, prev, node);
    } else if c[f] == node {
      DeletedBegins(s, prev, node, f + 1);
      assert Chain(t)[..f + 1][f] == node;
      assert node in Chain(t) && node !in t.memory;
    } else {
      DeleteTooFar(s, prev, node, f);
    }
  }

  /** delete_node_from_list keeps the list well formed exactly when it is given a node of the chain
      and its immediate predecessor. */
  lemma DeleteKeeps(s: List, prev: nat, node: nat)
    requires Valid(s) && prev in s.memory && node in s.memory
    ensures Valid(Deleted(s, prev, node)) <==> Precedes(s, prev, node)
  {
    var c := Chain(s);
    if Precedes(s, prev, node) {
      WalkIsPath(s.memory, s.head, s.count);
      var i :| 0 <= i < |c| && c[i] == prev;
      DeleteForward(s, prev, node, i);
    } else {
      DeleteBackward(s, prev, node);
    }
  }

  // ---------------------------------------------------------------- runs

  /** A node taken from the allocator: its constructor stores a null next. */
  function Allocated(s: List, node: nat): List {
    s.(memory := s.memory[node := 0])
  }

  lemma AllocatedChain(s: List, node: nat)
    requires Valid(s) && node !in s.memory
    ensures Chain(Allocated(s, node)) == Chain(s)
  {
    var c, t := Chain(s), Allocated(s, node);
    WalkIsPath(s.memory, s.head, s.count);
    forall k | 0 <= k < |c| - 1
      ensures c[k] in t.memory && t.memory[c[k]] == c[k + 1]
    {
      assert c[k] in c;
    }
    PathIsWalk(t.memory, c, t.count);
    WalkIsPath(t.memory, s.head, t.count);
  }

  lemma AllocateKeeps(s: List, node: nat)
    requires Valid(s) && node != 0 && node !in s.memory
    ensures Valid(Allocated(s, node)) && Chain(Allocated(s, node)) == Chain(s) && Fresh(Allocated(s, node), node)
  {
    AllocatedChain(s, node);
    assert s.tail in Chain(s);
  }

  /** A node given back to the allocator. */
  function Freed(s: List, node: nat): List {
    s.(memory := Without(s.memory, node))
  }

  /** Off the chain, a node can be freed without a trace. */
  lemma FreedChain(s: List, node: nat)
    requires Valid(s) && node !in Chain(s)
    ensures Chain(Freed(s, node)) == Chain(s)
  {
    var c, t := Chain(s), Freed(s, node);
    WalkIsPath(s.memory, s.head, s.count);
    forall k | 0 <= k < |c| - 1
      ensures c[k] in t.memory && t.memory[c[k]] == c[k + 1]
    {
      assert c[k] in c;
    }
    PathIsWalk(t.memory, c, t.count);
    WalkIsPath(t.memory, s.head, t.count);
  }

  /** On the chain, the walk still comes to it. */
  lemma FreedIsMet(s: List, node: nat, i: nat)
    requires Valid(s) && i < |Chain(s)| && Chain(s)[i] == node
    ensures node in Chain(Freed(s, node))
  {
    var c, t := Chain(s), Freed(s, node);
    WalkIsPath(s.memory, s.head, s.count);
    var p := c[..i + 1];
    forall k | 0 <= k < |p| - 1
      ensures p[k] in t.memory && t.memory[p[k]] == p[k + 1]
    {
      assert c[k] in c && c[k] != c[i];
    }
    PathIsWalk(t.memory, p, t.count);
    assert Chain(t)[..i + 1][i] == node;
  }

  /** free_node keeps the list well formed exactly when the node is off the chain. */
  lemma FreeKeeps(s: List, node: nat)
    requires Valid(s)
    ensures Valid(Freed(s, node)) <==> node !in Chain(s)
  {
    var t := Freed(s, node);
    if node in Chain(s) {
      var i :| 0 <= i < |Chain(s)| && Chain(s)[i] == node;
      FreedIsMet(s, node, i);
      assert node !in t.memory;
    } else {
      FreedChain(s, node);
      assert s.tail in Chain(s);
    }
  }

  /** The list the constructor builds in a pool that holds none. */
  function Created(memory: Memory, node: nat): List {
    List(memory[node := 0], node, node, 1)
  }

  lemma CreatedIsValid(memory: Memory, node: nat)
    requires node != 0 && 0 !in memory && forall x :: x in memory ==> memory[x] == 0
    ensures Valid(Created(memory, node)) && Chain(Created(memory, node)) == [node]
  {
    assert Walk(memory[node := 0], node, 1) == [node];
  }

  datatype Op = Allocate(node: nat) | Free(node: nat) | Append(node: nat) | Delete(prev: nat, node: nat)

  /** What callers keep to: the allocator hands out unused offsets, only fresh nodes are appended or
      freed, and a deletion names the immediate predecessor. */
  ghost predicate Legal(s: List, op: Op) {
    match op
    case Allocate(node) => node != 0 && node !in s.memory
    case Free(node) => Fresh(s, node)
    case Append(node) => Fresh(s, node)
    case Delete(prev, node) => Precedes(s, prev, node) && node != 0
  }

  lemma LinkIsAllocated(s: List, prev: nat, node: nat)
    requires Valid(s) && Precedes(s, prev, node) && node != 0
    ensures prev in s.memory && node in s.memory
  {
    var c := Chain(s);
    WalkIsPath(s.memory, s.head, s.count);
    var i :| 0 <= i < |c| && c[i] == prev;
    assert i + 1 < |c| && c[i + 1] in c;
  }

  ghost function Step(s: List, op: Op): List
    requires Valid(s) && Legal(s, op)
  {
    match op
    case Allocate(node) => Allocated(s, node)
    case Free(node) => Freed(s, node)
    case Append(node) => TailIsAllocated(s); Appended(s, node)
    case Delete(prev, node) => LinkIsAllocated(s, prev, node); Deleted(s, prev, node)
  }

  lemma TailIsAllocated(s: List)
    requires Valid(s)
    ensures s.tail in s.memory
  {
    assert s.tail in Chain(s);
  }

  /** The chain as a list: appending adds at the end, deleting removes one node, and nothing else
      moves. */
  ghost function Effect(c: seq<nat>, op: Op): seq<nat> {
    match op
    case Allocate(_) => c
    case Free(_) => c
    case Append(node) => c + [node]
    case Delete(_, node) => Remove(c, node)
  }

  function Remove(c: seq<nat>, x: nat): seq<nat> {
    if c == [] then [] else if c[0] == x then c[1..] else [c[0]] + Remove(c[1..], x)
  }

  lemma {:induction false} RemoveAt(c: seq<nat>, i: nat)
    requires Distinct(c) && i < |c|
    ensures Remove(c, c[i]) == c[..i] + c[i + 1..]
  {
    if i > 0 {
      var t := c[1..];
      assert c[0] != c[i] && t[i - 1] == c[i] && Distinct(t);
      RemoveAt(t, i - 1);
      assert t[i..] == c[i + 1..] && [c[0]] + t[..i - 1] == c[..i];
      assert [c[0]] + (t[..i - 1] + t[i..]) == c[..i] + c[i + 1..];
    }
  }

  /** Every step keeps the list well formed and does to the chain what the call says. */
  lemma StepKeeps(s: List, op: Op)
    requires Valid(s) && Legal(s, op)
    ensures Valid(Step(s, op)) && Chain(Step(s, op)) == Effect(Chain(s), op)
  {
    match op
    case Allocate(node) => AllocateKeeps(s, node);
    case Free(node) =>
      FreeKeeps(s, node);
      FreedChain(s, node);
    case Append(node) =>
      AppendKeeps(s, node);
      AppendedChain(s, node);
    case Delete(prev, node) =>
      LinkIsAllocated(s, prev, node);
      DeleteKeeps(s, prev, node);
      var c := Chain(s);
      WalkIsPath(s.memory, s.head, s.count);
      var i :| 0 <= i < |c| && c[i] == prev;
      DeletedChain(s, prev, node, i);
      RemoveAt(c, i + 1);
  }

  /** The states of a run. */
  ghost predicate IsRun(states: seq<List>, ops: seq<Op>) {
    && |states| == |ops| + 1
    && forall i :: 0 <= i < |ops| ==> Steps(states[i], ops[i], states[i + 1])
  }

  ghost predicate Steps(s: List, op: Op, t: List) {
    Valid(s) ==> Legal(s, op) && t == Step(s, op)
  }

  ghost function Effects(c: seq<nat>, ops: seq<Op>): seq<nat> {
    if ops == [] then c else Effect(Effects(c, ops[..|ops| - 1]), ops[|ops| - 1])
  }

  /** From the constructor's one-node list, every run keeps the chain from head acyclic, ending at
      tail with a null next, of length node_count, over allocated nodes alone; and its nodes are
      those appended and not deleted, in order. */
  lemma {:induction false} RunKeeps(memory: Memory, node: nat, states: seq<List>, ops: seq<Op>, n: nat)
    requires node != 0 && 0 !in memory && forall x :: x in memory ==> memory[x] == 0
    requires IsRun(states, ops) && states[0] == Created(memory, node) && n <= |ops|
    ensures Valid(states[n]) && Chain(states[n]) == Effects([node], ops[..n])
    decreases n
  {
    if n == 0 {
      CreatedIsValid(memory, node);
    } else {
      RunKeeps(memory, node, states, ops, n - 1);
      assert ops[..n][..n - 1] == ops[..n - 1];
      assert Steps(states[n - 1], ops[n - 1], states[n - 1 + 1]);
      StepKeeps(states[n - 1], ops[n - 1]);
    }
  }

  lemma FreedStaysFree(s: List, op: Op, node: nat)
    requires Valid(s) && Legal(s, op) && node !in s.memory && op != Allocate(node)
    ensures node !in Step(s, op).memory
  {
    TailIsAllocated(s);
  }

  lemma NotAmongFewer(ops: seq<Op>, i: nat, k: nat, op: Op)
    requires i < k <= |ops| && op !in ops[i..k]
    ensures op !in ops[i..k - 1] && ops[k - 1] != op
  {
    assert ops[i..k - 1] == ops[i..k][..k - 1 - i] && ops[i..k][k - 1 - i] == ops[k - 1];
  }

  /** A node freed, alone or by a deletion, is on no later chain until it is allocated again. */
  lemma {:induction false} FreedIsUnreachable(memory: Memory, first: nat, states: seq<List>, ops: seq<Op>, i: nat, k: nat)
    requires first != 0 && 0 !in memory && forall x :: x in memory ==> memory[x] == 0
    requires IsRun(states, ops) && states[0] == Created(memory, first) && i < k <= |ops|
    requires (ops[i].Delete? || ops[i].Free?) && Allocate(ops[i].node) !in ops[i..k]
    ensures ops[i].node !in states[k].memory && ops[i].node !in Chain(states[k])
    decreases k
  {
    RunKeeps(memory, first, states, ops, k);
    RunKeeps(memory, first, states, ops, k - 1);
    assert Steps(states[k - 1], ops[k - 1], states[k - 1 + 1]);
    NotAmongFewer(ops, i, k, Allocate(ops[i].node));
    if k - 1 > i {
      FreedIsUnreachable(memory, first, states, ops, i, k - 1);
      FreedStaysFree(states[k - 1], ops[k - 1], ops[i].node);
    }
  }

  // ---------------------------------------------------------------- Group

  class Group {
    var memory: Memory
    var head: nat
    var tail: nat
    var count: nat

    function Value(): List
      reads this
    {
      List(memory, head, tail, count)
    }

    /** A pool that holds a list is left as it is; otherwise a list of one node is built. `node` is
        the allocator's choice. */
    constructor (pool: List, node: nat)
      requires Valid(pool) || (!Exists(pool) && 0 !in pool.memory && forall x :: x in pool.memory ==> pool.memory[x] == 0)
      requires node != 0 && node !in pool.memory
      ensures Valid(Value())
      ensures Value() == if Exists(pool) then pool else Created(pool.memory, node)
      ensures !Exists(pool) ==> Chain(Value()) == [node]
    {
      if !Exists(pool) {
        memory, head, tail, count := pool.memory[node := 0], node, node, 1;
      } else {
        memory, head, tail, count := pool.memory, pool.head, pool.tail, pool.count;
      }
      new;
      if Valid(pool) { ValidExists(pool); } else { CreatedIsValid(pool.memory, node); }
    }

    /** alloc_node: zero stands for the allocator's failure, which is thrown. */
    method AllocNode(node: nat) returns (ok: bool)
      requires Valid(Value()) && node !in memory
      modifies this
      ensures ok <==> node != 0
      ensures Value() == if ok then Allocated(old(Value()), node) else old(Value())
      ensures Valid(Value()) && (ok ==> Fresh(Value(), node))
    {
      ok := node != 0;
      if ok {
        AllocateKeeps(Value(), node);
        memory := memory[node := 0];
      }
    }

    method AddNodeToTail(node: nat)
      requires Valid(Value())
      modifies this
      ensures Valid(old(Value())) && Value() == (TailIsAllocated(old(Value())); Appended(old(Value()), node))
      ensures Valid(Value()) <==> Fresh(old(Value()), node)
      ensures Chain(Value()) == old(Chain(Value())) + [node]
    {
      TailIsAllocated(Value());
      AppendKeeps(Value(), node);
      AppendedChain(Value(), node);
      memory := memory[tail := node];
      tail := node;
      count := count + 1;
    }

    /** free_node: a well-formed list stays so, with the same chain, exactly when the node is off it. */
    method FreeNode(node: nat)
      modifies this`memory
      ensures Value() == Freed(old(Value()), node)
      ensures old(Valid(Value())) ==> (Valid(Value()) <==> node !in old(Chain(Value())))
      ensures old(Valid(Value())) && Valid(Value()) ==> Chain(Value()) == old(Chain(Value()))
    {
      if Valid(Value()) {
        FreeKeeps(Value(), node);
        if node !in Chain(Value()) { FreedChain(Value(), node); }
      }
      memory := Without(memory, node);
    }

    method DeleteNodeFromList(prev: nat, node: nat)
      requires Valid(Value()) && prev in memory && node in memory
      modifies this
      ensures Value() == old(Deleted(Value(), prev, node))
      ensures Valid(Value()) <==> old(Precedes(Value(), prev, node))
      ensures Valid(Value()) ==> Chain(Value()) == Remove(old(Chain(Value())), node)
    {
      DeleteKeeps(Value(), prev, node);
      if Precedes(Value(), prev, node) { StepKeeps(Value(), Delete(prev, node)); }
      count := count - 1;
      memory := memory[prev := memory[node]];
      FreeNode(node);
      if node == tail { tail := prev; }
    }
  }

  lemma ValidExists(s: List)
    requires Valid(s)
    ensures Exists(s)
  {
    WalkIsPath(s.memory, s.head, s.count);
    assert s.tail in Chain(s) && s.head in Chain(s);
  }
}
