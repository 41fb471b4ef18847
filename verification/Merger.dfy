/** MergingIterator (merger.cc): a cursor over the sorted union of its children, in both
    directions and across direction switches. */
module Merger {
  import opened Keys

  /** Children are sorted, and no internal key occurs in two of them. */
  ghost predicate Mergeable(children: seq<seq<Entry>>) {
    && (forall i :: 0 <= i < |children| ==> Sorted(children[i]))
    && forall i, j, x, y :: 0 <= i < j < |children| && 0 <= x < |children[i]| && 0 <= y < |children[j]| ==>
         Before(children[i][x].key, children[j][y].key) || Before(children[j][y].key, children[i][x].key)
  }

  ghost function Union(children: seq<seq<Entry>>): set<Entry> {
    set c, e | c in children && e in c :: e
  }

  ghost function FromKey(children: seq<seq<Entry>>, key: IKey): set<Entry> {
    set e | e in Union(children) && !Less(e.key, key)
  }

  ghost function AfterKey(children: seq<seq<Entry>>, key: IKey): set<Entry> {
    set e | e in Union(children) && Before(key, e.key)
  }

  ghost function BeforeKey(children: seq<seq<Entry>>, key: IKey): set<Entry> {
    set e | e in Union(children) && Before(e.key, key)
  }

  /** Splits every child so that all that lies below comes before all that lies above. */
  ghost predicate Cut(children: seq<seq<Entry>>, pos: seq<int>) {
    && |pos| == |children|
    && (forall i :: 0 <= i < |children| ==> 0 <= pos[i] <= |children[i]|)
    && forall i, j, x, y :: 0 <= i < |children| && 0 <= j < |children| && 0 <= x < pos[i] && pos[j] <= y < |children[j]| ==>
         Before(children[i][x].key, children[j][y].key)
  }

  function Shift(pos: seq<int>): seq<int> {
    seq(|pos|, i requires 0 <= i < |pos| => pos[i] + 1)
  }

  predicate Valid(children: seq<seq<Entry>>, pos: seq<int>, i: int)
    requires |pos| == |children| && 0 <= i < |children|
  {
    0 <= pos[i] < |children[i]|
  }

  function HeadKey(children: seq<seq<Entry>>, pos: seq<int>, i: int): IKey
    requires |pos| == |children| && 0 <= i < |children| && Valid(children, pos, i)
  {
    children[i][pos[i]].key
  }

  /** The outcome of FindSmallest. */
  ghost predicate IsSmallest(children: seq<seq<Entry>>, pos: seq<int>, current: int)
    requires |pos| == |children|
  {
    && -1 <= current < |children| && (current >= 0 ==> Valid(children, pos, current))
    && forall i :: 0 <= i < |children| && Valid(children, pos, i) ==>
         current >= 0 && (i == current || Before(HeadKey(children, pos, current), HeadKey(children, pos, i)))
  }

  /** The outcome of FindLargest. */
  ghost predicate IsLargest(children: seq<seq<Entry>>, pos: seq<int>, current: int)
    requires |pos| == |children|
  {
    && -1 <= current < |children| && (current >= 0 ==> Valid(children, pos, current))
    && forall i :: 0 <= i < |children| && Valid(children, pos, i) ==>
         current >= 0 && (i == current || Before(HeadKey(children, pos, i), HeadKey(children, pos, current)))
  }

  class MergingIterator {
    const children: seq<seq<Entry>>
    var pos: seq<int>      // the position of each child; valid iff within bounds
    var current: int       // the current child, -1 for none
    var forward: bool

    /** Moving forward, current is the first entry above the cut; moving back, the last below. */
    ghost predicate Inv()
      reads this
    {
      && Mergeable(children) && |pos| == |children|
      && (forward ==> Cut(children, pos) && IsSmallest(children, pos, current))
      && (!forward ==> Cut(children, Shift(pos)) && IsLargest(children, pos, current))
    }

    /** The entry the cursor stands on. */
    ghost function At(): Entry
      reads this
      requires Inv() && current >= 0
    {
      children[current][pos[current]]
    }

    constructor (children: seq<seq<Entry>>)
      requires Mergeable(children)
      ensures this.children == children && |pos| == |children| && current == -1
    {
      this.children := children;
      pos := seq(|children|, _ => -1);
      current, forward := -1, true;
    }

    /** FindSmallest. */
    method FindSmallest()
      requires Mergeable(children) && |pos| == |children|
      modifies this`current
      ensures IsSmallest(children, pos, current)
    {
      var smallest := -1;
      for i := 0 to |children|
        invariant -1 <= smallest < i
        invariant smallest >= 0 ==> Valid(children, pos, smallest)
        invariant forall j :: 0 <= j < i && Valid(children, pos, j) ==>
                    smallest >= 0 && (j == smallest || Before(HeadKey(children, pos, smallest), HeadKey(children, pos, j)))
      {
        if Valid(children, pos, i) && (smallest < 0 || Less(HeadKey(children, pos, i), HeadKey(children, pos, smallest))) {
          smallest := i;
        }
      }
      current := smallest;
    }

    /** FindLargest. */
    method FindLargest()
      requires Mergeable(children) && |pos| == |children|
      modifies this`current
      ensures IsLargest(children, pos, current)
    {
      var largest := -1;
      for i := |children| downto 0
        invariant largest == -1 || i <= largest < |children|
        invariant largest >= 0 ==> Valid(children, pos, largest)
        invariant forall j :: i <= j < |children| && Valid(children, pos, j) ==>
                    largest >= 0 && (j == largest || Before(HeadKey(children, pos, j), HeadKey(children, pos, largest)))
      {
        if Valid(children, pos, i) && (largest < 0 || Less(HeadKey(children, pos, largest), HeadKey(children, pos, i))) {
          largest := i;
        }
      }
      current := largest;
    }

    /** SeekToFirst. */
    method SeekToFirst()
      requires Mergeable(children) && |pos| == |children|
      modifies this
      ensures Inv() && forward
      ensures current >= 0 ==> IsLeast(Union(children), At())
      ensures current < 0 ==> Union(children) == {}
    {
      pos := seq(|children|, _ => 0);
      FindSmallest();
      forward := true;
      LeastAbove(children, pos, current);
      assert Below(children, pos) == {};
    }

    /** SeekToLast. */
    method SeekToLast()
      requires Mergeable(children) && |pos| == |children|
      modifies this
      ensures Inv() && !forward
      ensures current >= 0 ==> IsGreatest(Union(children), At())
      ensures current < 0 ==> Union(children) == {}
    {
      pos := seq(|children|, i requires 0 <= i < |children| => |children[i]| - 1);
      FindLargest();
      forward := false;
      GreatestBelow(children, pos, current);
      AllBelow(children, Shift(pos));
    }

    /** Seek: the least entry at or after the target. */
    method Seek(target: IKey)
      requires Mergeable(children) && |pos| == |children|
      modifies this
      ensures Inv() && forward
      ensures current >= 0 ==> IsLeast(FromKey(children, target), At())
      ensures current < 0 ==> FromKey(children, target) == {}
    {
      for i := 0 to |children|
        invariant |pos| == |children|
        invariant forall j, x :: 0 <= j < i && 0 <= x < |children[j]| ==> (x < pos[j] <==> Less(children[j][x].key, target))
        invariant forall j :: 0 <= j < i ==> 0 <= pos[j] <= |children[j]|
      {
        var p := ChildSeek(children[i], target);
        pos := pos[i := p];
      }
      FindSmallest();
      forward := true;
      LeastAbove(children, pos, current);
      forall i, x | 0 <= i < |children| && 0 <= x < |children[i]| ensures children[i][x] in Union(children) { InUnion(children, i, x); }
      BelowIs(children, pos, Union(children) - FromKey(children, target));
    }

    /** Every child but the current one goes just past the current key. */
    method TurnForward()
      requires Inv() && current >= 0
      modifies this`pos, this`forward
      ensures forward && PastBut(children, pos, old(At()).key, current) && pos[current] == old(pos[current])
    {
      var key := children[current][pos[current]].key;
      if !forward {
        for i := 0 to |children|
          invariant |pos| == |children| && pos[current] == old(pos)[current]
          invariant forall j :: 0 <= j < i && j != current ==> IsPast(children[j], pos[j], key)
        {
          if i != current {
            var p := ChildSeek(children[i], key);
            if p < |children[i]| && !Less(key, children[i][p].key) { p := p + 1; }
            pos := pos[i := p];
          }
        }
        forward := true;
      } else {
        AboveIsAfter(children, pos, current);
      }
    }

    /** Every child but the current one goes just before the current key. */
    method TurnBackward()
      requires Inv() && current >= 0
      modifies this`pos, this`forward
      ensures !forward && AheadBut(children, pos, old(At()).key, current) && pos[current] == old(pos[current])
    {
      var key := children[current][pos[current]].key;
      if forward {
        for i := 0 to |children|
          invariant |pos| == |children| && pos[current] == old(pos)[current]
          invariant forall j :: 0 <= j < i && j != current ==> IsAhead(children[j], pos[j], key)
        {
          if i != current {
            var p := ChildSeek(children[i], key);
            if p < |children[i]| { p := p - 1; } else { p := |children[i]| - 1; }
            pos := pos[i := p];
          }
        }
        forward := false;
      } else {
        BelowIsBefore(children, pos, current);
        assert forall i :: 0 <= i < |children| ==> Shift(pos)[i] == pos[i] + 1;
      }
    }

    /** Next: the least entry after the current one, from either direction. */
    method Next()
      requires Inv() && current >= 0
      modifies this
      ensures Inv() && forward
      ensures current >= 0 ==> IsLeast(AfterKey(children, old(At()).key), At())
      ensures current < 0 ==> AfterKey(children, old(At()).key) == {}
    {
      ghost var key := children[current][pos[current]].key;
      TurnForward();
      StepPast(children, pos, key, current);
      pos := pos[current := pos[current] + 1];
      FindSmallest();
      LeastAfter(children, pos, key, current);
    }

    /** Prev: the greatest entry before the current one, from either direction. */
    method Prev()
      requires Inv() && current >= 0
      modifies this
      ensures Inv() && !forward
      ensures current >= 0 ==> IsGreatest(BeforeKey(children, old(At()).key), At())
      ensures current < 0 ==> BeforeKey(children, old(At()).key) == {}
    {
      ghost var key := children[current][pos[current]].key;
      TurnBackward();
      StepAhead(children, pos, key, current);
      pos := pos[current := pos[current] - 1];
      FindLargest();
      GreatestBefore(children, pos, key, current);
    }
  }

  /** A child's Seek: the first entry at or after the key. */
  method ChildSeek(c: seq<Entry>, key: IKey) returns (p: int)
    requires Sorted(c)
    ensures 0 <= p <= |c|
    ensures forall x :: 0 <= x < p ==> Less(c[x].key, key)
    ensures forall x :: p <= x < |c| ==> !Less(c[x].key, key)
  {
    p := 0;
    while p < |c| && Less(c[p].key, key)
      invariant 0 <= p <= |c|
      invariant forall x :: 0 <= x < p ==> Less(c[x].key, key)
    {
      p := p + 1;
    }
  }

  // ---------------------------------------------------------------- cuts and the union

  ghost predicate IsLeast(s: set<Entry>, e: Entry) {
    e in s && forall x :: x in s ==> x == e || Before(e.key, x.key)
  }

  ghost predicate IsGreatest(s: set<Entry>, e: Entry) {
    e in s && forall x :: x in s ==> x == e || Before(x.key, e.key)
  }

  /** The entries below a cut. */
  ghost function Below(children: seq<seq<Entry>>, pos: seq<int>): set<Entry>
    requires |pos| == |children|
  {
    set i, x | 0 <= i < |children| && 0 <= x < |children[i]| && x < pos[i] :: children[i][x]
  }

  lemma Index(children: seq<seq<Entry>>, e: Entry) returns (i: int, x: int)
    requires e in Union(children)
    ensures 0 <= i < |children| && 0 <= x < |children[i]| && children[i][x] == e
  {
    var c :| c in children && e in c;
    i :| 0 <= i < |children| && children[i] == c;
    x :| 0 <= x < |c| && c[x] == e;
  }

  lemma InUnion(children: seq<seq<Entry>>, i: int, x: int)
    requires 0 <= i < |children| && 0 <= x < |children[i]|
    ensures children[i][x] in Union(children)
  {
    assert children[i] in children && children[i][x] in children[i];
  }

  /** What lies below the cut, given a test on entries that decides it. */
  lemma BelowIs(children: seq<seq<Entry>>, pos: seq<int>, s: set<Entry>)
    requires |pos| == |children| && s <= Union(children)
    requires forall i, x :: 0 <= i < |children| && 0 <= x < |children[i]| ==> (x < pos[i] <==> children[i][x] in s)
    ensures Below(children, pos) == s
  {
    forall e | e in s ensures e in Below(children, pos) { var i, x := Index(children, e); }
  }

  lemma AllBelow(children: seq<seq<Entry>>, pos: seq<int>)
    requires |pos| == |children| && forall i :: 0 <= i < |children| ==> pos[i] == |children[i]|
    ensures Below(children, pos) == Union(children)
  {
    forall i, x | 0 <= i < |children| && 0 <= x < |children[i]| ensures children[i][x] in Union(children) {
      InUnion(children, i, x);
    }
    BelowIs(children, pos, Union(children));
  }

  /** Everything from a child's head on comes after the smallest head. */
  lemma AboveIsAfter(children: seq<seq<Entry>>, pos: seq<int>, current: int)
    requires Mergeable(children) && Cut(children, pos) && IsSmallest(children, pos, current) && current >= 0
    ensures forall i, x :: 0 <= i < |children| && 0 <= x < |children[i]| && i != current ==>
              (x < pos[i] <==> !Before(children[current][pos[current]].key, children[i][x].key))
  {
    forall i, x | 0 <= i < |children| && 0 <= x < |children[i]| && i != current
      ensures x < pos[i] <==> !Before(children[current][pos[current]].key, children[i][x].key)
    {
      assert Sorted(children[i]);
      if pos[i] < |children[i]| {
        assert Valid(children, pos, i);
        assert x > pos[i] ==> Before(children[i][pos[i]].key, children[i][x].key);
      }
    }
  }

  lemma BelowIsBefore(children: seq<seq<Entry>>, pos: seq<int>, current: int)
    requires Mergeable(children) && |pos| == |children| && Cut(children, Shift(pos)) && IsLargest(children, pos, current) && current >= 0
    ensures forall i, x :: 0 <= i < |children| && 0 <= x < |children[i]| && i != current ==>
              (x <= pos[i] <==> Before(children[i][x].key, children[current][pos[current]].key))
  {
    forall i, x | 0 <= i < |children| && 0 <= x < |children[i]| && i != current
      ensures x <= pos[i] <==> Before(children[i][x].key, children[current][pos[current]].key)
    {
      assert Sorted(children[i]) && Shift(pos)[i] == pos[i] + 1 && Shift(pos)[current] == pos[current] + 1;
      if 0 <= pos[i] {
        assert Valid(children, pos, i);
        assert x < pos[i] ==> Before(children[i][x].key, children[i][pos[i]].key);
      }
    }
  }

  /** The smallest head is the least entry above the cut. */
  lemma LeastAbove(children: seq<seq<Entry>>, pos: seq<int>, current: int)
    requires Mergeable(children) && Cut(children, pos) && IsSmallest(children, pos, current)
    ensures current >= 0 ==> IsLeast(Union(children) - Below(children, pos), children[current][pos[current]])
    ensures current < 0 ==> Union(children) == Below(children, pos)
  {
    if current >= 0 {
      var e := children[current][pos[current]];
      InUnion(children, current, pos[current]);
      AboveIsAfter(children, pos, current);
      assert e !in Below(children, pos);
      forall y | y in Union(children) - Below(children, pos) ensures y == e || Before(e.key, y.key) {
        var i, x := Index(children, y);
        assert Sorted(children[current]);
      }
    } else {
      forall i | 0 <= i < |children| ensures pos[i] == |children[i]| { assert !Valid(children, pos, i); }
      AllBelow(children, pos);
    }
  }

  /** The largest head is the greatest entry below the cut. */
  lemma GreatestBelow(children: seq<seq<Entry>>, pos: seq<int>, current: int)
    requires Mergeable(children) && |pos| == |children| && Cut(children, Shift(pos)) && IsLargest(children, pos, current)
    ensures current >= 0 ==> IsGreatest(Below(children, Shift(pos)), children[current][pos[current]])
    ensures current < 0 ==> Below(children, Shift(pos)) == {}
  {
    assert forall i :: 0 <= i < |children| ==> Shift(pos)[i] == pos[i] + 1;
    if current >= 0 {
      var e := children[current][pos[current]];
      BelowIsBefore(children, pos, current);
      forall y | y in Below(children, Shift(pos)) ensures y == e || Before(y.key, e.key) {
        var i, x :| 0 <= i < |children| && 0 <= x < |children[i]| && x < Shift(pos)[i] && children[i][x] == y;
        assert Sorted(children[current]);
      }
    } else {
      forall i | 0 <= i < |children| ensures pos[i] == -1 { assert !Valid(children, pos, i); }
    }
  }

  /** The position just past a key, going forward. */
  ghost predicate IsPast(child: seq<Entry>, p: int, key: IKey) {
    0 <= p <= |child| && forall x :: 0 <= x < |child| ==> (x < p <==> !Before(key, child[x].key))
  }

  /** The position just before a key, going backward. */
  ghost predicate IsAhead(child: seq<Entry>, p: int, key: IKey) {
    -1 <= p < |child| && forall x :: 0 <= x < |child| ==> (x <= p <==> Before(child[x].key, key))
  }

  ghost predicate PastBut(children: seq<seq<Entry>>, pos: seq<int>, key: IKey, c: int) {
    |pos| == |children| && forall i :: 0 <= i < |children| && i != c ==> IsPast(children[i], pos[i], key)
  }

  ghost predicate AheadBut(children: seq<seq<Entry>>, pos: seq<int>, key: IKey, c: int) {
    |pos| == |children| && forall i :: 0 <= i < |children| && i != c ==> IsAhead(children[i], pos[i], key)
  }

  lemma StepPast(children: seq<seq<Entry>>, pos: seq<int>, key: IKey, c: int)
    requires Mergeable(children) && PastBut(children, pos, key, c)
    requires 0 <= c < |children| && 0 <= pos[c] < |children[c]| && children[c][pos[c]].key == key
    ensures PastBut(children, pos[c := pos[c] + 1], key, -1)
  {
    assert Sorted(children[c]);
    assert IsPast(children[c], pos[c] + 1, key);
  }

  lemma StepAhead(children: seq<seq<Entry>>, pos: seq<int>, key: IKey, c: int)
    requires Mergeable(children) && AheadBut(children, pos, key, c)
    requires 0 <= c < |children| && 0 <= pos[c] < |children[c]| && children[c][pos[c]].key == key
    ensures AheadBut(children, pos[c := pos[c] - 1], key, -1)
  {
    assert Sorted(children[c]);
    assert IsAhead(children[c], pos[c] - 1, key);
  }

  /** With every child past the key, the smallest head is the least entry after it. */
  lemma LeastAfter(children: seq<seq<Entry>>, pos: seq<int>, key: IKey, current: int)
    requires Mergeable(children) && PastBut(children, pos, key, -1) && IsSmallest(children, pos, current)
    ensures Cut(children, pos)
    ensures current >= 0 ==> IsLeast(AfterKey(children, key), children[current][pos[current]])
    ensures current < 0 ==> AfterKey(children, key) == {}
  {
    forall i, x | 0 <= i < |children| && 0 <= x < |children[i]|
      ensures children[i][x] in Union(children) && (x < pos[i] <==> !Before(key, children[i][x].key))
    {
      assert IsPast(children[i], pos[i], key);
      InUnion(children, i, x);
    }
    assert forall i :: 0 <= i < |children| ==> IsPast(children[i], pos[i], key);
    LeastAbove(children, pos, current);
    BelowIs(children, pos, Union(children) - AfterKey(children, key));
  }

  /** With every child ahead of the key, the largest head is the greatest entry before it. */
  lemma GreatestBefore(children: seq<seq<Entry>>, pos: seq<int>, key: IKey, current: int)
    requires Mergeable(children) && AheadBut(children, pos, key, -1) && IsLargest(children, pos, current)
    ensures Cut(children, Shift(pos))
    ensures current >= 0 ==> IsGreatest(BeforeKey(children, key), children[current][pos[current]])
    ensures current < 0 ==> BeforeKey(children, key) == {}
  {
    forall i, x | 0 <= i < |children| && 0 <= x < |children[i]|
      ensures children[i][x] in Union(children) && (x < Shift(pos)[i] <==> Before(children[i][x].key, key))
    {
      assert IsAhead(children[i], pos[i], key);
      InUnion(children, i, x);
    }
    assert forall i :: 0 <= i < |children| ==> IsAhead(children[i], pos[i], key) && Shift(pos)[i] == pos[i] + 1;
    GreatestBelow(children, pos, current);
    BelowIs(children, Shift(pos), BeforeKey(children, key));
  }

  /** In any sorted listing of the union, Next is a step forward of one... */
  lemma NextInList(children: seq<seq<Entry>>, merged: seq<Entry>, i: nat, e: Entry)
    requires Sorted(merged) && (forall x :: x in merged <==> x in Union(children)) && i < |merged|
    requires IsLeast(AfterKey(children, merged[i].key), e)
    ensures i + 1 < |merged| && e == merged[i + 1]
  {
    assert e in merged;
    var k :| 0 <= k < |merged| && merged[k] == e;
    assert i < k;
    assert merged[i + 1] in merged;
    assert merged[i + 1] in AfterKey(children, merged[i].key);
  }

  /** ... and Prev a step back of one. */
  lemma PrevInList(children: seq<seq<Entry>>, merged: seq<Entry>, i: nat, e: Entry)
    requires Sorted(merged) && (forall x :: x in merged <==> x in Union(children)) && i < |merged|
    requires IsGreatest(BeforeKey(children, merged[i].key), e)
    ensures i > 0 && e == merged[i - 1]
  {
    assert e in merged;
    var k :| 0 <= k < |merged| && merged[k] == e;
    assert k < i;
    assert merged[i - 1] in merged;
    assert merged[i - 1] in BeforeKey(children, merged[i].key);
  }
}
