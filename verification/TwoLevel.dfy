/** TwoLevelIterator (two_level_iterator.cc): the cursor over the concatenation of the blocks
    an index lists, with empty blocks skipped in both directions. */
module TwoLevel {
  import opened Keys

  /** Each index key is at or after its block and before every later block. */
  ghost predicate Indexed(index: seq<IKey>, blocks: seq<seq<Entry>>) {
    && |index| == |blocks|
    && (forall b :: 0 <= b < |blocks| ==> Sorted(blocks[b]))
    && (forall b, x :: 0 <= b < |blocks| && 0 <= x < |blocks[b]| ==> !Less(index[b], blocks[b][x].key))
    && forall a, b, x :: 0 <= a < b < |blocks| && 0 <= x < |blocks[b]| ==> Less(index[a], blocks[b][x].key)
  }

  /** Where a block starts in the concatenation. */
  function Offset(blocks: seq<seq<Entry>>, b: nat): nat
    requires b <= |blocks|
  {
    if b == 0 then 0 else Offset(blocks, b - 1) + |blocks[b - 1]|
  }

  function Concat(blocks: seq<seq<Entry>>, b: nat): seq<Entry>
    requires b <= |blocks|
  {
    if b == 0 then [] else Concat(blocks, b - 1) + blocks[b - 1]
  }

  lemma {:induction false} ConcatAt(blocks: seq<seq<Entry>>, n: nat, b: nat, x: nat)
    requires b < n <= |blocks| && x < |blocks[b]|
    ensures |Concat(blocks, n)| == Offset(blocks, n)
    ensures Offset(blocks, b) + x < Offset(blocks, n)
    ensures Concat(blocks, n)[Offset(blocks, b) + x] == blocks[b][x]
    decreases n
  {
    ConcatLength(blocks, n - 1);
    if b < n - 1 { ConcatAt(blocks, n - 1, b, x); }
  }

  lemma {:induction false} ConcatLength(blocks: seq<seq<Entry>>, n: nat)
    requires n <= |blocks|
    ensures |Concat(blocks, n)| == Offset(blocks, n)
  {
    if n > 0 { ConcatLength(blocks, n - 1); }
  }

  class TwoLevelIterator {
    const index: seq<IKey>
    const blocks: seq<seq<Entry>>
    var indexPos: int    // index_iter_; valid iff within bounds
    var block: int       // the block data_iter_ reads, -1 when it is null
    var pos: int         // data_iter_

    predicate Valid()
      reads this
    {
      0 <= block < |blocks| && 0 <= pos < |blocks[block]|
    }

    ghost predicate Inv()
      reads this
    {
      Indexed(index, blocks) && (Valid() ==> indexPos == block)
    }

    /** The position in the concatenation. */
    ghost function Position(): nat
      reads this
      requires Valid()
    {
      Offset(blocks, block) + pos
    }

    ghost function Total(): nat {
      Offset(blocks, |blocks|)
    }

    constructor (index: seq<IKey>, blocks: seq<seq<Entry>>)
      requires Indexed(index, blocks)
      ensures Inv() && !Valid() && this.index == index && this.blocks == blocks
    {
      this.index, this.blocks := index, blocks;
      indexPos, block, pos := -1, -1, -1;
    }

    /** InitDataBlock: a block already open is kept, another one is opened unpositioned. */
    method InitDataBlock()
      modifies this`block, this`pos
      ensures block == (if 0 <= indexPos < |blocks| then indexPos else -1)
      ensures block == old(block) ==> pos == old(pos)
    {
      if indexPos < 0 || indexPos >= |blocks| {
        block := -1;
      } else if block != indexPos {
        block, pos := indexPos, -1;
      }
    }

    /** SkipEmptyDataBlocksForward: on to the next entry of the concatenation. */
    method SkipEmptyDataBlocksForward()
      requires Indexed(index, blocks) && 0 <= indexPos <= |blocks|
      requires block == (if indexPos < |blocks| then indexPos else -1)
      requires block >= 0 ==> 0 <= pos <= |blocks[block]|
      modifies this
      ensures Inv()
      ensures var start := Offset(blocks, old(indexPos)) + (if old(block) >= 0 then old(pos) else 0);
              if start < Total() then Valid() && Position() == start else !Valid()
    {
      ghost var start := Offset(blocks, indexPos) + (if block >= 0 then pos else 0);
      while block == -1 || !(0 <= pos < |blocks[block]|)
        invariant 0 <= indexPos <= |blocks| && block == (if indexPos < |blocks| then indexPos else -1)
        invariant block >= 0 ==> 0 <= pos <= |blocks[block]|
        invariant start == Offset(blocks, indexPos) + (if block >= 0 then pos else 0)
        decreases |blocks| - indexPos
      {
        if indexPos >= |blocks| {
          block := -1;
          return;
        }
        indexPos := indexPos + 1;
        InitDataBlock();
        if block != -1 { pos := 0; }
      }
      ConcatAt(blocks, |blocks|, block, pos);
    }

    /** SkipEmptyDataBlocksBackward: back to the previous entry of the concatenation. */
    method SkipEmptyDataBlocksBackward()
      requires Indexed(index, blocks) && -1 <= indexPos < |blocks|
      requires block == indexPos && (block >= 0 ==> -1 <= pos < |blocks[block]|)
      modifies this
      ensures Inv()
      ensures var end := if old(block) >= 0 then Offset(blocks, old(block)) + old(pos) + 1 else 0;
              if end > 0 then Valid() && Position() == end - 1 else !Valid()
    {
      ghost var end := if block >= 0 then Offset(blocks, block) + pos + 1 else 0;
      while block == -1 || !(0 <= pos < |blocks[block]|)
        invariant -1 <= indexPos < |blocks| && block == indexPos
        invariant block >= 0 ==> -1 <= pos < |blocks[block]|
        invariant end == if block >= 0 then Offset(blocks, block) + pos + 1 else 0
        decreases indexPos + 1
      {
        if indexPos < 0 {
          block := -1;
          return;
        }
        indexPos := indexPos - 1;
        InitDataBlock();
        if block != -1 { pos := |blocks[block]| - 1; }
      }
    }

    method Next()
      requires Inv() && Valid()
      modifies this
      ensures Inv()
      ensures if old(Position()) + 1 < Total() then Valid() && Position() == old(Position()) + 1 else !Valid()
    {
      pos := pos + 1;
      SkipEmptyDataBlocksForward();
    }

    method Prev()
      requires Inv() && Valid()
      modifies this
      ensures Inv()
      ensures if old(Position()) > 0 then Valid() && Position() == old(Position()) - 1 else !Valid()
    {
      pos := pos - 1;
      SkipEmptyDataBlocksBackward();
    }

    method SeekToFirst()
      requires Inv()
      modifies this
      ensures Inv()
      ensures if Total() > 0 then Valid() && Position() == 0 else !Valid()
    {
      indexPos := 0;
      InitDataBlock();
      if block != -1 { pos := 0; }
      SkipEmptyDataBlocksForward();
    }

    method SeekToLast()
      requires Inv()
      modifies this
      ensures Inv()
      ensures if Total() > 0 then Valid() && Position() == Total() - 1 else !Valid()
    {
      indexPos := |blocks| - 1;
      InitDataBlock();
      if block != -1 { pos := |blocks[block]| - 1; }
      SkipEmptyDataBlocksBackward();
    }

    /** Seek: through the index, then through one block. */
    method Seek(target: IKey)
      requires Inv()
      modifies this
      ensures Inv()
      ensures Valid() ==> forall i :: 0 <= i < Total() ==> (i < Position() <==> Less(All()[i].key, target))
      ensures !Valid() ==> forall i :: 0 <= i < Total() ==> Less(All()[i].key, target)
    {
      var i := 0;
      while i < |index| && Less(index[i], target)
        invariant 0 <= i <= |index|
        invariant forall b :: 0 <= b < i ==> Less(index[b], target)
      {
        i := i + 1;
      }
      indexPos := i;
      InitDataBlock();
      if block != -1 {
        var q := 0;
        while q < |blocks[block]| && Less(blocks[block][q].key, target)
          invariant 0 <= q <= |blocks[block]|
          invariant forall x :: 0 <= x < q ==> Less(blocks[block][x].key, target)
        {
          q := q + 1;
        }
        pos := q;
      }
      SeekSplits(index, blocks, target, indexPos, if block >= 0 then pos else 0);
      SkipEmptyDataBlocksForward();
    }

    ghost function All(): (r: seq<Entry>)
      ensures |r| == Total()
    {
      ConcatLength(blocks, |blocks|);
      Concat(blocks, |blocks|)
    }
  }

  /** The block and entry a position of the concatenation falls in. */
  lemma {:induction false} Locate(blocks: seq<seq<Entry>>, n: nat, i: nat) returns (b: nat, x: nat)
    requires n <= |blocks| && i < Offset(blocks, n)
    ensures b < n && x < |blocks[b]| && i == Offset(blocks, b) + x && |Concat(blocks, n)| == Offset(blocks, n)
    ensures Concat(blocks, n)[i] == blocks[b][x]
    decreases n
  {
    if i < Offset(blocks, n - 1) {
      b, x := Locate(blocks, n - 1, i);
    } else {
      b, x := n - 1, i - Offset(blocks, n - 1);
    }
    ConcatAt(blocks, n, b, x);
  }

  lemma {:induction false} OffsetGrows(blocks: seq<seq<Entry>>, a: nat, b: nat)
    requires a <= b <= |blocks|
    ensures Offset(blocks, a) <= Offset(blocks, b)
    ensures a < b ==> Offset(blocks, a) + |blocks[a]| <= Offset(blocks, b)
    decreases b
  {
    if a < b { OffsetGrows(blocks, a, b - 1); }
  }

  /** Index and block searches together split the concatenation at the target. */
  lemma SeekSplits(index: seq<IKey>, blocks: seq<seq<Entry>>, target: IKey, p: nat, q: nat)
    requires Indexed(index, blocks) && p <= |blocks|
    requires forall b :: 0 <= b < p ==> Less(index[b], target)
    requires p < |blocks| ==> !Less(index[p], target) && q <= |blocks[p]|
    requires p == |blocks| ==> q == 0
    requires p < |blocks| ==> forall x :: 0 <= x < q ==> Less(blocks[p][x].key, target)
    requires p < |blocks| && q < |blocks[p]| ==> !Less(blocks[p][q].key, target)
    ensures |Concat(blocks, |blocks|)| == Offset(blocks, |blocks|)
    ensures forall i :: 0 <= i < Offset(blocks, |blocks|) ==>
              (i < Offset(blocks, p) + q <==> Less(Concat(blocks, |blocks|)[i].key, target))
  {
    ConcatLength(blocks, |blocks|);
    forall i | 0 <= i < Offset(blocks, |blocks|)
      ensures i < Offset(blocks, p) + q <==> Less(Concat(blocks, |blocks|)[i].key, target)
    {
      var b, x := Locate(blocks, |blocks|, i);
      if b < p {
        OffsetGrows(blocks, b, p);
      } else if b > p {
        OffsetGrows(blocks, p, b);
      } else {
        assert Sorted(blocks[p]);
      }
    }
  }
}
