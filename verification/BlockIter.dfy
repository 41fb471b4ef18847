/** Block::Iter over decoded entries: block.cc. Keys are compared by rank under the comparator. */
module BlockIter {
  import opened Coding
  import opened Files

  datatype KV = KV(key: Bytes, value: Bytes)

  /** What DecodeEntry finds at an offset: how much of the previous key to keep, the rest of the
      key, the value, and where the next entry starts. */
  datatype Raw = Raw(shared: nat, delta: Bytes, value: Bytes, next: nat)

  type Decode = nat -> Option<Raw>

  type Rank = Bytes -> real

  /** A block as the proof sees it: entry `i` lies at `offs[i]`, shares `shares[i]` bytes with its
      predecessor, and `rs` lists the entries at restart points. */
  datatype Layout = Layout(es: seq<KV>, offs: seq<nat>, shares: seq<nat>, rs: seq<nat>)

  ghost predicate SharesOk(l: Layout) {
    && |l.shares| == |l.es|
    && (forall i :: 0 <= i < |l.es| ==> l.shares[i] <= |l.es[i].key|)
    && (forall i {:trigger Ix(i)} :: Ix(i) && 0 < i < |l.es| ==> Agree(l.es[i - 1].key, l.es[i].key, l.shares[i]))
    && (l.es != [] ==> l.shares[0] == 0)
  }

  ghost predicate Agree(a: Bytes, b: Bytes, n: nat) {
    n <= |a| && n <= |b| && a[..n] == b[..n]
  }

  ghost predicate RestartsOk(l: Layout) {
    && |l.rs| > 0 && l.rs[0] == 0 && |l.shares| == |l.es|
    && (forall j, k :: 0 <= j < k < |l.rs| ==> l.rs[j] < l.rs[k])
    && (forall j :: 0 < j < |l.rs| ==> l.rs[j] < |l.es|)
    && forall j :: 0 <= j < |l.rs| && l.rs[j] < |l.es| ==> l.shares[l.rs[j]] == 0
  }

  ghost predicate OffsetsOk(l: Layout, limit: nat) {
    && |l.offs| == |l.es| + 1 && l.offs[0] == 0 && l.offs[|l.es|] == limit
    && forall i, j :: 0 <= i < j <= |l.es| ==> l.offs[i] < l.offs[j]
  }

  ghost predicate Increasing(rank: Rank, es: seq<KV>) {
    forall i, j :: 0 <= i < j < |es| ==> rank(es[i].key) < rank(es[j].key)
  }

  /** The entry at `offs[i]`. */
  ghost function RawOf(l: Layout, i: nat): Raw
    requires i < |l.es| && SharesOk(l) && |l.offs| == |l.es| + 1
  {
    Raw(l.shares[i], l.es[i].key[l.shares[i]..], l.es[i].value, l.offs[i + 1])
  }

  /** The block decodes as the layout says. */
  ghost predicate Describes(l: Layout, rank: Rank, dec: Decode, limit: nat, points: seq<nat>) {
    && SharesOk(l) && RestartsOk(l) && OffsetsOk(l, limit) && Increasing(rank, l.es)
    && (forall i {:trigger Ix(i)} :: Ix(i) && i < |l.es| ==> dec(l.offs[i]) == Some(RawOf(l, i)))
    && |points| == |l.rs| && forall j :: 0 <= j < |l.rs| ==> points[j] == l.offs[l.rs[j]]
  }

  /** The first entry at or after the target. */
  ghost predicate IsCeiling(rank: Rank, es: seq<KV>, target: Bytes, i: nat) {
    && i <= |es|
    && (forall j :: 0 <= j < i ==> rank(es[j].key) < rank(target))
    && (i < |es| ==> rank(es[i].key) >= rank(target))
  }

  class Iter {
    const rank: Rank
    const dec: Decode
    const limit: nat               // restarts_
    const points: seq<nat>         // the restart array
    ghost const l: Layout
    var current: nat
    var restartIndex: nat
    var key: Bytes
    var value: Bytes
    var nextOffset: nat            // NextEntryOffset()
    var corrupt: bool              // status_ is not OK
    ghost var pos: nat

    ghost predicate Fixed() {
      Describes(l, rank, dec, limit, points)
    }

    /** The restart block the iterator believes it is in: an entry at a restart point may count as
        the end of the block before. */
    ghost predicate InBlock(j: nat, i: nat)
      requires Fixed()
    {
      j < |l.rs| && l.rs[j] <= i && (j + 1 < |l.rs| ==> i <= l.rs[j + 1])
    }

    ghost predicate At(i: nat)
      reads this
      requires Fixed()
    {
      && i < |l.es| && current == l.offs[i] && nextOffset == l.offs[i + 1] && InBlock(restartIndex, i)
      && key == l.es[i].key && value == l.es[i].value
    }

    ghost predicate Ok()
      reads this
    {
      && Fixed() && pos <= |l.es|
      && (pos < |l.es| ==> At(pos))
      && (pos == |l.es| ==> current == limit && restartIndex == |points|)
    }

    /** Ready to parse entry `i`. */
    ghost predicate Before(i: nat)
      reads this
    {
      && Fixed() && i <= |l.es| && nextOffset == l.offs[i]
      && (i < |l.es| ==> Agree(key, l.es[i].key, l.shares[i]))
      && restartIndex < |l.rs| && l.rs[restartIndex] <= i
    }

    constructor (rank: Rank, dec: Decode, limit: nat, points: seq<nat>, ghost l: Layout)
      requires Describes(l, rank, dec, limit, points)
      ensures Ok() && pos == |l.es| && this.l == l && this.rank == rank && !corrupt
    {
      this.rank, this.dec, this.limit, this.points, this.l := rank, dec, limit, points, l;
      current, restartIndex, key, value, nextOffset, corrupt := limit, |points|, [], [], 0, false;
      pos := |l.es|;
    }

    predicate Valid()
      reads this
    {
      current < limit
    }

    /** Valid means on an entry. */
    lemma ValidMeansOn()
      requires Ok()
      ensures Valid() <==> pos < |l.es|
    {
    }

    method SeekToRestartPoint(index: nat)
      requires Fixed() && index < |l.rs|
      modifies this`key, this`restartIndex, this`nextOffset, this`value
      ensures Before(l.rs[index]) && restartIndex == index
    {
      key, value := [], [];
      restartIndex := index;
      nextOffset := points[index];
    }

    method ParseNextKey(ghost i: nat) returns (ok: bool)
      requires Before(i)
      modifies this`current, this`restartIndex, this`key, this`value, this`nextOffset, this`corrupt, this`pos
      ensures Ok() && pos == i && ok == (i < |l.es|) && corrupt == old(corrupt)
    {
      var p := ParseAt(dec, limit, key, nextOffset);
      ParseFinds(l, rank, dec, limit, points, key, i);
      pos := i;
      if p.None? {
        // the end, or else CorruptionError()
        corrupt := corrupt || nextOffset < limit;
        current, restartIndex := limit, |points|;
        return false;
      }
      current := nextOffset;
      key, value, nextOffset := p.value.key, p.value.value, p.value.next;
      var j := Advance(points, restartIndex, current);
      BlockOf(l, rank, dec, limit, points, restartIndex, j, i);
      restartIndex := j;
      return true;
    }

    /** The entry after the current one can be parsed from here. */
    lemma ReadyForNext()
      requires Ok() && pos < |l.es|
      ensures Before(pos + 1)
    {
      assert Ix(pos + 1);
    }

    method ParseFollowing() returns (ok: bool)
      requires Ok() && pos < |l.es|
      modifies this
      ensures Ok() && pos == old(pos) + 1 && ok == (pos < |l.es|) && corrupt == old(corrupt)
    {
      ReadyForNext();
      ok := ParseNextKey(pos + 1);
    }

    method Next()
      requires Ok() && pos < |l.es|
      modifies this
      ensures Ok() && pos == old(pos) + 1 && corrupt == old(corrupt)
    {
      var _ := ParseFollowing();
    }

    method SeekToFirst()
      requires Ok()
      modifies this
      ensures Ok() && pos == 0 && corrupt == old(corrupt)
    {
      SeekToRestartPoint(0);
      var _ := ParseNextKey(0);
    }

    /** The entry that ends at `stop` lies ahead as long as the next one starts before it. */
    lemma StopIsAhead(stop: nat, goal: nat)
      requires Ok() && pos < |l.es| && goal < |l.es| && stop == l.offs[goal + 1]
      ensures nextOffset < stop <==> pos < goal
    {
      assert Ix(pos + 1);
      OffsetOrder(l, limit, pos + 1, goal + 1);
    }

    /** Parse on until the entry that ends at `stop`. */
    method ScanOn(stop: nat, ghost goal: nat)
      requires Ok() && pos <= goal < |l.es| && stop == l.offs[goal + 1]
      modifies this
      ensures Ok() && pos == goal && corrupt == old(corrupt)
    {
      StopIsAhead(stop, goal);
      var ok := true;
      while ok && nextOffset < stop
        invariant Ok() && ok && pos <= goal && corrupt == old(corrupt) && (nextOffset < stop <==> pos < goal)
        decreases goal - pos
      {
        ok := ParseFollowing();
        StopIsAhead(stop, goal);
      }
    }

    /** Parse on from entry `i` until the one that ends at `stop`. */
    method ScanTo(ghost i: nat, stop: nat, ghost goal: nat)
      requires Before(i) && i <= goal < |l.es| && stop == l.offs[goal + 1]
      modifies this
      ensures Ok() && pos == goal && corrupt == old(corrupt)
    {
      var _ := ParseNextKey(i);
      ScanOn(stop, goal);
    }

    method SeekToLast()
      requires Ok()
      modifies this
      ensures Ok() && (if l.es == [] then pos == 0 else pos == |l.es| - 1) && corrupt == old(corrupt)
    {
      SeekToRestartPoint(|points| - 1);
      if limit == 0 {
        OffsetOrder(l, limit, 0, |l.es|);
        var _ := ParseNextKey(0);
      } else {
        ScanTo(l.rs[|points| - 1], limit, |l.es| - 1);
      }
    }

    /** Scan backwards to a restart point before the current entry; there is none for the first. */
    method RestartBefore(original: nat) returns (index: nat, found: bool)
      requires Ok() && pos < |l.es| && original == current
      ensures found == (pos > 0)
      ensures found ==> index < |l.rs| && l.rs[index] < pos
    {
      index := restartIndex;
      while points[index] >= original
        invariant index < |l.rs| && l.rs[index] <= pos
        decreases index
      {
        OffsetOrder(l, limit, l.rs[index], pos);
        if index == 0 { return 0, false; }
        assert l.rs[index - 1] < l.rs[index];
        index := index - 1;
      }
      OffsetOrder(l, limit, l.rs[index], pos);
      found := true;
    }

    method Prev()
      requires Ok() && pos < |l.es|
      modifies this
      ensures Ok() && pos == (if old(pos) > 0 then old(pos) - 1 else |l.es|) && corrupt == old(corrupt)
    {
      var original := current;
      var index, found := RestartBefore(original);
      if !found {
        current, restartIndex := limit, |points|;
        pos := |l.es|;
        return;
      }
      ghost var goal := pos - 1;
      SeekToRestartPoint(index);
      ScanTo(l.rs[index], original, goal);
    }

    /** Key of the entry at restart point `mid`, read without moving. */
    function RestartKey(mid: nat): (k: Bytes)
      requires Fixed() && 0 < mid < |points|
      ensures k == l.es[l.rs[mid]].key
    {
      assert Ix(l.rs[mid]);
      dec(points[mid]).value.delta
    }

    /** The last restart point known to be before the target, starting from a known range. */
    method SearchRestarts(target: Bytes, from: nat, to: nat) returns (left: nat)
      requires Fixed() && from <= to < |points|
      requires from > 0 ==> rank(l.es[l.rs[from]].key) < rank(target)
      ensures left < |points| && (left > 0 ==> rank(l.es[l.rs[left]].key) < rank(target))
      ensures to + 1 < |points| && rank(l.es[l.rs[to + 1]].key) >= rank(target) ==>
                left + 1 < |points| && rank(l.es[l.rs[left + 1]].key) >= rank(target)
    {
      left := from;
      var right := to;
      while left < right
        invariant from <= left <= right <= to && (left > 0 ==> rank(l.es[l.rs[left]].key) < rank(target))
        invariant right < to ==> rank(l.es[l.rs[right + 1]].key) >= rank(target)
      {
        var mid := (left + right + 1) / 2;
        if rank(RestartKey(mid)) < rank(target) {
          left := mid;
        } else {
          right := mid - 1;
        }
      }
    }

    /** The first `n` entries are before the target. */
    ghost predicate AllBelow(n: nat, target: Bytes)
      requires n <= |l.es|
    {
      forall j :: 0 <= j < n ==> rank(l.es[j].key) < rank(target)
    }

    /** One entry further, from one before the target. */
    method PassBelow(target: Bytes) returns (ok: bool)
      requires Ok() && pos < |l.es| && AllBelow(pos, target) && rank(key) < rank(target)
      modifies this
      ensures Ok() && pos == old(pos) + 1 && ok == (pos < |l.es|) && corrupt == old(corrupt) && AllBelow(pos, target)
    {
      assert key == l.es[pos].key;
      ok := ParseFollowing();
    }

    lemma FoundCeiling(target: Bytes)
      requires Ok() && AllBelow(pos, target) && (pos < |l.es| ==> rank(key) >= rank(target))
      ensures IsCeiling(rank, l.es, target, pos)
    {
      assert pos < |l.es| ==> key == l.es[pos].key;
    }

    /** The linear search inside a restart block. */
    method ScanFor(target: Bytes, ghost i: nat)
      requires Before(i) && AllBelow(i, target)
      modifies this
      ensures Ok() && IsCeiling(rank, l.es, target, pos) && corrupt == old(corrupt)
    {
      var ok := ParseNextKey(i);
      while ok && rank(key) < rank(target)
        invariant Ok() && ok == (pos < |l.es|) && corrupt == old(corrupt) && AllBelow(pos, target)
        decreases |l.es| - pos
      {
        ok := PassBelow(target);
      }
      FoundCeiling(target);
    }

    method Seek(target: Bytes)
      requires Ok()
      modifies this
      ensures Ok() && IsCeiling(rank, l.es, target, pos) && corrupt == old(corrupt)
    {
      var left, right := 0, |points| - 1;
      var behind := false;
      ValidMeansOn();
      if Valid() {
        if rank(key) < rank(target) {
          // the current position is a starting point
          behind, left := true, restartIndex;
        } else if rank(key) > rank(target) {
          right := restartIndex;
        } else {
          return;
        }
      }
      left := SearchRestarts(target, left, right);
      if behind && left == restartIndex {
        ReadyForNext();
        ScanFor(target, pos + 1);
      } else {
        ghost var i := l.rs[left];
        SeekToRestartPoint(left);
        ScanFor(target, i);
      }
    }
  }

  datatype Entry = Entry(key: Bytes, value: Bytes, next: nat)

  /** The entry at an offset, given the key before it. */
  function ParseAt(dec: Decode, limit: nat, key: Bytes, at: nat): Option<Entry> {
    if at >= limit then None
    else
      var r := dec(at);
      if r.None? || |key| < r.value.shared then None
      else Some(Entry(key[..r.value.shared] + r.value.delta, r.value.value, r.value.next))
  }

  lemma ParseFinds(l: Layout, rank: Rank, dec: Decode, limit: nat, points: seq<nat>, key: Bytes, i: nat)
    requires Describes(l, rank, dec, limit, points) && i <= |l.es| && (i < |l.es| ==> Agree(key, l.es[i].key, l.shares[i]))
    ensures ParseAt(dec, limit, key, l.offs[i]) ==
            if i < |l.es| then Some(Entry(l.es[i].key, l.es[i].value, l.offs[i + 1])) else None
    ensures l.offs[i] < limit <==> i < |l.es|
  {
    OffsetOrder(l, limit, i, |l.es|);
    assert Ix(i);
    if i < |l.es| { JoinsKey(l, key, i); }
  }

  /** Keep restart_index_ up with current_. */
  method Advance(points: seq<nat>, index: nat, current: nat) returns (j: nat)
    requires index < |points|
    ensures index <= j < |points| && (index < j ==> points[j] < current) && (j + 1 < |points| ==> points[j + 1] >= current)
  {
    j := index;
    while j + 1 < |points| && points[j + 1] < current
      invariant index <= j < |points| && (index < j ==> points[j] < current)
    {
      j := j + 1;
    }
  }

  lemma BlockOf(l: Layout, rank: Rank, dec: Decode, limit: nat, points: seq<nat>, index: nat, j: nat, i: nat)
    requires Describes(l, rank, dec, limit, points) && i < |l.es| && index <= j < |points| && l.rs[index] <= i
    requires (index < j ==> points[j] < l.offs[i]) && (j + 1 < |points| ==> points[j + 1] >= l.offs[i])
    ensures l.rs[j] <= i && (j + 1 < |l.rs| ==> i <= l.rs[j + 1])
  {
    if index < j { OffsetOrder(l, limit, l.rs[j], i); }
    if j + 1 < |points| { OffsetOrder(l, limit, l.rs[j + 1], i); }
  }

  lemma OffsetOrder(l: Layout, limit: nat, i: nat, j: nat)
    requires OffsetsOk(l, limit) && i <= |l.es| && j <= |l.es|
    ensures l.offs[i] < l.offs[j] <==> i < j
  {
  }

  /** Keeping the shared bytes and adding the rest gives the key. */
  lemma JoinsKey(l: Layout, key: Bytes, i: nat)
    requires SharesOk(l) && |l.offs| == |l.es| + 1 && i < |l.es| && Agree(key, l.es[i].key, l.shares[i])
    ensures key[..l.shares[i]] + l.es[i].key[l.shares[i]..] == l.es[i].key
  {
  }
}
