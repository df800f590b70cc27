/** The tensor memory table: a list of blocks that is split on allocation and coalesced on deallocation.

The invariant and the results below speak of each block's state, address and
size.  Names stay on freed blocks, and one result says exactly what that costs.
*/
module MemoryTable {

  /** `free` is the table's `valid` flag; `cleared` says whether deallocation has added the empty `tensor` entry,
      which takes part in comparing blocks but is never read. */
  datatype Block = Block(free: bool, addr: int, size: int, name: string, cleared: bool)

  datatype Policy = FirstFit | BestFit | Unsupported(name: string)

  datatype Placement = Placed(addr: int) | OutOfMemory | NotImplemented

  datatype Deallocation = Freed | NotFound | Crashed

  // ----- the invariant -----

  ghost predicate Tiled(t: seq<Block>, size: int) {
    && t != [] && t[0].addr == 0 && t[|t| - 1].addr + t[|t| - 1].size == size
    && (forall i :: 0 <= i < |t| ==> t[i].size > 0)
    && (forall i, j :: 0 <= i && i + 1 == j < |t| ==> t[i].addr + t[i].size == t[j].addr)
  }

  ghost predicate Coalesced(t: seq<Block>) {
    forall i, j :: 0 <= i && i + 1 == j < |t| ==> !(t[i].free && t[j].free)
  }

  /** The blocks cover the memory without gap or overlap, none is empty, and no two neighbours are free. */
  ghost predicate Inv(t: seq<Block>, size: int) {
    Tiled(t, size) && Coalesced(t)
  }

  lemma {:induction false} AddressesIncrease(t: seq<Block>, size: int, i: nat, j: nat)
    requires Tiled(t, size) && i < j < |t|
    ensures t[i].addr + t[i].size <= t[j].addr
  {
    if i + 1 < j {
      AddressesIncrease(t, size, i, j - 1);
      assert t[j - 1].addr + t[j - 1].size == t[j].addr;
    }
  }

  lemma {:induction false} BlockFits(t: seq<Block>, size: int, i: nat)
    requires Tiled(t, size) && i < |t|
    ensures 0 <= t[i].addr < t[i].addr + t[i].size <= size
  {
    if 0 < i {
      AddressesIncrease(t, size, 0, i);
    }
    if i < |t| - 1 {
      AddressesIncrease(t, size, i, |t| - 1);
    }
  }

  // ----- choosing a block -----

  predicate Fits(b: Block, size: int) {
    b.free && b.size >= size
  }

  /** No block is larger than the memory. */
  ghost predicate Bounded(t: seq<Block>, size: int) {
    forall i :: 0 <= i < |t| ==> t[i].size <= size
  }

  /** A free block that is large enough, or -1 only if there is none. */
  ghost predicate Picks(t: seq<Block>, size: int, idx: int) {
    if idx == -1 then forall i :: 0 <= i < |t| ==> !Fits(t[i], size)
    else 0 <= idx < |t| && Fits(t[idx], size)
  }

  /** The choice of a policy: the first of the free blocks that are large enough, or the first of the smallest. */
  ghost predicate PicksBy(policy: Policy, t: seq<Block>, size: int, idx: int) {
    && Picks(t, size, idx)
    && (policy == FirstFit ==> forall i :: 0 <= i < idx ==> !Fits(t[i], size))
    && (policy == BestFit && idx >= 0 ==>
          && (forall i :: 0 <= i < |t| && Fits(t[i], size) ==> t[idx].size <= t[i].size)
          && (forall i :: 0 <= i < idx && Fits(t[i], size) ==> t[idx].size < t[i].size))
  }

  method PickFirst(t: seq<Block>, size: int, memMax: int) returns (idx: int)
    requires Bounded(t, memMax)
    ensures PicksBy(FirstFit, t, size, idx)
  {
    if size > memMax {
      return -1;
    }
    for i := 0 to |t|
      invariant forall j :: 0 <= j < i ==> !Fits(t[j], size)
    {
      if !t[i].free {
        continue;
      }
      if t[i].size >= size {
        return i;
      }
    }
    return -1;
  }

  method PickBest(t: seq<Block>, size: int, memMax: int) returns (idx: int)
    requires Bounded(t, memMax)
    ensures PicksBy(BestFit, t, size, idx)
  {
    if size > memMax {
      return -1;
    }
    var bestSize := memMax + 1;
    idx := -1;
    for i := 0 to |t|
      invariant idx == -1 || (0 <= idx < i && Fits(t[idx], size) && bestSize == t[idx].size)
      invariant idx == -1 ==> bestSize == memMax + 1
      invariant forall j :: 0 <= j < i && Fits(t[j], size) ==> bestSize <= t[j].size
      invariant forall j :: 0 <= j < idx && Fits(t[j], size) ==> bestSize < t[j].size
    {
      if !t[i].free {
        continue;
      }
      if t[i].size >= size && t[i].size < bestSize {
        idx := i;
        bestSize := t[i].size;
      }
    }
  }

  // ----- allocation and deallocation on values -----

  /** Takes `size` from the start of block `idx`. */
  function AllocAt(t: seq<Block>, idx: nat, name: string, size: int): seq<Block>
    requires idx < |t|
  {
    var b := t[idx];
    if size == b.size then t[idx := b.(free := false, name := name)]
    else t[..idx] + [Block(false, b.addr, size, name, false), b.(addr := b.addr + size, size := b.size - size)]
         + t[idx + 1..]
  }

  /** The first block with the given name. */
  function Find(t: seq<Block>, name: string): (i: nat)
    ensures i <= |t| && (i < |t| ==> t[i].name == name) && forall j :: 0 <= j < i ==> t[j].name != name
  {
    if t == [] || t[0].name == name then 0 else 1 + Find(t[1..], name)
  }

  /** Removes the first block equal to `b`. */
  function RemoveValue(t: seq<Block>, b: Block): (r: seq<Block>)
    ensures |t| - 1 <= |r| <= |t|
  {
    if t == [] then [] else if t[0] == b then t[1..] else [t[0]] + RemoveValue(t[1..], b)
  }

  /** Merges the block after `idx` into block `idx` if it is free. */
  function MergeNext(t: seq<Block>, idx: nat): (r: seq<Block>)
    requires idx + 1 < |t|
    ensures |t| - 1 <= |r| <= |t|
  {
    if t[idx + 1].free then
      var t' := t[idx := t[idx].(size := t[idx].size + t[idx + 1].size)];
      RemoveValue(t', t'[idx + 1])
    else t
  }

  /** Merges the block before `idx` into block `idx` if it is free. */
  function MergePrevious(t: seq<Block>, idx: nat): seq<Block>
    requires 0 < idx < |t|
  {
    if t[idx - 1].free then
      var t' := t[idx := t[idx].(addr := t[idx - 1].addr, size := t[idx].size + t[idx - 1].size)];
      RemoveValue(t', t'[idx - 1])
    else t
  }

  lemma {:induction false} RemovesExactly(t: seq<Block>, k: nat)
    requires k < |t| && forall i :: 0 <= i < k ==> t[i] != t[k]
    ensures RemoveValue(t, t[k]) == t[..k] + t[k + 1..]
  {
    if k > 0 {
      RemovesExactly(t[1..], k - 1);
      assert t[0] != t[k] && t[1..][k - 1] == t[k];
      assert [t[0]] + (t[1..][..k - 1] + t[1..][k..]) == t[..k] + t[k + 1..];
    }
  }

  /** Merging by value takes out exactly the next block. */
  lemma {:induction false} MergesNext(t: seq<Block>, size: int, idx: nat)
    requires Tiled(t, size) && idx + 1 < |t| && t[idx + 1].free
    ensures MergeNext(t, idx) == t[..idx] + [t[idx].(size := t[idx].size + t[idx + 1].size)] + t[idx + 2..]
  {
    var t' := t[idx := t[idx].(size := t[idx].size + t[idx + 1].size)];
    forall i | 0 <= i < idx + 1 ensures t'[i] != t'[idx + 1] {
      AddressesIncrease(t, size, i, idx + 1);
    }
    RemovesExactly(t', idx + 1);
  }

  /** Merging by value takes out exactly the previous block. */
  lemma {:induction false} MergesPrevious(t: seq<Block>, size: int, idx: nat)
    requires Tiled(t, size) && 0 < idx < |t| && t[idx - 1].free
    ensures MergePrevious(t, idx)
            == t[..idx - 1] + [t[idx].(addr := t[idx - 1].addr, size := t[idx].size + t[idx - 1].size)] + t[idx + 1..]
  {
    var x := t[idx].(addr := t[idx - 1].addr, size := t[idx].size + t[idx - 1].size);
    EarlierDiffer(t, size, idx, t[idx := x]);
    RemovesExactly(t[idx := x], idx - 1);
    WithoutPrevious(t, idx, x);
  }

  lemma {:induction false} EarlierDiffer(t: seq<Block>, size: int, idx: nat, t': seq<Block>)
    requires Tiled(t, size) && 0 < idx < |t| == |t'| && forall i :: 0 <= i < idx ==> t'[i] == t[i]
    ensures forall i :: 0 <= i < idx - 1 ==> t'[i] != t'[idx - 1]
  {
    forall i | 0 <= i < idx - 1 ensures t'[i] != t'[idx - 1] {
      AddressesIncrease(t, size, i, idx - 1);
    }
  }

  lemma {:induction false} WithoutPrevious(t: seq<Block>, idx: nat, x: Block)
    requires 0 < idx < |t|
    ensures t[idx := x][..idx - 1] + t[idx := x][idx..] == t[..idx - 1] + [x] + t[idx + 1..]
  {
  }

  function Mark(t: seq<Block>, idx: nat): seq<Block>
    requires idx < |t|
  {
    t[idx := t[idx].(free := true, cleared := true)]
  }

  /** Frees block `idx` of a table of several blocks. */
  function Release(t: seq<Block>, idx: nat): seq<Block>
    requires idx < |t| && |t| > 1
  {
    var t1 := Mark(t, idx);
    if idx == 0 then MergeNext(t1, idx)
    else if idx == |t1| - 1 then MergePrevious(t1, idx)
    else
      MergePrevious(MergeNext(t1, idx), idx)
  }

  /** The table after a deallocation, and what is reported.  A table of one block is not freed: a match there
      raises an error before anything is written. */
  function AfterDeallocate(t: seq<Block>, name: string): (Deallocation, seq<Block>)
    requires t != []
  {
    if |t| == 1 then (if t[0].name != name then NotFound else Crashed, t)
    else if Find(t, name) == |t| then (NotFound, t)
    else (Freed, Release(t, Find(t, name)))
  }

  ghost predicate Carried(t: seq<Block>, name: string) {
    exists i :: 0 <= i < |t| && t[i].name == name
  }

  /** A deallocation succeeds if and only if a block of a table of several carries the name, fails on a table of one
      that does, and otherwise reports that there is none and changes nothing. */
  lemma {:induction false} DeallocatedExactlyWhen(t: seq<Block>, name: string)
    requires t != []
    ensures var (r, after) := AfterDeallocate(t, name);
            && (r == Freed <==> |t| > 1 && Carried(t, name))
            && (r == Crashed <==> |t| == 1 && Carried(t, name))
            && (r == NotFound <==> !Carried(t, name))
            && (r != Freed ==> after == t)
  {
    if Find(t, name) < |t| {
      assert t[Find(t, name)].name == name;
    }
  }

  // ----- replacing a stretch of blocks -----

  function Splice(t: seq<Block>, lo: nat, hi: nat, m: seq<Block>): seq<Block>
    requires lo <= hi <= |t|
  {
    t[..lo] + m + t[hi..]
  }

  lemma {:induction false} SpliceAt(t: seq<Block>, lo: nat, hi: nat, m: seq<Block>, i: nat)
    requires lo <= hi <= |t| && i < lo + |m| + |t| - hi
    ensures |Splice(t, lo, hi, m)| == lo + |m| + |t| - hi
    ensures Splice(t, lo, hi, m)[i]
            == if i < lo then t[i] else if i < lo + |m| then m[i - lo] else t[i - lo - |m| + hi]
  {
  }

  /** The blocks before, the blocks put in, and the blocks after are joined without a gap. */
  lemma {:induction false} TiledSplice(t: seq<Block>, size: int, lo: nat, hi: nat, m: seq<Block>)
    requires Tiled(t, size) && lo < hi <= |t| && m != []
    requires m[0].addr == t[lo].addr && m[|m| - 1].addr + m[|m| - 1].size == t[hi - 1].addr + t[hi - 1].size
    requires forall i :: 0 <= i < |m| ==> m[i].size > 0
    requires forall i, j :: 0 <= i && i + 1 == j < |m| ==> m[i].addr + m[i].size == m[j].addr
    ensures Tiled(Splice(t, lo, hi, m), size)
  {
    var r := Splice(t, lo, hi, m);
    SpliceAt(t, lo, hi, m, 0);
    SpliceAt(t, lo, hi, m, |r| - 1);
    forall i | 0 <= i < |r| ensures r[i].size > 0 {
      SpliceAt(t, lo, hi, m, i);
    }
    forall i, j | 0 <= i && i + 1 == j < |r| ensures r[i].addr + r[i].size == r[j].addr {
      SpliceJoins(t, size, lo, hi, m, i);
    }
  }

  lemma {:induction false} SpliceJoins(t: seq<Block>, size: int, lo: nat, hi: nat, m: seq<Block>, i: nat)
    requires Tiled(t, size) && lo < hi <= |t| && m != [] && i + 1 < lo + |m| + |t| - hi
    requires m[0].addr == t[lo].addr && m[|m| - 1].addr + m[|m| - 1].size == t[hi - 1].addr + t[hi - 1].size
    requires forall i, j :: 0 <= i && i + 1 == j < |m| ==> m[i].addr + m[i].size == m[j].addr
    ensures var r := Splice(t, lo, hi, m);
            |r| == lo + |m| + |t| - hi && r[i].addr + r[i].size == r[i + 1].addr
  {
    SpliceAt(t, lo, hi, m, i);
    SpliceAt(t, lo, hi, m, i + 1);
    if i + 1 <= lo {
      assert t[i].addr + t[i].size == t[i + 1].addr;
    } else if i + 1 < lo + |m| {
      assert m[i - lo].addr + m[i - lo].size == m[i + 1 - lo].addr;
    } else {
      var k := i - lo - |m| + hi;
      assert t[k].addr + t[k].size == t[k + 1].addr;
    }
  }

  lemma {:induction false} CoalescedSplice(t: seq<Block>, lo: nat, hi: nat, m: seq<Block>)
    requires Coalesced(t) && Coalesced(m) && lo < hi <= |t| && m != []
    requires lo == 0 || !(t[lo - 1].free && m[0].free)
    requires hi == |t| || !(m[|m| - 1].free && t[hi].free)
    ensures Coalesced(Splice(t, lo, hi, m))
  {
    var r := Splice(t, lo, hi, m);
    forall i, j | 0 <= i && i + 1 == j < |r| ensures !(r[i].free && r[j].free) {
      SpliceAt(t, lo, hi, m, i);
      SpliceAt(t, lo, hi, m, j);
    }
  }

  // ----- the invariant is kept -----

  /** The blocks that replace block `idx` on allocation. */
  function Parts(b: Block, name: string, size: int): seq<Block> {
    if size == b.size then [b.(free := false, name := name)]
    else [Block(false, b.addr, size, name, false), b.(addr := b.addr + size, size := b.size - size)]
  }

  lemma {:induction false} AllocAtSplices(t: seq<Block>, idx: nat, name: string, size: int)
    requires idx < |t|
    ensures AllocAt(t, idx, name, size) == Splice(t, idx, idx + 1, Parts(t[idx], name, size))
  {
  }

  /** Allocating from a block that fits keeps the invariant exactly for positive sizes. */
  lemma {:induction false} AllocationKeepsInv(t: seq<Block>, size: int, idx: nat, name: string, n: int)
    requires Inv(t, size) && idx < |t| && Fits(t[idx], n)
    ensures Inv(AllocAt(t, idx, name, n), size) <==> n > 0
  {
    AllocAtSplices(t, idx, name, n);
    var m := Parts(t[idx], name, n);
    if n > 0 {
      TiledSplice(t, size, idx, idx + 1, m);
      CoalescedSplice(t, idx, idx + 1, m);
    } else {
      assert AllocAt(t, idx, name, n)[idx].size == n;
    }
  }

  /** What is freed is the block and its free neighbours, as one block. */
  function Low(t: seq<Block>, idx: nat): nat
    requires idx < |t|
  {
    if idx > 0 && t[idx - 1].free then idx - 1 else idx
  }

  function High(t: seq<Block>, idx: nat): nat
    requires idx < |t|
  {
    if idx + 1 < |t| && t[idx + 1].free then idx + 2 else idx + 1
  }

  function Merged(t: seq<Block>, idx: nat): Block
    requires idx < |t|
  {
    var lo, last := t[Low(t, idx)], t[High(t, idx) - 1];
    Block(true, lo.addr, last.addr + last.size - lo.addr, t[idx].name, true)
  }

  lemma {:induction false} MarkTiled(t: seq<Block>, size: int, idx: nat)
    requires Tiled(t, size) && idx < |t|
    ensures Tiled(Mark(t, idx), size)
  {
  }

  /** Block `idx`, free and extended over a free next block. */
  function Extended(t: seq<Block>, idx: nat): Block
    requires idx < |t|
  {
    var last := t[High(t, idx) - 1];
    Block(true, t[idx].addr, last.addr + last.size - t[idx].addr, t[idx].name, true)
  }

  lemma {:induction false} AfterNext(t: seq<Block>, size: int, idx: nat)
    requires Tiled(t, size) && idx + 1 < |t|
    ensures MergeNext(Mark(t, idx), idx) == WithExtended(t, idx)
  {
    MarkTiled(t, size, idx);
    if t[idx + 1].free {
      MergesNext(Mark(t, idx), size, idx);
      assert t[idx].addr + t[idx].size == t[idx + 1].addr;
    }
  }

  lemma {:induction false} ExtendedTiled(t: seq<Block>, size: int, idx: nat)
    requires Tiled(t, size) && idx < |t|
    ensures Tiled(WithExtended(t, idx), size)
  {
    if High(t, idx) == idx + 2 {
      assert t[idx].addr + t[idx].size == t[idx + 1].addr;
    }
    TiledSplice(t, size, idx, High(t, idx), [Extended(t, idx)]);
  }

  function WithExtended(t: seq<Block>, idx: nat): seq<Block>
    requires idx < |t|
  {
    Splice(t, idx, High(t, idx), [Extended(t, idx)])
  }

  lemma {:induction false} ReleaseSteps(t: seq<Block>, size: int, idx: nat)
    requires Tiled(t, size) && idx < |t| && |t| > 1
    ensures Release(t, idx) == if idx == 0 then WithExtended(t, idx) else MergePrevious(WithExtended(t, idx), idx)
  {
    if idx + 1 < |t| {
      AfterNext(t, size, idx);
    } else {
      assert Mark(t, idx) == WithExtended(t, idx);
    }
  }

  /** The table with the block and its free neighbours as one block. */
  function WithMerged(t: seq<Block>, idx: nat): seq<Block>
    requires idx < |t|
  {
    Splice(t, Low(t, idx), High(t, idx), [Merged(t, idx)])
  }

  lemma {:induction false} SpliceSlices(t: seq<Block>, idx: nat, hi: nat, e: Block)
    requires 0 < idx < hi <= |t|
    ensures var r := Splice(t, idx, hi, [e]);
            && |r| == |t| - (hi - idx) + 1 && r[idx - 1] == t[idx - 1] && r[idx] == e
            && r[..idx - 1] == t[..idx - 1] && r[idx + 1..] == t[hi..]
  {
  }

  lemma {:induction false} MergedSplice(t: seq<Block>, t2: seq<Block>, size: int, idx: nat, hi: nat, e: Block)
    requires 0 < idx < hi <= |t| && t2 == Splice(t, idx, hi, [e]) && Tiled(t2, size) && t[idx - 1].free
    ensures var b := t[idx - 1];
            idx < |t2| && MergePrevious(t2, idx)
                          == Splice(t, idx - 1, hi, [e.(addr := b.addr, size := e.size + b.size)])
  {
    SpliceSlices(t, idx, hi, e);
    MergesPrevious(t2, size, idx);
  }

  lemma {:induction false} UnmergedSplice(t: seq<Block>, t2: seq<Block>, idx: nat, hi: nat, e: Block)
    requires 0 < idx < hi <= |t| && t2 == Splice(t, idx, hi, [e]) && !t[idx - 1].free
    ensures idx < |t2| && MergePrevious(t2, idx) == t2
  {
    SpliceSlices(t, idx, hi, e);
    NothingBefore(t2, idx);
  }

  lemma {:induction false} AfterPrevious(t: seq<Block>, size: int, idx: nat)
    requires Tiled(t, size) && 0 < idx < |t|
    ensures MergePrevious(WithExtended(t, idx), idx) == WithMerged(t, idx)
  {
    var t2 := WithExtended(t, idx);
    if t[idx - 1].free {
      ExtendedTiled(t, size, idx);
      MergedSplice(t, t2, size, idx, High(t, idx), Extended(t, idx));
      PreviousMerged(t, size, idx);
    } else {
      UnmergedSplice(t, t2, idx, High(t, idx), Extended(t, idx));
    }
  }

  lemma {:induction false} NothingBefore(t: seq<Block>, idx: nat)
    requires 0 < idx < |t| && !t[idx - 1].free
    ensures MergePrevious(t, idx) == t
  {
  }

  lemma {:induction false} PreviousMerged(t: seq<Block>, size: int, idx: nat)
    requires Tiled(t, size) && 0 < idx < |t| && t[idx - 1].free
    ensures var e, b := Extended(t, idx), t[idx - 1];
            Splice(t, idx - 1, High(t, idx), [e.(addr := b.addr, size := e.size + b.size)]) == WithMerged(t, idx)
  {
    assert t[idx - 1].addr + t[idx - 1].size == t[idx].addr;
  }

  /** Freeing merges the block with its free neighbours and changes nothing else. */
  lemma {:induction false} ReleaseCoalesces(t: seq<Block>, size: int, idx: nat)
    requires Tiled(t, size) && idx < |t| && |t| > 1
    ensures Release(t, idx) == WithMerged(t, idx)
  {
    ReleaseSteps(t, size, idx);
    if idx > 0 {
      AfterPrevious(t, size, idx);
    }
  }

  lemma {:induction false} ReleaseKeepsInv(t: seq<Block>, size: int, idx: nat)
    requires Inv(t, size) && idx < |t| && |t| > 1
    ensures Inv(Release(t, idx), size)
  {
    ReleaseCoalesces(t, size, idx);
    MergedKeepsInv(t, size, idx);
  }

  lemma {:induction false} MergedKeepsInv(t: seq<Block>, size: int, idx: nat)
    requires Inv(t, size) && idx < |t|
    ensures Inv(WithMerged(t, idx), size)
  {
    MergedExtent(t, size, idx);
    TiledSplice(t, size, Low(t, idx), High(t, idx), [Merged(t, idx)]);
    CoalescedSplice(t, Low(t, idx), High(t, idx), [Merged(t, idx)]);
  }

  lemma {:induction false} MergedExtent(t: seq<Block>, size: int, idx: nat)
    requires Inv(t, size) && idx < |t|
    ensures Merged(t, idx).size > 0
    ensures Low(t, idx) > 0 ==> !t[Low(t, idx) - 1].free
    ensures High(t, idx) < |t| ==> !t[High(t, idx)].free
  {
    var lo, hi := Low(t, idx), High(t, idx);
    assert lo < idx ==> t[lo].addr + t[lo].size == t[idx].addr;
    assert hi > idx + 1 ==> t[idx].addr + t[idx].size == t[hi - 1].addr;
  }

  lemma {:induction false} InvBounded(t: seq<Block>, size: int)
    requires Inv(t, size)
    ensures Bounded(t, size)
  {
    forall i | 0 <= i < |t| ensures t[i].size <= size {
      BlockFits(t, size, i);
    }
  }

  /** Cutting the block and inserting the new one before it is an allocation. */
  lemma {:induction false} InsertsBlock(t: seq<Block>, idx: nat, name: string, n: int)
    requires idx < |t| && n != t[idx].size
    ensures var cut := t[idx := t[idx].(addr := t[idx].addr + n, size := t[idx].size - n)];
            cut[..idx] + [Block(false, t[idx].addr, n, name, false)] + cut[idx..] == AllocAt(t, idx, name, n)
  {
    var cut := t[idx := t[idx].(addr := t[idx].addr + n, size := t[idx].size - n)];
    assert cut[idx..] == [cut[idx]] + t[idx + 1..] && cut[..idx] == t[..idx];
  }

  lemma {:induction false} AllocationBounded(t: seq<Block>, size: int, idx: nat, name: string, n: int)
    requires Bounded(t, size) && idx < |t| && Fits(t[idx], n)
    ensures n >= 0 ==> Bounded(AllocAt(t, idx, name, n), size)
  {
    AllocAtSplices(t, idx, name, n);
    var m := Parts(t[idx], name, n);
    var t' := Splice(t, idx, idx + 1, m);
    if n >= 0 {
      forall i | 0 <= i < |t'| ensures t'[i].size <= size {
        SpliceAt(t, idx, idx + 1, m, i);
      }
    }
  }

  lemma {:induction false} AllocationKeeps(t: seq<Block>, size: int, idx: nat, name: string, n: int)
    requires Bounded(t, size) && idx < |t| && Fits(t[idx], n)
    ensures n > 0 && Inv(t, size) ==> Inv(AllocAt(t, idx, name, n), size)
    ensures n >= 0 ==> Bounded(AllocAt(t, idx, name, n), size)
  {
    if Inv(t, size) {
      AllocationKeepsInv(t, size, idx, name, n);
    }
    AllocationBounded(t, size, idx, name, n);
  }

  // ----- the table -----

  class MemTable {
    const size: int
    const policy: Policy
    var table: seq<Block>

    constructor (size: int, policy: Policy)
      ensures this.size == size && this.policy == policy && table == Initial(size) && Bounded(table, size)
      ensures size > 0 ==> Inv(table, size)
    {
      this.size, this.policy := size, policy;
      table := [Block(true, 0, size, "", false)];
    }

    method GetBlkIdx(n: int) returns (idx: int)
      requires Bounded(table, size) && !policy.Unsupported?
      ensures PicksBy(policy, table, n, idx)
    {
      if policy == FirstFit {
        idx := PickFirst(table, n, size);
      } else {
        idx := PickBest(table, n, size);
      }
    }

    /** Returns what remains to be placed, and where the tensor went. */
    method Allocate(name: string, n: int) returns (remaining: int, p: Placement)
      requires Bounded(table, size)
      modifies this`table
      ensures policy.Unsupported? ==> p == NotImplemented && table == old(table)
      ensures !policy.Unsupported? ==> AllocatesBy(policy, old(table), name, n, table, p)
      ensures !policy.Unsupported? ==> Allocates(old(table), name, n, table, p)
      ensures remaining == if p.Placed? then 0 else n
      ensures n > 0 && Inv(old(table), size) ==> Inv(table, size)
      ensures n >= 0 ==> Bounded(table, size)
    {
      if policy.Unsupported? {
        return n, NotImplemented;
      }
      var idx := GetBlkIdx(n);
      assert PicksBy(policy, old(table), n, idx) && Picks(old(table), n, idx);
      if idx == -1 {
        return n, OutOfMemory;
      }
      AllocationKeeps(table, size, idx, name, n);
      var addr := table[idx].addr;
      TakeFrom(idx, name, n);
      return 0, Placed(addr);
    }

    /** Takes the tensor from the start of block `idx`. */
    method TakeFrom(idx: nat, name: string, n: int)
      requires idx < |table|
      modifies this`table
      ensures table == AllocAt(old(table), idx, name, n)
    {
      if n == table[idx].size {
        table := table[idx := table[idx].(free := false, name := name)];
      } else {
        var block := Block(false, table[idx].addr, n, name, false);
        InsertsBlock(table, idx, name, n);
        table := table[idx := table[idx].(addr := table[idx].addr + n, size := table[idx].size - n)];
        table := table[..idx] + [block] + table[idx..];
      }
    }

    method Deallocate(name: string) returns (r: Deallocation)
      requires table != []
      modifies this`table
      ensures (r, table) == AfterDeallocate(old(table), name)
      ensures Inv(old(table), size) ==> Inv(table, size) && Bounded(table, size)
    {
      if |table| == 1 {
        if Inv(table, size) {
          InvBounded(table, size);
        }
        return if table[0].name != name then NotFound else Crashed;
      }
      for idx := 0 to |table|
        invariant table == old(table)
        invariant forall j :: 0 <= j < idx ==> table[j].name != name
      {
        if table[idx].name == name {
          assert Find(table, name) == idx;
          if Inv(table, size) {
            ReleaseKeepsInv(table, size, idx);
            InvBounded(Release(table, idx), size);
          }
          FreeBlock(idx);
          return Freed;
        }
      }
      if Inv(table, size) {
        InvBounded(table, size);
      }
      return NotFound;
    }

    method AbsorbNext(idx: nat)
      requires idx + 1 < |table|
      modifies this`table
      ensures table == MergeNext(old(table), idx)
    {
      if table[idx + 1].free {
        table := table[idx := table[idx].(size := table[idx].size + table[idx + 1].size)];
        table := RemoveValue(table, table[idx + 1]);
      }
    }

    method AbsorbPrevious(idx: nat)
      requires 0 < idx < |table|
      modifies this`table
      ensures table == MergePrevious(old(table), idx)
    {
      if table[idx - 1].free {
        var grown := table[idx].size + table[idx - 1].size;
        table := table[idx := table[idx].(addr := table[idx - 1].addr, size := grown)];
        table := RemoveValue(table, table[idx - 1]);
      }
    }

    method FreeBlock(idx: nat)
      requires idx < |table| && |table| > 1
      modifies this`table
      ensures table == Release(old(table), idx)
    {
      table := table[idx := table[idx].(free := true, cleared := true)];
      if idx == 0 {
        AbsorbNext(idx);
      } else if idx == |table| - 1 {
        AbsorbPrevious(idx);
      } else {
        AbsorbNext(idx);
        AbsorbPrevious(idx);
      }
    }
  }

  // ----- every run -----

  function Initial(size: int): seq<Block> {
    [Block(true, 0, size, "", false)]
  }

  /** An allocation takes some block that fits, whatever the policy, and fails only if there is none. */
  ghost predicate Allocates(t: seq<Block>, name: string, n: int, t': seq<Block>, p: Placement) {
    exists idx :: Picks(t, n, idx) &&
                  if idx == -1 then t' == t && p == OutOfMemory
                  else t' == AllocAt(t, idx, name, n) && p == Placed(t[idx].addr)
  }

  /** The same from the block that the policy chooses. */
  ghost predicate AllocatesBy(policy: Policy, t: seq<Block>, name: string, n: int, t': seq<Block>, p: Placement) {
    exists idx :: PicksBy(policy, t, n, idx) &&
                  if idx == -1 then t' == t && p == OutOfMemory
                  else t' == AllocAt(t, idx, name, n) && p == Placed(t[idx].addr)
  }

  datatype Request = Allocate(name: string, size: int) | Free(name: string)

  ghost predicate Step(t: seq<Block>, r: Request, t': seq<Block>)
    requires t != []
  {
    match r
    case Allocate(name, n) => exists p :: Allocates(t, name, n, t', p)
    case Free(name) => t' == AfterDeallocate(t, name).1
  }

  lemma {:induction false} StepKeepsInv(t: seq<Block>, size: int, r: Request, t': seq<Block>)
    requires Inv(t, size) && Step(t, r, t') && (r.Allocate? ==> r.size > 0)
    ensures Inv(t', size)
  {
    match r
    case Allocate(name, n) =>
      var p :| Allocates(t, name, n, t', p);
      var idx :| Picks(t, n, idx) && if idx == -1 then t' == t && p == OutOfMemory
                                     else t' == AllocAt(t, idx, name, n) && p == Placed(t[idx].addr);
      if idx != -1 {
        AllocationKeepsInv(t, size, idx, name, n);
      }
    case Free(name) =>
      if |t| > 1 && Find(t, name) < |t| {
        ReleaseKeepsInv(t, size, Find(t, name));
      }
  }

  /** The tables a sequence of requests can go through. */
  ghost predicate Run(size: int, rs: seq<Request>, ts: seq<seq<Block>>) {
    && |ts| == |rs| + 1 && ts[0] == Initial(size)
    && forall i :: 0 <= i < |rs| ==> ts[i] != [] && Step(ts[i], rs[i], ts[i + 1])
  }

  /** In every run, whatever is allocated and freed under whatever names, the blocks cover the memory without
      gap or overlap and no two free blocks are neighbours. */
  lemma {:induction false} RunKeepsInv(size: int, rs: seq<Request>, ts: seq<seq<Block>>, i: nat)
    requires size > 0 && Run(size, rs, ts) && i < |ts|
    requires forall j :: 0 <= j < |rs| && rs[j].Allocate? ==> rs[j].size > 0
    ensures Inv(ts[i], size)
  {
    if i > 0 {
      RunKeepsInv(size, rs, ts, i - 1);
      StepKeepsInv(ts[i - 1], size, rs[i - 1], ts[i]);
    }
  }

  // ----- allocating and freeing again -----

  function Layout(t: seq<Block>): seq<(bool, int, int)> {
    seq(|t|, i requires 0 <= i < |t| => (t[i].free, t[i].addr, t[i].size))
  }

  /** Freeing leaves every other allocated block as it is. */
  lemma {:induction false} OthersStay(t: seq<Block>, size: int, k: nat, i: nat)
    requires Inv(t, size) && |t| > 1 && k < |t| && i < |t| && i != k && !t[i].free
    ensures t[i] in Release(t, k)
  {
    ReleaseCoalesces(t, size, k);
    var lo, hi := Low(t, k), High(t, k);
    SpliceAt(t, lo, hi, [Merged(t, k)], if i < lo then i else i - hi + lo + 1);
  }

  /** No block of the table before `idx` carries the name. */
  predicate NameIsNew(t: seq<Block>, idx: nat, name: string)
    requires idx <= |t|
  {
    forall i :: 0 <= i < idx ==> t[i].name != name
  }

  lemma {:induction false} FindIs(t: seq<Block>, name: string, i: nat)
    requires i < |t| && t[i].name == name
    ensures Find(t, name) <= i
    ensures NameIsNew(t, i, name) ==> Find(t, name) == i
  {
  }

  lemma {:induction false} AllocAtBefore(t: seq<Block>, idx: nat, name: string, n: int)
    requires idx < |t|
    ensures |AllocAt(t, idx, name, n)| == if n == t[idx].size then |t| else |t| + 1
    ensures forall i :: 0 <= i < idx ==> AllocAt(t, idx, name, n)[i] == t[i]
    ensures var b := AllocAt(t, idx, name, n)[idx];
            b.name == name && !b.free && b.addr == t[idx].addr && b.size == n
  {
  }

  lemma {:induction false} FreesFirst(t: seq<Block>, name: string, i: nat)
    requires |t| > 1 && i < |t| && Find(t, name) == i
    ensures AfterDeallocate(t, name) == (Freed, Release(t, i))
  {
  }

  lemma {:induction false} RestoresLayout(t: seq<Block>, size: int, idx: nat, name: string, n: int)
    requires Inv(t, size) && idx < |t| && Fits(t[idx], n) && n > 0
    requires NameIsNew(t, idx, name) && !(|t| == 1 && n == size)
    ensures Layout(AfterDeallocate(AllocAt(t, idx, name, n), name).1) == Layout(t)
  {
    var t1 := AllocAt(t, idx, name, n);
    AllocationKeepsInv(t, size, idx, name, n);
    AllocAtBefore(t, idx, name, n);
    FindIs(t1, name, idx);
    FreesFirst(t1, name, idx);
    ReleaseCoalesces(t1, size, idx);
    ReleasedLayout(t, t1, idx, name, n);
  }

  lemma {:induction false} ReleasedLayout(t: seq<Block>, t1: seq<Block>, idx: nat, name: string, n: int)
    requires Coalesced(t) && idx < |t| && Fits(t[idx], n) && t1 == AllocAt(t, idx, name, n)
    ensures Layout(WithMerged(t1, idx)) == Layout(t)
  {
    var e := Merged(t1, idx);
    if n == t[idx].size {
      ExactReleased(t, t1, idx, name);
    } else {
      SplitReleased(t, t1, idx, name, n);
    }
    SameLayout(t, idx, e);
  }

  lemma {:induction false} SameLayout(t: seq<Block>, idx: nat, e: Block)
    requires idx < |t| && e.free == t[idx].free && e.addr == t[idx].addr && e.size == t[idx].size
    ensures Layout(t[idx := e]) == Layout(t)
  {
  }

  lemma {:induction false} ExactReleased(t: seq<Block>, t1: seq<Block>, idx: nat, name: string)
    requires Coalesced(t) && idx < |t| && t[idx].free && t1 == AllocAt(t, idx, name, t[idx].size)
    ensures WithMerged(t1, idx) == t[idx := Merged(t1, idx)]
    ensures Merged(t1, idx).addr == t[idx].addr && Merged(t1, idx).size == t[idx].size
  {
    assert idx > 0 ==> !t[idx - 1].free;
    assert idx + 1 < |t| ==> !t[idx + 1].free;
    assert Low(t1, idx) == idx && High(t1, idx) == idx + 1;
  }

  lemma {:induction false} SplitReleased(t: seq<Block>, t1: seq<Block>, idx: nat, name: string, n: int)
    requires Coalesced(t) && idx < |t| && t[idx].free && n != t[idx].size && t1 == AllocAt(t, idx, name, n)
    ensures WithMerged(t1, idx) == t[idx := Merged(t1, idx)]
    ensures Merged(t1, idx).addr == t[idx].addr && Merged(t1, idx).size == t[idx].size
  {
    assert idx > 0 ==> !t[idx - 1].free && t1[idx - 1] == t[idx - 1];
    assert t1[idx + 1].free && t1[idx + 2..] == t[idx + 1..] && t1[..idx] == t[..idx];
    assert Low(t1, idx) == idx && High(t1, idx) == idx + 2;
  }

  /** Freeing by a name that an earlier block carries leaves the new block where it is. */
  lemma {:induction false} StaysPlaced(t: seq<Block>, size: int, idx: nat, name: string, n: int) returns (j: nat)
    requires Inv(t, size) && idx < |t| && Fits(t[idx], n) && n > 0
    requires !NameIsNew(t, idx, name) || (|t| == 1 && n == size)
    ensures var t2 := AfterDeallocate(AllocAt(t, idx, name, n), name).1;
            j < |t2| && !t2[j].free && t2[j].addr == t[idx].addr
  {
    var t1 := AllocAt(t, idx, name, n);
    AllocationKeepsInv(t, size, idx, name, n);
    AllocAtBefore(t, idx, name, n);
    if |t1| > 1 {
      var i :| 0 <= i < idx && t[i].name == name;
      FindIs(t1, name, i);
      FreesFirst(t1, name, Find(t1, name));
      OthersStay(t1, size, Find(t1, name), idx);
      var t2 := Release(t1, Find(t1, name));
      j :| 0 <= j < |t2| && t2[j] == t1[idx];
    } else {
      j := 0;
    }
  }

  lemma {:induction false} KeepsOther(t: seq<Block>, size: int, idx: nat, name: string, n: int)
    requires Inv(t, size) && idx < |t| && Fits(t[idx], n) && n > 0
    requires !NameIsNew(t, idx, name) || (|t| == 1 && n == size)
    ensures Layout(AfterDeallocate(AllocAt(t, idx, name, n), name).1) != Layout(t)
  {
    var j := StaysPlaced(t, size, idx, name, n);
    var t2 := AfterDeallocate(AllocAt(t, idx, name, n), name).1;
    if Layout(t2) == Layout(t) {
      assert Layout(t2)[j] == (false, t[idx].addr, t2[j].size);
      assert Layout(t)[j] == (t[j].free, t[j].addr, t[j].size);
      AddressesDiffer(t, size, j, idx);
      assert false;
    }
  }

  lemma {:induction false} AddressesDiffer(t: seq<Block>, size: int, i: nat, j: nat)
    requires Tiled(t, size) && i < |t| && j < |t| && t[i].addr == t[j].addr
    ensures i == j
  {
    if i < j {
      AddressesIncrease(t, size, i, j);
    } else if j < i {
      AddressesIncrease(t, size, j, i);
    }
  }

  /** Allocating a tensor and freeing it restores the layout of the table if and only if no earlier block
      carries the tensor's name, used or left over, and the tensor does not fill a table of one block. */
  lemma {:induction false} FreeUndoesAllocExactlyWhen(t: seq<Block>, size: int, idx: nat, name: string, n: int)
    requires Inv(t, size) && idx < |t| && Fits(t[idx], n) && n > 0
    ensures Layout(AfterDeallocate(AllocAt(t, idx, name, n), name).1) == Layout(t) <==>
            NameIsNew(t, idx, name) && !(|t| == 1 && n == size)
  {
    if NameIsNew(t, idx, name) && !(|t| == 1 && n == size) {
      RestoresLayout(t, size, idx, name, n);
    } else {
      KeepsOther(t, size, idx, name, n);
    }
  }

  /** The requests that lead to the table below, and the tables they go through. */
  function LeakRequests(): seq<Request> {
    [Allocate("a", 10), Allocate("b", 5), Free("a")]
  }

  function LeakTable(): seq<Block> {
    [Block(true, 0, 10, "a", true), Block(false, 10, 5, "b", false), Block(true, 15, 5, "", false)]
  }

  function LeakTables(): seq<seq<Block>> {
    [Initial(20),
     [Block(false, 0, 10, "a", false), Block(true, 10, 10, "", false)],
     [Block(false, 0, 10, "a", false), Block(false, 10, 5, "b", false), Block(true, 15, 5, "", false)],
     LeakTable()]
  }

  lemma {:induction false} Allocated(t: seq<Block>, idx: nat, name: string, n: int, t': seq<Block>)
    requires idx < |t| && Fits(t[idx], n) && t' == AllocAt(t, idx, name, n)
    ensures Step(t, Allocate(name, n), t')
  {
    assert Picks(t, n, idx);
    assert Allocates(t, name, n, t', Placed(t[idx].addr));
  }

  lemma {:induction false} LeakIsReached()
    ensures Run(20, LeakRequests(), LeakTables())
  {
    var ts, rs := LeakTables(), LeakRequests();
    LeakAllocated(ts[1], ts[2]);
    LeakFreed(ts[2]);
    assert Step(ts[0], rs[0], ts[1]) && Step(ts[1], rs[1], ts[2]) && Step(ts[2], rs[2], ts[3]);
  }

  lemma {:induction false} LeakAllocated(t: seq<Block>, t': seq<Block>)
    requires t == [Block(false, 0, 10, "a", false), Block(true, 10, 10, "", false)]
    requires t' == [Block(false, 0, 10, "a", false), Block(false, 10, 5, "b", false), Block(true, 15, 5, "", false)]
    ensures Step(Initial(20), Allocate("a", 10), t) && Step(t, Allocate("b", 5), t')
  {
    Allocated(Initial(20), 0, "a", 10, t);
    assert t' == AllocAt(t, 1, "b", 5);
    Allocated(t, 1, "b", 5, t');
  }

  lemma {:induction false} LeakFreed(t: seq<Block>)
    requires t == [Block(false, 0, 10, "a", false), Block(false, 10, 5, "b", false), Block(true, 15, 5, "", false)]
    ensures AfterDeallocate(t, "a").1 == LeakTable()
  {
    FindIs(t, "a", 0);
    FreesFirst(t, "a", 0);
    assert Release(t, 0) == Mark(t, 0);
  }

  /** A name left over on a free block is enough to lose a tensor.  In the table that allocating "a" and "b" and
      freeing "a" leads to, best fit puts another "a" behind "b"; freeing it reports success and leaves it
      allocated. */
  lemma {:induction false} StaleNameLeaks()
    ensures Run(20, LeakRequests(), LeakTables()) && LeakTables()[3] == LeakTable()
    ensures Picks(LeakTable(), 5, 2) && LeakTable()[2].size <= LeakTable()[0].size
    ensures var t := AllocAt(LeakTable(), 2, "a", 5);
            AfterDeallocate(t, "a").0 == Freed && Layout(AfterDeallocate(t, "a").1) == Layout(t)
  {
    LeakIsReached();
    var t := AllocAt(LeakTable(), 2, "a", 5);
    FindIs(t, "a", 0);
    assert Release(t, 0) == Mark(t, 0);
  }
}
