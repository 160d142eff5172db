/** The dynamic tensor allocator of `ggml-alloc.c`: up to 16 chunks, each with a
    table of at most 256 free blocks that is searched, shifted and merged in place.

    A GGML_ASSERT or GGML_ABORT that would stop the process is an `ok == false`
    result here, and the contracts say when it can happen.
 */
module DynTallocr {
  import opened Alignment
  import opened FreeSpace

  const MAX_FREE_BLOCKS: nat := 256
  const MAX_CHUNKS: nat := 16
  const SIZE_MAX: nat := 0xFFFF_FFFF_FFFF_FFFF
  const HALF_MAX: nat := SIZE_MAX / 2

  /** An address inside one allocator: a chunk and an offset in it. */
  datatype Address = Address(chunk: nat, offset: nat)

  /** A live range of one allocator. */
  datatype Range = Range(chunk: nat, block: Block)

  // ---------- the state of a chunk, as a value ----------

  datatype View = View(free: seq<Block>, live: set<Block>, cap: nat, maxSize: nat)

  ghost predicate Ok(v: View, a: nat) {
    && a > 0
    && Tiles(v.free, v.live, v.cap, v.maxSize)
    && AlignedTiles(v.free, v.live, a)
  }

  ghost predicate AlignedTiles(free: seq<Block>, live: set<Block>, a: nat)
    requires a > 0
  {
    && (forall i :: 0 <= i < |free| ==> free[i].offset % a == 0)
    && (forall r :: r in live ==> r.offset % a == 0 && r.size % a == 0)
  }

  ghost function Taken(v: View, i: nat, size: nat): View
    requires i < |v.free| && size <= v.free[i].size
  {
    var got := Block(v.free[i].offset, size);
    View(Take(v.free, i, size), v.live + {got}, v.cap, if v.maxSize < got.End() then got.End() else v.maxSize)
  }

  ghost function Returned(v: View, whole: Block, q: Block): View
    requires whole.offset <= q.offset
  {
    v.(free := Freed(v.free, q, 0), live := Released(v.live, whole, q))
  }

  /** An allocation keeps the chunk tiled and is apart from everything live in it. */
  lemma TakenOk(v: View, a: nat, i: nat, size: nat)
    requires Ok(v, a) && i < |v.free| && 0 < size <= v.free[i].size && size % a == 0
    ensures Ok(Taken(v, i, size), a)
    ensures forall r :: r in v.live ==> Apart(r, Block(v.free[i].offset, size))
  {
    TakeKeepsTiling(v.free, v.live, v.cap, v.maxSize, i, size);
    SumAligned(v.free[i].offset, size, a);
  }

  lemma ReturnedOk(v: View, a: nat, whole: Block, q: Block)
    requires Ok(v, a) && whole in v.live && IsTail(whole, q) && q.offset % a == 0
    ensures Ok(Returned(v, whole, q), a)
  {
    FreedKeepsTiling(v.free, v.live, v.cap, v.maxSize, whole, q, 0);
    FreedOffsets(v.free, q, 0, a);
    DifferenceAligned(q.offset, whole.offset, a);
  }

  // ---------- one chunk ----------

  class Chunk {
    const blocks: array<Block>
    var n: nat
    var maxSize: nat
    ghost var v: View

    ghost predicate Valid()
      reads this, blocks
    {
      && blocks.Length == MAX_FREE_BLOCKS
      && n <= MAX_FREE_BLOCKS
      && v.free == blocks[..n]
      && v.maxSize == maxSize
    }

    ghost function Free(): seq<Block>
      requires n <= blocks.Length
      reads this, blocks
    {
      blocks[..n]
    }

    constructor (capacity: nat)
      ensures Valid() && fresh(blocks)
      ensures v == View([Block(0, capacity)], {}, capacity, 0)
    {
      blocks := new Block[MAX_FREE_BLOCKS](_ => Block(0, 0));
      n := 1;
      maxSize := 0;
      v := View([Block(0, capacity)], {}, capacity, 0);
      new;
      blocks[0] := Block(0, capacity);
    }

    /** Shifts everything from the insertion point up by one and writes the new block there. */
    method InsertBlock(b: Block) returns (ok: bool)
      requires n <= blocks.Length == MAX_FREE_BLOCKS
      modifies this`n, blocks
      ensures ok == (old(n) < MAX_FREE_BLOCKS)
      ensures ok ==> n == old(n) + 1
      ensures ok ==> var f := old(Free()); var at := InsertAt(f, b, 0); Free() == Splice(f, at, at, b)
    {
      if n >= MAX_FREE_BLOCKS {
        return false;
      }
      var at := FindSlot(b);
      OpenSlot(at, b);
      n := n + 1;
      ok := true;
    }

    method OpenSlot(at: nat, b: Block)
      requires at <= n < blocks.Length
      modifies blocks
      ensures blocks[..n + 1] == old(blocks[..at]) + [b] + old(blocks[at..n])
    {
      ShiftUp(at);
      blocks[at] := b;
      assert blocks[..n + 1] == blocks[..at] + [blocks[at]] + blocks[at + 1..n + 1];
    }

    method FindSlot(b: Block) returns (at: nat)
      requires n <= blocks.Length
      ensures at == InsertAt(Free(), b, 0)
    {
      at := 0;
      while at < n && blocks[at].offset < b.offset
        invariant at <= n
        invariant InsertAt(Free(), b, 0) == InsertAt(Free(), b, at)
      {
        at := at + 1;
      }
    }

    /** Opens a slot at `at` by moving every later block up by one. */
    method ShiftUp(at: nat)
      requires at <= n < blocks.Length
      modifies blocks
      ensures blocks[..at] == old(blocks[..at]) && blocks[at + 1..n + 1] == old(blocks[at..n])
    {
      var i := n;
      while i > at
        invariant at <= i <= n
        invariant forall k :: 0 <= k < n && k <= i ==> blocks[k] == old(blocks[k])
        invariant forall k :: i < k <= n ==> blocks[k] == old(blocks[k - 1])
      {
        blocks[i] := blocks[i - 1];
        i := i - 1;
      }
    }

    /** Shifts everything above `idx` down by one. The loop goes one step too far: `top` is the largest
        index read, which is the number of blocks, so a full table is read past its end. What is there
        is anything, and goes to a slot that is no longer in use. */
    method RemoveBlock(idx: nat) returns (ghost top: nat)
      requires idx < n <= blocks.Length == MAX_FREE_BLOCKS
      modifies this`n, blocks
      ensures n == old(n) - 1
      ensures Free() == old(Free())[..idx] + old(Free())[idx + 1..]
      ensures top == old(n) && (top == MAX_FREE_BLOCKS <==> old(n) == MAX_FREE_BLOCKS)
    {
      var i := idx;
      top := 0;
      while i < n
        invariant idx <= i <= n == old(n) && top == if i == idx then 0 else i
        invariant forall k :: 0 <= k < idx ==> blocks[k] == old(blocks[k])
        invariant forall k :: idx <= k < i && k < n - 1 ==> blocks[k] == old(blocks[k + 1])
        invariant forall k :: i <= k < n ==> blocks[k] == old(blocks[k])
      {
        var next: Block := *;
        if i + 1 < MAX_FREE_BLOCKS {
          next := blocks[i + 1];
        }
        top := i + 1;
        blocks[i] := next;
        i := i + 1;
      }
      n := n - 1;
    }

    /** Cuts `size` off the front of free block `idx`; a block used up is removed. */
    method TakeFrom(idx: nat, size: nat) returns (offset: nat, ghost top: nat)
      requires Valid() && idx < n && size <= blocks[idx].size
      modifies this, blocks
      ensures Valid() && offset == old(v.free)[idx].offset
      ensures v == Taken(old(v), idx, size)
      ensures top == if old(v.free)[idx].size == size then old(n) else 0
    {
      offset := blocks[idx].offset;
      blocks[idx] := Block(offset + size, blocks[idx].size - size);
      top := 0;
      if blocks[idx].size == 0 {
        top := RemoveBlock(idx);
      }
      maxSize := if maxSize < offset + size then offset + size else maxSize;
      v := Taken(v, idx, size);
    }

    /** Returns `q`, a live range or the tail of one, to the free list. */
    method Release(q: Block, ghost whole: Block) returns (ok: bool)
      requires Valid() && whole.offset <= q.offset
      modifies this, blocks
      ensures !ok ==> old(n) == MAX_FREE_BLOCKS
      ensures ok ==> Valid() && v == Returned(old(v), whole, q)
    {
      ok := AddFree(q);
      v := Returned(v, whole, q);
    }

    /** Puts `q` on the free list, merging it with the blocks it touches. */
    method AddFree(q: Block) returns (ok: bool)
      requires n <= blocks.Length == MAX_FREE_BLOCKS
      modifies this`n, blocks
      ensures !ok ==> old(n) == MAX_FREE_BLOCKS
      ensures ok ==> n <= MAX_FREE_BLOCKS && Free() == Freed(old(Free()), q, 0)
    {
      var i := 0;
      while i < n
        invariant i <= n
        invariant Untouched(q, i)
        invariant Freed(Free(), q, 0) == Freed(Free(), q, i)
      {
        if blocks[i].End() == q.offset {
          MergeBelow(i, q);
          return true;
        }
        if q.End() == blocks[i].offset {
          MergeAbove(i, q);
          return true;
        }
        i := i + 1;
      }
      ok := InsertBlock(q);
    }

    /** `q` touches none of the first `i` free blocks. */
    ghost predicate Untouched(q: Block, i: nat)
      requires i <= n <= blocks.Length
      reads this, blocks
    {
      forall k :: 0 <= k < i ==> blocks[k].End() != q.offset && q.End() != blocks[k].offset
    }

    /** Block `i` ends where `q` starts: extend it, and swallow the next one if they now touch. */
    method MergeBelow(i: nat, q: Block)
      requires i < n <= blocks.Length == MAX_FREE_BLOCKS
      modifies this`n, blocks
      ensures n <= old(n) && Free() == MergedBelow(old(Free()), i, q)
    {
      blocks[i] := Block(blocks[i].offset, blocks[i].size + q.size);
      if i < n - 1 && blocks[i].End() == blocks[i + 1].offset {
        blocks[i] := Block(blocks[i].offset, blocks[i].size + blocks[i + 1].size);
        ghost var top := RemoveBlock(i + 1);
      }
    }

    /** Block `i` starts where `q` ends: extend it downwards. The source then looks
        for a merge with the block before it, which never happens. */
    method MergeAbove(i: nat, q: Block)
      requires i < n <= blocks.Length == MAX_FREE_BLOCKS && Untouched(q, i)
      modifies this`n, blocks
      ensures n == old(n) && Free() == MergedAbove(old(Free()), i, q)
    {
      blocks[i] := Block(q.offset, q.size + blocks[i].size);
      if i > 0 && blocks[i - 1].End() == blocks[i].offset {
        assert false;
      }
    }
  }

  // ---------- which blocks a released range joins ----------

  /** The first index at or after `i` whose block does not start below `b`. */
  function InsertAt(f: seq<Block>, b: Block, i: nat): (at: nat)
    requires i <= |f|
    ensures i <= at <= |f|
    ensures forall k :: i <= k < at ==> f[k].offset < b.offset
    ensures at < |f| ==> b.offset <= f[at].offset
    decreases |f| - i
  {
    if i < |f| && f[i].offset < b.offset then InsertAt(f, b, i + 1) else i
  }

  /** The free list after `q` joined the first block it touches, from block `i` on. */
  function Freed(f: seq<Block>, q: Block, i: nat): seq<Block>
    requires i <= |f|
    decreases |f| - i
  {
    if i == |f| then
      var at := InsertAt(f, q, 0);
      Splice(f, at, at, q)
    else if f[i].End() == q.offset then MergedBelow(f, i, q)
    else if q.End() == f[i].offset then MergedAbove(f, i, q)
    else Freed(f, q, i + 1)
  }

  /** Releasing a live range, or the tail of one, keeps the chunk tiled. */
  lemma {:induction false} FreedKeepsTiling(f: seq<Block>, live: set<Block>, cap: nat, maxSize: nat,
                                            whole: Block, q: Block, i: nat)
    requires Tiles(f, live, cap, maxSize) && whole in live && IsTail(whole, q)
    requires i <= |f|
    requires forall k :: 0 <= k < i ==> f[k].End() != q.offset && q.End() != f[k].offset
    ensures Tiles(Freed(f, q, i), Released(live, whole, q), cap, maxSize)
    decreases |f| - i
  {
    if i == |f| {
      JoinsNone(f, live, cap, maxSize, whole, q, InsertAt(f, q, 0));
    } else if f[i].End() == q.offset {
      JoinsBelow(f, live, cap, maxSize, whole, q, i);
    } else if q.End() == f[i].offset {
      JoinsAbove(f, live, cap, maxSize, whole, q, i);
    } else {
      FreedKeepsTiling(f, live, cap, maxSize, whole, q, i + 1);
    }
  }

  lemma {:induction false} FreedOffsets(f: seq<Block>, q: Block, i: nat, a: nat)
    requires a > 0 && i <= |f| && q.offset % a == 0
    requires forall k :: 0 <= k < |f| ==> f[k].offset % a == 0
    ensures forall k :: 0 <= k < |Freed(f, q, i)| ==> Freed(f, q, i)[k].offset % a == 0
    decreases |f| - i
  {
    if i < |f| && f[i].End() != q.offset && q.End() != f[i].offset {
      FreedOffsets(f, q, i + 1, a);
    }
  }

  function MergedBelow(f: seq<Block>, i: nat, q: Block): seq<Block>
    requires i < |f|
  {
    var b := Block(f[i].offset, f[i].size + q.size);
    if i + 1 < |f| && b.End() == f[i + 1].offset then
      Splice(f, i, i + 2, Block(b.offset, b.size + f[i + 1].size))
    else
      Splice(f, i, i + 1, b)
  }

  function MergedAbove(f: seq<Block>, i: nat, q: Block): seq<Block>
    requires i < |f|
  {
    Splice(f, i, i + 1, Block(q.offset, q.size + f[i].size))
  }

  lemma JoinsBelow(f: seq<Block>, live: set<Block>, cap: nat, maxSize: nat, whole: Block, q: Block, i: nat)
    requires Tiles(f, live, cap, maxSize) && whole in live && IsTail(whole, q)
    requires i < |f| && f[i].End() == q.offset
    ensures Tiles(MergedBelow(f, i, q), Released(live, whole, q), cap, maxSize)
  {
    var b := Block(f[i].offset, f[i].size + q.size);
    var two := i + 1 < |f| && b.End() == f[i + 1].offset;
    var j, m := if two then i + 2 else i + 1, if two then Block(b.offset, b.size + f[i + 1].size) else b;
    assert MergedBelow(f, i, q) == Splice(f, i, j, m);
    assert Joins(f, i, j, m, q) by {
      TouchingIsUnique(f, live, cap, maxSize, whole, q);
      if two {
        JoinsTwo(f, cap, q, i, m);
      } else {
        JoinsOne(f, cap, q, i, m);
      }
    }
    SpliceKeepsTiling(f, live, cap, maxSize, whole, q, i, j, m);
  }

  lemma JoinsAbove(f: seq<Block>, live: set<Block>, cap: nat, maxSize: nat, whole: Block, q: Block, i: nat)
    requires Tiles(f, live, cap, maxSize) && whole in live && IsTail(whole, q)
    requires i < |f| && q.End() == f[i].offset
    requires i > 0 ==> f[i - 1].End() != q.offset
    ensures Tiles(MergedAbove(f, i, q), Released(live, whole, q), cap, maxSize)
  {
    var m := Block(q.offset, q.size + f[i].size);
    assert MergedAbove(f, i, q) == Splice(f, i, i + 1, m);
    assert Joins(f, i, i + 1, m, q) by {
      TouchingIsUnique(f, live, cap, maxSize, whole, q);
      JoinsOne(f, cap, q, i, m);
    }
    SpliceKeepsTiling(f, live, cap, maxSize, whole, q, i, i + 1, m);
  }

  lemma JoinsTwo(f: seq<Block>, cap: nat, q: Block, i: nat, m: Block)
    requires FreeListOk(f, cap) && i + 1 < |f|
    requires f[i].End() == q.offset && q.End() == f[i + 1].offset
    requires m.offset == f[i].offset && m.End() == f[i + 1].End()
    ensures Joins(f, i, i + 2, m, q)
  {
    forall x | m.Has(x) && !q.Has(x)
      ensures exists k :: i <= k < i + 2 && f[k].Has(x)
    {
      assert f[i].Has(x) || f[i + 1].Has(x);
    }
  }

  lemma JoinsOne(f: seq<Block>, cap: nat, q: Block, i: nat, m: Block)
    requires FreeListOk(f, cap) && i < |f| && q.size > 0
    requires forall k :: 0 <= k < |f| ==> Apart(f[k], q)
    requires || (f[i].End() == q.offset && m.offset == f[i].offset && m.End() == q.End())
             || (q.End() == f[i].offset && m.offset == q.offset && m.End() == f[i].End())
    requires i + 1 < |f| ==> m.End() != f[i + 1].offset
    requires i > 0 ==> f[i - 1].End() != m.offset
    ensures Joins(f, i, i + 1, m, q)
  {
    forall x | m.Has(x) && !q.Has(x)
      ensures exists k :: i <= k < i + 1 && f[k].Has(x)
    {
      assert f[i].Has(x);
    }
  }

  lemma JoinsNone(f: seq<Block>, live: set<Block>, cap: nat, maxSize: nat, whole: Block, q: Block, pos: nat)
    requires Tiles(f, live, cap, maxSize) && whole in live && IsTail(whole, q)
    requires forall k :: 0 <= k < |f| ==> f[k].End() != q.offset && q.End() != f[k].offset
    requires pos <= |f|
    requires forall k :: 0 <= k < pos ==> f[k].offset < q.offset
    requires pos < |f| ==> q.offset <= f[pos].offset
    ensures Tiles(Splice(f, pos, pos, q), Released(live, whole, q), cap, maxSize)
  {
    TouchingIsUnique(f, live, cap, maxSize, whole, q);
    SpliceKeepsTiling(f, live, cap, maxSize, whole, q, pos, pos, q);
  }

  /** A released range is inside its live range, hence apart from every free block. */
  lemma TouchingIsUnique(f: seq<Block>, live: set<Block>, cap: nat, maxSize: nat, whole: Block, q: Block)
    requires Tiles(f, live, cap, maxSize) && whole in live && IsTail(whole, q)
    ensures forall k :: 0 <= k < |f| ==> Apart(f[k], q)
  {
    forall k | 0 <= k < |f|
      ensures Apart(f[k], q)
    {
      assert Apart(f[k], whole);
    }
  }

  // ---------- choosing a block ----------

  /** Block `i` of chunk `c` fits and is not the last block of its chunk. */
  ghost predicate InnerFits(vs: seq<View>, size: nat, c: int, i: int) {
    0 <= c < |vs| && 0 <= i < |vs[c].free| - 1 && size <= vs[c].free[i].size
  }

  /** The last block of chunk `c` fits. */
  ghost predicate TailFits(vs: seq<View>, size: nat, c: int) {
    0 <= c < |vs| && |vs[c].free| > 0 && size <= Last(vs[c].free).size
  }

  function Last(f: seq<Block>): Block
    requires |f| > 0
  {
    f[|f| - 1]
  }

  ghost predicate NoInnerFits(vs: seq<View>, size: nat) {
    forall c, i :: !InnerFits(vs, size, c, i)
  }

  ghost predicate NoTailFits(vs: seq<View>, size: nat) {
    forall c :: !TailFits(vs, size, c)
  }

  /** The inner block taken: the last chunk that has one that fits, the smallest
      such block there, the last one among equals. */
  ghost predicate InnerPick(vs: seq<View>, size: nat, c: int, i: int) {
    && InnerFits(vs, size, c, i)
    && (forall c', i' :: InnerFits(vs, size, c', i') ==> NoLaterFit(vs, c, i, c', i'))
  }

  ghost predicate NoLaterFit(vs: seq<View>, c: int, i: int, c': int, i': int)
    requires 0 <= c < |vs| && 0 <= i < |vs[c].free| && 0 <= c' < |vs| && 0 <= i' < |vs[c'].free|
  {
    c' < c || (c' == c && NoWorseFit(vs[c].free[i].size, i, vs[c].free[i'].size, i'))
  }

  predicate NoWorseFit(s: nat, i: int, s': nat, i': int) {
    s < s' || (s == s' && i' <= i)
  }

  /** Bytes already paid for in the chunk beyond the end of the allocation; negative
      when the chunk must grow. */
  ghost function Reuse(v: View, size: nat): int
    requires |v.free| > 0
  {
    v.maxSize - Last(v.free).offset - size
  }

  function Growth(reuse: int): nat {
    if reuse < 0 then -reuse else 0
  }

  function Slack(reuse: int): nat {
    if reuse < 0 then 0 else reuse
  }

  /** `r` needs less growth than `s` or, when they grow alike, leaves no more slack. */
  predicate NoWorseReuse(r: int, s: int) {
    Growth(r) < Growth(s) || (Growth(r) == Growth(s) && Slack(r) <= Slack(s))
  }

  /** The tail block taken: least growth, then least slack, then the lowest chunk. */
  ghost predicate TailPick(vs: seq<View>, size: nat, c: int) {
    && TailFits(vs, size, c)
    && (forall c' :: TailFits(vs, size, c') ==> NoWorseReuse(Reuse(vs[c], size), Reuse(vs[c'], size)))
    && (forall c' :: TailFits(vs, size, c') && c' < c ==> Reuse(vs[c'], size) != Reuse(vs[c], size))
  }

  /** What the scan over tail blocks knows after `n` chunks. */
  ghost predicate BestTail(vs: seq<View>, size: nat, n: nat, found: bool, bc: int, best: int) {
    if found then
      && bc < n && TailFits(vs, size, bc) && best == Reuse(vs[bc], size)
      && (forall c :: TailFits(vs, size, c) && c < n ==> NoWorseReuse(best, Reuse(vs[c], size)))
      && (forall c :: TailFits(vs, size, c) && c < bc ==> Reuse(vs[c], size) != best)
    else
      best == INT64_MIN && forall c :: TailFits(vs, size, c) ==> n <= c
  }

  /** One step of the scan. */
  lemma NextTail(vs: seq<View>, size: nat, n: nat, found: bool, bc: int, best: int)
    requires n < |vs| && BestTail(vs, size, n, found, bc, best)
    requires TailFits(vs, size, n) ==> INT64_MIN < Reuse(vs[n], size)
    ensures if TailFits(vs, size, n) && ((best < 0 && best < Reuse(vs[n], size)) || 0 <= Reuse(vs[n], size) < best)
            then BestTail(vs, size, n + 1, true, n, Reuse(vs[n], size))
            else BestTail(vs, size, n + 1, found, bc, best)
  {
  }

  const INT64_MIN: int := -0x8000_0000_0000_0000
  const INT64_MAX: int := 0x7FFF_FFFF_FFFF_FFFF

  /** Where an allocation came from. */
  datatype Pick = Inner(c: nat, i: nat) | Tail(c: nat) | NewChunk

  ghost predicate GoodPick(vs: seq<View>, size: nat, pick: Pick) {
    match pick
    case Inner(c, i) => InnerPick(vs, size, c, i)
    case Tail(c) => NoInnerFits(vs, size) && TailPick(vs, size, c)
    case NewChunk => NoInnerFits(vs, size) && NoTailFits(vs, size)
  }

  /** Chunk `c` is the last one with an inner block that fits. */
  ghost predicate LastFitting(vs: seq<View>, size: nat, c: int) {
    && (exists i :: InnerFits(vs, size, c, i))
    && (forall c', i' :: InnerFits(vs, size, c', i') ==> c' <= c)
  }

  /** The last fitting chunk has a fit of at most `limit` bytes. */
  ghost predicate LastHasUpTo(vs: seq<View>, size: nat, limit: nat) {
    exists c, i :: LastFitting(vs, size, c) && InnerFits(vs, size, c, i) && vs[c].free[i].size <= limit
  }

  /** Every inner block that fits has one in the last fitting chunk that is no larger. */
  ghost predicate LastChunkHasSmallest(vs: seq<View>, size: nat) {
    forall c, i :: InnerFits(vs, size, c, i) ==> LastHasUpTo(vs, size, vs[c].free[i].size)
  }

  /** No inner block that fits is smaller than block `i` of chunk `c`. */
  ghost predicate SmallestFit(vs: seq<View>, size: nat, c: int, i: int)
    requires InnerFits(vs, size, c, i)
  {
    forall c', i' :: InnerFits(vs, size, c', i') ==> vs[c].free[i].size <= vs[c'].free[i'].size
  }

  /** The source says that the best fit "within any chunk" is taken. The running minimum starts anew
      for every chunk, so that holds exactly when the last chunk with a fit has a smallest one. */
  lemma BestFitIff(vs: seq<View>, size: nat, c: int, i: int)
    requires InnerPick(vs, size, c, i)
    ensures SmallestFit(vs, size, c, i) <==> LastChunkHasSmallest(vs, size)
  {
    PickIsInLastFitting(vs, size, c, i);
    if LastChunkHasSmallest(vs, size) {
      forall c', i' | InnerFits(vs, size, c', i')
        ensures vs[c].free[i].size <= vs[c'].free[i'].size
      {
        PickIsUpTo(vs, size, c, i, vs[c'].free[i'].size);
      }
    }
  }

  lemma PickIsUpTo(vs: seq<View>, size: nat, c: int, i: int, limit: nat)
    requires InnerPick(vs, size, c, i) && LastHasUpTo(vs, size, limit)
    ensures vs[c].free[i].size <= limit
  {
    var d, k :| LastFitting(vs, size, d) && InnerFits(vs, size, d, k) && vs[d].free[k].size <= limit;
    PickIsInLastFitting(vs, size, c, i);
    assert NoLaterFit(vs, c, i, d, k);
  }

  lemma PickIsInLastFitting(vs: seq<View>, size: nat, c: int, i: int)
    requires InnerPick(vs, size, c, i)
    ensures LastFitting(vs, size, c) && forall d :: LastFitting(vs, size, d) ==> d == c
  {
    forall c', i' | InnerFits(vs, size, c', i')
      ensures c' <= c
    {
      assert NoLaterFit(vs, c, i, c', i');
    }
  }

  // ---------- the allocator ----------

  /** All chunks of one allocator, as a value. */
  ghost predicate AllOk(vs: seq<View>, a: nat, requested: nat) {
    && |vs| <= MAX_CHUNKS
    && (forall c :: 0 <= c < |vs| ==> Ok(vs[c], a) && vs[c].maxSize <= requested && vs[c].cap <= HALF_MAX)
    && (|vs| == MAX_CHUNKS ==> vs[MAX_CHUNKS - 1].cap == HALF_MAX)
  }

  /** Every range handed out and not yet returned. */
  ghost function LiveRanges(vs: seq<View>): set<Range> {
    set c, b | 0 <= c < |vs| && b in vs[c].live :: Range(c, b)
  }

  /** Whenever the block fits, the reuse factor fits the 64-bit integer it is kept in. */
  lemma ReuseInRange(v: View, a: nat, size: nat)
    requires Ok(v, a) && |v.free| > 0 && v.cap <= HALF_MAX && size <= HALF_MAX
    ensures size <= Last(v.free).size ==> INT64_MIN < Reuse(v, size) <= INT64_MAX
  {
  }

  function Max(a: nat, b: nat): nat {
    if a < b then b else a
  }

  /** The capacity of the `n`-th chunk. */
  function NewCapacity(n: nat, size: nat, maxChunkSize: nat): nat {
    if n == MAX_CHUNKS - 1 then HALF_MAX else Max(size, maxChunkSize)
  }

  /** The chunks an allocation works on: one more when nothing fits. */
  ghost function Opened(vs: seq<View>, size: nat, pick: Pick, maxChunkSize: nat): seq<View> {
    if pick.NewChunk? then
      var cap := NewCapacity(|vs|, size, maxChunkSize);
      vs + [View([Block(0, cap)], {}, cap, 0)]
    else vs
  }

  /** Chunk and block the allocation is cut from. */
  ghost function Spot(vs: seq<View>, pick: Pick): (s: (int, int)) {
    match pick
    case Inner(c, i) => (c, i)
    case Tail(c) => (c, if c < |vs| then |vs[c].free| - 1 else 0)
    case NewChunk => (|vs| - 1, 0)
  }

  ghost predicate SpotFits(vs: seq<View>, size: nat, c: int, i: int) {
    0 <= c < |vs| && 0 <= i < |vs[c].free| && size <= vs[c].free[i].size
  }

  ghost predicate AllAlignedOk(vs: seq<View>, a: nat, requested: nat, size: nat) {
    AllOk(vs, a, requested) && a > 0 && size % a == 0 && 0 < size <= HALF_MAX
  }

  lemma OpenedOk(vs: seq<View>, a: nat, requested: nat, size: nat, pick: Pick, maxChunkSize: nat)
    requires AllAlignedOk(vs, a, requested, size) && maxChunkSize <= HALF_MAX
    requires GoodPick(vs, size, pick) && !(pick.NewChunk? && |vs| == MAX_CHUNKS)
    ensures var vs1 := Opened(vs, size, pick, maxChunkSize);
            && AllOk(vs1, a, requested)
            && LiveRanges(vs1) == LiveRanges(vs)
            && SpotFits(vs1, size, Spot(vs1, pick).0, Spot(vs1, pick).1)
  {
    if pick.NewChunk? {
      TilesInitially(NewCapacity(|vs|, size, maxChunkSize));
      assert 0 % a == 0;
    }
  }

  /** Cutting `size` bytes off a fitting block keeps every chunk tiled, and the new
      range is apart from everything live. */
  lemma CutOk(vs: seq<View>, a: nat, requested: nat, size: nat, c: nat, i: nat)
    requires AllAlignedOk(vs, a, requested, size) && SpotFits(vs, size, c, i)
    ensures var got := Range(c, Block(vs[c].free[i].offset, size));
            var vs' := vs[c := Taken(vs[c], i, size)];
            && LiveRanges(vs') == LiveRanges(vs) + {got}
            && (forall r :: r in LiveRanges(vs) ==> Separate(r, got))
  {
    TakenOk(vs[c], a, i, size);
    var got := Range(c, Block(vs[c].free[i].offset, size));
    var vs' := vs[c := Taken(vs[c], i, size)];
    forall r | r in LiveRanges(vs)
      ensures r in LiveRanges(vs') && Separate(r, got)
    {
      assert r.block in vs'[r.chunk].live;
    }
    assert got.block in vs'[c].live;
  }

  /** The high-water mark never exceeds the bytes asked for. */
  lemma CutMarks(vs: seq<View>, a: nat, requested: nat, size: nat, c: nat, i: nat)
    requires AllAlignedOk(vs, a, requested, size) && SpotFits(vs, size, c, i)
    ensures AllOk(vs[c := Taken(vs[c], i, size)], a, requested + size)
  {
    TakenOk(vs[c], a, i, size);
    StartsBelowMark(vs[c], a, i);
  }

  /** A free block starts at or below the high-water mark. */
  lemma StartsBelowMark(v: View, a: nat, i: nat)
    requires Ok(v, a) && i < |v.free|
    ensures v.free[i].offset <= v.maxSize
  {
    if v.maxSize < v.cap {
      TailBlock(v.free, v.live, v.cap, v.maxSize);
    }
  }

  /** With at most 254 live ranges in the chunk no removal reads past the table. */
  lemma RemovalStaysInside(v: View, a: nat)
    requires Ok(v, a) && |v.live| <= MAX_FREE_BLOCKS - 2
    ensures |v.free| < MAX_FREE_BLOCKS
  {
    FreeBlocksBounded(v.free, v.live, v.cap, v.maxSize);
  }

  /** Ranges of one allocator that share no byte. */
  predicate Separate(r: Range, s: Range) {
    r.chunk == s.chunk ==> Apart(r.block, s.block)
  }

  /** The sixteenth chunk is so large that the abort is out of reach while the bytes
      asked for since the last reset stay below half the address space. */
  lemma LastChunkNeverFull(vs: seq<View>, a: nat, requested: nat, size: nat, pick: Pick)
    requires AllAlignedOk(vs, a, requested, size) && GoodPick(vs, size, pick)
    requires requested + size <= HALF_MAX
    ensures !(pick.NewChunk? && |vs| == MAX_CHUNKS)
  {
    if |vs| == MAX_CHUNKS {
      var v := vs[MAX_CHUNKS - 1];
      TailBlock(v.free, v.live, v.cap, v.maxSize);
      assert TailFits(vs, size, MAX_CHUNKS - 1);
    }
  }

  /** The state and address after a successful allocation. */
  ghost predicate Allocated(vs: seq<View>, vs': seq<View>, size: nat, pick: Pick, maxChunkSize: nat, addr: Address) {
    var vs1 := Opened(vs, size, pick, maxChunkSize);
    var (c, i) := Spot(vs1, pick);
    && SpotFits(vs1, size, c, i)
    && vs' == vs1[c := Taken(vs1[c], i, size)]
    && addr == Address(c, vs1[c].free[i].offset)
  }

  /** What an allocation means to its caller: one more live range, apart from all
      the others, aligned, and below its chunk's high-water mark. */
  lemma AllocatedIsApart(vs: seq<View>, vs': seq<View>, a: nat, requested: nat, size: nat, pick: Pick,
                         maxChunkSize: nat, addr: Address)
    requires AllAlignedOk(vs, a, requested, size) && maxChunkSize <= HALF_MAX
    requires GoodPick(vs, size, pick) && !(pick.NewChunk? && |vs| == MAX_CHUNKS)
    requires Allocated(vs, vs', size, pick, maxChunkSize, addr)
    ensures var got := Range(addr.chunk, Block(addr.offset, size));
            && LiveRanges(vs') == LiveRanges(vs) + {got}
            && (forall r :: r in LiveRanges(vs) ==> Separate(r, got))
            && got.block.offset % a == 0
            && got.chunk < |vs'| && got.block.End() <= vs'[got.chunk].maxSize
            && MarksGrow(vs, vs')
  {
    OpenedOk(vs, a, requested, size, pick, maxChunkSize);
    var vs1 := Opened(vs, size, pick, maxChunkSize);
    var (c, i) := Spot(vs1, pick);
    CutOk(vs1, a, requested, size, c, i);
  }

  /** Giving back a live range or its tail: exactly that range leaves or shrinks. */
  lemma ReturnedRanges(vs: seq<View>, a: nat, requested: nat, c: nat, whole: Block, q: Block)
    requires AllOk(vs, a, requested) && c < |vs| && whole in vs[c].live && IsTail(whole, q) && a > 0 && q.offset % a == 0
    ensures var vs' := vs[c := Returned(vs[c], whole, q)];
            && AllOk(vs', a, requested) && MarksGrow(vs, vs')
            && LiveRanges(vs') == LiveRanges(vs) - {Range(c, whole)} + Rest(c, whole, q)
  {
    ReturnedOk(vs[c], a, whole, q);
    var vs' := vs[c := Returned(vs[c], whole, q)];
    forall r
      ensures r in LiveRanges(vs') <==> r in LiveRanges(vs) - {Range(c, whole)} + Rest(c, whole, q)
    {
      assert 0 <= r.chunk < |vs| ==> (r in LiveRanges(vs) <==> r.block in vs[r.chunk].live);
      assert 0 <= r.chunk < |vs| ==> (r in LiveRanges(vs') <==> r.block in vs'[r.chunk].live);
    }
  }

  function Rest(c: nat, whole: Block, q: Block): set<Range>
    requires whole.offset <= q.offset
  {
    if q.offset == whole.offset then {} else {Range(c, Block(whole.offset, q.offset - whole.offset))}
  }

  /** No chunk disappears and no high-water mark falls. */
  ghost predicate MarksGrow(vs: seq<View>, vs': seq<View>) {
    |vs| <= |vs'| && forall c :: 0 <= c < |vs| ==> vs[c].maxSize <= vs'[c].maxSize
  }

  class Allocator {
    const alignment: nat
    const maxChunkSize: nat
    var chunks: seq<Chunk>
    ghost var views: seq<View>
    ghost var requested: nat  // aligned bytes asked for since the last reset
    ghost var Repr: set<object>

    ghost predicate Valid()
      reads this, Repr
    {
      && this in Repr
      && maxChunkSize <= HALF_MAX
      && AllOk(views, alignment, requested)
      && alignment > 0
      && |chunks| == |views|
      && (forall c :: 0 <= c < |chunks| ==> Owns(chunks[c]) && chunks[c].v == views[c])
      && (forall c, d :: 0 <= c < d < |chunks| ==>
            chunks[c] != chunks[d] && chunks[c].blocks != chunks[d].blocks)
    }

    ghost predicate Owns(c: Chunk)
      reads this, Repr
    {
      c in Repr && c.blocks in Repr && c.Valid()
    }

    ghost function Live(): set<Range>
      reads this
    {
      LiveRanges(views)
    }

    constructor (align: nat, maxBufferSize: nat)
      requires align > 0
      ensures Valid() && fresh(Repr) && alignment == align && views == [] && requested == 0
      ensures maxChunkSize == if maxBufferSize < HALF_MAX then maxBufferSize else HALF_MAX
    {
      alignment := align;
      maxChunkSize := if maxBufferSize < HALF_MAX then maxBufferSize else HALF_MAX;
      chunks := [];
      views := [];
      requested := 0;
      Repr := {this};
    }

    method Reset()
      requires Valid()
      modifies this
      ensures Valid() && Repr == {this} && views == [] && requested == 0
    {
      chunks := [];
      views := [];
      requested := 0;
      Repr := {this};
    }

    /** First pass: the best fitting block that is not the last of its chunk. */
    method FindInner(size: nat) returns (found: bool, bc: nat, bi: nat)
      requires Valid()
      ensures !found ==> NoInnerFits(views, size)
      ensures found ==> InnerPick(views, size, bc, bi)
    {
      found, bc, bi := false, 0, 0;
      var c := 0;
      while c < |chunks|
        invariant c <= |chunks|
        invariant !found ==> forall c', i' :: InnerFits(views, size, c', i') ==> c <= c'
        invariant found ==> bc < c && InnerFits(views, size, bc, bi)
        invariant found ==> forall c', i' :: InnerFits(views, size, c', i') ==>
                              c <= c' || NoLaterFit(views, bc, bi, c', i')
      {
        var f, i := BestInner(c, size);
        if f {
          found, bc, bi := true, c, i;
        }
        c := c + 1;
      }
    }

    /** The smallest fitting block of chunk `c` besides the last, the last one among equals. */
    method BestInner(c: nat, size: nat) returns (found: bool, best: nat)
      requires Valid() && c < |chunks|
      ensures !found ==> forall i :: !InnerFits(views, size, c, i)
      ensures found ==> InnerFits(views, size, c, best)
      ensures found ==> forall i :: InnerFits(views, size, c, i) ==>
                          NoWorseFit(views[c].free[best].size, best, views[c].free[i].size, i)
    {
      found, best := false, 0;
      var chunk := chunks[c];
      var i := 0;
      while i < chunk.n - 1
        invariant i <= chunk.n
        invariant !found ==> forall k :: 0 <= k < i && k < chunk.n - 1 ==> chunk.blocks[k].size < size
        invariant found ==> best < i && best < chunk.n - 1 && size <= chunk.blocks[best].size
        invariant found ==> forall k :: 0 <= k < i && k < chunk.n - 1 && size <= chunk.blocks[k].size ==>
                              NoWorseFit(chunk.blocks[best].size, best, chunk.blocks[k].size, k)
      {
        if size <= chunk.blocks[i].size && (!found || chunk.blocks[i].size <= chunk.blocks[best].size) {
          found, best := true, i;
        }
        i := i + 1;
      }
    }

    /** Second pass: the last block of each chunk, where an allocation may grow the chunk. */
    method FindTail(size: nat) returns (found: bool, bc: nat)
      requires Valid() && size <= HALF_MAX
      ensures !found ==> NoTailFits(views, size)
      ensures found ==> TailPick(views, size, bc)
    {
      found, bc := false, 0;
      var bestReuse := INT64_MIN;
      var c := 0;
      while c < |chunks|
        invariant c <= |chunks|
        invariant BestTail(views, size, c, found, bc, bestReuse)
      {
        var fits, reuse := TailOf(c, size);
        var betterReuse := bestReuse < 0 && bestReuse < reuse;
        var betterFit := 0 <= reuse < bestReuse;
        NextTail(views, size, c, found, bc, bestReuse);
        if fits && (betterReuse || betterFit) {
          found, bc, bestReuse := true, c, reuse;
        }
        c := c + 1;
      }
    }

    /** Whether the last block of chunk `c` fits, and its reuse factor. */
    method TailOf(c: nat, size: nat) returns (fits: bool, reuse: int)
      requires Valid() && size <= HALF_MAX && c < |chunks|
      ensures fits <==> TailFits(views, size, c)
      ensures fits ==> reuse == Reuse(views[c], size) && INT64_MIN < reuse <= INT64_MAX
    {
      fits, reuse := false, 0;
      var chunk := chunks[c];
      if chunk.n > 0 {
        var block := chunk.blocks[chunk.n - 1];
        fits, reuse := size <= block.size, chunk.maxSize - block.offset - size;
        assert block == Last(views[c].free);
        ReuseInRange(views[c], alignment, size);
      }
    }

    /** Takes `size` bytes, rounded up, from the block the two passes choose, or from
        a new chunk when nothing fits. `ok == false` is the abort of the source. */
    method Alloc(size: nat) returns (ok: bool, addr: Address, ghost pick: Pick)
      requires Valid() && size > 0 && Align(size, alignment) <= HALF_MAX
      modifies Repr
      ensures fresh(Repr - old(Repr))
      ensures GoodPick(old(views), Align(size, alignment), pick)
      ensures ok <==> !(pick.NewChunk? && |old(views)| == MAX_CHUNKS)
      ensures requested == old(requested) + Align(size, alignment)
      ensures requested <= HALF_MAX ==> ok
      ensures ok ==> Valid() && Allocated(old(views), views, Align(size, alignment), pick, maxChunkSize, addr)
    {
      var asize := Align(size, alignment);
      addr := Address(0, 0);
      var found, c, i;
      found, c, i, pick := Choose(asize);
      assert requested + asize <= HALF_MAX ==> !(pick.NewChunk? && |views| == MAX_CHUNKS) by {
        if requested + asize <= HALF_MAX {
          LastChunkNeverFull(views, alignment, requested, asize, pick);
        }
      }
      ok := found || |chunks| < MAX_CHUNKS;
      if !ok {
        requested := requested + asize;
        return;
      }
      OpenedOk(views, alignment, requested, asize, pick, maxChunkSize);
      if !found {
        OpenChunk(asize);
        c, i := |chunks| - 1, 0;
      }
      CutMarks(views, alignment, requested, asize, c, i);
      addr := Cut(c, i, asize);
    }

    /** Gives back `size` bytes, rounded up, at `addr`: the whole of a live range or its
        tail. `ok == false` is the abort for a full table, which needs 255 live ranges. */
    method FreeBytes(addr: Address, size: nat, ghost whole: Block) returns (ok: bool)
      requires Valid() && Range(addr.chunk, whole) in Live()
      requires IsTail(whole, Block(addr.offset, Align(size, alignment))) && addr.offset % alignment == 0
      modifies Repr
      ensures Repr == old(Repr) && requested == old(requested)
      ensures |old(views)[addr.chunk].free| < MAX_FREE_BLOCKS ==> ok
      ensures |old(views)[addr.chunk].live| <= MAX_FREE_BLOCKS - 2 ==> ok
      ensures ok ==> Valid()
      ensures ok ==> views == old(views)[addr.chunk :=
                       Returned(old(views)[addr.chunk], whole, Block(addr.offset, Align(size, alignment)))]
    {
      var c, q := addr.chunk, Block(addr.offset, Align(size, alignment));
      assert AllOk(views[c := Returned(views[c], whole, q)], alignment, requested) by {
        ReturnedRanges(views, alignment, requested, c, whole, q);
      }
      assert |views[c].free| <= |views[c].live| + 1 by {
        FreeBlocksBounded(views[c].free, views[c].live, views[c].cap, views[c].maxSize);
      }
      ok := ReleaseIn(c, q, whole);
    }

    method ReleaseIn(c: nat, q: Block, ghost whole: Block) returns (ok: bool)
      requires Valid() && c < |chunks| && whole.offset <= q.offset
      requires AllOk(views[c := Returned(views[c], whole, q)], alignment, requested)
      modifies Repr
      ensures Repr == old(Repr) && requested == old(requested)
      ensures |old(views)[c].free| < MAX_FREE_BLOCKS ==> ok
      ensures ok ==> Valid() && views == old(views)[c := Returned(old(views)[c], whole, q)]
    {
      var chunk := chunks[c];
      ok := chunk.Release(q, whole);
      views := views[c := chunk.v];
    }

    method Choose(asize: nat) returns (found: bool, c: nat, i: nat, ghost pick: Pick)
      requires Valid() && asize <= HALF_MAX
      ensures GoodPick(views, asize, pick)
      ensures found <==> !pick.NewChunk?
      ensures found ==> (c, i) == Spot(views, pick)
    {
      found, c, i := FindInner(asize);
      pick := Inner(c, i);
      if !found {
        found, c := FindTail(asize);
        pick := if found then Tail(c) else NewChunk;
        if found {
          i := chunks[c].n - 1;
        }
      }
    }

    method OpenChunk(asize: nat)
      requires Valid() && 0 < asize <= HALF_MAX && |chunks| < MAX_CHUNKS
      requires AllOk(Opened(views, asize, NewChunk, maxChunkSize), alignment, requested)
      modifies this`chunks, this`views, this`Repr
      ensures Valid() && fresh(Repr - old(Repr)) && old(Repr) <= Repr
      ensures views == Opened(old(views), asize, NewChunk, maxChunkSize)
    {
      var cap := NewCapacity(|chunks|, asize, maxChunkSize);
      var chunk := new Chunk(cap);
      chunks := chunks + [chunk];
      views := views + [chunk.v];
      Repr := Repr + {chunk, chunk.blocks};
    }

    /** Cuts `asize` bytes off block `i` of chunk `c`. */
    method Cut(c: nat, i: nat, asize: nat) returns (addr: Address)
      requires Valid() && 0 < asize <= HALF_MAX && asize % alignment == 0
      requires SpotFits(views, asize, c, i) && AllOk(views[c := Taken(views[c], i, asize)], alignment, requested + asize)
      modifies Repr
      ensures Valid() && Repr == old(Repr)
      ensures addr == Address(c, old(views)[c].free[i].offset)
      ensures views == old(views)[c := Taken(old(views)[c], i, asize)]
      ensures requested == old(requested) + asize
    {
      var chunk := chunks[c];
      var offset, top := chunk.TakeFrom(i, asize);
      views := views[c := chunk.v];
      requested := requested + asize;
      addr := Address(c, offset);
    }
  }
}
