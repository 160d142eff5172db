/** The address space of one allocator chunk, as values: which byte ranges are
    free, which are live, and what it means for the two to tile the chunk.

    Everything the allocator does to a chunk is one of two edits of the free
    list, `Take` (an allocation) and `Splice` (a release with its merges); the
    two main lemmas say that each keeps the tiling.
 */
module FreeSpace {
  import opened Sets

  /** A byte range `[offset, offset + size)` of one chunk. */
  datatype Block = Block(offset: nat, size: nat) {
    function End(): nat {
      offset + size
    }

    predicate Has(x: int) {
      offset <= x < End()
    }
  }

  predicate Apart(a: Block, b: Block) {
    a.End() <= b.offset || b.End() <= a.offset
  }

  ghost predicate InFree(free: seq<Block>, x: int) {
    exists i :: 0 <= i < |free| && free[i].Has(x)
  }

  ghost predicate InLive(live: set<Block>, x: int) {
    exists r :: r in live && r.Has(x)
  }

  /** The free list: non-empty blocks, sorted, and never two that touch. */
  ghost predicate FreeListOk(free: seq<Block>, cap: nat) {
    && (forall i :: 0 <= i < |free| ==> free[i].size > 0 && free[i].End() <= cap)
    && (forall i, j :: 0 <= i < j < |free| ==> free[i].End() < free[j].offset)
  }

  ghost predicate LiveOk(live: set<Block>, maxSize: nat) {
    && (forall r :: r in live ==> r.size > 0 && r.End() <= maxSize)
    && (forall r, s :: r in live && s in live && r != s ==> Apart(r, s))
  }

  /** Free blocks and live ranges tile `[0, cap)`: no byte is in two of them and
      every byte is in one. */
  ghost predicate Tiles(free: seq<Block>, live: set<Block>, cap: nat, maxSize: nat) {
    && maxSize <= cap
    && FreeListOk(free, cap)
    && LiveOk(live, maxSize)
    && (forall i, r :: 0 <= i < |free| && r in live ==> Apart(free[i], r))
    && (forall x :: 0 <= x < cap ==> InFree(free, x) || InLive(live, x))
  }

  /** A free list as the allocator first builds it. */
  lemma TilesInitially(cap: nat)
    requires cap > 0
    ensures Tiles([Block(0, cap)], {}, cap, 0)
  {
    forall x | 0 <= x < cap
      ensures InFree([Block(0, cap)], x)
    {
      assert [Block(0, cap)][0].Has(x);
    }
  }

  // ---------- allocation ----------

  /** The free list after `size` bytes were cut off the front of block `i`. */
  function Take(free: seq<Block>, i: nat, size: nat): seq<Block>
    requires i < |free| && size <= free[i].size
  {
    if size == free[i].size then free[..i] + free[i + 1..]
    else free[i := Block(free[i].offset + size, free[i].size - size)]
  }

  lemma TakeKeepsTiling(free: seq<Block>, live: set<Block>, cap: nat, maxSize: nat, i: nat, size: nat)
    requires Tiles(free, live, cap, maxSize)
    requires i < |free| && 0 < size <= free[i].size
    ensures var got := Block(free[i].offset, size);
            var max' := if maxSize < got.End() then got.End() else maxSize;
            && (forall r :: r in live ==> Apart(r, got))
            && Tiles(Take(free, i, size), live + {got}, cap, max')
  {
    var got := Block(free[i].offset, size);
    var free' := Take(free, i, size);
    forall r | r in live
      ensures Apart(r, got)
    {
      assert Apart(free[i], r);
    }
    TakeFrom(free, cap, i, size);
    forall k', r | 0 <= k' < |free'| && r in live + {got}
      ensures Apart(free'[k'], r)
    {
      var k := Origin(free, i, size, k');
      if r in live {
        assert Apart(free[k], r);
      }
    }
    forall x | 0 <= x < cap
      ensures InFree(free', x) || InLive(live + {got}, x)
    {
      TakeCovers(free, live, cap, maxSize, i, size, x);
    }
  }

  /** Where block `k'` of the list after `Take` comes from. */
  function Origin(free: seq<Block>, i: nat, size: nat, k': int): (k: nat)
    requires i < |free| && size <= free[i].size && 0 <= k' < |Take(free, i, size)|
    ensures k < |free| && free[k].offset <= Take(free, i, size)[k'].offset
    ensures Take(free, i, size)[k'].End() == free[k].End()
    ensures k == i ==> size < free[i].size && Take(free, i, size)[k'].offset == free[i].offset + size
  {
    if size == free[i].size && i <= k' then k' + 1 else k'
  }

  lemma TakeFrom(free: seq<Block>, cap: nat, i: nat, size: nat)
    requires FreeListOk(free, cap)
    requires i < |free| && 0 < size <= free[i].size
    ensures FreeListOk(Take(free, i, size), cap)
    ensures forall k' :: 0 <= k' < |Take(free, i, size)| ==>
              Apart(Take(free, i, size)[k'], Block(free[i].offset, size))
  {
    var free' := Take(free, i, size);
    forall k' | 0 <= k' < |free'|
      ensures Apart(free'[k'], Block(free[i].offset, size))
    {
      var k := Origin(free, i, size, k');
    }
  }

  lemma TakeCovers(free: seq<Block>, live: set<Block>, cap: nat, maxSize: nat, i: nat, size: nat, x: nat)
    requires Tiles(free, live, cap, maxSize) && x < cap
    requires i < |free| && 0 < size <= free[i].size
    ensures InFree(Take(free, i, size), x) || InLive(live + {Block(free[i].offset, size)}, x)
  {
    var got := Block(free[i].offset, size);
    var free' := Take(free, i, size);
    var live' := live + {got};
    if InLive(live, x) {
      var r :| r in live && r.Has(x);
      assert r in live';
    } else {
      var k :| 0 <= k < |free| && free[k].Has(x);
      if k == i && x < got.End() {
        assert got in live' && got.Has(x);
      } else {
        var k' := if size == free[i].size && i < k then k - 1 else k;
        assert free'[k'].Has(x);
      }
    }
  }

  // ---------- release ----------

  /** The free list after blocks `a..b` were replaced by the single block `m`. */
  function Splice(free: seq<Block>, a: nat, b: nat, m: Block): seq<Block>
    requires a <= b <= |free|
  {
    free[..a] + [m] + free[b..]
  }

  /** What is left live when the tail `q` of a live range `whole` is released. */
  function Released(live: set<Block>, whole: Block, q: Block): set<Block>
    requires whole.offset <= q.offset
  {
    live - {whole} +
    (if q.offset == whole.offset then {} else {Block(whole.offset, q.offset - whole.offset)})
  }

  ghost predicate IsTail(whole: Block, q: Block) {
    q.size > 0 && whole.offset <= q.offset && q.End() == whole.End()
  }

  /** `m` joins the released range `q` with exactly the blocks `a..b`. */
  ghost predicate Joins(free: seq<Block>, a: nat, b: nat, m: Block, q: Block)
    requires a <= b <= |free|
  {
    && m.offset <= q.offset && q.End() <= m.End()
    && (forall k :: a <= k < b ==> m.offset <= free[k].offset && free[k].End() <= m.End())
    && (forall x :: m.Has(x) ==> q.Has(x) || exists k :: a <= k < b && free[k].Has(x))
    && (a > 0 ==> free[a - 1].End() < m.offset)
    && (b < |free| ==> m.End() < free[b].offset)
  }

  lemma SpliceKeepsTiling(free: seq<Block>, live: set<Block>, cap: nat, maxSize: nat,
                          whole: Block, q: Block, a: nat, b: nat, m: Block)
    requires Tiles(free, live, cap, maxSize)
    requires whole in live && IsTail(whole, q)
    requires a <= b <= |free| && Joins(free, a, b, m, q)
    ensures Tiles(Splice(free, a, b, m), Released(live, whole, q), cap, maxSize)
  {
    SpliceSorted(free, cap, a, b, m, q);
    ReleasedOk(live, maxSize, whole, q);
    SpliceApart(free, live, cap, maxSize, whole, q, a, b, m);
    forall x | 0 <= x < cap
      ensures InFree(Splice(free, a, b, m), x) || InLive(Released(live, whole, q), x)
    {
      SpliceCovers(free, live, cap, maxSize, whole, q, a, b, m, x);
    }
  }

  lemma ReleasedOk(live: set<Block>, maxSize: nat, whole: Block, q: Block)
    requires LiveOk(live, maxSize) && whole in live && IsTail(whole, q)
    ensures LiveOk(Released(live, whole, q), maxSize)
  {
  }

  lemma SpliceCovers(free: seq<Block>, live: set<Block>, cap: nat, maxSize: nat,
                     whole: Block, q: Block, a: nat, b: nat, m: Block, x: nat)
    requires Tiles(free, live, cap, maxSize) && x < cap
    requires whole in live && IsTail(whole, q)
    requires a <= b <= |free| && Joins(free, a, b, m, q)
    ensures InFree(Splice(free, a, b, m), x) || InLive(Released(live, whole, q), x)
  {
    var free' := Splice(free, a, b, m);
    if q.Has(x) {
      assert free'[a].Has(x);
    } else if InLive(live, x) {
      var r :| r in live && r.Has(x);
      var kept := if r == whole then Block(whole.offset, q.offset - whole.offset) else r;
      assert kept in Released(live, whole, q) && kept.Has(x);
    } else {
      var k :| 0 <= k < |free| && free[k].Has(x);
      var k' := if k < a then k else if k < b then a else k - b + a + 1;
      assert free'[k'].Has(x);
    }
  }

  lemma SpliceSorted(free: seq<Block>, cap: nat, a: nat, b: nat, m: Block, q: Block)
    requires FreeListOk(free, cap) && q.size > 0 && q.End() <= cap
    requires a <= b <= |free| && Joins(free, a, b, m, q)
    ensures FreeListOk(Splice(free, a, b, m), cap)
  {
    var free' := Splice(free, a, b, m);
    var last := m.End() - 1;
    assert m.Has(last);
    assert m.End() <= cap;
    forall i, j | 0 <= i < j < |free'|
      ensures free'[i].End() < free'[j].offset
    {
      if i < a && 0 < a {
        assert free[i].End() <= free[a - 1].End();
      }
      if j > a && b < |free| {
        assert free'[j] == free[j - a - 1 + b];
        assert free[b].offset <= free'[j].offset;
      }
    }
  }

  lemma SpliceApart(free: seq<Block>, live: set<Block>, cap: nat, maxSize: nat,
                    whole: Block, q: Block, a: nat, b: nat, m: Block)
    requires Tiles(free, live, cap, maxSize)
    requires whole in live && IsTail(whole, q)
    requires a <= b <= |free| && Joins(free, a, b, m, q)
    ensures var free' := Splice(free, a, b, m);
            forall i, r :: 0 <= i < |free'| && r in Released(live, whole, q) ==> Apart(free'[i], r)
  {
    var free' := Splice(free, a, b, m);
    forall i, r | 0 <= i < |free'| && r in Released(live, whole, q)
      ensures Apart(free'[i], r)
    {
      var was := if r in live then r else whole;
      assert was.offset <= r.offset && r.End() <= was.End() && r.size > 0;
      if i == a {
        assert Apart(q, r) by {
          assert was == whole || Apart(was, whole);
        }
        ApartFromJoined(free, a, b, m, q, was, r);
      } else {
        var k := if i < a then i else i - a - 1 + b;
        assert free'[i] == free[k] && Apart(free[k], was);
      }
    }
  }

  /** A range apart from `q` and from all joined blocks is apart from the joined block. */
  lemma ApartFromJoined(free: seq<Block>, a: nat, b: nat, m: Block, q: Block, was: Block, r: Block)
    requires a <= b <= |free| && Joins(free, a, b, m, q)
    requires was.offset <= r.offset && r.End() <= was.End() && r.size > 0 && q.size > 0
    requires forall k :: a <= k < b ==> Apart(free[k], was)
    requires Apart(q, r)
    ensures Apart(m, r)
  {
    var x := if m.offset < r.offset then r.offset else m.offset;
    assert r.Has(x) ==> !q.Has(x);
    assert forall k :: a <= k < b ==> !(free[k].Has(x) && r.Has(x));
    assert !(m.Has(x) && r.Has(x));
  }

  // ---------- consequences ----------

  /** A byte is free exactly when no live range has it. */
  lemma FreeIsNotLive(free: seq<Block>, live: set<Block>, cap: nat, maxSize: nat, x: nat)
    requires Tiles(free, live, cap, maxSize) && x < cap
    ensures InFree(free, x) <==> !InLive(live, x)
  {
    forall i, r | 0 <= i < |free| && r in live
      ensures !(free[i].Has(x) && r.Has(x))
    {
      assert Apart(free[i], r);
    }
  }

  /** No free block starts at, or ends at, the end of another. */
  lemma NotFreePastEnd(free: seq<Block>, cap: nat, i: nat)
    requires FreeListOk(free, cap) && i < |free|
    ensures !InFree(free, free[i].End())
    ensures !InFree(free, free[i].offset - 1)
  {
    forall k | 0 <= k < |free|
      ensures !free[k].Has(free[i].End()) && !free[k].Has(free[i].offset - 1)
    {
      if k < i {
        assert free[k].End() < free[i].offset;
      } else if i < k {
        assert free[i].End() < free[k].offset;
      }
    }
  }

  /** In two free lists with the same free bytes, a block of one is inside a block of the other. */
  lemma {:induction false} BlockInside(f: seq<Block>, g: seq<Block>, cap: nat, i: nat, x: nat) returns (k: nat)
    requires FreeListOk(f, cap) && FreeListOk(g, cap)
    requires forall y: nat :: InFree(f, y) <==> InFree(g, y)
    requires i < |f| && f[i].Has(x)
    ensures k < |g| && g[k].offset <= f[i].offset && x < g[k].End()
    decreases x
  {
    assert InFree(f, x);
    k :| 0 <= k < |g| && g[k].Has(x);
    if x > f[i].offset {
      var k' := BlockInside(f, g, cap, i, x - 1);
      assert g[k'].End() == x ==> !InFree(g, x) by {
        NotFreePastEnd(g, cap, k');
      }
      k := k';
    }
  }

  /** The free list is determined by the live ranges: there is only one sorted,
      non-touching list that completes the tiling. */
  lemma FreeListIsCanonical(f: seq<Block>, g: seq<Block>, live: set<Block>, cap: nat, m1: nat, m2: nat)
    requires Tiles(f, live, cap, m1) && Tiles(g, live, cap, m2)
    ensures f == g
  {
    SameFreeBytes(f, g, live, cap, m1, m2);
    SameFrom(f, g, cap, 0);
  }

  lemma SameFreeBytes(f: seq<Block>, g: seq<Block>, live: set<Block>, cap: nat, m1: nat, m2: nat)
    requires Tiles(f, live, cap, m1) && Tiles(g, live, cap, m2)
    ensures forall y: nat :: InFree(f, y) <==> InFree(g, y)
  {
    forall y: nat
      ensures InFree(f, y) <==> InFree(g, y)
    {
      if y < cap {
        FreeIsNotLive(f, live, cap, m1, y);
        FreeIsNotLive(g, live, cap, m2, y);
      }
    }
  }

  /** Every block of one list is a block of the other. */
  lemma Twin(f: seq<Block>, g: seq<Block>, cap: nat, i: nat) returns (k: nat)
    requires FreeListOk(f, cap) && FreeListOk(g, cap)
    requires forall y: nat :: InFree(f, y) <==> InFree(g, y)
    requires i < |f|
    ensures k < |g| && g[k] == f[i]
  {
    k := BlockInside(f, g, cap, i, f[i].End() - 1);
    var j := BlockInside(g, f, cap, k, g[k].End() - 1);
    assert i == j;
  }

  lemma {:induction false} SameFrom(f: seq<Block>, g: seq<Block>, cap: nat, i: nat)
    requires FreeListOk(f, cap) && FreeListOk(g, cap)
    requires forall y: nat :: InFree(f, y) <==> InFree(g, y)
    requires i <= |f| && i <= |g| && forall j :: 0 <= j < i ==> f[j] == g[j]
    ensures f == g
    decreases |f| - i
  {
    if i < |f| {
      var k := Twin(f, g, cap, i);
      assert i <= k;
      var j := Twin(g, f, cap, i);
      assert i <= j;
      assert k == i;
      SameFrom(f, g, cap, i + 1);
    } else if i < |g| {
      var j := Twin(g, f, cap, i);
    }
  }

  /** There is at most one more free block than there are live ranges, so the
      fixed table of 256 blocks cannot overflow while fewer ranges are live. */
  lemma FreeBlocksBounded(free: seq<Block>, live: set<Block>, cap: nat, maxSize: nat)
    requires Tiles(free, live, cap, maxSize)
    ensures |free| <= |live| + 1
  {
    if |free| > 0 {
      LiveBetween(free, live, cap, maxSize, |free| - 1);
      SubsetSize(LiveBelow(live, free[|free| - 1].offset), live);
    }
  }

  ghost function LiveBelow(live: set<Block>, x: nat): set<Block> {
    set r | r in live && r.End() <= x
  }

  /** Every gap between two free blocks holds a live range of its own. */
  lemma {:induction false} LiveBetween(free: seq<Block>, live: set<Block>, cap: nat, maxSize: nat, k: nat)
    requires Tiles(free, live, cap, maxSize) && k < |free|
    ensures |LiveBelow(live, free[k].offset)| >= k
  {
    if k > 0 {
      LiveBetween(free, live, cap, maxSize, k - 1);
      var r := LiveInGap(free, live, cap, maxSize, k);
      var below := LiveBelow(live, free[k - 1].offset);
      assert below + {r} <= LiveBelow(live, free[k].offset);
      SubsetSize(below + {r}, LiveBelow(live, free[k].offset));
    }
  }

  lemma LiveInGap(free: seq<Block>, live: set<Block>, cap: nat, maxSize: nat, k: nat) returns (r: Block)
    requires Tiles(free, live, cap, maxSize) && 0 < k < |free|
    ensures r in live && free[k - 1].offset < r.End() <= free[k].offset
    ensures free[k - 1].offset < free[k].offset
  {
    var x := free[k - 1].End();
    assert x < free[k].offset;
    NotFreePastEnd(free, cap, k - 1);
    r :| r in live && r.Has(x);
    assert Apart(free[k], r);
  }

  /** Above the high-water mark everything is free: the last block reaches the
      end of the chunk and starts at or below the mark. */
  lemma TailBlock(free: seq<Block>, live: set<Block>, cap: nat, maxSize: nat)
    requires Tiles(free, live, cap, maxSize) && maxSize < cap
    ensures |free| > 0
    ensures free[|free| - 1].offset <= maxSize && free[|free| - 1].End() == cap
  {
    forall x | maxSize <= x < cap
      ensures InFree(free, x)
    {
      FreeIsNotLive(free, live, cap, maxSize, x);
    }
    assert InFree(free, maxSize);
    var i :| 0 <= i < |free| && free[i].Has(maxSize);
    NotFreePastEnd(free, cap, i);
    assert free[|free| - 1].End() <= cap;
  }
}
