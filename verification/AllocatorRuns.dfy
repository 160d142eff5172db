/** Runs of the allocator that end where its comments or its table do not hold. */
module AllocatorRuns {
  import opened Alignment
  import opened FreeSpace
  import opened DynTallocr

  lemma WholeAlign(size: nat)
    requires size % 32 == 0
    ensures Align(size, 32) == size
  {
    AlignAligned(size, 32);
  }

  // ---------- the last chunk with a fit wins ----------

  /** A chunk of 128 bytes. */
  ghost function Chunk128(free: seq<Block>, live: set<Block>, mark: nat): View {
    View(free, live, 128, mark)
  }

  ghost function One(): seq<View> { [Chunk128([Block(32, 96)], {Block(0, 32)}, 32)] }

  ghost function Two(): seq<View> { [Chunk128([Block(64, 64)], {Block(0, 32), Block(32, 32)}, 64)] }

  ghost function Full(): View { Chunk128([], {Block(0, 32), Block(32, 32), Block(64, 64)}, 128) }

  ghost function Second(): View { Chunk128([Block(64, 64)], {Block(0, 64)}, 64) }

  ghost function Third(): View { Chunk128([Block(96, 32)], {Block(0, 64), Block(64, 32)}, 96) }

  ghost function Opening(): View { Chunk128([Block(64, 64)], {Block(0, 32), Block(32, 32)}, 128) }

  /** A gap of 32 bytes, 32 live bytes, and a free tail. */
  ghost function SmallGap(): View { Chunk128([Block(0, 32), Block(64, 64)], {Block(32, 32)}, 128) }

  /** A gap of 64 bytes, 32 live bytes, and a free tail. */
  ghost function LargeGap(): View { Chunk128([Block(0, 64), Block(96, 32)], {Block(64, 32)}, 96) }

  /** Cutting `size` bytes off the only free block. */
  lemma CutOnly(v: View, size: nat, w: View)
    requires |v.free| == 1 && 0 < size <= v.free[0].size
    requires w.free == if size == v.free[0].size then [] else [Block(v.free[0].offset + size, v.free[0].size - size)]
    requires w.live == v.live + {Block(v.free[0].offset, size)} && w.cap == v.cap
    requires w.maxSize == if v.maxSize < v.free[0].offset + size then v.free[0].offset + size else v.maxSize
    ensures Taken(v, 0, size) == w
  {
    assert Take(v.free, 0, size) == w.free;
  }

  lemma FirstRange(vs: seq<View>, pick: Pick, addr: Address)
    requires GoodPick([], 32, pick) && Allocated([], vs, 32, pick, 128, addr)
    ensures vs == One() && addr == Address(0, 0)
  {
    CutOnly(Chunk128([Block(0, 128)], {}, 0), 32, One()[0]);
  }

  lemma SecondRange(vs: seq<View>, pick: Pick, addr: Address)
    requires GoodPick(One(), 32, pick) && Allocated(One(), vs, 32, pick, 128, addr)
    ensures vs == Two() && addr == Address(0, 32)
  {
    CutOnly(One()[0], 32, Two()[0]);
    assert TailFits(One(), 32, 0);
  }

  lemma ThirdRange(vs: seq<View>, pick: Pick, addr: Address)
    requires GoodPick(Two(), 64, pick) && Allocated(Two(), vs, 64, pick, 128, addr)
    ensures vs == [Full()] && addr == Address(0, 64)
  {
    CutOnly(Two()[0], 64, Full());
    assert TailFits(Two(), 64, 0);
  }

  lemma FourthRange(vs: seq<View>, pick: Pick, addr: Address)
    requires GoodPick([Full()], 64, pick) && Allocated([Full()], vs, 64, pick, 128, addr)
    ensures vs == [Full(), Second()] && addr == Address(1, 0)
  {
    CutOnly(Chunk128([Block(0, 128)], {}, 0), 64, Second());
  }

  lemma FifthRange(vs: seq<View>, pick: Pick, addr: Address)
    requires GoodPick([Full(), Second()], 32, pick) && Allocated([Full(), Second()], vs, 32, pick, 128, addr)
    ensures vs == [Full(), Third()] && addr == Address(1, 64)
  {
    CutOnly(Second(), 32, Third());
    assert TailFits([Full(), Second()], 32, 1);
  }

  lemma Freeing()
    ensures Returned(Full(), Block(64, 64), Block(64, 64)) == Opening()
    ensures Returned(Opening(), Block(0, 32), Block(0, 32)) == SmallGap()
    ensures Returned(Third(), Block(0, 64), Block(0, 64)) == LargeGap()
  {
    assert InsertAt([], Block(64, 64), 0) == 0;
    assert InsertAt([Block(64, 64)], Block(0, 32), 0) == 0;
    assert InsertAt([Block(96, 32)], Block(0, 64), 0) == 0;
  }

  /** The block taken is in the second chunk, although the first has a smaller one. */
  lemma LastRange(vs: seq<View>, pick: Pick, addr: Address)
    requires GoodPick([SmallGap(), LargeGap()], 32, pick) && Allocated([SmallGap(), LargeGap()], vs, 32, pick, 128, addr)
    ensures pick == Inner(1, 0) && addr == Address(1, 0) && vs == [SmallGap(), Taken(LargeGap(), 0, 32)]
  {
    assert InnerFits([SmallGap(), LargeGap()], 32, 1, 0);
  }

  /** An allocation that cannot fail. */
  method Get(al: Allocator, size: nat) returns (addr: Address, ghost pick: Pick)
    requires al.Valid() && al.alignment == 32 && 0 < size && size % 32 == 0 && al.requested + size <= HALF_MAX
    modifies al.Repr
    ensures al.Valid() && fresh(al.Repr - old(al.Repr)) && al.requested == old(al.requested) + size
    ensures GoodPick(old(al.views), size, pick) && Allocated(old(al.views), al.views, size, pick, al.maxChunkSize, addr)
  {
    WholeAlign(size);
    var ok;
    ok, addr, pick := al.Alloc(size);
  }

  /** The release of a whole range while the table has room. */
  method Give(al: Allocator, addr: Address, size: nat)
    requires al.Valid() && al.alignment == 32 && addr.chunk < |al.views| && Block(addr.offset, size) in al.views[addr.chunk].live
    requires 0 < size && size % 32 == 0 && addr.offset % 32 == 0 && |al.views[addr.chunk].free| < MAX_FREE_BLOCKS
    modifies al.Repr
    ensures al.Valid() && al.Repr == old(al.Repr) && al.requested == old(al.requested)
    ensures var b := Block(addr.offset, size);
            al.views == old(al.views)[addr.chunk := Returned(old(al.views)[addr.chunk], b, b)]
  {
    WholeAlign(size);
    var ok := al.FreeBytes(addr, size, Block(addr.offset, size));
  }

  method FillHalf() returns (al: Allocator)
    ensures al.Valid() && fresh(al.Repr) && al.alignment == 32 && al.maxChunkSize == 128
    ensures al.views == Two() && al.requested == 64
  {
    al := new Allocator(32, 128);
    var addr, pick := Get(al, 32);
    FirstRange(al.views, pick, addr);
    addr, pick := Get(al, 32);
    SecondRange(al.views, pick, addr);
  }

  /** One full chunk. */
  method FillFirst() returns (al: Allocator)
    ensures al.Valid() && fresh(al.Repr) && al.alignment == 32 && al.maxChunkSize == 128
    ensures al.views == [Full()] && al.requested == 128
  {
    al := FillHalf();
    var addr, pick := Get(al, 64);
    ThirdRange(al.views, pick, addr);
  }

  /** A second chunk is opened, and used in part. */
  method FillSecond() returns (al: Allocator)
    ensures al.Valid() && fresh(al.Repr) && al.alignment == 32 && al.maxChunkSize == 128
    ensures al.views == [Full(), Third()] && al.requested == 224
  {
    al := FillFirst();
    var addr, pick := Get(al, 64);
    FourthRange(al.views, pick, addr);
    addr, pick := Get(al, 32);
    FifthRange(al.views, pick, addr);
  }

  method MakeGaps() returns (al: Allocator)
    ensures al.Valid() && fresh(al.Repr) && al.alignment == 32 && al.maxChunkSize == 128
    ensures al.views == [SmallGap(), LargeGap()] && al.requested == 224
  {
    al := FillSecond();
    Freeing();
    Give(al, Address(0, 64), 64);
    assert al.views == [Opening(), Third()];
    Give(al, Address(0, 0), 32);
    assert al.views == [SmallGap(), Third()];
    Give(al, Address(1, 0), 64);
    assert al.views == [SmallGap(), LargeGap()];
  }

  /** In that state the last chunk with a fit does not have the smallest. */
  lemma SmallGapIsMissed()
    ensures var vs := [SmallGap(), LargeGap()];
            && InnerPick(vs, 32, 1, 0) && vs[1].free[0].size == 64
            && InnerFits(vs, 32, 0, 0) && vs[0].free[0].size == 32
            && !SmallestFit(vs, 32, 1, 0) && !LastChunkHasSmallest(vs, 32)
  {
    var vs := [SmallGap(), LargeGap()];
    assert InnerFits(vs, 32, 0, 0);
    BestFitIff(vs, 32, 1, 0);
  }

  /** Eight calls lead there, and the ninth takes 32 bytes from the block of 64 in the second chunk,
      although the first chunk has a block of exactly 32. */
  method LaterChunkWins() returns (al: Allocator, addr: Address)
    ensures fresh(al.Repr) && al.Valid() && addr == Address(1, 0)
    ensures al.views == [SmallGap(), Taken(LargeGap(), 0, 32)]
  {
    al := MakeGaps();
    ghost var pick;
    addr, pick := Get(al, 32);
    LastRange(al.views, pick, addr);
  }

  // ---------- a full table ----------

  const RANGES: nat := 2 * MAX_FREE_BLOCKS - 1
  const TABLE_CAP: nat := 32 * RANGES

  function Cell(k: nat): Block {
    Block(32 * k, 32)
  }

  /** The first `k` cells. */
  ghost function Cells(k: nat): (s: set<Block>)
    ensures forall b :: b in s <==> exists j :: 0 <= j < k && b == Cell(j)
  {
    if k == 0 then {} else Cells(k - 1) + {Cell(k - 1)}
  }

  /** The chunk after `k` allocations of one cell each. */
  ghost function Stacked(k: nat): View
    requires k <= RANGES
  {
    View(if k == RANGES then [] else [Block(32 * k, TABLE_CAP - 32 * k)], Cells(k), TABLE_CAP, 32 * k)
  }

  lemma FirstCell(vs: seq<View>, pick: Pick, addr: Address)
    requires GoodPick([], 32, pick) && Allocated([], vs, 32, pick, TABLE_CAP, addr)
    ensures vs == [Stacked(1)]
  {
    assert Cells(0) == {} && Cells(1) == {Cell(0)};
    CutOnly(View([Block(0, TABLE_CAP)], {}, TABLE_CAP, 0), 32, Stacked(1));
  }

  lemma NextCell(k: nat, vs: seq<View>, pick: Pick, addr: Address)
    requires 0 < k < RANGES && GoodPick([Stacked(k)], 32, pick) && Allocated([Stacked(k)], vs, 32, pick, TABLE_CAP, addr)
    ensures vs == [Stacked(k + 1)]
  {
    assert TailFits([Stacked(k)], 32, 0);
    CutOnly(Stacked(k), 32, Stacked(k + 1));
  }

  method FillCells() returns (al: Allocator)
    ensures al.Valid() && fresh(al.Repr) && al.alignment == 32 && al.maxChunkSize == TABLE_CAP && al.views == [Stacked(RANGES)]
  {
    al := new Allocator(32, TABLE_CAP);
    var addr, pick := Get(al, 32);
    FirstCell(al.views, pick, addr);
    for k := 1 to RANGES
      invariant al.Valid() && fresh(al.Repr) && al.views == [Stacked(k)] && al.requested == 32 * k
    {
      AddCell(al, k);
    }
  }

  method AddCell(al: Allocator, k: nat)
    requires al.Valid() && al.alignment == 32 && al.maxChunkSize == TABLE_CAP && 0 < k < RANGES
    requires al.views == [Stacked(k)] && al.requested == 32 * k
    modifies al.Repr
    ensures al.Valid() && fresh(al.Repr - old(al.Repr)) && al.views == [Stacked(k + 1)] && al.requested == 32 * (k + 1)
  {
    var addr, pick := Get(al, 32);
    NextCell(k, al.views, pick, addr);
  }

  /** The free list after the first `j` even cells were given back. */
  ghost function Evens(j: nat): (f: seq<Block>)
    ensures |f| == j && forall i :: 0 <= i < j ==> f[i] == Cell(2 * i)
  {
    seq(j, i requires 0 <= i < j => Cell(2 * i))
  }

  ghost function WithoutEvens(j: nat): (s: set<Block>)
    ensures forall k :: 0 <= k < RANGES && 2 * j <= k ==> Cell(k) in s
  {
    if j == 0 then Cells(RANGES) else WithoutEvens(j - 1) - {Cell(2 * (j - 1))}
  }

  ghost function Combed(j: nat): View {
    View(Evens(j), WithoutEvens(j), TABLE_CAP, TABLE_CAP)
  }

  /** A range that touches no free block and lies above them all goes to the end of the list. */
  lemma {:induction false} FreedLast(f: seq<Block>, q: Block, i: nat)
    requires i <= |f| && forall k :: 0 <= k < |f| ==> f[k].End() < q.offset && f[k].offset < q.End()
    ensures Freed(f, q, i) == f + [q]
    decreases |f| - i
  {
    if i < |f| {
      FreedLast(f, q, i + 1);
    } else {
      assert InsertAt(f, q, 0) == |f|;
    }
  }

  lemma CombNext(j: nat)
    requires j < MAX_FREE_BLOCKS
    ensures Returned(Combed(j), Cell(2 * j), Cell(2 * j)) == Combed(j + 1)
    ensures Cell(2 * j) in Combed(j).live && |Combed(j).free| == j
  {
    FreedLast(Evens(j), Cell(2 * j), 0);
    assert Evens(j + 1) == Evens(j) + [Cell(2 * j)];
  }

  /** Gives back every other cell: 256 free blocks that cannot be merged. */
  method FillTable() returns (al: Allocator)
    ensures al.Valid() && fresh(al.Repr) && al.alignment == 32 && al.views == [Combed(MAX_FREE_BLOCKS)]
  {
    al := FillCells();
    assert Stacked(RANGES) == Combed(0);
    for j := 0 to MAX_FREE_BLOCKS
      invariant al.Valid() && fresh(al.Repr) && al.views == [Combed(j)]
    {
      GiveCell(al, j);
    }
  }

  method GiveCell(al: Allocator, j: nat)
    requires al.Valid() && al.alignment == 32 && al.views == [Combed(j)] && j < MAX_FREE_BLOCKS
    modifies al.Repr
    ensures al.Valid() && al.Repr == old(al.Repr) && al.views == [Combed(j + 1)]
  {
    CombNext(j);
    Give(al, Address(0, 64 * j), 32);
  }

  /** The next cell asked for comes from the last but one free block and uses it up. */
  lemma FullTablePick(pick: Pick)
    requires GoodPick([Combed(MAX_FREE_BLOCKS)], 32, pick)
    ensures pick == Inner(0, MAX_FREE_BLOCKS - 2) && Evens(MAX_FREE_BLOCKS)[MAX_FREE_BLOCKS - 2].size == 32
  {
    assert InnerFits([Combed(MAX_FREE_BLOCKS)], 32, 0, MAX_FREE_BLOCKS - 2);
  }

  /** So 511 allocations, 256 releases and one more allocation make the removal read slot 256 of the table. */
  method ReadsPastTable() returns (al: Allocator, ghost top: nat)
    ensures top == MAX_FREE_BLOCKS
  {
    al := FillTable();
    var found, c, i;
    ghost var pick;
    found, c, i, pick := al.Choose(32);
    FullTablePick(pick);
    var chunk := al.chunks[c];
    assert al.Owns(chunk) && chunk.v == Combed(MAX_FREE_BLOCKS);
    var offset;
    offset, top := chunk.TakeFrom(i, 32);
  }
}
