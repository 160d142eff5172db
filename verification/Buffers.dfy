/** The allocators of one graph allocator, one for each distinct buffer type: buffer
    ids of the same type share an allocator, as `ggml_gallocr_new_n` arranges. */
module Buffers {
  import opened Alignment
  import opened FreeSpace
  import opened DynTallocr

  /** The chunks of every buffer type, as a value. */
  type Pools = map<int, seq<View>>

  ghost predicate PoolsGrow(p: Pools, q: Pools) {
    p.Keys == q.Keys && forall t :: t in p ==> MarksGrow(p[t], q[t])
  }

  /** A range that is live in the pool of buffer type `buft`. */
  ghost predicate LiveIn(p: Pools, buft: int, r: Range) {
    buft in p && r in LiveRanges(p[buft])
  }

  /** A range below the high-water mark of its chunk. */
  ghost predicate Below(p: Pools, buft: int, r: Range) {
    buft in p && r.chunk < |p[buft]| && r.block.End() <= p[buft][r.chunk].maxSize
  }

  lemma BelowStays(p: Pools, q: Pools, buft: int, r: Range)
    requires PoolsGrow(p, q) && Below(p, buft, r)
    ensures Below(q, buft, r)
  {
    assert MarksGrow(p[buft], q[buft]);
  }

  /** One more live range `got` of type `buft`, apart from all the others of that type. */
  ghost predicate Grew(p: Pools, q: Pools, buft: int, got: Range) {
    && PoolsGrow(p, q)
    && LiveIn(q, buft, got) && Below(q, buft, got)
    && (forall r :: LiveIn(p, buft, r) ==> LiveIn(q, buft, r) && Separate(r, got))
    && (forall t, r :: t != buft && LiveIn(p, t, r) ==> LiveIn(q, t, r))
  }

  /** The live range `whole` of type `buft` lost its tail `tail`; nothing else changed. */
  ghost predicate Shrank(p: Pools, q: Pools, buft: int, whole: Range, tail: Block)
    requires whole.block.offset <= tail.offset
  {
    && PoolsGrow(p, q)
    && (forall r :: LiveIn(p, buft, r) && r != whole ==> LiveIn(q, buft, r))
    && (forall r :: r in Rest(whole.chunk, whole.block, tail) ==> LiveIn(q, buft, r))
    && (forall t, r :: t != buft && LiveIn(p, t, r) ==> LiveIn(q, t, r))
  }

  lemma PoolGrew(p: Pools, buft: int, vs': seq<View>, a: nat, requested: nat, size: nat, pick: Pick, maxChunkSize: nat, addr: Address)
    requires buft in p && AllAlignedOk(p[buft], a, requested, size) && maxChunkSize <= HALF_MAX
    requires GoodPick(p[buft], size, pick) && !(pick.NewChunk? && |p[buft]| == MAX_CHUNKS)
    requires Allocated(p[buft], vs', size, pick, maxChunkSize, addr)
    ensures Grew(p, p[buft := vs'], buft, Range(addr.chunk, Block(addr.offset, size)))
    ensures addr.offset % a == 0
  {
    AllocatedIsApart(p[buft], vs', a, requested, size, pick, maxChunkSize, addr);
  }

  lemma PoolShrank(p: Pools, buft: int, a: nat, requested: nat, whole: Range, tail: Block)
    requires LiveIn(p, buft, whole) && AllOk(p[buft], a, requested) && IsTail(whole.block, tail)
    requires a > 0 && tail.offset % a == 0
    ensures Shrank(p, p[buft := p[buft][whole.chunk := Returned(p[buft][whole.chunk], whole.block, tail)]], buft, whole, tail)
  {
    ReturnedRanges(p[buft], a, requested, whole.chunk, whole.block, tail);
  }

  // ---------- what was asked of each pool ----------

  /** Aligned bytes and ranges asked for since the last reset. */
  datatype Spent = Spent(bytes: nat, ranges: nat)

  type Ledger = map<int, Spent>

  /** No chunk has more live ranges than were asked for. */
  ghost predicate LiveUpTo(vs: seq<View>, ranges: nat) {
    forall c :: 0 <= c < |vs| ==> |vs[c].live| <= ranges
  }

  function Charged(l: Ledger, buft: int, bytes: nat): Ledger
    requires buft in l
  {
    l[buft := Spent(l[buft].bytes + bytes, l[buft].ranges + 1)]
  }

  ghost function Unspent(bufts: seq<int>): Ledger {
    map t | t in bufts :: Spent(0, 0)
  }

  lemma AllocatedLive(vs: seq<View>, vs': seq<View>, size: nat, pick: Pick, maxChunkSize: nat, addr: Address, ranges: nat)
    requires LiveUpTo(vs, ranges) && Allocated(vs, vs', size, pick, maxChunkSize, addr)
    ensures LiveUpTo(vs', ranges + 1)
  {
    var vs1 := Opened(vs, size, pick, maxChunkSize);
    assert LiveUpTo(vs1, ranges);
  }

  lemma ReturnedLive(vs: seq<View>, c: nat, whole: Block, tail: Block, ranges: nat)
    requires LiveUpTo(vs, ranges) && c < |vs| && whole in vs[c].live && whole.offset <= tail.offset
    ensures LiveUpTo(vs[c := Returned(vs[c], whole, tail)], ranges)
  {
    var live := vs[c].live;
    assert |live - {whole}| == |live| - 1;
    assert |Released(live, whole, tail)| <= |live - {whole}| + 1;
  }

  class BufferSet {
    const bufts: seq<int>
    const tallocs: seq<Allocator>
    const align: int -> nat
    ghost var pools: Pools
    ghost var ledger: Ledger
    ghost var Repr: set<object>

    ghost predicate Valid()
      reads this, Repr
    {
      && this in Repr && |tallocs| == |bufts|
      && (forall i :: 0 <= i < |bufts| ==> Holds(tallocs[i], bufts[i]))
      && SharedByType()
    }

    ghost predicate SharedByType()
      requires |tallocs| == |bufts|
      reads this, tallocs
    {
      forall i, j :: 0 <= i < |bufts| && 0 <= j < |bufts| ==>
        if bufts[i] == bufts[j] then tallocs[i] == tallocs[j] else tallocs[i].Repr !! tallocs[j].Repr
    }

    ghost predicate Known()
      reads this
    {
      forall t :: t in bufts ==> t in pools && t in ledger
    }

    lemma EachIsKnown()
      requires Valid()
      ensures Known()
    {
      assert forall i :: 0 <= i < |bufts| ==> Holds(tallocs[i], bufts[i]);
    }

    /** All allocators but those of one type. */
    ghost predicate OthersHold(buft: int)
      requires |tallocs| == |bufts|
      reads this, Repr
    {
      forall i :: 0 <= i < |bufts| && bufts[i] != buft ==> Holds(tallocs[i], bufts[i])
    }

    ghost predicate Holds(a: Allocator, buft: int)
      reads this, Repr
    {
      && a in Repr && a.Repr <= Repr && this !in a.Repr
      && a.Valid() && a.alignment == align(buft)
      && buft in pools && pools[buft] == a.views
      && buft in ledger && ledger[buft].bytes == a.requested && LiveUpTo(a.views, ledger[buft].ranges)
    }

    constructor (types: seq<int>, all: seq<Allocator>, alignOf: int -> nat, ghost repr: set<object>)
      requires Shared(types, all, alignOf, repr)
      ensures Valid() && fresh(Repr - repr) && bufts == types && align == alignOf
      ensures ledger == Unspent(types) && forall t :: t in types ==> t in pools && pools[t] == []
    {
      bufts := types;
      tallocs := all;
      align := alignOf;
      pools := map t | t in types :: [];
      ledger := Unspent(types);
      Repr := {this} + repr;
      new;
      assert SharedByType();
      forall i | 0 <= i < |bufts|
        ensures Holds(tallocs[i], bufts[i])
      {
        assert Empty(all[i], alignOf(types[i]), repr);
      }
    }

    /** Empties every allocator; a shared one is emptied once for each of its buffer ids. */
    method Reset()
      requires Valid()
      modifies Repr
      ensures Valid() && Repr == old(Repr) && pools.Keys == old(pools.Keys)
      ensures ledger == Unspent(bufts) && forall i :: 0 <= i < |bufts| ==> pools[bufts[i]] == []
    {
      for i := 0 to |bufts|
        invariant Valid() && Repr == old(Repr) && pools.Keys == old(pools.Keys)
        invariant forall k :: 0 <= k < i ==> pools[bufts[k]] == [] && ledger[bufts[k]] == Spent(0, 0)
      {
        ResetOne(i);
      }
      Forget();
    }

    /** Clean books. */
    ghost method Forget()
      requires Valid() && forall i :: 0 <= i < |bufts| ==> ledger[bufts[i]] == Spent(0, 0)
      modifies this`ledger
      ensures Valid() && ledger == Unspent(bufts)
    {
      ledger := Unspent(bufts);
    }

    method ResetOne(i: nat)
      requires Valid() && i < |bufts|
      modifies Repr
      ensures Valid() && Repr == old(Repr) && pools == old(pools)[bufts[i] := []] && ledger == old(ledger)[bufts[i] := Spent(0, 0)]
    {
      tallocs[i].Reset();
      pools := pools[bufts[i] := []];
      ledger := ledger[bufts[i] := Spent(0, 0)];
    }

    /** The call to the allocator; the others keep what they have. */
    method AllocIn(b: nat, size: nat) returns (ok: bool, addr: Address, ghost pick: Pick)
      requires Valid() && b < |bufts| && align(bufts[b]) > 0
      requires size > 0 && Align(size, align(bufts[b])) <= HALF_MAX
      modifies tallocs[b].Repr
      ensures fresh(tallocs[b].Repr - old(tallocs[b].Repr)) && SharedByType() && OthersHold(bufts[b])
      ensures GoodPick(old(pools)[bufts[b]], Align(size, align(bufts[b])), pick)
      ensures ok <==> !(pick.NewChunk? && |old(pools)[bufts[b]]| == MAX_CHUNKS)
      ensures tallocs[b].requested == old(ledger)[bufts[b]].bytes + Align(size, align(bufts[b]))
      ensures tallocs[b].requested <= HALF_MAX ==> ok
      ensures ok ==> tallocs[b].Valid()
      ensures ok ==> Allocated(old(pools)[bufts[b]], tallocs[b].views, Align(size, align(bufts[b])), pick, tallocs[b].maxChunkSize, addr)
    {
      var a := tallocs[b];
      assert Holds(a, bufts[b]);
      ok, addr, pick := a.Alloc(size);
    }

    /** Notes what the allocator of one type holds now. */
    ghost method Note(b: nat, spent: Spent)
      requires |tallocs| == |bufts| && b < |bufts| && this in Repr && OthersHold(bufts[b]) && SharedByType()
      requires Known()
      requires var a := tallocs[b]; a.Valid() && this !in a.Repr && a.alignment == align(bufts[b])
      requires tallocs[b].requested == spent.bytes && LiveUpTo(tallocs[b].views, spent.ranges)
      modifies this`pools, this`ledger, this`Repr
      ensures Valid() && Repr == old(Repr) + tallocs[b].Repr
      ensures pools == old(pools)[bufts[b] := tallocs[b].views] && ledger == old(ledger)[bufts[b] := spent]
    {
      pools := pools[bufts[b] := tallocs[b].views];
      ledger := ledger[bufts[b] := spent];
      Repr := Repr + tallocs[b].Repr;
    }

    /** Takes a range from one allocator. */
    method Take(b: nat, size: nat) returns (ok: bool, addr: Address, ghost pick: Pick)
      requires Valid() && b < |bufts| && align(bufts[b]) > 0
      requires size > 0 && Align(size, align(bufts[b])) <= HALF_MAX
      modifies Repr
      ensures fresh(Repr - old(Repr))
      ensures GoodPick(old(pools)[bufts[b]], Align(size, align(bufts[b])), pick)
      ensures ok ==> !(pick.NewChunk? && |old(pools)[bufts[b]]| == MAX_CHUNKS)
      ensures old(ledger)[bufts[b]].bytes + Align(size, align(bufts[b])) <= HALF_MAX ==> ok
      ensures ok ==> Valid() && pools == old(pools)[bufts[b] := pools[bufts[b]]]
      ensures ok ==> ledger == Charged(old(ledger), bufts[b], Align(size, align(bufts[b])))
      ensures ok ==> Allocated(old(pools)[bufts[b]], pools[bufts[b]], Align(size, align(bufts[b])), pick, tallocs[b].maxChunkSize, addr)
    {
      assert Holds(tallocs[b], bufts[b]);
      EachIsKnown();
      ok, addr, pick := AllocIn(b, size);
      if ok {
        AllocatedLive(pools[bufts[b]], tallocs[b].views, Align(size, align(bufts[b])), pick, tallocs[b].maxChunkSize, addr, ledger[bufts[b]].ranges);
        Note(b, Charged(ledger, bufts[b], Align(size, align(bufts[b])))[bufts[b]]);
      }
    }

    method Alloc(b: nat, size: nat) returns (ok: bool, addr: Address)
      requires Valid() && b < |bufts| && align(bufts[b]) > 0
      requires size > 0 && Align(size, align(bufts[b])) <= HALF_MAX
      modifies Repr
      ensures fresh(Repr - old(Repr))
      ensures bufts[b] in old(ledger) && (old(ledger)[bufts[b]].bytes + Align(size, align(bufts[b])) <= HALF_MAX ==> ok)
      ensures ok ==> Valid() && addr.offset % align(bufts[b]) == 0
      ensures ok ==> ledger == Charged(old(ledger), bufts[b], Align(size, align(bufts[b])))
      ensures ok ==> Grew(old(pools), pools, bufts[b], Range(addr.chunk, Block(addr.offset, Align(size, align(bufts[b])))))
    {
      ghost var p, a, r := pools, tallocs[b].alignment, tallocs[b].requested;
      ghost var pick;
      assert Holds(tallocs[b], bufts[b]);
      ok, addr, pick := Take(b, size);
      if ok {
        PoolGrew(p, bufts[b], pools[bufts[b]], a, r, Align(size, a), pick, tallocs[b].maxChunkSize, addr);
      }
    }

    method FreeIn(b: nat, addr: Address, size: nat, ghost whole: Range) returns (ok: bool)
      requires Valid() && b < |bufts| && LiveIn(pools, bufts[b], whole) && whole.chunk == addr.chunk
      requires align(bufts[b]) > 0 && addr.offset % align(bufts[b]) == 0
      requires IsTail(whole.block, Block(addr.offset, Align(size, align(bufts[b]))))
      modifies tallocs[b].Repr
      ensures tallocs[b].Repr == old(tallocs[b].Repr) && tallocs[b].requested == old(tallocs[b].requested)
      ensures SharedByType() && OthersHold(bufts[b])
      ensures |old(pools)[bufts[b]][addr.chunk].live| <= MAX_FREE_BLOCKS - 2 ==> ok
      ensures ok ==> tallocs[b].Valid() && tallocs[b].views == old(pools)[bufts[b]][addr.chunk :=
                       Returned(old(pools)[bufts[b]][addr.chunk], whole.block, Block(addr.offset, Align(size, align(bufts[b]))))]
    {
      var a := tallocs[b];
      assert Holds(a, bufts[b]);
      ok := a.FreeBytes(addr, size, whole.block);
    }

    method FreeBytes(b: nat, addr: Address, size: nat, ghost whole: Range) returns (ok: bool)
      requires Valid() && b < |bufts| && LiveIn(pools, bufts[b], whole) && whole.chunk == addr.chunk
      requires align(bufts[b]) > 0 && addr.offset % align(bufts[b]) == 0
      requires IsTail(whole.block, Block(addr.offset, Align(size, align(bufts[b]))))
      modifies Repr
      ensures Repr == old(Repr) && ledger == old(ledger)
      ensures bufts[b] in ledger && (ledger[bufts[b]].ranges <= MAX_FREE_BLOCKS - 2 ==> ok)
      ensures ok ==> Valid()
      ensures ok ==> Shrank(old(pools), pools, bufts[b], whole, Block(addr.offset, Align(size, align(bufts[b]))))
    {
      var a := tallocs[b];
      assert Holds(a, bufts[b]);
      ghost var tail := Block(addr.offset, Align(size, align(bufts[b])));
      PoolShrank(pools, bufts[b], a.alignment, a.requested, whole, tail);
      ReturnedLive(pools[bufts[b]], addr.chunk, whole.block, tail, ledger[bufts[b]].ranges);
      EachIsKnown();
      ok := FreeIn(b, addr, size, whole);
      if ok {
        Note(b, ledger[bufts[b]]);
      }
    }
  }

  /** Empty allocators, the same one for equal types and disjoint ones for different types. */
  ghost predicate Shared(types: seq<int>, all: seq<Allocator>, alignOf: int -> nat, repr: set<object>)
    reads repr, all
  {
    && |all| == |types|
    && (forall k :: 0 <= k < |all| ==> all[k].Repr <= repr)
    && (forall k :: 0 <= k < |all| ==> Empty(all[k], alignOf(types[k]), repr))
    && (forall k, l :: 0 <= k < |all| && 0 <= l < |all| ==>
          if types[k] == types[l] then all[k] == all[l] else all[k].Repr !! all[l].Repr)
  }

  ghost predicate Empty(a: Allocator, align: nat, repr: set<object>)
    requires a.Repr <= repr
    reads a, repr
  {
    a.Valid() && a.alignment == align && a.views == [] && a.requested == 0
  }

  /** The first buffer id before `i` with the type of `i`, or `i` itself. */
  method FirstOfType(types: seq<int>, i: nat) returns (j: nat)
    requires i < |types|
    ensures j <= i && types[j] == types[i] && forall k :: 0 <= k < j ==> types[k] != types[i]
  {
    j := 0;
    while j < i && types[j] != types[i]
      invariant j <= i
      invariant forall k :: 0 <= k < j ==> types[k] != types[i]
    {
      j := j + 1;
    }
  }

  /** Makes an allocator only for a type not seen before. */
  method MakeAllocators(types: seq<int>, alignOf: int -> nat, maxSizeOf: int -> nat)
    returns (all: seq<Allocator>, ghost repr: set<object>)
    requires forall i :: 0 <= i < |types| ==> alignOf(types[i]) > 0
    ensures fresh(repr) && Shared(types, all, alignOf, repr)
  {
    all, repr := [], {};
    for i := 0 to |types|
      invariant fresh(repr) && Shared(types[..i], all, alignOf, repr)
    {
      var j := FirstOfType(types, i);
      if j < i {
        OldType(types, all, alignOf, repr, i, j);
        all := all + [all[j]];
      } else {
        var a := new Allocator(alignOf(types[i]), maxSizeOf(types[i]));
        NewType(types, all, alignOf, repr, i, a);
        repr := repr + a.Repr;
        all := all + [a];
      }
    }
    assert types[..|types|] == types;
  }

  lemma OldType(types: seq<int>, all: seq<Allocator>, alignOf: int -> nat, repr: set<object>, i: nat, j: nat)
    requires i < |types| && |all| == i && Shared(types[..i], all, alignOf, repr)
    requires j < i && types[j] == types[i]
    ensures Shared(types[..i + 1], all + [all[j]], alignOf, repr)
  {
    var all', types' := all + [all[j]], types[..i + 1];
    forall k | 0 <= k < |all'|
      ensures all'[k].Repr <= repr && Empty(all'[k], alignOf(types'[k]), repr)
    {
      var l := if k < i then k else j;
      assert Empty(all[l], alignOf(types[..i][l]), repr);
    }
  }

  lemma NewType(types: seq<int>, all: seq<Allocator>, alignOf: int -> nat, repr: set<object>, i: nat, a: Allocator)
    requires i < |types| && |all| == i && Shared(types[..i], all, alignOf, repr)
    requires forall k :: 0 <= k < i ==> types[k] != types[i]
    requires a.Repr !! repr && a.Valid() && a.alignment == alignOf(types[i]) && a.views == [] && a.requested == 0
    ensures Shared(types[..i + 1], all + [a], alignOf, repr + a.Repr)
  {
    var all', types', repr' := all + [a], types[..i + 1], repr + a.Repr;
    forall k | 0 <= k < |all'|
      ensures all'[k].Repr <= repr' && Empty(all'[k], alignOf(types'[k]), repr')
    {
      if k < i {
        assert Empty(all[k], alignOf(types[..i][k]), repr);
      }
    }
  }
}
