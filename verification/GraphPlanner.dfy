/** The graph allocator of `ggml-alloc.c`: it walks a graph, counts readers and views,
    gives every tensor memory, reuses a parent's memory in place where it may, and
    frees memory at the last use.

    `ok == false` stands for an assertion of the source that stops the process: a full
    free-block table, no chunk left, or a reused parent that is too small.
 */
module GraphPlanner {
  import opened Wrappers
  import opened Alignment
  import opened FreeSpace
  import opened DynTallocr
  import opened Buffers
  import opened TensorGraph
  import opened RefCounts
  import opened PlannerState
  import opened PlannerSteps
  import opened PlanBudget
  import opened PlanOutcome

  class Gallocr {
    const bufs: BufferSet
    var hn: Table

    ghost predicate Valid(cfg: Config)
      reads this, bufs, bufs.Repr
    {
      bufs.Valid() && this !in bufs.Repr && bufs.bufts == cfg.bufts && bufs.align == cfg.align
    }

    constructor (buffers: BufferSet, ghost cfg: Config)
      requires buffers.Valid() && buffers.bufts == cfg.bufts && buffers.align == cfg.align
      ensures Valid(cfg) && bufs == buffers && hn == []
    {
      bufs := buffers;
      hn := [];
    }

    /** Memory for one tensor: none if it is a view, external or served already; a
        parent's if it may run in place; otherwise a range of its own. */
    method AllocateNode(g: Graph, cfg: Config, t: nat, b: nat) returns (ok: bool, ghost how: How)
      requires Valid(cfg) && IdsOk(g) && ConfigOk(g, cfg) && Consistent(g, cfg, hn, bufs.pools)
      requires t < |hn| && b < |cfg.bufts| && (Owned(g, t) && !hn[t].own ==> t !in g.tensors[t].src)
      modifies this`hn, bufs, bufs.Repr
      ensures fresh(bufs.Repr - old(bufs.Repr))
      ensures ok ==> Valid(cfg) && Consistent(g, cfg, hn, bufs.pools) && PoolsGrow(old(bufs.pools), bufs.pools)
      ensures ok ==> Obtained(g, cfg, old(hn), hn, t, how)
      ensures how.Skipped? <==> old(hn)[t].own || !Owned(g, t)
      ensures how.Skipped? ==> ok && bufs.pools == old(bufs.pools)
      ensures ok && !how.Fresh? ==> bufs.ledger == old(bufs.ledger)
      ensures ok && how.Fresh? ==> Spends(cfg, old(bufs.ledger), bufs.ledger, t, b)
      ensures how.Fresh? && Pays(cfg, old(bufs.ledger), t, b) ==> ok
      ensures how.Reused? && InplaceFits(g, cfg) && Solvent(old(bufs.ledger)) ==> ok
      ensures ok && how.Reused? ==> FirstReusable(g, old(hn), t, 0, how.p)
      ensures ok && how.Fresh? ==> NoneReusable(g, old(hn), t) && hn[t].bufferId == b
    {
      how := Skipped;
      PoolsGrowRefl(bufs.pools);
      if hn[t].own || g.tensors[t].external || IsView(g, t) {
        return true, how;
      }
      var found, p := FindParent(g, cfg, t);
      if found {
        ReuseFits(g, cfg, hn, bufs.pools, t, p);
        ok := Reuse(g, cfg, t, p);
        how := Reused(p);
      } else {
        ok := AllocateFresh(g, cfg, t, b);
        how := Fresh;
      }
    }

    /** Looks for a parent whose memory can be reused. A view never qualifies: views are
        not allocated, so the branch of the source that reuses a view's root is dead. */
    method FindParent(g: Graph, cfg: Config, t: nat) returns (found: bool, p: nat)
      requires IdsOk(g) && Consistent(g, cfg, hn, bufs.pools) && t < |hn|
      ensures found ==> CanInplace(g.tensors[t].op) && FirstReusable(g, hn, t, 0, p)
      ensures !found ==> NoneReusable(g, hn, t)
    {
      found, p := false, 0;
      if !CanInplace(g.tensors[t].op) {
        return;
      }
      assert LinksOk(g, t);
      var i := 0;
      while i < |g.tensors[t].src|
        invariant i <= |g.tensors[t].src|
        invariant forall k :: 0 <= k < i ==> !Reusable(g, hn, t, g.tensors[t].src[k])
      {
        p := g.tensors[t].src[i];
        if hn[p].own && !g.tensors[p].output && g.tensors[t].layout == g.tensors[p].layout &&
           hn[p].nChildren == 1 && hn[p].nViews == 0
        {
          assert Holder(g, cfg, hn[p], bufs.pools, p);
          if IsView(g, p) {
            assert false;
          }
          return true, p;
        }
        i := i + 1;
      }
    }

    /** Takes over the parent's range and frees the part of it that is not needed. */
    method Reuse(g: Graph, cfg: Config, t: nat, p: nat) returns (ok: bool)
      requires Valid(cfg) && ConfigOk(g, cfg) && Consistent(g, cfg, hn, bufs.pools)
      requires Owned(g, t) && !hn[t].own && p < |hn| && hn[p].own
      modifies this`hn, bufs, bufs.Repr
      ensures fresh(bufs.Repr - old(bufs.Repr)) && bufs.ledger == old(bufs.ledger)
      ensures cfg.size(Buft(cfg, old(hn)[p]), t) <= cfg.size(Buft(cfg, old(hn)[p]), p) && Solvent(bufs.ledger) ==> ok
      ensures ok ==> Valid(cfg) && Consistent(g, cfg, hn, bufs.pools) && PoolsGrow(old(bufs.pools), bufs.pools)
      ensures ok ==> p != t && hn == TakenOver(old(hn), p, t)
      ensures ok ==> cfg.size(Buft(cfg, old(hn)[p]), t) <= cfg.size(Buft(cfg, old(hn)[p]), p)
    {
      var h := hn[p];
      assert Holder(g, cfg, h, bufs.pools, p);
      var buft := cfg.bufts[h.bufferId];
      var parentSize, nodeSize := cfg.size(buft, p), cfg.size(buft, t);
      if parentSize < nodeSize {
        return false;
      }
      AlignMonotone(nodeSize, parentSize, cfg.align(buft));
      parentSize, nodeSize := Align(parentSize, cfg.align(buft)), Align(nodeSize, cfg.align(buft));
      ok := true;
      ghost var pools := bufs.pools;
      if parentSize > nodeSize {
        ok := FreeSpare(g, cfg, t, p, nodeSize, parentSize - nodeSize);
      } else {
        PoolsGrowRefl(pools);
      }
      if ok {
        TakeOverKeeps(g, cfg, hn, pools, bufs.pools, p, t);
      }
      hn := TakenOver(hn, p, t);
    }

    /** Frees the aligned tail of the parent's range. */
    method FreeSpare(g: Graph, cfg: Config, t: nat, p: nat, keep: nat, extra: nat) returns (ok: bool)
      requires Valid(cfg) && p < |hn| && Holder(g, cfg, hn[p], bufs.pools, p) && extra > 0
      requires keep == Reserved(cfg, Buft(cfg, hn[p]), t)
      requires keep + extra == Reserved(cfg, Buft(cfg, hn[p]), p)
      modifies bufs, bufs.Repr
      ensures bufs.Repr == old(bufs.Repr) && hn == old(hn) && bufs.ledger == old(bufs.ledger)
      ensures Solvent(bufs.ledger) ==> ok
      ensures ok ==> Valid(cfg)
      ensures ok ==> Shrank(old(bufs.pools), bufs.pools, Buft(cfg, hn[p]), Extent(cfg, hn[p], p), Spare(cfg, hn[p], p, t))
    {
      var h, a := hn[p], cfg.align(Buft(cfg, hn[p]));
      DifferenceAligned(keep + extra, keep, a);
      AlignAligned(extra, a);
      SumAligned(h.addr.offset, keep, a);
      ok := bufs.FreeBytes(h.bufferId, Address(h.addr.chunk, h.addr.offset + keep), extra, Extent(cfg, h, p));
    }

    method AllocateFresh(g: Graph, cfg: Config, t: nat, b: nat) returns (ok: bool)
      requires Valid(cfg) && ConfigOk(g, cfg) && Consistent(g, cfg, hn, bufs.pools)
      requires Owned(g, t) && !hn[t].own && b < |cfg.bufts|
      modifies this`hn, bufs, bufs.Repr
      ensures fresh(bufs.Repr - old(bufs.Repr))
      ensures ok ==> Valid(cfg) && Consistent(g, cfg, hn, bufs.pools) && PoolsGrow(old(bufs.pools), bufs.pools)
      ensures ok ==> exists addr :: hn == old(hn)[t := GivenSlot(old(hn)[t], b, addr)]
      ensures ok ==> Spends(cfg, old(bufs.ledger), bufs.ledger, t, b)
      ensures Pays(cfg, old(bufs.ledger), t, b) ==> ok
    {
      assert SizeOk(cfg, cfg.bufts[b], t);
      ghost var pools := bufs.pools;
      var addr;
      ok, addr := bufs.Alloc(b, cfg.size(cfg.bufts[b], t));
      if ok {
        FreshKeeps(g, cfg, hn, pools, bufs.pools, t, b, addr);
      }
      hn := hn[t := GivenSlot(hn[t], b, addr)];
    }

    /** Outputs are never freed. */
    method FreeNode(g: Graph, cfg: Config, t: nat) returns (ok: bool)
      requires Valid(cfg) && t < |hn| && t < |g.tensors| && Holder(g, cfg, hn[t], bufs.pools, t) && SizeOk(cfg, Buft(cfg, hn[t]), t)
      modifies this`hn, bufs, bufs.Repr
      ensures bufs.Repr == old(bufs.Repr) && bufs.ledger == old(bufs.ledger)
      ensures Solvent(bufs.ledger) ==> ok
      ensures g.tensors[t].output ==> ok && hn == old(hn) && bufs.pools == old(bufs.pools) && Valid(cfg)
      ensures !g.tensors[t].output && ok ==> Valid(cfg) && hn == old(hn)[t := old(hn)[t].(own := false)]
      ensures !g.tensors[t].output && ok ==>
                var h := old(hn)[t];
                Shrank(old(bufs.pools), bufs.pools, Buft(cfg, h), Extent(cfg, h, t), Extent(cfg, h, t).block)
    {
      if g.tensors[t].output {
        return true;
      }
      var h := hn[t];
      ok := bufs.FreeBytes(h.bufferId, h.addr, cfg.size(cfg.bufts[h.bufferId], t), Extent(cfg, h, t));
      hn := hn[t := h.(own := false)];
    }

    /** Plans a whole graph. */
    method AllocGraph(g: Graph, cfg: Config, nodeIds: Option<seq<nat>>, leafIds: Option<seq<nat>>) returns (ok: bool)
      requires Valid(cfg) && WellFormed(g) && ConfigOk(g, cfg)
      requires IdsInRange(nodeIds, |g.nodes|, |cfg.bufts|) && IdsInRange(leafIds, |g.leafs|, |cfg.bufts|)
      modifies this`hn, bufs, bufs.Repr
      ensures fresh(bufs.Repr - old(bufs.Repr))
      ensures ok ==> Valid(cfg) && |hn| == |g.tensors|
      ensures ok ==> SafePlan(g, PlanOf(cfg, hn))
      ensures ok ==> AllPlaced(g, cfg, hn, bufs.pools, |g.nodes|)
      ensures ok ==> OnlyKept(g, hn) && Sited(g, hn, leafIds, nodeIds, |g.nodes|)
      ensures ok ==> Covers(Total(old(bufs.ledger), g, cfg, nodeIds, leafIds), bufs.ledger)
      ensures Room(old(bufs.ledger), g, cfg, nodeIds, leafIds) ==> ok
    {
      ghost var base := Bill(bufs.ledger, g, cfg, g.leafs, leafIds, All, |g.leafs|);
      RoomForPart(base, g, cfg, g.nodes, nodeIds, All);
      ok := AllocateLeafs(g, cfg, leafIds);
      if ok {
        ok := AllocateNodes(g, cfg, nodeIds, base, leafIds);
      }
    }

    method AllocateNodes(g: Graph, cfg: Config, nodeIds: Option<seq<nat>>, ghost base: Ledger, ghost leafIds: Option<seq<nat>>) returns (ok: bool)
      requires Valid(cfg) && IdsInRange(nodeIds, |g.nodes|, |cfg.bufts|) && Counting(g, cfg, hn, bufs.pools, 0, 0, 0, 0)
      requires Covers(base, bufs.ledger) && Loads(g, hn, leafIds, None, |g.leafs|, 0)
      modifies this`hn, bufs, bufs.Repr
      ensures fresh(bufs.Repr - old(bufs.Repr))
      ensures ok ==> Valid(cfg) && |hn| == |g.tensors| && SafePlan(g, PlanOf(cfg, hn))
      ensures ok ==> AllPlaced(g, cfg, hn, bufs.pools, |g.nodes|) && OnlyKept(g, hn) && Sited(g, hn, leafIds, nodeIds, |g.nodes|)
      ensures ok ==> Covers(Bill(base, g, cfg, g.nodes, nodeIds, All, |g.nodes|), bufs.ledger)
      ensures InplaceFits(g, cfg) && Solvent(Bill(base, g, cfg, g.nodes, nodeIds, All, |g.nodes|)) ==> ok
    {
      ghost var between := Bill(base, g, cfg, g.nodes, nodeIds, Inputs, |g.nodes|);
      BillStarts(base, g, cfg, g.nodes, nodeIds, Inputs);
      BillSplits(base, g, cfg, g.nodes, nodeIds);
      BillStarts(between, g, cfg, g.nodes, nodeIds, Others);
      RoomForPart(between, g, cfg, g.nodes, nodeIds, Others);
      ok := CountNodes(g, cfg, nodeIds, base, leafIds);
      if ok {
        CountingDone(g, cfg, hn, bufs.pools);
        TidyStarts(g, hn);
        LoadsAreSited(g, hn, leafIds, nodeIds);
        ok := VisitNodes(g, cfg, nodeIds, between, leafIds);
      }
      if ok {
        PlanDone(g, cfg, hn, bufs.pools);
        TidyEnd(g, hn);
      }
    }

    /** The first pass has got to node `i`, within the bill. */
    ghost predicate CountingUp(g: Graph, cfg: Config, nodeIds: Option<seq<nat>>, base: Ledger, i: nat, leafIds: Option<seq<nat>>)
      requires i <= |g.nodes|
      reads this, bufs, bufs.Repr
    {
      && Valid(cfg) && Counting(g, cfg, hn, bufs.pools, i, i, i, 0) && Loads(g, hn, leafIds, nodeIds, |g.leafs|, i)
      && Covers(Bill(base, g, cfg, g.nodes, nodeIds, Inputs, i), bufs.ledger)
    }

    /** The first pass. */
    method CountNodes(g: Graph, cfg: Config, nodeIds: Option<seq<nat>>, ghost base: Ledger, ghost leafIds: Option<seq<nat>>) returns (ok: bool)
      requires IdsInRange(nodeIds, |g.nodes|, |cfg.bufts|) && CountingUp(g, cfg, nodeIds, base, 0, leafIds)
      modifies this`hn, bufs, bufs.Repr
      ensures fresh(bufs.Repr - old(bufs.Repr))
      ensures ok ==> CountingUp(g, cfg, nodeIds, base, |g.nodes|, leafIds)
      ensures InplaceFits(g, cfg) && Solvent(Bill(base, g, cfg, g.nodes, nodeIds, Inputs, |g.nodes|)) ==> ok
    {
      for i := 0 to |g.nodes|
        invariant fresh(bufs.Repr - old(bufs.Repr)) && CountingUp(g, cfg, nodeIds, base, i, leafIds)
      {
        ok := CountNext(g, cfg, nodeIds, base, i, leafIds);
        if !ok {
          return;
        }
      }
      ok := true;
    }

    method CountNext(g: Graph, cfg: Config, nodeIds: Option<seq<nat>>, ghost base: Ledger, i: nat, ghost leafIds: Option<seq<nat>>) returns (ok: bool)
      requires IdsInRange(nodeIds, |g.nodes|, |cfg.bufts|) && i < |g.nodes| && CountingUp(g, cfg, nodeIds, base, i, leafIds)
      modifies this`hn, bufs, bufs.Repr
      ensures fresh(bufs.Repr - old(bufs.Repr))
      ensures ok ==> CountingUp(g, cfg, nodeIds, base, i + 1, leafIds)
      ensures InplaceFits(g, cfg) && Solvent(Bill(base, g, cfg, g.nodes, nodeIds, Inputs, |g.nodes|)) ==> ok
    {
      ghost var hn0, l0 := hn, bufs.ledger;
      ok := CountNodeStep(g, cfg, i, BufferId(nodeIds, i));
      StepIsBilled(base, g, cfg, g.nodes, nodeIds, Inputs, i, l0, bufs.ledger, ok);
      if ok {
        InputServed(g, hn0, hn, leafIds, nodeIds, i, BufferId(nodeIds, i));
      }
    }

    /** The second pass has got to node `i`, within the bill. */
    ghost predicate Visiting(g: Graph, cfg: Config, nodeIds: Option<seq<nat>>, base: Ledger, i: nat, leafIds: Option<seq<nat>>)
      requires i <= |g.nodes|
      reads this, bufs, bufs.Repr
    {
      && Valid(cfg) && Before(g, cfg, hn, bufs.pools, i)
      && Covers(Bill(base, g, cfg, g.nodes, nodeIds, Others, i), bufs.ledger)
      && Tidy(g, hn, i, 0) && Sited(g, hn, leafIds, nodeIds, i)
    }

    /** The second pass. */
    method VisitNodes(g: Graph, cfg: Config, nodeIds: Option<seq<nat>>, ghost base: Ledger, ghost leafIds: Option<seq<nat>>) returns (ok: bool)
      requires IdsInRange(nodeIds, |g.nodes|, |cfg.bufts|) && Visiting(g, cfg, nodeIds, base, 0, leafIds)
      modifies this`hn, bufs, bufs.Repr
      ensures fresh(bufs.Repr - old(bufs.Repr))
      ensures ok ==> Visiting(g, cfg, nodeIds, base, |g.nodes|, leafIds)
      ensures InplaceFits(g, cfg) && Solvent(Bill(base, g, cfg, g.nodes, nodeIds, Others, |g.nodes|)) ==> ok
    {
      var i: nat := 0;
      ok := true;
      while ok && i < |g.nodes|
        invariant fresh(bufs.Repr - old(bufs.Repr)) && i <= |g.nodes| && (ok ==> Visiting(g, cfg, nodeIds, base, i, leafIds))
        invariant InplaceFits(g, cfg) && Solvent(Bill(base, g, cfg, g.nodes, nodeIds, Others, |g.nodes|)) ==> ok
        decreases |g.nodes| - i, ok
      {
        ok := VisitNext(g, cfg, nodeIds, base, i, leafIds);
        i := i + 1;
      }
    }

    method VisitNext(g: Graph, cfg: Config, nodeIds: Option<seq<nat>>, ghost base: Ledger, i: nat, ghost leafIds: Option<seq<nat>>) returns (ok: bool)
      requires IdsInRange(nodeIds, |g.nodes|, |cfg.bufts|) && i < |g.nodes| && Visiting(g, cfg, nodeIds, base, i, leafIds)
      modifies this`hn, bufs, bufs.Repr
      ensures fresh(bufs.Repr - old(bufs.Repr))
      ensures ok ==> Visiting(g, cfg, nodeIds, base, i + 1, leafIds)
      ensures InplaceFits(g, cfg) && Solvent(Bill(base, g, cfg, g.nodes, nodeIds, Others, |g.nodes|)) ==> ok
    {
      ghost var l0 := bufs.ledger;
      ok := VisitNode(g, cfg, i, BufferId(nodeIds, i), leafIds, nodeIds);
      StepIsBilled(base, g, cfg, g.nodes, nodeIds, Others, i, l0, bufs.ledger, ok);
    }

    /** Starts with an empty table and places the leafs. */
    method AllocateLeafs(g: Graph, cfg: Config, leafIds: Option<seq<nat>>) returns (ok: bool)
      requires Valid(cfg) && WellFormed(g) && ConfigOk(g, cfg) && IdsInRange(leafIds, |g.leafs|, |cfg.bufts|)
      modifies this`hn, bufs, bufs.Repr
      ensures fresh(bufs.Repr - old(bufs.Repr))
      ensures ok ==> Valid(cfg) && Counting(g, cfg, hn, bufs.pools, 0, 0, 0, 0) && Loads(g, hn, leafIds, None, |g.leafs|, 0)
      ensures ok ==> Covers(Bill(old(bufs.ledger), g, cfg, g.leafs, leafIds, All, |g.leafs|), bufs.ledger)
      ensures InplaceFits(g, cfg) && Solvent(Bill(old(bufs.ledger), g, cfg, g.leafs, leafIds, All, |g.leafs|)) ==> ok
    {
      hn := seq(|g.tensors|, _ => EMPTY);
      ghost var base := bufs.ledger;
      BillStarts(base, g, cfg, g.leafs, leafIds, All);
      CoversItself(base);
      LeafsLoaded(g, hn, leafIds, None);
      ok := AllocateEachLeaf(g, cfg, leafIds, base);
      if ok {
        LeafsDone(g, cfg, hn, bufs.pools);
      }
    }

    /** The first `i` leafs are placed, within the bill. */
    ghost predicate Leafing(g: Graph, cfg: Config, leafIds: Option<seq<nat>>, base: Ledger, i: nat)
      requires i <= |g.leafs|
      reads this, bufs, bufs.Repr
    {
      && Valid(cfg) && LeafsUpTo(g, cfg, hn, bufs.pools, i) && Loads(g, hn, leafIds, None, i, 0)
      && Covers(Bill(base, g, cfg, g.leafs, leafIds, All, i), bufs.ledger)
    }

    method AllocateEachLeaf(g: Graph, cfg: Config, leafIds: Option<seq<nat>>, ghost base: Ledger) returns (ok: bool)
      requires IdsInRange(leafIds, |g.leafs|, |cfg.bufts|) && Leafing(g, cfg, leafIds, base, 0)
      modifies this`hn, bufs, bufs.Repr
      ensures fresh(bufs.Repr - old(bufs.Repr))
      ensures ok ==> Leafing(g, cfg, leafIds, base, |g.leafs|)
      ensures InplaceFits(g, cfg) && Solvent(Bill(base, g, cfg, g.leafs, leafIds, All, |g.leafs|)) ==> ok
    {
      for i := 0 to |g.leafs|
        invariant fresh(bufs.Repr - old(bufs.Repr)) && Leafing(g, cfg, leafIds, base, i)
      {
        ok := LeafNext(g, cfg, leafIds, base, i);
        if !ok {
          return;
        }
      }
      ok := true;
    }

    method LeafNext(g: Graph, cfg: Config, leafIds: Option<seq<nat>>, ghost base: Ledger, i: nat) returns (ok: bool)
      requires IdsInRange(leafIds, |g.leafs|, |cfg.bufts|) && i < |g.leafs| && Leafing(g, cfg, leafIds, base, i)
      modifies this`hn, bufs, bufs.Repr
      ensures fresh(bufs.Repr - old(bufs.Repr))
      ensures ok ==> Leafing(g, cfg, leafIds, base, i + 1)
      ensures InplaceFits(g, cfg) && Solvent(Bill(base, g, cfg, g.leafs, leafIds, All, |g.leafs|)) ==> ok
    {
      ghost var hn0, l0 := hn, bufs.ledger;
      ok := AllocateLeaf(g, cfg, i, BufferId(leafIds, i));
      StepIsBilled(base, g, cfg, g.leafs, leafIds, All, i, l0, bufs.ledger, ok);
      if ok {
        LeafServed(g, hn0, hn, leafIds, None, i, BufferId(leafIds, i));
      }
    }

    method AllocateLeaf(g: Graph, cfg: Config, i: nat, b: nat) returns (ok: bool)
      requires Valid(cfg) && WellFormed(g) && ConfigOk(g, cfg) && i < |g.leafs| && b < |cfg.bufts|
      requires LeafsUpTo(g, cfg, hn, bufs.pools, i)
      modifies this`hn, bufs, bufs.Repr
      ensures fresh(bufs.Repr - old(bufs.Repr))
      ensures ok ==> Valid(cfg) && LeafsUpTo(g, cfg, hn, bufs.pools, i + 1) && Served(g, old(hn), hn, g.leafs[i], b)
      ensures ok ==> Covers(Next(old(bufs.ledger), g, cfg, g.leafs[i], All, cfg.bufts[b]), bufs.ledger)
      ensures InplaceFits(g, cfg) && Solvent(Next(old(bufs.ledger), g, cfg, g.leafs[i], All, cfg.bufts[b])) ==> ok
    {
      ghost var hn0, pools0, l0 := hn, bufs.pools, bufs.ledger;
      ghost var how;
      ok, how := AllocateNode(g, cfg, g.leafs[i], b);
      ServedIsBilled(g, cfg, hn0, l0, bufs.ledger, g.leafs[i], All, b, how, ok);
      if ok {
        LeafDone(g, cfg, hn0, hn, pools0, bufs.pools, i, how);
        assert g.tensors[g.leafs[i]].src == [];
      }
    }

    /** One node of the first pass: count its view, place it if it is an input, count its
        sources. Inputs among the sources are leafs or earlier nodes and placed already. */
    method CountNodeStep(g: Graph, cfg: Config, i: nat, b: nat) returns (ok: bool)
      requires Valid(cfg) && i < |g.nodes| && b < |cfg.bufts| && Counting(g, cfg, hn, bufs.pools, i, i, i, 0)
      modifies this`hn, bufs, bufs.Repr
      ensures fresh(bufs.Repr - old(bufs.Repr))
      ensures ok ==> Valid(cfg) && Counting(g, cfg, hn, bufs.pools, i + 1, i + 1, i + 1, 0) && Placing(g, old(hn), hn, i, b)
      ensures ok ==> Covers(Next(old(bufs.ledger), g, cfg, g.nodes[i], Inputs, cfg.bufts[b]), bufs.ledger)
      ensures InplaceFits(g, cfg) && Solvent(Next(old(bufs.ledger), g, cfg, g.nodes[i], Inputs, cfg.bufts[b])) ==> ok
    {
      ghost var hn0 := hn;
      CountViewOf(g, cfg, i);
      ghost var hn1 := hn;
      ok := PlaceInput(g, cfg, i, b);
      if ok {
        ghost var hn2 := hn;
        CountSources(g, cfg, i, b);
        PlacingBetween(g, hn0, hn1, hn2, hn, i, b);
      }
    }

    method CountViewOf(g: Graph, cfg: Config, i: nat)
      requires i < |g.nodes| && Counting(g, cfg, hn, bufs.pools, i, i, i, 0)
      modifies this`hn
      ensures Counting(g, cfg, hn, bufs.pools, i, i + 1, i, 0) && Unmoved(old(hn), hn)
    {
      CountView(g, cfg, hn, bufs.pools, i);
      AddView(g, i);
    }

    method AddView(g: Graph, i: nat)
      requires IdsOk(g) && i < |g.nodes| && |hn| == |g.tensors|
      modifies this`hn
      ensures hn == ViewCounted(g, old(hn), i) && Unmoved(old(hn), hn)
    {
      var n := g.nodes[i];
      assert LinksOk(g, n);
      if IsView(g, n) && g.tensors[n].op != NONE {
        var r := g.tensors[n].viewSrc.value;
        hn := hn[r := hn[r].(nViews := hn[r].nViews + 1)];
      }
    }

    method PlaceInput(g: Graph, cfg: Config, i: nat, b: nat) returns (ok: bool)
      requires Valid(cfg) && i < |g.nodes| && b < |cfg.bufts| && Counting(g, cfg, hn, bufs.pools, i, i + 1, i, 0)
      modifies this`hn, bufs, bufs.Repr
      ensures fresh(bufs.Repr - old(bufs.Repr))
      ensures ok ==> Valid(cfg) && Counting(g, cfg, hn, bufs.pools, i, i + 1, i + 1, 0) && Placing(g, old(hn), hn, i, b)
      ensures ok ==> Covers(Next(old(bufs.ledger), g, cfg, g.nodes[i], Inputs, cfg.bufts[b]), bufs.ledger)
      ensures InplaceFits(g, cfg) && Solvent(Next(old(bufs.ledger), g, cfg, g.nodes[i], Inputs, cfg.bufts[b])) ==> ok
    {
      ok := true;
      ghost var hn0, pools0, l0, how := hn, bufs.pools, bufs.ledger, Skipped;
      if g.tensors[g.nodes[i]].input {
        ok, how := AllocateNode(g, cfg, g.nodes[i], b);
        ServedIsBilled(g, cfg, hn0, l0, bufs.ledger, g.nodes[i], Inputs, b, how, ok);
      }
      if ok {
        CountInput(g, cfg, hn0, hn, pools0, bufs.pools, i, how);
      }
    }

    method CountSources(g: Graph, cfg: Config, i: nat, b: nat)
      requires Valid(cfg) && i < |g.nodes| && b < |cfg.bufts| && Counting(g, cfg, hn, bufs.pools, i, i + 1, i + 1, 0)
      modifies this`hn, bufs, bufs.Repr
      ensures fresh(bufs.Repr - old(bufs.Repr))
      ensures Valid(cfg) && Counting(g, cfg, hn, bufs.pools, i + 1, i + 1, i + 1, 0) && bufs.ledger == old(bufs.ledger)
      ensures Unmoved(old(hn), hn)
    {
      var src := g.tensors[g.nodes[i]].src;
      for k := 0 to |src|
        invariant Valid(cfg) && fresh(bufs.Repr - old(bufs.Repr))
        invariant Counting(g, cfg, hn, bufs.pools, i, i + 1, i + 1, k) && bufs.ledger == old(bufs.ledger) && Unmoved(old(hn), hn)
      {
        CountOneSource(g, cfg, i, k, b);
      }
      CountNode(g, cfg, hn, bufs.pools, i);
    }

    method CountOneSource(g: Graph, cfg: Config, i: nat, k: nat, b: nat)
      requires Valid(cfg) && b < |cfg.bufts| && i < |g.nodes| && Counting(g, cfg, hn, bufs.pools, i, i + 1, i + 1, k)
      requires k < |g.tensors[g.nodes[i]].src|
      modifies this`hn, bufs, bufs.Repr
      ensures fresh(bufs.Repr - old(bufs.Repr))
      ensures Valid(cfg) && Counting(g, cfg, hn, bufs.pools, i, i + 1, i + 1, k + 1) && bufs.ledger == old(bufs.ledger)
      ensures Unmoved(old(hn), hn)
    {
      var s := g.tensors[g.nodes[i]].src[k];
      CountUp(g, cfg, i, k, s);
      if g.tensors[s].input {
        var ok := AllocateServed(g, cfg, s, b);
      }
    }

    method CountUp(g: Graph, cfg: Config, i: nat, k: nat, s: nat)
      requires i < |g.nodes| && Counting(g, cfg, hn, bufs.pools, i, i + 1, i + 1, k)
      requires k < |g.tensors[g.nodes[i]].src| && s == g.tensors[g.nodes[i]].src[k]
      modifies this`hn
      ensures Counting(g, cfg, hn, bufs.pools, i, i + 1, i + 1, k + 1) && Unmoved(old(hn), hn)
      ensures s < |hn| && (g.tensors[s].input && Owned(g, s) ==> hn[s].own)
    {
      CountSource(g, cfg, hn, bufs.pools, i, k);
      hn := hn[s := hn[s].(nChildren := hn[s].nChildren + 1)];
    }

    /** A call for a tensor that needs nothing changes nothing. */
    method AllocateServed(g: Graph, cfg: Config, t: nat, b: nat) returns (ok: bool)
      requires Valid(cfg) && IdsOk(g) && ConfigOk(g, cfg) && Consistent(g, cfg, hn, bufs.pools)
      requires t < |hn| && b < |cfg.bufts| && (Owned(g, t) ==> hn[t].own)
      modifies this`hn, bufs, bufs.Repr
      ensures ok && Valid(cfg) && hn == old(hn) && bufs.pools == old(bufs.pools) && bufs.ledger == old(bufs.ledger)
      ensures fresh(bufs.Repr - old(bufs.Repr))
    {
      ghost var how;
      ok, how := AllocateNode(g, cfg, t, b);
    }

    /** One node of the second pass. */
    method VisitNode(g: Graph, cfg: Config, i: nat, b: nat, ghost leafIds: Option<seq<nat>>, ghost nodeIds: Option<seq<nat>>) returns (ok: bool)
      requires Valid(cfg) && i < |g.nodes| && b < |cfg.bufts| && Before(g, cfg, hn, bufs.pools, i)
      requires Tidy(g, hn, i, 0) && Sited(g, hn, leafIds, nodeIds, i) && Given(nodeIds, i, b)
      modifies this`hn, bufs, bufs.Repr
      ensures fresh(bufs.Repr - old(bufs.Repr))
      ensures ok ==> Valid(cfg) && Before(g, cfg, hn, bufs.pools, i + 1)
      ensures ok ==> Tidy(g, hn, i + 1, 0) && Sited(g, hn, leafIds, nodeIds, i + 1)
      ensures ok ==> Covers(Next(old(bufs.ledger), g, cfg, g.nodes[i], Others, cfg.bufts[b]), bufs.ledger)
      ensures InplaceFits(g, cfg) && Solvent(Next(old(bufs.ledger), g, cfg, g.nodes[i], Others, cfg.bufts[b])) ==> ok
    {
      ghost var l0 := bufs.ledger;
      ok := AllocateParents(g, cfg, i, b);
      ok := ServeNode(g, cfg, i, b, leafIds, nodeIds);
      if ok {
        ghost var hn1, l := hn, bufs.ledger;
        ok := GiveUpSources(g, cfg, i);
        if ok {
          SitedStays(g, hn1, hn, leafIds, nodeIds, i + 1);
        }
        if !ok && Solvent(Next(l0, g, cfg, g.nodes[i], Others, cfg.bufts[b])) {
          CoveredIsSolvent(Next(l0, g, cfg, g.nodes[i], Others, cfg.bufts[b]), l);
        }
      }
    }

    method ServeNode(g: Graph, cfg: Config, i: nat, b: nat, ghost leafIds: Option<seq<nat>>, ghost nodeIds: Option<seq<nat>>) returns (ok: bool)
      requires Valid(cfg) && i < |g.nodes| && b < |cfg.bufts| && Before(g, cfg, hn, bufs.pools, i)
      requires Tidy(g, hn, i, 0) && Sited(g, hn, leafIds, nodeIds, i) && Given(nodeIds, i, b)
      modifies this`hn, bufs, bufs.Repr
      ensures fresh(bufs.Repr - old(bufs.Repr))
      ensures ok ==> Valid(cfg) && Within(g, cfg, hn, bufs.pools, i, 0)
      ensures ok ==> Tidy(g, hn, i, 0) && Sited(g, hn, leafIds, nodeIds, i + 1)
      ensures ok ==> Covers(Next(old(bufs.ledger), g, cfg, g.nodes[i], Others, cfg.bufts[b]), bufs.ledger)
      ensures InplaceFits(g, cfg) && Solvent(Next(old(bufs.ledger), g, cfg, g.nodes[i], Others, cfg.bufts[b])) ==> ok
    {
      ghost var hn0, pools0, l0 := hn, bufs.pools, bufs.ledger;
      ghost var how;
      assert g.nodes[i] !in Node(g, i).src by {
        NotOwnSource(g, i);
      }
      ok, how := AllocateNode(g, cfg, g.nodes[i], b);
      ServedIsBilled(g, cfg, hn0, l0, bufs.ledger, g.nodes[i], Others, b, how, ok);
      if ok {
        NodeObtained(g, cfg, hn0, hn, pools0, bufs.pools, i, how);
        TidyServed(g, cfg, hn0, hn, i, how);
        SitedServed(g, cfg, hn0, hn, pools0, leafIds, nodeIds, i, how, b);
      }
    }

    /** Everything the node reads has its memory already; these calls change nothing. */
    method AllocateParents(g: Graph, cfg: Config, i: nat, b: nat) returns (ok: bool)
      requires Valid(cfg) && i < |g.nodes| && b < |cfg.bufts| && Before(g, cfg, hn, bufs.pools, i)
      modifies this`hn, bufs, bufs.Repr
      ensures fresh(bufs.Repr - old(bufs.Repr))
      ensures ok && Valid(cfg) && Before(g, cfg, hn, bufs.pools, i) && hn == old(hn) && bufs.ledger == old(bufs.ledger)
    {
      var src := g.tensors[g.nodes[i]].src;
      for k := 0 to |src|
        invariant Valid(cfg) && fresh(bufs.Repr - old(bufs.Repr))
        invariant Before(g, cfg, hn, bufs.pools, i) && hn == old(hn) && bufs.ledger == old(bufs.ledger)
      {
        SourcesHaveMemory(g, cfg, hn, bufs.pools, i, src[k]);
        ok := AllocateServed(g, cfg, src[k], b);
      }
      ok := true;
    }

    /** The node is done with its sources: count down, and free what nobody will use. */
    method GiveUpSources(g: Graph, cfg: Config, i: nat) returns (ok: bool)
      requires Valid(cfg) && i < |g.nodes| && Within(g, cfg, hn, bufs.pools, i, 0) && Tidy(g, hn, i, 0)
      modifies this`hn, bufs, bufs.Repr
      ensures bufs.Repr == old(bufs.Repr) && bufs.ledger == old(bufs.ledger) && (Solvent(bufs.ledger) ==> ok)
      ensures ok ==> Valid(cfg) && Before(g, cfg, hn, bufs.pools, i + 1)
      ensures ok ==> Tidy(g, hn, i + 1, 0) && SlotsBut(old(hn), hn, -1)
    {
      var src := g.tensors[g.nodes[i]].src;
      for k := 0 to |src|
        invariant Valid(cfg) && bufs.Repr == old(bufs.Repr) && bufs.ledger == old(bufs.ledger)
        invariant Within(g, cfg, hn, bufs.pools, i, k) && Tidy(g, hn, i, k) && SlotsBut(old(hn), hn, -1)
      {
        ok := GiveUp(g, cfg, i, k);
        if !ok {
          return;
        }
      }
      StepDone(g, cfg, hn, bufs.pools, i);
      TidyStep(g, hn, i);
      ok := true;
    }

    method GiveUp(g: Graph, cfg: Config, i: nat, k: nat) returns (ok: bool)
      requires Valid(cfg) && Within(g, cfg, hn, bufs.pools, i, k) && k < |g.tensors[g.nodes[i]].src| && Tidy(g, hn, i, k)
      modifies this`hn, bufs, bufs.Repr
      ensures bufs.Repr == old(bufs.Repr) && bufs.ledger == old(bufs.ledger) && (Solvent(bufs.ledger) ==> ok)
      ensures ok ==> Valid(cfg) && Within(g, cfg, hn, bufs.pools, i, k + 1)
      ensures ok ==> Tidy(g, hn, i, k + 1) && SlotsBut(old(hn), hn, -1)
    {
      ok := true;
      ghost var hn0 := hn;
      var p := g.tensors[g.nodes[i]].src[k];
      DropKeeps(g, cfg, hn, bufs.pools, i, k);
      SourceIsPast(g, i, p);
      var r, last := CountDown(g, p);
      ghost var hn1, pools1 := hn, bufs.pools;
      if last && hn[r].nViews == 0 && hn[r].nChildren == 0 && hn[r].own {
        ok := FreeUnused(g, cfg, i, k + 1, r);
      }
      if ok {
        GivenUp(g, cfg, hn0, hn1, hn, pools1, i, k, last);
      }
    }

    /** One reader of `p` less. When it was the last one, `r` is the tensor to look at
        next: the root that loses a view, or `p` itself. */
    method CountDown(g: Graph, p: nat) returns (r: nat, last: bool)
      requires p < |hn| && p < |g.tensors| && Root(g, p) < |hn|
      modifies this`hn
      ensures hn == Dropped(g, old(hn), p) && r == Root(g, p)
      ensures last <==> old(hn)[p].nChildren == 1 && old(hn)[p].nViews == 0
    {
      hn := hn[p := hn[p].(nChildren := hn[p].nChildren - 1)];
      last := hn[p].nChildren == 0 && hn[p].nViews == 0;
      r := p;
      if IsView(g, p) {
        r := g.tensors[p].viewSrc.value;
        if last {
          hn := hn[r := hn[r].(nViews := hn[r].nViews - 1)];
        }
      }
    }

    method FreeUnused(g: Graph, cfg: Config, i: nat, k: nat, t: nat) returns (ok: bool)
      requires Valid(cfg) && Within(g, cfg, hn, bufs.pools, i, k) && t < |hn| && hn[t].own
      requires hn[t].nChildren == 0 && hn[t].nViews == 0 && Made(g, t, i)
      modifies this`hn, bufs, bufs.Repr
      ensures bufs.Repr == old(bufs.Repr) && bufs.ledger == old(bufs.ledger) && (Solvent(bufs.ledger) ==> ok)
      ensures ok ==> Valid(cfg) && Within(g, cfg, hn, bufs.pools, i, k)
      ensures ok ==> hn == if g.tensors[t].output then old(hn) else old(hn)[t := old(hn)[t].(own := false)]
    {
      ghost var hn0, pools0 := hn, bufs.pools;
      assert Holder(g, cfg, hn[t], bufs.pools, t);
      assert SizeOk(cfg, cfg.bufts[hn[t].bufferId], t);
      ok := FreeNode(g, cfg, t);
      if ok && !g.tensors[t].output {
        FreeIsSafe(g, cfg, hn0, pools0, bufs.pools, i, k, t);
      }
    }
  }

  lemma ReuseFits(g: Graph, cfg: Config, hn: Table, pools: Pools, t: nat, p: nat)
    requires Consistent(g, cfg, hn, pools) && t < |hn| && CanInplace(g.tensors[t].op) && FirstReusable(g, hn, t, 0, p)
    ensures InplaceFits(g, cfg) ==> cfg.size(Buft(cfg, hn[p]), t) <= cfg.size(Buft(cfg, hn[p]), p)
  {
    assert Holder(g, cfg, hn[p], pools, p);
    assert MayReplace(g, t, p);
  }

  /** A range of its own for `t` is what the books gain. */
  ghost predicate Spends(cfg: Config, l: Ledger, l': Ledger, t: nat, b: nat) {
    b < |cfg.bufts| && cfg.bufts[b] in l && l' == Charged(l, cfg.bufts[b], Reserved(cfg, cfg.bufts[b], t))
  }

  /** There are bytes left for `t`. */
  ghost predicate Pays(cfg: Config, l: Ledger, t: nat, b: nat) {
    b < |cfg.bufts| && cfg.bufts[b] in l && l[cfg.bufts[b]].bytes + Reserved(cfg, cfg.bufts[b], t) <= HALF_MAX
  }

  /** A call of `AllocateNode` costs no more than the tensor, and goes through if that can be paid. */
  lemma ServedIsBilled(g: Graph, cfg: Config, hn: Table, l: Ledger, l': Ledger, t: nat, pass: Pass, b: nat, how: How, ok: bool)
    requires t < |hn| && b < |cfg.bufts| && cfg.bufts[b] in l && (how.Skipped? <==> hn[t].own || !Owned(g, t))
    requires how.Skipped? || Due(g, t, pass)
    requires ok && !how.Fresh? ==> l' == l
    requires ok && how.Fresh? ==> Spends(cfg, l, l', t, b)
    requires how.Skipped? || (how.Fresh? && Pays(cfg, l, t, b)) || (how.Reused? && InplaceFits(g, cfg) && Solvent(l)) ==> ok
    ensures ok ==> Covers(Next(l, g, cfg, t, pass, cfg.bufts[b]), l')
    ensures InplaceFits(g, cfg) && Solvent(Next(l, g, cfg, t, pass, cfg.bufts[b])) ==> ok
  {
    var m := Next(l, g, cfg, t, pass, cfg.bufts[b]);
    assert Covers(m, l);
    if Solvent(m) {
      CoveredIsSolvent(m, l);
      assert cfg.bufts[b] in m && Affordable(m[cfg.bufts[b]]);
    }
  }

  lemma NotOwnSource(g: Graph, i: nat)
    requires WellFormed(g) && i < |g.nodes|
    ensures g.nodes[i] !in Node(g, i).src
  {
    assert NodeOk(g, i);
    assert !Made(g, g.nodes[i], i);
  }

  lemma SourceIsPast(g: Graph, i: nat, p: nat)
    requires WellFormed(g) && i < |g.nodes| && p in Node(g, i).src
    ensures p < |g.tensors| && Made(g, p, i)
    ensures Root(g, p) < |g.tensors| && Made(g, Root(g, p), i)
  {
    assert NodeOk(g, i) && LinksOk(g, g.nodes[i]);
    if IsView(g, p) {
      var j :| 0 <= j < i && g.nodes[..i][j] == p;
      assert NodeOk(g, j) && LinksOk(g, p);
      assert g.nodes[..j] <= g.nodes[..i];
    }
  }

  ghost function FirstLeafs(g: Graph, l: nat): set<nat>
    requires l <= |g.leafs|
  {
    if l == 0 then {} else FirstLeafs(g, l - 1) + {g.leafs[l - 1]}
  }

  lemma {:induction false} AllLeafs(g: Graph, l: nat)
    requires l <= |g.leafs|
    ensures forall k :: 0 <= k < l ==> g.leafs[k] in FirstLeafs(g, l)
  {
    if l > 0 {
      AllLeafs(g, l - 1);
    }
  }

  /** What the first pass does to the table at node `i`, counters aside. */
  ghost predicate Placing(g: Graph, hn: Table, hn': Table, i: nat, b: nat)
    requires IdsOk(g) && |hn| == |g.tensors| && i < |g.nodes|
  {
    if Node(g, i).input then Served(g, hn, hn', g.nodes[i], b) else Unmoved(hn, hn')
  }

  lemma PlacingBetween(g: Graph, hn0: Table, hn1: Table, hn2: Table, hn3: Table, i: nat, b: nat)
    requires IdsOk(g) && |hn0| == |hn1| == |g.tensors| && i < |g.nodes|
    requires Unmoved(hn0, hn1) && Placing(g, hn1, hn2, i, b) && Unmoved(hn2, hn3)
    ensures Placing(g, hn0, hn3, i, b)
  {
  }

  /** The planner frees the root of a given-up source when nobody will use it any more. */
  lemma GivenUp(g: Graph, cfg: Config, hn0: Table, hn1: Table, hn: Table, pools: Pools, i: nat, k: nat, last: bool)
    requires WellFormed(g) && At(g, i, k) && i < |g.nodes| && k < |Node(g, i).src| && |hn0| == |g.tensors|
    requires Counts(g, hn0, i, k) && Tidy(g, hn0, i, k) && NoViewOwns(g, hn0)
    requires var p := Node(g, i).src[k];
             && p < |hn0| && Root(g, p) < |hn0| && hn1 == Dropped(g, hn0, p) && Within(g, cfg, hn1, pools, i, k + 1)
             && (last <==> hn0[p].nChildren == 1 && hn0[p].nViews == 0)
             && var r := Root(g, p);
                if last && hn1[r].nViews == 0 && hn1[r].nChildren == 0 && hn1[r].own && !g.tensors[r].output
                then hn == hn1[r := hn1[r].(own := false)] else hn == hn1
    ensures Tidy(g, hn, i, k + 1) && SlotsBut(hn0, hn, -1)
  {
    var p := Node(g, i).src[k];
    var r := Root(g, p);
    if hn[r].own && !Busy(g, r, i, k + 1) {
      assert CountOk(g, hn1[r], i, k + 1, r);
      LastReader(g, hn0, i, k);
    }
    TidyDropped(g, hn0, hn, i, k);
  }

  /** When nothing uses the root any more the source was read for the last time. */
  lemma LastReader(g: Graph, hn: Table, i: nat, k: nat)
    requires WellFormed(g) && At(g, i, k) && i < |g.nodes| && k < |Node(g, i).src| && Counts(g, hn, i, k)
    requires var r := Root(g, Node(g, i).src[k]); Left(g, r, i, k + 1) == 0 && LiveViews(g, r, i, k + 1) == {}
    ensures var p := Node(g, i).src[k]; p < |hn| && hn[p].nChildren == 1 && hn[p].nViews == 0
  {
    var p := Node(g, i).src[k];
    var r := Root(g, p);
    DroppedSource(g, hn, i, k);
    assert CountOk(g, hn[p], i, k, p);
    LeftNext(g, p, i, k);
    ViewsNext(g, r, i, k);
    if IsView(g, p) {
      assert NodeOk(g, i) && p in Node(g, i).src;
      assert p in Views(g, r);
      assert Left(g, p, i, k + 1) == 0;
    }
  }

  /** The leafs up to `l` have their memory and nothing else has. */
  ghost predicate LeafsUpTo(g: Graph, cfg: Config, hn: Table, pools: Pools, l: nat) {
    && l <= |g.leafs| && Loading(g, cfg, hn, pools)
    && (forall t: nat :: t < |hn| ==> SameCounters(hn[t], EMPTY))
    && (forall t: nat :: t in FirstLeafs(g, l) && Owned(g, t) ==> hn[t].own)
  }

  lemma LeafDone(g: Graph, cfg: Config, hn: Table, hn': Table, pools: Pools, pools': Pools, l: nat, how: How)
    requires LeafsUpTo(g, cfg, hn, pools, l) && l < |g.leafs| && Consistent(g, cfg, hn', pools')
    requires Obtained(g, cfg, hn, hn', g.leafs[l], how)
    ensures LeafsUpTo(g, cfg, hn', pools', l + 1)
  {
    assert g.leafs[l] in g.leafs;
    LoadedGetsOwn(g, cfg, hn, hn', pools, pools', g.leafs[l], how);
  }

  lemma LeafsDone(g: Graph, cfg: Config, hn: Table, pools: Pools)
    requires LeafsUpTo(g, cfg, hn, pools, |g.leafs|)
    ensures Counting(g, cfg, hn, pools, 0, 0, 0, 0)
  {
    AllLeafs(g, |g.leafs|);
    forall t: nat | t < |hn|
      ensures Tally(g, hn[t], 0, 0, 0, t)
    {
      assert ViewsBelow(g, t, 0) == {};
      assert |g.nodes| > 0 ==> Node(g, 0).src[..0] == [];
    }
  }
}
