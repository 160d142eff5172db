/** Keeping a plan for the next graph: what `ggml_gallocr_reserve_n_impl` records, when
    `ggml_gallocr_needs_realloc` lets the record stand, and why placing a graph of the
    same shape at the recorded addresses is safe.

    The function the source calls `node_needs_realloc` answers the opposite question: it
    returns true when the slot is good enough. It is called `SlotFits` here.
 */
module PlanReuse {
  import opened Wrappers
  import opened FreeSpace
  import opened DynTallocr
  import opened Buffers
  import opened TensorGraph
  import opened PlannerState
  import opened PlannerSteps
  import opened PlanBudget
  import opened PlanOutcome
  import opened GraphPlanner

  /** Where a tensor goes; `Unplaced` for views and external tensors. */
  datatype TensorAlloc = Unplaced | Slot(bufferId: nat, addr: Address, sizeMax: nat)

  datatype NodeAlloc = NodeAlloc(dst: TensorAlloc, src: seq<TensorAlloc>)

  datatype Record = Record(nodes: seq<NodeAlloc>, leafs: seq<TensorAlloc>)

  function SlotOf(g: Graph, cfg: Config, hn: Table, t: nat): TensorAlloc {
    if Owned(g, t) && t < |hn| then Slot(hn[t].bufferId, hn[t].addr, cfg.size(Buft(cfg, hn[t]), t)) else Unplaced
  }

  /** The record of a planned graph. */
  ghost predicate Records(rec: Record, g: Graph, cfg: Config, hn: Table)
    requires IdsOk(g)
  {
    && |rec.nodes| == |g.nodes| && |rec.leafs| == |g.leafs|
    && (forall i :: 0 <= i < |g.nodes| ==> NodeRecorded(rec.nodes[i], g, cfg, hn, i))
    && (forall i :: 0 <= i < |g.leafs| ==> rec.leafs[i] == SlotOf(g, cfg, hn, g.leafs[i]))
  }

  ghost predicate NodeRecorded(na: NodeAlloc, g: Graph, cfg: Config, hn: Table, i: nat)
    requires IdsOk(g) && i < |g.nodes|
  {
    && na.dst == SlotOf(g, cfg, hn, g.nodes[i]) && |na.src| == |Node(g, i).src|
    && forall k :: 0 <= k < |na.src| ==> na.src[k] == SlotOf(g, cfg, hn, Node(g, i).src[k])
  }

  /** Fills the record from the table of the planner. */
  method MakeRecord(g: Graph, cfg: Config, hn: Table) returns (rec: Record)
    requires IdsOk(g) && |hn| == |g.tensors|
    ensures Records(rec, g, cfg, hn)
  {
    var nodes: seq<NodeAlloc>, leafs: seq<TensorAlloc> := [], [];
    for i := 0 to |g.nodes|
      invariant |nodes| == i && forall j :: 0 <= j < i ==> NodeRecorded(nodes[j], g, cfg, hn, j)
    {
      var src: seq<TensorAlloc> := [];
      for k := 0 to |Node(g, i).src|
        invariant |src| == k && forall l :: 0 <= l < k ==> src[l] == SlotOf(g, cfg, hn, Node(g, i).src[l])
      {
        src := src + [SlotOf(g, cfg, hn, Node(g, i).src[k])];
      }
      nodes := nodes + [NodeAlloc(SlotOf(g, cfg, hn, g.nodes[i]), src)];
    }
    for i := 0 to |g.leafs|
      invariant |leafs| == i && forall j :: 0 <= j < i ==> leafs[j] == SlotOf(g, cfg, hn, g.leafs[j])
    {
      leafs := leafs + [SlotOf(g, cfg, hn, g.leafs[i])];
    }
    rec := Record(nodes, leafs);
  }

  // ---------- the test ----------

  /** The slot is large enough for `t`, or `t` needs none. */
  predicate SlotFits(g: Graph, cfg: Config, t: nat, ta: TensorAlloc) {
    Owned(g, t) ==> ta.Slot? && ta.bufferId < |cfg.bufts| && cfg.size(cfg.bufts[ta.bufferId], t) <= ta.sizeMax
  }

  function SourceSlot(na: NodeAlloc, k: nat): TensorAlloc {
    if k < |na.src| then na.src[k] else Unplaced
  }

  ghost predicate NodeFits(g: Graph, cfg: Config, na: NodeAlloc, i: nat)
    requires IdsOk(g) && i < |g.nodes|
  {
    && SlotFits(g, cfg, g.nodes[i], na.dst)
    && forall k :: 0 <= k < |Node(g, i).src| ==> SlotFits(g, cfg, Node(g, i).src[k], SourceSlot(na, k))
  }

  ghost predicate RecordFits(rec: Record, g: Graph, cfg: Config)
    requires IdsOk(g)
  {
    && |rec.nodes| == |g.nodes| && |rec.leafs| == |g.leafs|
    && forall i :: 0 <= i < |g.nodes| ==> NodeFits(g, cfg, rec.nodes[i], i)
  }

  /** Compares counts, then every node and its sources; leafs are not looked at. */
  method NeedsRealloc(rec: Record, g: Graph, cfg: Config) returns (needs: bool)
    requires IdsOk(g)
    ensures needs <==> !RecordFits(rec, g, cfg)
  {
    if |rec.nodes| != |g.nodes| || |rec.leafs| != |g.leafs| {
      return true;
    }
    for i := 0 to |g.nodes|
      invariant forall j :: 0 <= j < i ==> NodeFits(g, cfg, rec.nodes[j], j)
    {
      var na := rec.nodes[i];
      if !SlotFits(g, cfg, g.nodes[i], na.dst) {
        assert !NodeFits(g, cfg, rec.nodes[i], i);
        return true;
      }
      for k := 0 to |Node(g, i).src|
        invariant forall l :: 0 <= l < k ==> SlotFits(g, cfg, Node(g, i).src[l], SourceSlot(na, l))
      {
        if !SlotFits(g, cfg, Node(g, i).src[k], SourceSlot(na, k)) {
          assert !NodeFits(g, cfg, rec.nodes[i], i);
          return true;
        }
      }
    }
    needs := false;
  }

  // ---------- graphs of the same shape ----------

  predicate SameTensorShape(a: Tensor, b: Tensor) {
    a.op == b.op && a.src == b.src && a.viewSrc == b.viewSrc && a.input == b.input && a.output == b.output
  }

  /** The same graph up to layouts, sizes and which tensors have data. */
  ghost predicate SameShape(g: Graph, g': Graph) {
    && g.leafs == g'.leafs && g.nodes == g'.nodes && |g.tensors| == |g'.tensors|
    && forall t :: 0 <= t < |g.tensors| ==> SameTensorShape(g.tensors[t], g'.tensors[t])
  }

  ghost predicate InGraph(g: Graph, t: nat) {
    t in g.leafs || t in g.nodes
  }

  /** Every tensor of the new graph that needs memory had memory, and enough of it. */
  ghost predicate AllFit(g: Graph, cfg: Config, hn: Table, g': Graph, cfg': Config)
    requires |hn| == |g.tensors|
  {
    forall t: nat :: Owned(g', t) && InGraph(g, t) ==> Fits(g, cfg, hn, cfg', t)
  }

  ghost predicate Fits(g: Graph, cfg: Config, hn: Table, cfg': Config, t: nat)
    requires |hn| == |g.tensors|
  {
    Owned(g, t) && cfg'.size(Buft(cfg, hn[t]), t) <= cfg.size(Buft(cfg, hn[t]), t)
  }

  /** A leaf that no node reads. */
  ghost predicate UnreadLeaf(g: Graph, t: nat)
    requires IdsOk(g)
  {
    t in g.leafs && forall i :: 0 <= i < |g.nodes| ==> t !in Node(g, i).src
  }

  /** When the record is kept, everything fits if and only if the unread leafs do: those
      are the tensors the test does not look at. */
  lemma KeptRecordFitsIff(rec: Record, g: Graph, cfg: Config, hn: Table, g': Graph, cfg': Config)
    requires IdsOk(g) && IdsOk(g') && |hn| == |g.tensors| && SameShape(g, g') && cfg'.bufts == cfg.bufts
    requires forall t: nat :: Owned(g, t) && InGraph(g, t) ==> hn[t].bufferId < |cfg.bufts|
    requires Records(rec, g, cfg, hn) && RecordFits(rec, g', cfg')
    ensures AllFit(g, cfg, hn, g', cfg') <==>
            forall t: nat :: Owned(g', t) && UnreadLeaf(g, t) ==> Fits(g, cfg, hn, cfg', t)
  {
    forall t: nat | Owned(g', t) && InGraph(g, t) && !UnreadLeaf(g, t)
      ensures Fits(g, cfg, hn, cfg', t)
    {
      ReadFits(rec, g, cfg, hn, g', cfg', t);
    }
  }

  /** The test has looked at every tensor but the unread leafs. */
  lemma ReadFits(rec: Record, g: Graph, cfg: Config, hn: Table, g': Graph, cfg': Config, t: nat)
    requires IdsOk(g) && IdsOk(g') && |hn| == |g.tensors| && SameShape(g, g') && cfg'.bufts == cfg.bufts
    requires Records(rec, g, cfg, hn) && RecordFits(rec, g', cfg')
    requires Owned(g', t) && InGraph(g, t) && !UnreadLeaf(g, t)
    requires Owned(g, t) ==> hn[t].bufferId < |cfg.bufts|
    ensures Fits(g, cfg, hn, cfg', t)
  {
    if t in g.nodes {
      var i :| 0 <= i < |g.nodes| && g.nodes[i] == t;
      assert NodeRecorded(rec.nodes[i], g, cfg, hn, i) && NodeFits(g', cfg', rec.nodes[i], i);
    } else {
      var i :| 0 <= i < |g.nodes| && t in Node(g, i).src;
      var k :| 0 <= k < |Node(g, i).src| && Node(g, i).src[k] == t;
      assert NodeRecorded(rec.nodes[i], g, cfg, hn, i) && NodeFits(g', cfg', rec.nodes[i], i);
      assert Node(g, i).src == Node(g', i).src;
    }
  }

  /** The pairs that ran in place still may: same layout, no larger than the parent. */
  ghost predicate PairsKept(g: Graph, plan: Plan, g': Graph, plan': Plan)
    requires IdsOk(g) && |plan| == |plan'| == |g.tensors| == |g'.tensors|
  {
    forall i, p: nat :: 0 <= i < |g.nodes| && p < |g.tensors| && RunsInPlace(g, plan, i, p) ==>
      g'.tensors[g.nodes[i]].layout == g'.tensors[p].layout && plan'[g.nodes[i]].size <= plan'[p].size
  }

  /** `plan'` uses the places of `plan`, no more of them. */
  ghost predicate Shrinks(g: Graph, plan: Plan, g': Graph, plan': Plan)
    requires |plan| == |plan'| == |g.tensors| == |g'.tensors|
  {
    forall t: nat :: Owned(g', t) && InGraph(g, t) ==> Owned(g, t) && Inside(plan'[t], plan[t])
  }

  predicate Inside(p: Place, q: Place) {
    p.buft == q.buft && p.chunk == q.chunk && p.offset == q.offset && p.size <= q.size
  }

  lemma UsesSame(g: Graph, g': Graph, j: nat, t: nat)
    requires IdsOk(g) && IdsOk(g') && SameShape(g, g') && j < |g.nodes|
    ensures Uses(g, j, t) <==> Uses(g', j, t)
  {
    assert forall s: nat :: Root(g, s) == Root(g', s);
    assert ViewNode(g, g.nodes[j]) <==> ViewNode(g', g.nodes[j]);
  }

  lemma NeededSame(g: Graph, g': Graph, t: nat, i: nat)
    requires IdsOk(g) && IdsOk(g') && SameShape(g, g') && t < |g.tensors|
    ensures Needed(g, t, i) <==> Needed(g', t, i)
  {
    forall j: nat | j < |g.nodes|
      ensures Uses(g, j, t) <==> Uses(g', j, t)
    {
      UsesSame(g, g', j, t);
    }
  }

  lemma MadeInGraph(g: Graph, t: nat, i: nat)
    requires i <= |g.nodes| && Defined(g, t, i)
    ensures InGraph(g, t)
  {
  }

  /** A tensor that no longer fits its place, or had none. */
  ghost predicate Outgrown(g: Graph, plan: Plan, g': Graph, plan': Plan, t: nat)
    requires |plan| == |plan'| == |g.tensors| == |g'.tensors|
  {
    Owned(g', t) && InGraph(g, t) && !(Owned(g, t) && Inside(plan'[t], plan[t]))
  }

  /** Node `i` writes planned memory. */
  ghost predicate Writes(g: Graph, i: nat)
    requires IdsOk(g) && i < |g.nodes|
  {
    Owned(g, Target(g, i)) && Node(g, i).op != NONE
  }

  /** The write of node `i` does no harm to `t`. */
  ghost predicate Spares(g: Graph, plan: Plan, i: nat, t: nat)
    requires IdsOk(g) && |plan| == |g.tensors| && i < |g.nodes| && t < |plan|
  {
    || Disjoint(plan[t], plan[Target(g, i)])
    || (!(Defined(g, t, i) && Needed(g, t, i + 1)) && forall s: nat :: s in Node(g, i).src && Root(g, s) == t ==> s == t && RunsInPlace(g, plan, i, s))
  }

  lemma SafeStepIff(g: Graph, plan: Plan, i: nat)
    requires IdsOk(g) && |plan| == |g.tensors| && i < |g.nodes|
    ensures SafeStep(g, plan, i) <==> (Writes(g, i) ==> forall t: nat :: Owned(g, t) && t != Target(g, i) ==> Spares(g, plan, i, t))
  {
  }

  /** What is left to check when a plan is kept: the tensors that outgrew their places, against
      everything else, and the pairs that ran in place. */
  ghost predicate KeptOk(g: Graph, plan: Plan, g': Graph, plan': Plan)
    requires IdsOk(g) && IdsOk(g') && |plan| == |plan'| == |g.tensors| == |g'.tensors|
  {
    && (forall t: nat, u: nat :: Outgrown(g, plan, g', plan', t) && Loaded(g', t) && Loaded(g', u) && t != u ==> Disjoint(plan'[t], plan'[u]))
    && (forall i: nat, t: nat :: i < |g'.nodes| && Writes(g', i) && Owned(g', t) && t != Target(g', i) && Loose(g, plan, g', plan', i, t) ==>
          Spares(g', plan', i, t))
    && (forall i: nat, p: nat :: i < |g.nodes| && RunsInPlace(g, plan, i, p) ==> PairOk(g', plan', i, p))
  }

  /** Node `i` or tensor `t` outgrew its place. */
  ghost predicate Loose(g: Graph, plan: Plan, g': Graph, plan': Plan, i: nat, t: nat)
    requires IdsOk(g') && |plan| == |plan'| == |g.tensors| == |g'.tensors| && i < |g'.nodes|
  {
    Outgrown(g, plan, g', plan', t) || Outgrown(g, plan, g', plan', Target(g', i))
  }

  /** The pair may still run in place, or no longer meets. */
  ghost predicate PairOk(g': Graph, plan': Plan, i: nat, p: nat)
    requires |plan'| == |g'.tensors|
  {
    i < |g'.nodes| && Owned(g', g'.nodes[i]) && Owned(g', p) ==>
      var n := g'.nodes[i];
      Disjoint(plan'[p], plan'[n]) || (g'.tensors[n].layout == g'.tensors[p].layout && plan'[n].size <= plan'[p].size)
  }

  /** A kept plan is safe exactly when those checks pass. */
  lemma KeptSafeIff(g: Graph, plan: Plan, g': Graph, plan': Plan)
    requires WellFormed(g) && IdsOk(g') && SameShape(g, g') && SafePlan(g, plan) && |plan'| == |g'.tensors|
    ensures SafePlan(g', plan') <==> KeptOk(g, plan, g', plan')
  {
    if KeptOk(g, plan, g', plan') {
      KeptLoads(g, plan, g', plan');
      forall i | 0 <= i < |g'.nodes|
        ensures SafeStep(g', plan', i)
      {
        KeptStep(g, plan, g', plan', i);
      }
    }
    if SafePlan(g', plan') {
      SafeIsKept(g, plan, g', plan');
    }
  }

  lemma KeptLoads(g: Graph, plan: Plan, g': Graph, plan': Plan)
    requires WellFormed(g) && IdsOk(g') && SameShape(g, g') && SafePlan(g, plan) && |plan'| == |g'.tensors|
    requires KeptOk(g, plan, g', plan')
    ensures forall t: nat, u: nat :: Loaded(g', t) && Loaded(g', u) && t != u ==> Disjoint(plan'[t], plan'[u])
  {
    forall t: nat, u: nat | Loaded(g', t) && Loaded(g', u) && t != u
      ensures Disjoint(plan'[t], plan'[u])
    {
      MadeInGraph(g, t, 0);
      MadeInGraph(g, u, 0);
      if !Outgrown(g, plan, g', plan', t) && !Outgrown(g, plan, g', plan', u) {
        assert Loaded(g, t) && Loaded(g, u);
      }
    }
  }

  lemma KeptStep(g: Graph, plan: Plan, g': Graph, plan': Plan, i: nat)
    requires WellFormed(g) && IdsOk(g') && SameShape(g, g') && |plan| == |plan'| == |g'.tensors| && i < |g.nodes|
    requires SafeStep(g, plan, i) && KeptOk(g, plan, g', plan')
    ensures SafeStep(g', plan', i)
  {
    SafeStepIff(g, plan, i);
    SafeStepIff(g', plan', i);
    if Writes(g', i) {
      forall t: nat | Owned(g', t) && t != Target(g', i)
        ensures Spares(g', plan', i, t)
      {
        if !Loose(g, plan, g', plan', i, t) {
          KeptSpares(g, plan, g', plan', i, t);
        }
      }
    }
  }

  /** Tensors that still fit are spared as before. */
  lemma KeptSpares(g: Graph, plan: Plan, g': Graph, plan': Plan, i: nat, t: nat)
    requires WellFormed(g) && IdsOk(g') && SameShape(g, g') && |plan| == |plan'| == |g'.tensors| && i < |g.nodes|
    requires SafeStep(g, plan, i) && KeptOk(g, plan, g', plan')
    requires Writes(g', i) && Owned(g', t) && t != Target(g', i) && !Loose(g, plan, g', plan', i, t)
    ensures Spares(g', plan', i, t)
  {
    var r := Target(g', i);
    assert NodeOk(g, i);
    assert InGraph(g, r);
    SafeStepIff(g, plan, i);
    NeededSame(g, g', t, i + 1);
    if InGraph(g, t) {
      assert Writes(g, i) && Owned(g, t) && Spares(g, plan, i, t);
      forall s: nat | s in Node(g', i).src && Root(g', s) == t && !Disjoint(plan'[t], plan'[r])
        ensures s == t && RunsInPlace(g', plan', i, s)
      {
        assert s == t && RunsInPlace(g, plan, i, s);
        assert PairOk(g', plan', i, s);
      }
    } else {
      NotReached(g, g', i, t);
    }
  }

  /** A tensor outside the graph is no concern of any step. */
  lemma NotReached(g: Graph, g': Graph, i: nat, t: nat)
    requires WellFormed(g) && IdsOk(g') && SameShape(g, g') && i < |g.nodes| && t < |g.tensors| && !InGraph(g, t)
    ensures !Defined(g', t, i) && forall s: nat :: s in Node(g', i).src ==> Root(g', s) != t
  {
    forall s: nat | s in Node(g', i).src
      ensures Root(g', s) != t
    {
      SourceIsDefined(g, i, s);
      MadeInGraph(g, Root(g, s), i);
    }
  }

  lemma SafeIsKept(g: Graph, plan: Plan, g': Graph, plan': Plan)
    requires WellFormed(g) && IdsOk(g') && SameShape(g, g') && |plan| == |plan'| == |g'.tensors| && SafePlan(g', plan')
    ensures KeptOk(g, plan, g', plan')
  {
    forall i: nat | i < |g'.nodes|
      ensures Writes(g', i) ==> forall t: nat :: Owned(g', t) && t != Target(g', i) ==> Spares(g', plan', i, t)
    {
      SafeStepIff(g', plan', i);
    }
    forall i: nat, p: nat | i < |g.nodes| && RunsInPlace(g, plan, i, p)
      ensures PairOk(g', plan', i, p)
    {
      NotOwnSource(g, i);
      assert SafeStep(g', plan', i);
    }
  }

  /** A plan stays safe for a graph of the same shape whose tensors fit their slots. */
  lemma SmallerGraphIsSafe(g: Graph, plan: Plan, g': Graph, plan': Plan)
    requires WellFormed(g) && IdsOk(g') && SameShape(g, g') && |plan'| == |g'.tensors|
    requires SafePlan(g, plan) && Shrinks(g, plan, g', plan') && PairsKept(g, plan, g', plan')
    ensures SafePlan(g', plan')
  {
    KeptSafeIff(g, plan, g', plan');
    assert forall t: nat :: !Outgrown(g, plan, g', plan', t);
    assert KeptOk(g, plan, g', plan') by {
      forall i: nat | i < |g'.nodes|
        ensures !Outgrown(g, plan, g', plan', Target(g', i))
      {
      }
    }
  }

  /** When the test lets a record stand, the old addresses are safe exactly when the checks pass, and
      only unread leafs can have outgrown their places. */
  lemma KeptRecordSafeIff(rec: Record, g: Graph, cfg: Config, hn: Table, g': Graph, cfg': Config)
    requires WellFormed(g) && IdsOk(g') && |hn| == |g.tensors| && SameShape(g, g') && cfg'.bufts == cfg.bufts
    requires forall t: nat :: Owned(g, t) && InGraph(g, t) ==> hn[t].bufferId < |cfg.bufts|
    requires SafePlan(g, PlanOf(cfg, hn)) && Records(rec, g, cfg, hn) && RecordFits(rec, g', cfg')
    ensures SafePlan(g', PlanOf(cfg', hn)) <==> KeptOk(g, PlanOf(cfg, hn), g', PlanOf(cfg', hn))
    ensures forall t: nat :: Outgrown(g, PlanOf(cfg, hn), g', PlanOf(cfg', hn), t) ==> UnreadLeaf(g, t)
  {
    KeptSafeIff(g, PlanOf(cfg, hn), g', PlanOf(cfg', hn));
    forall t: nat | Owned(g', t) && InGraph(g, t) && !UnreadLeaf(g, t)
      ensures Owned(g, t) && Inside(PlanOf(cfg', hn)[t], PlanOf(cfg, hn)[t])
    {
      ReadFits(rec, g, cfg, hn, g', cfg', t);
    }
  }

  // ---------- why the unread leafs matter ----------

  function Leaf(kind: int): Tensor {
    Tensor(NONE, [], None, Layout(kind, [], []), false, false, false)
  }

  /** Two leafs, no nodes. */
  function TwoLeafs(kind: int): Graph {
    Graph([Leaf(kind), Leaf(0)], [0, 1], [])
  }

  function Bytes(first: nat): Config {
    Config([0], (b: int) => 32, (b: int, t: nat) => if t == 0 then first else 32)
  }

  const TWO_SLOTS: Table := [EMPTY.(own := true), EMPTY.(own := true, addr := Address(0, 32))]

  /** A larger unread leaf passes the test and is then placed over its neighbour. */
  lemma UnreadLeafCanOverlap(rec: Record)
    requires Records(rec, TwoLeafs(0), Bytes(32), TWO_SLOTS)
    ensures SafePlan(TwoLeafs(0), PlanOf(Bytes(32), TWO_SLOTS))
    ensures SameShape(TwoLeafs(0), TwoLeafs(1)) && RecordFits(rec, TwoLeafs(1), Bytes(64))
    ensures !SafePlan(TwoLeafs(1), PlanOf(Bytes(64), TWO_SLOTS))
  {
    assert forall g: Graph :: g.nodes == [] ==> g.nodes[..0] == [];
    assert Loaded(TwoLeafs(1), 0) && Loaded(TwoLeafs(1), 1);
    var plan' := PlanOf(Bytes(64), TWO_SLOTS);
    assert plan'[0] == Place(0, 0, 0, 64) && plan'[1] == Place(0, 0, 32, 32);
    assert !Disjoint(plan'[0], plan'[1]);
  }

  // ---------- why the shape matters ----------

  function Step(src: seq<nat>): Tensor {
    Tensor(OTHER(0), src, None, Layout(0, [], []), false, false, false)
  }

  /** A leaf and three nodes: 1 reads 0, 2 reads 1, and 3 reads `last`. */
  function Chain(last: nat): Graph {
    Graph([Leaf(0), Step([0]), Step([1]), Step([last])], [0], [1, 2, 3])
  }

  /** The addresses the planner gives `Chain(2)`: when node 1 has run nobody reads the leaf any
      more and node 2 takes its place; when node 2 has run node 3 takes the place of node 1. */
  const CHAIN_SLOTS: Table := [EMPTY, EMPTY.(addr := Address(0, 32)), EMPTY, EMPTY.(addr := Address(0, 32))]

  lemma ChainPlanIsSafe()
    ensures IdsOk(Chain(2)) && SafePlan(Chain(2), PlanOf(Bytes(32), CHAIN_SLOTS))
  {
    ChainIds(2);
    var g := Chain(2);
    forall t: nat, u: nat | Loaded(g, t) && Loaded(g, u)
      ensures t == u == 0
    {
    }
    forall i | 0 <= i < |g.nodes|
      ensures SafeStep(g, PlanOf(Bytes(32), CHAIN_SLOTS), i)
    {
      ChainStepIsSafe(i);
    }
  }

  lemma ChainIds(last: nat)
    requires last < 3
    ensures IdsOk(Chain(last))
  {
    forall t: nat | t < 4
      ensures LinksOk(Chain(last), t)
    {
    }
  }

  lemma ChainStepIsSafe(i: nat)
    requires i < 3 && IdsOk(Chain(2))
    ensures SafeStep(Chain(2), PlanOf(Bytes(32), CHAIN_SLOTS), i)
  {
    var g, plan := Chain(2), PlanOf(Bytes(32), CHAIN_SLOTS);
    assert |plan| == 4 && Target(g, i) == i + 1;
    assert plan[0] == plan[2] == Place(0, 0, 0, 32) && plan[1] == plan[3] == Place(0, 0, 32, 32);
    forall t: nat | Owned(g, t) && t != i + 1 && Defined(g, t, i)
      ensures !Needed(g, t, i + 1)
    {
      ChainNeed(i, t);
    }
  }

  /** In the chain only the tensor just computed is needed later. */
  lemma ChainNeed(i: nat, t: nat)
    requires i < 3 && IdsOk(Chain(2)) && t != i + 1 && Defined(Chain(2), t, i)
    ensures !Needed(Chain(2), t, i + 1)
  {
  }

  /** The header promises a new plan "if the topology changes". It does not look: a graph
      with as many nodes and leafs of the same sizes is placed by the old plan, here over
      a source that it still reads. */
  lemma ChangedShapeGoesUnnoticed(rec: Record)
    requires IdsOk(Chain(2)) && Records(rec, Chain(2), Bytes(32), CHAIN_SLOTS)
    ensures SafePlan(Chain(2), PlanOf(Bytes(32), CHAIN_SLOTS))
    ensures IdsOk(Chain(1)) && RecordFits(rec, Chain(1), Bytes(32))
    ensures !SafeStep(Chain(1), PlanOf(Bytes(32), CHAIN_SLOTS), 2)
  {
    ChainPlanIsSafe();
    ChainIds(1);
    forall i | 0 <= i < 3
      ensures NodeFits(Chain(1), Bytes(32), rec.nodes[i], i)
    {
      assert NodeRecorded(rec.nodes[i], Chain(2), Bytes(32), CHAIN_SLOTS, i);
      ChainNodeFits(rec.nodes[i], i);
    }
    ChangedShapeOverlaps();
  }

  lemma ChainNodeFits(na: NodeAlloc, i: nat)
    requires i < 3 && IdsOk(Chain(1)) && IdsOk(Chain(2)) && NodeRecorded(na, Chain(2), Bytes(32), CHAIN_SLOTS, i)
    ensures NodeFits(Chain(1), Bytes(32), na, i)
  {
  }

  lemma ChangedShapeOverlaps()
    ensures !SafeStep(Chain(1), PlanOf(Bytes(32), CHAIN_SLOTS), 2)
  {
    var plan := PlanOf(Bytes(32), CHAIN_SLOTS);
    assert 1 in Node(Chain(1), 2).src && !Disjoint(plan[1], plan[3]);
  }

  // ---------- placing a graph ----------

  datatype Where = Nowhere | Somewhere(bufferId: nat, addr: Address)

  /** Sets the address of a tensor that needs one and has none yet. */
  function Init(places: seq<Where>, g: Graph, t: nat, ta: TensorAlloc): seq<Where> {
    if t < |places| && Owned(g, t) && places[t].Nowhere? && ta.Slot? then places[t := Somewhere(ta.bufferId, ta.addr)]
    else places
  }

  /** No tensor is anywhere but in its slot of the table. */
  ghost predicate InSlots(places: seq<Where>, hn: Table, g: Graph) {
    && |places| == |hn| == |g.tensors|
    && forall t: nat :: t < |places| && places[t].Somewhere? ==> places[t] == Somewhere(hn[t].bufferId, hn[t].addr)
  }

  ghost predicate Done(places: seq<Where>, g: Graph, t: nat) {
    Owned(g, t) ==> t < |places| && places[t].Somewhere?
  }

  /** What the addresses of a placed graph are taken from. */
  ghost predicate Source(rec: Record, g: Graph, cfg: Config, hn: Table, g': Graph) {
    && IdsOk(g) && IdsOk(g') && |hn| == |g.tensors| && SameShape(g, g') && Records(rec, g, cfg, hn)
    && forall t: nat :: Owned(g', t) && InGraph(g, t) ==> Owned(g, t)
  }

  /** Leafs first, then for every node its sources and itself. */
  method InitTensors(rec: Record, g': Graph, ghost g: Graph, ghost cfg: Config, ghost hn: Table)
    returns (places: seq<Where>)
    requires IdsOk(g') && |rec.nodes| == |g'.nodes| && |rec.leafs| == |g'.leafs|
    ensures Source(rec, g, cfg, hn, g') ==> InSlots(places, hn, g')
    ensures Source(rec, g, cfg, hn, g') ==> forall t: nat :: InGraph(g', t) ==> Done(places, g', t)
  {
    ghost var known := Source(rec, g, cfg, hn, g');
    places := seq(|g'.tensors|, _ => Nowhere);
    for i := 0 to |g'.leafs|
      invariant known ==> InSlots(places, hn, g')
      invariant known ==> forall j :: 0 <= j < i ==> Done(places, g', g'.leafs[j])
    {
      assert g'.leafs[i] in g'.leafs;
      places := Init(places, g', g'.leafs[i], rec.leafs[i]);
    }
    for i := 0 to |g'.nodes|
      invariant known ==> InSlots(places, hn, g')
      invariant known ==> forall j :: 0 <= j < |g'.leafs| ==> Done(places, g', g'.leafs[j])
      invariant known ==> forall j :: 0 <= j < i ==> Done(places, g', g'.nodes[j])
    {
      places := InitNode(rec, g', i, places, g, cfg, hn);
    }
  }

  method InitNode(rec: Record, g': Graph, i: nat, before: seq<Where>, ghost g: Graph, ghost cfg: Config, ghost hn: Table)
    returns (places: seq<Where>)
    requires IdsOk(g') && |rec.nodes| == |g'.nodes| && i < |g'.nodes|
    requires Source(rec, g, cfg, hn, g') ==> InSlots(before, hn, g')
    ensures Source(rec, g, cfg, hn, g') ==> InSlots(places, hn, g') && Done(places, g', g'.nodes[i])
    ensures |places| == |before| && forall t: nat :: t < |before| && before[t].Somewhere? ==> places[t] == before[t]
  {
    ghost var known := Source(rec, g, cfg, hn, g');
    places := before;
    assert known ==> NodeRecorded(rec.nodes[i], g, cfg, hn, i);
    for k := 0 to |Node(g', i).src|
      invariant known ==> InSlots(places, hn, g')
      invariant |places| == |before| && forall t: nat :: t < |before| && before[t].Somewhere? ==> places[t] == before[t]
    {
      places := Init(places, g', Node(g', i).src[k], SourceSlot(rec.nodes[i], k));
    }
    assert g'.nodes[i] in g'.nodes;
    places := Init(places, g', g'.nodes[i], rec.nodes[i].dst);
  }

  // ---------- the allocator with its buffers ----------

  /** Every chunk the pool uses is backed by a buffer of at least its high-water mark. */
  ghost predicate Backed(sizes: Option<seq<nat>>, vs: seq<View>) {
    forall c :: 0 <= c < |vs| ==> vs[c].maxSize <= ChunkSize(sizes, c)
  }

  /** The size of a chunk's buffer, 0 if there is none. */
  function ChunkSize(sizes: Option<seq<nat>>, c: nat): nat {
    if sizes.Some? && c < |sizes.value| then sizes.value[c] else 0
  }

  ghost predicate AllBacked(buffers: seq<Option<seq<nat>>>, bufts: seq<int>, pools: Pools, n: nat)
    requires n <= |buffers| == |bufts|
  {
    forall i :: 0 <= i < n ==> bufts[i] in pools && Backed(buffers[i], pools[bufts[i]])
  }

  /** Every buffer id has a buffer, ids of one type the same one. */
  ghost predicate AllShared(buffers: seq<Option<seq<nat>>>, bufts: seq<int>, n: nat)
    requires n <= |buffers| == |bufts|
  {
    && (forall i :: 0 <= i < n ==> buffers[i].Some?)
    && (forall i, j :: 0 <= i < n && 0 <= j < n && bufts[i] == bufts[j] ==> buffers[i] == buffers[j])
  }

  /** Which requests of chunk sizes for a buffer id the backend grants. */
  type Grants = (nat, seq<nat>) -> bool

  ghost predicate AllGranted(grants: Grants) {
    forall b, sizes :: grants(b, sizes)
  }

  /** The bytes of `t` lie inside the buffer of its chunk. */
  ghost predicate InsideBuffer(buffers: seq<Option<seq<nat>>>, cfg: Config, h: HashNode, t: nat) {
    && h.bufferId < |buffers| && buffers[h.bufferId].Some?
    && h.addr.chunk < |buffers[h.bufferId].value|
    && h.addr.offset + cfg.size(Buft(cfg, h), t) <= buffers[h.bufferId].value[h.addr.chunk]
  }

  lemma PlacedIsInside(buffers: seq<Option<seq<nat>>>, cfg: Config, cfg': Config, h: HashNode, pools: Pools, t: nat)
    requires |buffers| == |cfg.bufts| && AllBacked(buffers, cfg.bufts, pools, |buffers|) && cfg'.bufts == cfg.bufts
    requires Placed(cfg, h, pools, t) && 0 < cfg'.size(Buft(cfg, h), t) <= cfg.size(Buft(cfg, h), t)
    ensures InsideBuffer(buffers, cfg', h, t)
  {
    assert Backed(buffers[h.bufferId], pools[cfg.bufts[h.bufferId]]);
  }

  /** A graph of the planned shape whose tensors fit is safe at the recorded addresses. */
  lemma ReuseIsSafe(rec: Record, g: Graph, cfg: Config, hn: Table, g': Graph, cfg': Config, pools: Pools, buffers: seq<Option<seq<nat>>>)
    requires WellFormed(g) && IdsOk(g') && |hn| == |g.tensors| && SameShape(g, g') && cfg'.bufts == cfg.bufts
    requires SafePlan(g, PlanOf(cfg, hn)) && AllPlaced(g, cfg, hn, pools, |g.nodes|)
    requires |buffers| == |cfg.bufts| && AllBacked(buffers, cfg.bufts, pools, |buffers|)
    requires AllFit(g, cfg, hn, g', cfg') && PairsKept(g, PlanOf(cfg, hn), g', PlanOf(cfg', hn)) && ConfigOk(g', cfg')
    ensures SafePlan(g', PlanOf(cfg', hn))
    ensures forall t: nat :: Owned(g', t) && InGraph(g, t) ==> InsideBuffer(buffers, cfg', hn[t], t)
  {
    forall t: nat | Owned(g', t) && InGraph(g, t)
      ensures Owned(g, t) && Inside(PlanOf(cfg', hn)[t], PlanOf(cfg, hn)[t]) && InsideBuffer(buffers, cfg', hn[t], t)
    {
      assert Fits(g, cfg, hn, cfg', t);
      assert g.nodes[..|g.nodes|] == g.nodes;
      assert SizeOk(cfg', cfg'.bufts[hn[t].bufferId], t);
      PlacedIsInside(buffers, cfg, cfg', hn[t], pools, t);
    }
    SmallerGraphIsSafe(g, PlanOf(cfg, hn), g', PlanOf(cfg', hn));
  }

  /** What a caller must know to rely on a kept record: the same shape, the same in-place
      pairs, and unread leafs that have not grown. */
  ghost predicate Compatible(g: Graph, cfg: Config, hn: Table, g': Graph, cfg': Config) {
    && IdsOk(g) && |hn| == |g.tensors| && SameShape(g, g')
    && PairsKept(g, PlanOf(cfg, hn), g', PlanOf(cfg', hn))
    && forall t: nat :: Owned(g', t) && UnreadLeaf(g, t) ==> Fits(g, cfg, hn, cfg', t)
  }

  /** A graph is compatible with its own plan. */
  lemma SameIsCompatible(g: Graph, cfg: Config, hn: Table)
    requires IdsOk(g) && |hn| == |g.tensors|
    ensures Compatible(g, cfg, hn, g, cfg)
  {
  }

  /** Both ways to a placement are safe. */
  lemma PlacingIsSafe(rec: Record, g: Graph, cfg: Config, hn: Table, g': Graph, cfg': Config, pools: Pools,
                      buffers: seq<Option<seq<nat>>>, anew: bool)
    requires WellFormed(g) && IdsOk(g') && |hn| == |g.tensors| && cfg'.bufts == cfg.bufts
    requires SafePlan(g, PlanOf(cfg, hn)) && AllPlaced(g, cfg, hn, pools, |g.nodes|) && Records(rec, g, cfg, hn)
    requires |buffers| == |cfg.bufts| && AllBacked(buffers, cfg.bufts, pools, |buffers|)
    requires Compatible(g, cfg, hn, g', cfg') && ConfigOk(g', cfg')
    requires if anew then g' == g && cfg' == cfg else RecordFits(rec, g', cfg')
    ensures SafePlan(g', PlanOf(cfg', hn)) && Source(rec, g, cfg, hn, g')
    ensures forall t: nat :: Owned(g', t) && InGraph(g, t) ==> InsideBuffer(buffers, cfg', hn[t], t)
  {
    assert AllFit(g, cfg, hn, g', cfg') by {
      if !anew {
        assert g.nodes[..|g.nodes|] == g.nodes;
        forall t: nat | Owned(g, t) && InGraph(g, t)
          ensures hn[t].bufferId < |cfg.bufts|
        {
          assert Placed(cfg, hn[t], pools, t);
        }
        KeptRecordFitsIff(rec, g, cfg, hn, g', cfg');
      }
    }
    ReuseIsSafe(rec, g, cfg, hn, g', cfg', pools, buffers);
  }

  class GraphAllocator {
    const planner: Gallocr
    var rec: Record
    var buffers: seq<Option<seq<nat>>>
    ghost var planned: Graph
    ghost var cfg: Config
    ghost var table: Table

    ghost predicate Valid()
      reads this, planner, planner.bufs, planner.bufs.Repr
    {
      && planner.Valid(cfg) && this !in planner.bufs.Repr
      && WellFormed(planned) && |table| == |planned.tensors| && Records(rec, planned, cfg, table)
      && SafePlan(planned, PlanOf(cfg, table))
      && AllPlaced(planned, cfg, table, planner.bufs.pools, |planned.nodes|)
      && |buffers| == |cfg.bufts| && AllBacked(buffers, cfg.bufts, planner.bufs.pools, |buffers|)
    }

    constructor (p: Gallocr, ghost config: Config)
      requires p.Valid(config)
      requires forall i :: 0 <= i < |config.bufts| ==> p.bufs.pools[config.bufts[i]] == []
      ensures Valid() && planner == p && cfg == config && planned == Graph([], [], [])
    {
      planner := p;
      rec := Record([], []);
      buffers := seq(|p.bufs.bufts|, _ => None);
      planned := Graph([], [], []);
      cfg := config;
      table := [];
    }

    /** Empties the pools and plans the graph from nothing. */
    method PlanAgain(g: Graph, c: Config, nodeIds: Option<seq<nat>>, leafIds: Option<seq<nat>>) returns (ok: bool)
      requires planner.Valid(c) && this !in planner.bufs.Repr && WellFormed(g) && ConfigOk(g, c)
      requires IdsInRange(nodeIds, |g.nodes|, |c.bufts|) && IdsInRange(leafIds, |g.leafs|, |c.bufts|)
      modifies planner`hn, planner.bufs, planner.bufs.Repr
      ensures this !in planner.bufs.Repr
      ensures ok ==> planner.Valid(c) && |planner.hn| == |g.tensors| && SafePlan(g, PlanOf(c, planner.hn))
      ensures ok ==> AllPlaced(g, c, planner.hn, planner.bufs.pools, |g.nodes|)
      ensures ok ==> OnlyKept(g, planner.hn) && Sited(g, planner.hn, leafIds, nodeIds, |g.nodes|)
      ensures Room(Unspent(c.bufts), g, c, nodeIds, leafIds) ==> ok
    {
      planner.bufs.Reset();
      ok := planner.AllocGraph(g, c, nodeIds, leafIds);
    }

    /** Plans `g` afresh, records the addresses and makes sure the buffers are large enough. */
    method Reserve(g: Graph, c: Config, nodeIds: Option<seq<nat>>, leafIds: Option<seq<nat>>, grants: Grants) returns (ok: bool)
      requires Valid() && WellFormed(g) && ConfigOk(g, c) && c.bufts == cfg.bufts && c.align == cfg.align
      requires IdsInRange(nodeIds, |g.nodes|, |c.bufts|) && IdsInRange(leafIds, |g.leafs|, |c.bufts|)
      modifies this, planner`hn, planner.bufs, planner.bufs.Repr
      ensures ok ==> Valid() && planned == g && cfg == c && OnlyKept(g, table) && Sited(g, table, leafIds, nodeIds, |g.nodes|)
      ensures Room(Unspent(c.bufts), g, c, nodeIds, leafIds) && AllGranted(grants) ==> ok
    {
      ok := PlanAgain(g, c, nodeIds, leafIds);
      if !ok {
        return;
      }
      var r := MakeRecord(g, c, planner.hn);
      ok := Install(g, c, r, grants);
    }

    /** Takes over the new plan; buffers of the old one are kept where they are large enough. */
    method Install(ghost g: Graph, ghost c: Config, r: Record, grants: Grants) returns (ok: bool)
      requires planner.Valid(c) && this !in planner.bufs.Repr && |buffers| == |c.bufts|
      requires WellFormed(g) && |planner.hn| == |g.tensors| && Records(r, g, c, planner.hn)
      requires SafePlan(g, PlanOf(c, planner.hn)) && AllPlaced(g, c, planner.hn, planner.bufs.pools, |g.nodes|)
      modifies this
      ensures ok ==> Valid() && planned == g && cfg == c && table == planner.hn
      ensures AllGranted(grants) ==> ok
    {
      ok := GrowBuffers(c, grants);
      rec := r;
      planned, cfg, table := g, c, planner.hn;
    }

    /** Gives every buffer id a buffer that backs its pool, sharing it with the first id of
        the same type. Allocation may fail. */
    method GrowBuffers(ghost c: Config, grants: Grants) returns (ok: bool)
      requires planner.Valid(c) && this !in planner.bufs.Repr && |buffers| == |planner.bufs.bufts|
      modifies this`buffers
      ensures |buffers| == |planner.bufs.bufts|
      ensures ok ==> AllBacked(buffers, planner.bufs.bufts, planner.bufs.pools, |buffers|)
      ensures ok ==> AllShared(buffers, planner.bufs.bufts, |buffers|)
      ensures AllGranted(grants) ==> ok
    {
      ok := true;
      for i := 0 to |planner.bufs.bufts|
        invariant |buffers| == |planner.bufs.bufts| && ok
        invariant AllBacked(buffers, planner.bufs.bufts, planner.bufs.pools, i)
        invariant AllShared(buffers, planner.bufs.bufts, i)
      {
        var j := FirstOfType(planner.bufs.bufts, i);
        if j < i {
          buffers := buffers[i := buffers[j]];
        }
        var need := ChunkSizes(c, i);
        var small := TooSmall(buffers[i], need);
        if small {
          if !grants(i, need) {
            return false;
          }
          buffers := buffers[i := Some(need)];
        }
      }
    }

    method ChunkSizes(ghost c: Config, b: nat) returns (sizes: seq<nat>)
      requires planner.Valid(c) && b < |planner.bufs.bufts|
      ensures var vs := planner.bufs.pools[planner.bufs.bufts[b]];
              |sizes| == |vs| && forall k :: 0 <= k < |vs| ==> sizes[k] == vs[k].maxSize
    {
      sizes := [];
      var a := planner.bufs.tallocs[b];
      assert planner.bufs.Holds(a, planner.bufs.bufts[b]);
      for k := 0 to |a.chunks|
        invariant |sizes| == k && forall l :: 0 <= l < k ==> sizes[l] == a.views[l].maxSize
      {
        assert a.Owns(a.chunks[k]);
        sizes := sizes + [a.chunks[k].maxSize];
      }
    }

    /** Places a graph: at the recorded addresses if the test allows it, otherwise, with a
        single buffer, after planning it afresh. */
    method AllocGraph(g: Graph, c: Config, grants: Grants) returns (ok: bool, reused: bool, places: seq<Where>)
      requires Valid() && WellFormed(g) && ConfigOk(g, c) && c.bufts == cfg.bufts && c.align == cfg.align
      modifies this, planner`hn, planner.bufs, planner.bufs.Repr
      ensures ok ==> Valid()
      ensures reused <==> old(RecordFits(rec, g, c))
      ensures reused ==> ok && planned == old(planned) && cfg == old(cfg) && table == old(table)
      ensures ok && !reused ==> planned == g && cfg == c
      ensures |c.bufts| == 1 && Room(Unspent(c.bufts), g, c, None, None) && AllGranted(grants) ==> ok
      ensures reused && SameShape(planned, g) ==>
                (SafePlan(g, PlanOf(c, table)) <==> KeptOk(planned, PlanOf(cfg, table), g, PlanOf(c, table)))
      ensures ok && (reused ==> Compatible(planned, cfg, table, g, c)) ==>
                && |table| == |g.tensors| && SafePlan(g, PlanOf(c, table))
                && InSlots(places, table, g) && (forall t: nat :: InGraph(g, t) ==> Done(places, g, t))
                && (forall t: nat :: Owned(g, t) && InGraph(g, t) ==> InsideBuffer(buffers, c, table[t], t))
    {
      places := [];
      var needs := NeedsRealloc(rec, g, c);
      reused := !needs;
      if needs {
        if |planner.bufs.bufts| != 1 {
          return false, reused, places;
        }
        ok := Reserve(g, c, None, None, grants);
        if !ok {
          return;
        }
        SameIsCompatible(g, c, table);
      }
      ok := true;
      if !needs && SameShape(planned, g) {
        KeptSafeIff(planned, PlanOf(cfg, table), g, PlanOf(c, table));
      }
      if needs || Compatible(planned, cfg, table, g, c) {
        PlacingIsSafe(rec, planned, cfg, table, g, c, planner.bufs.pools, buffers, needs);
      }
      places := InitTensors(rec, g, planned, cfg, table);
    }
  }

  method TooSmall(have: Option<seq<nat>>, need: seq<nat>) returns (small: bool)
    ensures small <==> have.None? || exists k :: 0 <= k < |need| && need[k] > ChunkSize(have, k)
  {
    small := have.None?;
    for k := 0 to |need|
      invariant small <==> have.None? || exists l :: 0 <= l < k && need[l] > ChunkSize(have, l)
    {
      if need[k] > ChunkSize(have, k) {
        small := true;
      }
    }
  }
}
