/** What the planner knows while it walks the graph, as values, and how each of its
    moves carries that knowledge on: counting, giving a node its memory, giving up the
    sources of a node. */
module PlannerSteps {
  import opened FreeSpace
  import opened DynTallocr
  import opened Buffers
  import opened TensorGraph
  import opened RefCounts
  import opened PlannerState

  /** The plan a table stands for. */
  function PlanOf(cfg: Config, hn: Table): (plan: Plan)
    ensures |plan| == |hn|
  {
    seq(|hn|, t requires 0 <= t < |hn| => PlaceOf(cfg, hn[t], t))
  }

  function PlaceOf(cfg: Config, h: HashNode, t: nat): Place {
    Place(Buft(cfg, h), h.addr.chunk, h.addr.offset, cfg.size(Buft(cfg, h), t))
  }

  ghost predicate CountOk(g: Graph, h: HashNode, i: nat, k: nat, t: nat)
    requires At(g, i, k)
  {
    h.nChildren == Left(g, t, i, k) && h.nViews == |LiveViews(g, t, i, k)|
  }

  /** The counters say what is left to read and which views are in use. */
  ghost predicate Counts(g: Graph, hn: Table, i: nat, k: nat)
    requires At(g, i, k)
  {
    |hn| == |g.tensors| && forall t: nat {:trigger CountOk(g, hn[t], i, k, t)} :: t < |hn| ==> CountOk(g, hn[t], i, k, t)
  }

  /** Everything defined before step `i` and still to be kept is allocated. */
  ghost predicate Kept(g: Graph, hn: Table, i: nat)
    requires At(g, i, 0) && |hn| == |g.tensors|
  {
    forall t: nat :: Owned(g, t) && Defined(g, t, i) && MustKeep(g, t, i) ==> hn[t].own
  }

  /** Of the nodes to come, exactly the inputs are allocated already. */
  ghost predicate Upcoming(g: Graph, hn: Table, i: nat)
    requires IdsOk(g) && |hn| == |g.tensors|
  {
    forall j :: i <= j < |g.nodes| && Owned(g, g.nodes[j]) ==> (hn[g.nodes[j]].own <==> Node(g, j).input)
  }

  ghost predicate SafeUpTo(g: Graph, plan: Plan, i: nat)
    requires IdsOk(g) && i <= |g.nodes|
  {
    && |plan| == |g.tensors|
    && (forall t: nat, u: nat :: Loaded(g, t) && Loaded(g, u) && t != u ==> Disjoint(plan[t], plan[u]))
    && (forall j :: 0 <= j < i ==> SafeStep(g, plan, j))
  }

  /** Everything defined before step `i` was given memory below the high-water marks. */
  ghost predicate AllPlaced(g: Graph, cfg: Config, hn: Table, pools: Pools, i: nat)
    requires i <= |g.nodes| && |hn| == |g.tensors|
  {
    forall t: nat :: Owned(g, t) && Defined(g, t, i) ==> Placed(cfg, hn[t], pools, t)
  }

  /** Before step `i`. */
  ghost predicate Before(g: Graph, cfg: Config, hn: Table, pools: Pools, i: nat) {
    && WellFormed(g) && ConfigOk(g, cfg) && i <= |g.nodes|
    && Consistent(g, cfg, hn, pools) && AllPlaced(g, cfg, hn, pools, i)
    && Counts(g, hn, i, 0) && Kept(g, hn, i) && Upcoming(g, hn, i)
    && SafeUpTo(g, PlanOf(cfg, hn), i)
  }

  /** Within step `i`: the node has its memory, and `k` of its sources are given up. */
  ghost predicate Within(g: Graph, cfg: Config, hn: Table, pools: Pools, i: nat, k: nat) {
    && WellFormed(g) && ConfigOk(g, cfg) && i < |g.nodes| && At(g, i, k)
    && Consistent(g, cfg, hn, pools) && AllPlaced(g, cfg, hn, pools, i + 1)
    && Counts(g, hn, i, k) && Kept(g, hn, i + 1) && Upcoming(g, hn, i + 1)
    && SafeUpTo(g, PlanOf(cfg, hn), i + 1)
  }

  /** Between two steps. */
  lemma StepDone(g: Graph, cfg: Config, hn: Table, pools: Pools, i: nat)
    requires i < |g.nodes| && IdsOk(g) && Within(g, cfg, hn, pools, i, |Node(g, i).src|)
    ensures Before(g, cfg, hn, pools, i + 1)
  {
    forall t: nat | t < |hn|
      ensures CountOk(g, hn[t], i + 1, 0, t)
    {
      assert CountOk(g, hn[t], i, |Node(g, i).src|, t);
      LeftEnd(g, t, i);
      ViewsEnd(g, t, i);
    }
  }

  /** After the last step the whole plan is safe. */
  lemma PlanDone(g: Graph, cfg: Config, hn: Table, pools: Pools)
    requires Before(g, cfg, hn, pools, |g.nodes|)
    ensures SafePlan(g, PlanOf(cfg, hn))
  {
  }

  // ---------- giving a node its memory ----------

  /** How a tensor came by its memory. */
  datatype How = Skipped | Fresh | Reused(p: nat)

  ghost predicate Obtained(g: Graph, cfg: Config, hn: Table, hn': Table, t: nat, how: How)
    requires |hn| == |g.tensors|
  {
    t < |hn| &&
    match how
    case Skipped => hn' == hn && (!Owned(g, t) || hn[t].own)
    case Fresh => Owned(g, t) && !hn[t].own && exists b, addr :: hn' == hn[t := GivenSlot(hn[t], b, addr)]
    case Reused(p) => Owned(g, t) && !hn[t].own && CanReuse(g, cfg, hn, t, p) && hn' == TakenOver(hn, p, t)
  }

  /** The test for running `t` in place of its source `p`. */
  ghost predicate CanReuse(g: Graph, cfg: Config, hn: Table, t: nat, p: nat)
    requires |hn| == |g.tensors| && t < |hn|
  {
    && p < |hn| && p in g.tensors[t].src && p != t
    && CanInplace(g.tensors[t].op) && hn[p].own && !g.tensors[p].output
    && g.tensors[p].layout == g.tensors[t].layout
    && hn[p].nChildren == 1 && hn[p].nViews == 0
    && cfg.size(Buft(cfg, hn[p]), t) <= cfg.size(Buft(cfg, hn[p]), p)
  }

  /** The sources of the next node have their memory, so allocating them does nothing. */
  lemma SourcesHaveMemory(g: Graph, cfg: Config, hn: Table, pools: Pools, i: nat, s: nat)
    requires Before(g, cfg, hn, pools, i) && i < |g.nodes| && s in Node(g, i).src
    ensures s < |hn| && (Owned(g, s) ==> hn[s].own)
  {
    assert NodeOk(g, i) && LinksOk(g, g.nodes[i]);
    ReadLater(g, s, i, i);
  }

  /** A parent that may be reused is read by nobody else, now or later. */
  lemma ReusedIsDone(g: Graph, cfg: Config, hn: Table, pools: Pools, i: nat, p: nat)
    requires Before(g, cfg, hn, pools, i) && i < |g.nodes| && CanReuse(g, cfg, hn, g.nodes[i], p)
    ensures !MustKeep(g, p, i + 1) && !Needed(g, p, i + 1)
    ensures LiveViews(g, p, i, 0) == {}
  {
    assert CountOk(g, hn[p], i, 0, p);
    LeftStart(g, p, i);
    assert multiset(Node(g, i).src)[p] >= 1;
    ViewsFall(g, p, i, 0, |Node(g, i).src|);
    ViewsEnd(g, p, i);
    if Needed(g, p, i + 1) {
      NeededIsKept(g, p, i + 1);
    }
  }

  lemma MadeNext(g: Graph, t: nat, i: nat)
    requires i < |g.nodes|
    ensures Made(g, t, i + 1) <==> Made(g, t, i) || t == g.nodes[i]
  {
    assert g.nodes[..i + 1] == g.nodes[..i] + [g.nodes[i]];
  }

  /** What is kept for later steps is still allocated once the node has its memory. */
  lemma KeptNext(g: Graph, cfg: Config, hn: Table, hn': Table, pools: Pools, i: nat, how: How)
    requires Before(g, cfg, hn, pools, i) && i < |g.nodes| && |hn'| == |hn|
    requires Obtained(g, cfg, hn, hn', g.nodes[i], how)
    ensures Kept(g, hn', i + 1) && Upcoming(g, hn', i + 1)
  {
    var n := g.nodes[i];
    forall t: nat | Owned(g, t) && Defined(g, t, i + 1) && MustKeep(g, t, i + 1)
      ensures hn'[t].own
    {
      MadeNext(g, t, i);
      KeepFalls(g, t, i);
      if how.Reused? {
        ReusedIsDone(g, cfg, hn, pools, i, how.p);
      }
    }
    if how.Reused? {
      ReusedIsMade(g, cfg, hn, i, how.p);
    }
  }

  lemma ReusedIsMade(g: Graph, cfg: Config, hn: Table, i: nat, p: nat)
    requires WellFormed(g) && |hn| == |g.tensors| && i < |g.nodes| && CanReuse(g, cfg, hn, g.nodes[i], p)
    ensures forall j :: i <= j < |g.nodes| ==> g.nodes[j] != p
  {
    assert NodeOk(g, i) && p in Node(g, i).src;
  }

  /** Clear holders have disjoint places. */
  lemma ClearIsDisjoint(g: Graph, cfg: Config, hn: Table, pools: Pools, t: nat, u: nat)
    requires Consistent(g, cfg, hn, pools) && t < |hn| && u < |hn| && t != u && hn[t].own && hn[u].own
    ensures Disjoint(PlanOf(cfg, hn)[t], PlanOf(cfg, hn)[u])
  {
    assert Clear(cfg, hn[t], t, hn[u], u);
  }

  /** A step depends only on the places of tensors defined by its end. */
  lemma SafeStepFrame(g: Graph, plan: Plan, plan': Plan, j: nat)
    requires WellFormed(g) && j < |g.nodes| && |plan| == |plan'| == |g.tensors| && SafeStep(g, plan, j)
    requires forall t: nat :: Owned(g, t) && Defined(g, t, j + 1) ==> plan[t] == plan'[t]
    ensures SafeStep(g, plan', j)
  {
    var r := Target(g, j);
    assert NodeOk(g, j);
    MadeNext(g, r, j);
    assert Owned(g, r) ==> plan[r] == plan'[r];
    forall t: nat | Owned(g, t) && Defined(g, t, j)
      ensures plan[t] == plan'[t]
    {
      MadeNext(g, t, j);
    }
    forall s: nat | s in Node(g, j).src && Owned(g, Root(g, s))
      ensures plan[Root(g, s)] == plan'[Root(g, s)]
    {
      SourceIsDefined(g, j, s);
    }
  }

  lemma SourceIsDefined(g: Graph, i: nat, s: nat)
    requires WellFormed(g) && i < |g.nodes| && s in Node(g, i).src
    ensures Root(g, s) < |g.tensors| && Defined(g, Root(g, s), i)
    ensures Uses(g, i, Root(g, s))
  {
    assert NodeOk(g, i) && LinksOk(g, g.nodes[i]) && LinksOk(g, s);
    if IsView(g, s) {
      var j :| 0 <= j < i && g.nodes[..i][j] == s;
      assert NodeOk(g, j) && Made(g, Root(g, s), j);
      assert g.nodes[..j] <= g.nodes[..i];
    }
  }

  lemma {:induction false} DefinedStays(g: Graph, t: nat, j: nat, i: nat)
    requires j <= i <= |g.nodes| && Defined(g, t, j)
    ensures Defined(g, t, i)
  {
    if j < i {
      DefinedStays(g, t, j, i - 1);
      MadeNext(g, t, i - 1);
    }
  }

  /** The node's memory leaves the places of everything defined before as they are. */
  lemma PlacesStay(g: Graph, cfg: Config, hn: Table, hn': Table, pools: Pools, i: nat, how: How, t: nat)
    requires Before(g, cfg, hn, pools, i) && i < |g.nodes| && |hn'| == |hn|
    requires Obtained(g, cfg, hn, hn', g.nodes[i], how)
    requires Owned(g, t) && Defined(g, t, i)
    ensures SameSlot(hn[t], hn'[t]) && PlanOf(cfg, hn)[t] == PlanOf(cfg, hn')[t]
  {
    var n := g.nodes[i];
    if t == n {
      assert !Made(g, n, i);
      assert hn[n].own;
    }
  }

  lemma SafeSoFar(g: Graph, cfg: Config, hn: Table, hn': Table, pools: Pools, i: nat, how: How)
    requires Before(g, cfg, hn, pools, i) && i < |g.nodes| && |hn'| == |hn|
    requires Obtained(g, cfg, hn, hn', g.nodes[i], how)
    ensures SafeUpTo(g, PlanOf(cfg, hn'), i)
  {
    var plan, plan' := PlanOf(cfg, hn), PlanOf(cfg, hn');
    forall t: nat | Owned(g, t) && Defined(g, t, i)
      ensures plan[t] == plan'[t]
    {
      PlacesStay(g, cfg, hn, hn', pools, i, how, t);
    }
    forall t: nat | Loaded(g, t)
      ensures plan[t] == plan'[t]
    {
      DefinedStays(g, t, 0, i);
    }
    forall j | 0 <= j < i
      ensures SafeStep(g, plan', j)
    {
      forall t: nat | Owned(g, t) && Defined(g, t, j + 1)
        ensures plan[t] == plan'[t]
      {
        DefinedStays(g, t, j + 1, i);
      }
      SafeStepFrame(g, plan, plan', j);
    }
  }

  /** The memory node `i` writes is allocated when it runs. */
  lemma TargetHasMemory(g: Graph, cfg: Config, hn: Table, hn': Table, pools: Pools, i: nat, how: How)
    requires Before(g, cfg, hn, pools, i) && i < |g.nodes| && |hn'| == |hn|
    requires Obtained(g, cfg, hn, hn', g.nodes[i], how)
    requires Owned(g, Target(g, i)) && Node(g, i).op != NONE
    ensures hn'[Target(g, i)].own
  {
    var r := Target(g, i);
    if IsView(g, g.nodes[i]) {
      assert NodeOk(g, i);
      UsedIsKept(g, r, i, i);
    }
  }

  /** A source that lost its memory to the node is the parent it reuses, read directly. */
  lemma LostSource(g: Graph, cfg: Config, hn: Table, hn': Table, pools: Pools, i: nat, how: How, s: nat)
    requires Before(g, cfg, hn, pools, i) && i < |g.nodes| && |hn'| == |hn|
    requires Obtained(g, cfg, hn, hn', g.nodes[i], how)
    requires s in Node(g, i).src && Owned(g, Root(g, s)) && !hn'[Root(g, s)].own
    ensures how == Reused(s) && s == Root(g, s)
  {
    var t := Root(g, s);
    SourceIsDefined(g, i, s);
    UsedIsKept(g, t, i, i);
    assert hn[t].own;
    assert how == Reused(t);
    if s != t {
      ViewSourceIsLive(g, i, s);
    }
    ReusedIsDone(g, cfg, hn, pools, i, t);
  }

  lemma NewStepIsSafe(g: Graph, cfg: Config, hn: Table, hn': Table, pools: Pools, pools': Pools, i: nat, how: How)
    requires Before(g, cfg, hn, pools, i) && i < |g.nodes|
    requires Consistent(g, cfg, hn', pools') && Obtained(g, cfg, hn, hn', g.nodes[i], how)
    ensures SafeStep(g, PlanOf(cfg, hn'), i)
  {
    var plan', r := PlanOf(cfg, hn'), Target(g, i);
    if Owned(g, r) && Node(g, i).op != NONE {
      TargetHasMemory(g, cfg, hn, hn', pools, i, how);
      KeptNext(g, cfg, hn, hn', pools, i, how);
      forall t: nat | Owned(g, t) && t != r && Defined(g, t, i) && Needed(g, t, i + 1)
        ensures Disjoint(plan'[t], plan'[r])
      {
        NeededIsKept(g, t, i + 1);
        DefinedStays(g, t, i, i + 1);
        ClearIsDisjoint(g, cfg, hn', pools', t, r);
      }
      forall s: nat | s in Node(g, i).src && Owned(g, Root(g, s)) && Root(g, s) != r
        ensures Disjoint(plan'[Root(g, s)], plan'[r]) || (s == Root(g, s) && RunsInPlace(g, plan', i, s))
      {
        SourceIsSafe(g, cfg, hn, hn', pools, pools', i, how, s);
      }
    }
  }

  lemma SourceIsSafe(g: Graph, cfg: Config, hn: Table, hn': Table, pools: Pools, pools': Pools, i: nat, how: How, s: nat)
    requires Before(g, cfg, hn, pools, i) && i < |g.nodes|
    requires Consistent(g, cfg, hn', pools') && Obtained(g, cfg, hn, hn', g.nodes[i], how)
    requires Owned(g, Target(g, i)) && hn'[Target(g, i)].own
    requires s in Node(g, i).src && Owned(g, Root(g, s)) && Root(g, s) != Target(g, i)
    ensures Disjoint(PlanOf(cfg, hn')[Root(g, s)], PlanOf(cfg, hn')[Target(g, i)]) ||
            (s == Root(g, s) && RunsInPlace(g, PlanOf(cfg, hn'), i, s))
  {
    if hn'[Root(g, s)].own {
      ClearIsDisjoint(g, cfg, hn', pools', Root(g, s), Target(g, i));
    } else {
      LostSource(g, cfg, hn, hn', pools, i, how, s);
      ReusedIsDone(g, cfg, hn, pools, i, s);
    }
  }

  /** Giving the next node its memory. */
  lemma NodeObtained(g: Graph, cfg: Config, hn: Table, hn': Table, pools: Pools, pools': Pools, i: nat, how: How)
    requires Before(g, cfg, hn, pools, i) && i < |g.nodes|
    requires Consistent(g, cfg, hn', pools') && PoolsGrow(pools, pools') && Obtained(g, cfg, hn, hn', g.nodes[i], how)
    ensures Within(g, cfg, hn', pools', i, 0)
  {
    KeptNext(g, cfg, hn, hn', pools, i, how);
    SafeSoFar(g, cfg, hn, hn', pools, i, how);
    NewStepIsSafe(g, cfg, hn, hn', pools, pools', i, how);
    forall t: nat | t < |hn'|
      ensures CountOk(g, hn'[t], i, 0, t)
    {
      assert CountOk(g, hn[t], i, 0, t);
    }
    forall t: nat | Owned(g, t) && Defined(g, t, i + 1)
      ensures Placed(cfg, hn'[t], pools', t)
    {
      MadeNext(g, t, i);
      if Defined(g, t, i) {
        PlacesStay(g, cfg, hn, hn', pools, i, how, t);
        BelowStays(pools, pools', Buft(cfg, hn[t]), Extent(cfg, hn[t], t));
      } else {
        assert t == g.nodes[i] && hn'[t].own;
        assert Holder(g, cfg, hn'[t], pools', t);
      }
    }
  }

  // ---------- giving up a source ----------

  /** The counters after node `i` gave up source `k`: one reader less and, when that was
      the last reader of a view, one view less of its root. */
  function Dropped(g: Graph, hn: Table, p: nat): Table
    requires p < |hn| && Root(g, p) < |hn|
  {
    var hn1 := hn[p := hn[p].(nChildren := hn[p].nChildren - 1)];
    var r := Root(g, p);
    if hn1[p].nChildren == 0 && hn1[p].nViews == 0 && IsView(g, p) then
      hn1[r := hn1[r].(nViews := hn1[r].nViews - 1)]
    else hn1
  }

  lemma DroppedCounts(g: Graph, hn: Table, i: nat, k: nat, t: nat)
    requires WellFormed(g) && i < |g.nodes| && At(g, i, k) && k < |Node(g, i).src| && Counts(g, hn, i, k)
    requires t < |hn|
    ensures var p := Node(g, i).src[k];
            p < |hn| && Root(g, p) < |hn| && CountOk(g, Dropped(g, hn, p)[t], i, k + 1, t)
  {
    DroppedSource(g, hn, i, k);
    LeftNext(g, t, i, k);
    assert CountOk(g, hn[t], i, k, t);
    DroppedViews(g, hn, i, k, t);
  }

  lemma DroppedViews(g: Graph, hn: Table, i: nat, k: nat, t: nat)
    requires WellFormed(g) && i < |g.nodes| && At(g, i, k) && k < |Node(g, i).src| && Counts(g, hn, i, k)
    requires t < |hn|
    ensures var p := Node(g, i).src[k];
            p < |hn| && Root(g, p) < |hn| && Dropped(g, hn, p)[t].nViews == |LiveViews(g, t, i, k + 1)|
  {
    var p := Node(g, i).src[k];
    DroppedSource(g, hn, i, k);
    assert IsView(g, p) <==> ViewNode(g, p) by {
      assert NodeOk(g, i) && p in Node(g, i).src;
    }
    assert CountOk(g, hn[t], i, k, t);
    var ends := IsView(g, p) && Root(g, p) == t && Left(g, p, i, k + 1) == 0;
    assert Dropped(g, hn, p)[t].nViews == hn[t].nViews - (if ends then 1 else 0) by {
      assert CountOk(g, hn[p], i, k, p);
      LeftNext(g, p, i, k);
    }
    ViewsNext(g, t, i, k);
    if ends {
      LessOne(LiveViews(g, t, i, k), p);
    }
  }

  lemma LessOne(s: set<nat>, x: nat)
    requires x in s
    ensures |s - {x}| == |s| - 1
  {
  }

  /** A source that is a view has no views of its own, and its root is none. */
  lemma DroppedSource(g: Graph, hn: Table, i: nat, k: nat)
    requires WellFormed(g) && i < |g.nodes| && At(g, i, k) && k < |Node(g, i).src| && Counts(g, hn, i, k)
    ensures var p := Node(g, i).src[k];
            p < |hn| && Root(g, p) < |hn| && (IsView(g, p) ==> LiveViews(g, p, i, k) == {} && !IsView(g, Root(g, p)))
  {
    var p := Node(g, i).src[k];
    assert NodeOk(g, i) && LinksOk(g, g.nodes[i]) && p in Node(g, i).src && LinksOk(g, p);
    if IsView(g, p) {
      NoViewsOfViews(g, p);
      assert LiveViews(g, p, i, k) == {};
      assert !IsView(g, Root(g, p)) by {
        var j :| 0 <= j < |g.nodes| && g.nodes[j] == p;
        assert NodeOk(g, j);
      }
    }
  }

  lemma DropKeeps(g: Graph, cfg: Config, hn: Table, pools: Pools, i: nat, k: nat)
    requires Within(g, cfg, hn, pools, i, k) && k < |Node(g, i).src|
    ensures var p := Node(g, i).src[k];
            p < |hn| && Root(g, p) < |hn| && Within(g, cfg, Dropped(g, hn, p), pools, i, k + 1)
  {
    var p := Node(g, i).src[k];
    assert LinksOk(g, g.nodes[i]) && LinksOk(g, p);
    var hn' := Dropped(g, hn, p);
    forall t: nat | t < |hn'|
      ensures CountOk(g, hn'[t], i, k + 1, t)
    {
      DroppedCounts(g, hn, i, k, t);
    }
    CountersKeep(g, cfg, hn, hn', pools);
    SamePlan(cfg, hn, hn');
  }

  lemma SamePlan(cfg: Config, hn: Table, hn': Table)
    requires |hn| == |hn'| && forall t :: 0 <= t < |hn| ==> SameSlot(hn[t], hn'[t])
    ensures PlanOf(cfg, hn) == PlanOf(cfg, hn')
  {
    forall t | 0 <= t < |hn|
      ensures PlanOf(cfg, hn)[t] == PlanOf(cfg, hn')[t]
    {
    }
  }

  /** A tensor with no readers and no views left may be freed, if it is not an output. */
  lemma FreeIsSafe(g: Graph, cfg: Config, hn: Table, pools: Pools, pools': Pools, i: nat, k: nat, t: nat)
    requires Within(g, cfg, hn, pools, i, k) && t < |hn| && hn[t].own
    requires hn[t].nChildren == 0 && hn[t].nViews == 0 && !g.tensors[t].output && Defined(g, t, i) && (t in g.nodes ==> Made(g, t, i))
    requires Shrank(pools, pools', Buft(cfg, hn[t]), Extent(cfg, hn[t], t), Extent(cfg, hn[t], t).block)
    ensures Within(g, cfg, hn[t := hn[t].(own := false)], pools', i, k)
  {
    var hn' := hn[t := hn[t].(own := false)];
    FreeKeeps(g, cfg, hn, pools, pools', t);
    SamePlan(cfg, hn, hn');
    NotKept(g, hn, i, k, t);
    assert Counts(g, hn', i, k) by {
      forall u: nat | u < |hn'|
        ensures CountOk(g, hn'[u], i, k, u)
      {
        assert CountOk(g, hn[u], i, k, u);
      }
    }
    assert AllPlaced(g, cfg, hn', pools', i + 1) by {
      forall u: nat | Owned(g, u) && Defined(g, u, i + 1)
        ensures Placed(cfg, hn'[u], pools', u)
      {
        BelowStays(pools, pools', Buft(cfg, hn[u]), Extent(cfg, hn[u], u));
      }
    }
    assert Upcoming(g, hn', i + 1) by {
      MadeIsPast(g, t, i);
    }
  }

  lemma MadeIsPast(g: Graph, t: nat, i: nat)
    requires WellFormed(g) && i < |g.nodes| && (t in g.nodes ==> Made(g, t, i))
    ensures forall j :: i <= j < |g.nodes| ==> g.nodes[j] != t
  {
  }

  lemma NotKept(g: Graph, hn: Table, i: nat, k: nat, t: nat)
    requires WellFormed(g) && i < |g.nodes| && At(g, i, k) && Counts(g, hn, i, k)
    requires t < |hn| && hn[t].nChildren == 0 && hn[t].nViews == 0 && !g.tensors[t].output
    ensures !MustKeep(g, t, i + 1)
  {
    var n := |Node(g, i).src|;
    assert CountOk(g, hn[t], i, k, t);
    LeftFalls(g, t, i, k, n);
    LeftEnd(g, t, i);
    ViewsFall(g, t, i, k, n);
    ViewsEnd(g, t, i);
  }

  // ---------- counting ----------

  /** Until the nodes are walked, only leafs and inputs have memory. */
  ghost predicate Loading(g: Graph, cfg: Config, hn: Table, pools: Pools) {
    && WellFormed(g) && ConfigOk(g, cfg) && Consistent(g, cfg, hn, pools)
    && (forall t: nat :: t < |hn| && hn[t].own ==> Loaded(g, t))
  }

  predicate SameCounters(h: HashNode, k: HashNode) {
    h.nChildren == k.nChildren && h.nViews == k.nViews
  }

  /** Leafs and inputs have no sources, so they never reuse memory. */
  lemma LoadedGetsOwn(g: Graph, cfg: Config, hn: Table, hn': Table, pools: Pools, pools': Pools, t: nat, how: How)
    requires Loading(g, cfg, hn, pools) && Consistent(g, cfg, hn', pools')
    requires Obtained(g, cfg, hn, hn', t, how) && Defined(g, t, 0)
    ensures Loading(g, cfg, hn', pools') && (Owned(g, t) ==> hn'[t].own)
    ensures forall u: nat :: u < |hn| ==> SameCounters(hn[u], hn'[u]) && (hn[u].own ==> hn'[u].own)
  {
    assert g.tensors[t].src == [];
    assert !how.Reused?;
  }

  /** The first pass: `i` nodes counted, views of `v` nodes, inputs among `m` nodes placed,
      and `k` sources of node `i` counted. */
  ghost predicate Counting(g: Graph, cfg: Config, hn: Table, pools: Pools, i: nat, v: nat, m: nat, k: nat) {
    && Loading(g, cfg, hn, pools) && At(g, i, k) && v <= |g.nodes| && m <= |g.nodes|
    && (forall t: nat {:trigger Tally(g, hn[t], i, v, k, t)} :: t < |hn| ==> Tally(g, hn[t], i, v, k, t))
    && (forall t: nat :: Loaded(g, t) && Made(g, t, m) ==> hn[t].own)
  }

  ghost predicate Tally(g: Graph, h: HashNode, i: nat, v: nat, k: nat, t: nat)
    requires At(g, i, k) && v <= |g.nodes|
  {
    && h.nChildren == Counted(g, t, i) + (if i < |g.nodes| then multiset(Node(g, i).src[..k])[t] else 0)
    && h.nViews == |ViewsBelow(g, t, v)|
  }

  /** One view more of the root of node `i`, if that is a view. */
  function ViewCounted(g: Graph, hn: Table, i: nat): Table
    requires IdsOk(g) && i < |g.nodes| && |hn| == |g.tensors|
  {
    if ViewNode(g, g.nodes[i]) then hn[Target(g, i) := hn[Target(g, i)].(nViews := hn[Target(g, i)].nViews + 1)] else hn
  }

  lemma CountView(g: Graph, cfg: Config, hn: Table, pools: Pools, i: nat)
    requires Counting(g, cfg, hn, pools, i, i, i, 0) && i < |g.nodes|
    ensures Counting(g, cfg, ViewCounted(g, hn, i), pools, i, i + 1, i, 0)
  {
    var hn' := ViewCounted(g, hn, i);
    CountersKeep(g, cfg, hn, hn', pools);
    forall t: nat | t < |hn'|
      ensures Tally(g, hn'[t], i, i + 1, 0, t)
    {
      assert Tally(g, hn[t], i, i, 0, t);
      ViewsBelowNext(g, t, i);
    }
  }

  /** An input among the nodes gets its memory; other nodes are passed by. */
  lemma CountInput(g: Graph, cfg: Config, hn: Table, hn': Table, pools: Pools, pools': Pools, i: nat, how: How)
    requires Counting(g, cfg, hn, pools, i, i + 1, i, 0) && i < |g.nodes|
    requires if Node(g, i).input then Consistent(g, cfg, hn', pools') && Obtained(g, cfg, hn, hn', g.nodes[i], how)
             else hn' == hn && pools' == pools
    ensures Counting(g, cfg, hn', pools', i, i + 1, i + 1, 0)
  {
    if Node(g, i).input {
      LoadedGetsOwn(g, cfg, hn, hn', pools, pools', g.nodes[i], how);
      forall t: nat | t < |hn'|
        ensures Tally(g, hn'[t], i, i + 1, 0, t)
      {
        assert Tally(g, hn[t], i, i + 1, 0, t);
      }
    }
    forall t: nat | Loaded(g, t) && Made(g, t, i + 1)
      ensures hn'[t].own
    {
      MadeNext(g, t, i);
    }
  }

  lemma CountSource(g: Graph, cfg: Config, hn: Table, pools: Pools, i: nat, k: nat)
    requires Counting(g, cfg, hn, pools, i, i + 1, i + 1, k) && i < |g.nodes| && k < |Node(g, i).src|
    ensures var s := Node(g, i).src[k];
            && s < |hn| && (g.tensors[s].input && Owned(g, s) ==> hn[s].own)
            && Counting(g, cfg, hn[s := hn[s].(nChildren := hn[s].nChildren + 1)], pools, i, i + 1, i + 1, k + 1)
  {
    var s := Node(g, i).src[k];
    assert NodeOk(g, i) && LinksOk(g, g.nodes[i]) && s in Node(g, i).src;
    MadeNext(g, s, i);
    var hn' := hn[s := hn[s].(nChildren := hn[s].nChildren + 1)];
    CountersKeep(g, cfg, hn, hn', pools);
    forall t: nat | t < |hn'|
      ensures Tally(g, hn'[t], i, i + 1, k + 1, t)
    {
      TallySource(g, hn[t], i, k, t);
    }
  }

  lemma TallySource(g: Graph, h: HashNode, i: nat, k: nat, t: nat)
    requires WellFormed(g) && i < |g.nodes| && k < |Node(g, i).src| && t < |g.tensors| && Tally(g, h, i, i + 1, k, t)
    ensures Tally(g, if t == Node(g, i).src[k] then h.(nChildren := h.nChildren + 1) else h, i, i + 1, k + 1, t)
  {
    assert Node(g, i).src[..k + 1] == Node(g, i).src[..k] + [Node(g, i).src[k]];
  }

  lemma CountNode(g: Graph, cfg: Config, hn: Table, pools: Pools, i: nat)
    requires i < |g.nodes| && IdsOk(g) && Counting(g, cfg, hn, pools, i, i + 1, i + 1, |Node(g, i).src|)
    ensures Counting(g, cfg, hn, pools, i + 1, i + 1, i + 1, 0)
  {
    assert Node(g, i).src[..|Node(g, i).src|] == Node(g, i).src;
    forall t: nat | t < |hn|
      ensures Tally(g, hn[t], i + 1, i + 1, 0, t)
    {
      assert Tally(g, hn[t], i, i + 1, |Node(g, i).src|, t);
    }
  }

  /** When everything is counted the walk over the nodes can start. */
  lemma CountingDone(g: Graph, cfg: Config, hn: Table, pools: Pools)
    requires var n := |g.nodes|; Counting(g, cfg, hn, pools, n, n, n, 0)
    ensures Before(g, cfg, hn, pools, 0)
  {
    var n := |g.nodes|;
    forall t: nat | t < |hn|
      ensures CountOk(g, hn[t], 0, 0, t)
    {
      assert Tally(g, hn[t], n, n, 0, t);
      CountedAll(g, t, n);
      LeftStart(g, t, 0);
      ViewsBelowAll(g, t);
      ViewsStart(g, t);
    }
    assert g.nodes[..n] == g.nodes;
    forall t: nat | Loaded(g, t)
      ensures hn[t].own && Placed(cfg, hn[t], pools, t)
    {
      assert Made(g, t, n);
      assert Holder(g, cfg, hn[t], pools, t);
    }
    forall t: nat, u: nat | Loaded(g, t) && Loaded(g, u) && t != u
      ensures Disjoint(PlanOf(cfg, hn)[t], PlanOf(cfg, hn)[u])
    {
      ClearIsDisjoint(g, cfg, hn, pools, t, u);
    }
  }
}
