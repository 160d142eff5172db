/** What a finished plan looks like: who still holds memory, which nodes run in place of a source,
    and which buffer every other tensor is in. */
module PlanOutcome {
  import opened Wrappers
  import Buffers
  import opened TensorGraph
  import opened RefCounts
  import opened PlannerState
  import opened PlannerSteps

  // ---------- whatever is no longer used is freed ----------

  /** Node `j` reads `t` or a view of it. */
  ghost predicate Reads(g: Graph, j: nat, t: nat)
    requires IdsOk(g) && j < |g.nodes|
  {
    exists q :: ReadsAt(g, j, q, t)
  }

  ghost predicate ReadsAt(g: Graph, j: nat, q: int, t: nat)
    requires IdsOk(g) && j < |g.nodes|
  {
    0 <= q < |Node(g, j).src| && Root(g, Node(g, j).src[q]) == t
  }

  /** One of the first `i` nodes, or one of the first `k` sources of node `i`, was `t` or a view of it. */
  ghost predicate Touched(g: Graph, t: nat, i: nat, k: nat)
    requires At(g, i, k)
  {
    (exists j: nat :: j < i && Reads(g, j, t)) || (i < |g.nodes| && exists q :: q < k && ReadsAt(g, i, q, t))
  }

  ghost predicate Busy(g: Graph, t: nat, i: nat, k: nat)
    requires At(g, i, k) && t < |g.tensors|
  {
    g.tensors[t].output || Left(g, t, i, k) > 0 || LiveViews(g, t, i, k) != {}
  }

  /** What holds memory has not been read, or is still needed. */
  ghost predicate Tidy(g: Graph, hn: Table, i: nat, k: nat)
    requires At(g, i, k) && |hn| == |g.tensors|
  {
    forall t: nat :: t < |hn| && hn[t].own && Touched(g, t, i, k) ==> Busy(g, t, i, k)
  }

  lemma TidyStarts(g: Graph, hn: Table)
    requires At(g, 0, 0) && |hn| == |g.tensors|
    ensures Tidy(g, hn, 0, 0)
  {
  }

  /** A node that gets its memory has not been read. */
  lemma TidyServed(g: Graph, cfg: Config, hn: Table, hn': Table, i: nat, how: How)
    requires WellFormed(g) && i < |g.nodes| && |hn| == |hn'| == |g.tensors| && Tidy(g, hn, i, 0)
    requires Obtained(g, cfg, hn, hn', g.nodes[i], how)
    ensures Tidy(g, hn', i, 0)
  {
    forall t: nat | t < |hn'| && hn'[t].own && Touched(g, t, i, 0)
      ensures Busy(g, t, i, 0)
    {
      if t == g.nodes[i] && Owned(g, t) {
        UnreadSoFar(g, i);
      }
    }
  }

  lemma UnreadSoFar(g: Graph, i: nat)
    requires WellFormed(g) && i < |g.nodes| && Owned(g, g.nodes[i])
    ensures !Touched(g, g.nodes[i], i, 0)
  {
    var t := g.nodes[i];
    forall j: nat, q | j < i && 0 <= q < |Node(g, j).src|
      ensures !ReadsAt(g, j, q, t)
    {
      SourceIsDefined(g, j, Node(g, j).src[q]);
      RootIsMade(g, j, q);
    }
  }

  lemma RootIsMade(g: Graph, j: nat, q: nat)
    requires WellFormed(g) && j < |g.nodes| && q < |Node(g, j).src|
    ensures Made(g, Root(g, Node(g, j).src[q]), j)
  {
    var s := Node(g, j).src[q];
    assert NodeOk(g, j) && s in Node(g, j).src;
    if IsView(g, s) {
      var l :| 0 <= l < j && g.nodes[..j][l] == s;
      assert NodeOk(g, l);
      assert g.nodes[..l] <= g.nodes[..j];
    }
  }

  lemma TouchedNext(g: Graph, t: nat, i: nat, k: nat)
    requires At(g, i, k) && i < |g.nodes| && k < |Node(g, i).src|
    ensures Touched(g, t, i, k + 1) <==> Touched(g, t, i, k) || Root(g, Node(g, i).src[k]) == t
  {
    if Root(g, Node(g, i).src[k]) == t {
      assert ReadsAt(g, i, k, t);
    }
  }

  /** Giving up a source matters to its root only. */
  lemma BusyNext(g: Graph, t: nat, i: nat, k: nat)
    requires WellFormed(g) && At(g, i, k) && i < |g.nodes| && k < |Node(g, i).src| && t < |g.tensors|
    requires t != Node(g, i).src[k] && t != Root(g, Node(g, i).src[k])
    ensures Busy(g, t, i, k) ==> Busy(g, t, i, k + 1)
  {
    LeftNext(g, t, i, k);
    ViewsNext(g, t, i, k);
  }

  /** After giving up source `k`, with what the planner then frees. */
  lemma TidyDropped(g: Graph, hn: Table, hn': Table, i: nat, k: nat)
    requires WellFormed(g) && At(g, i, k) && i < |g.nodes| && k < |Node(g, i).src|
    requires |hn| == |hn'| == |g.tensors| && Tidy(g, hn, i, k) && NoViewOwns(g, hn)
    requires var r := Root(g, Node(g, i).src[k]);
             && r < |hn| && (hn'[r].own ==> Busy(g, r, i, k + 1))
             && forall t: nat :: t < |hn| && hn'[t].own ==> hn[t].own
    ensures Tidy(g, hn', i, k + 1)
  {
    var p := Node(g, i).src[k];
    forall t: nat | t < |hn'| && hn'[t].own && Touched(g, t, i, k + 1)
      ensures Busy(g, t, i, k + 1)
    {
      TouchedNext(g, t, i, k);
      if t != Root(g, p) {
        assert t != p by {
          assert IsView(g, p) ==> !hn[p].own;
        }
        BusyNext(g, t, i, k);
      }
    }
  }

  ghost predicate NoViewOwns(g: Graph, hn: Table) {
    forall t: nat :: t < |hn| && hn[t].own ==> !IsView(g, t)
  }

  /** The next step starts as tidy as this one ends. */
  lemma TidyStep(g: Graph, hn: Table, i: nat)
    requires IdsOk(g) && i < |g.nodes| && |hn| == |g.tensors| && Tidy(g, hn, i, |Node(g, i).src|)
    ensures Tidy(g, hn, i + 1, 0)
  {
    forall t: nat | t < |hn| && hn[t].own && Touched(g, t, i + 1, 0)
      ensures Busy(g, t, i + 1, 0)
    {
      var j: nat :| j < i + 1 && Reads(g, j, t);
      if j == i {
        var q :| ReadsAt(g, i, q, t);
      }
      assert Touched(g, t, i, |Node(g, i).src|);
      LeftEnd(g, t, i);
      ViewsEnd(g, t, i);
    }
  }

  /** A view of `t` that nobody reads. */
  ghost predicate IdleView(g: Graph, t: nat, v: nat)
    requires IdsOk(g)
  {
    v in g.nodes && v < |g.tensors| && IsView(g, v) && Root(g, v) == t && forall j: nat :: j < |g.nodes| ==> v !in Node(g, j).src
  }

  /** In the end only outputs, tensors nobody reads and tensors with a view nobody reads hold memory. */
  ghost predicate OnlyKept(g: Graph, hn: Table)
    requires IdsOk(g) && |hn| == |g.tensors|
  {
    forall t: nat :: t < |hn| && hn[t].own ==>
      g.tensors[t].output || (forall j: nat :: j < |g.nodes| ==> !Reads(g, j, t)) || exists v: nat :: IdleView(g, t, v)
  }

  lemma TidyEnd(g: Graph, hn: Table)
    requires IdsOk(g) && |hn| == |g.tensors| && Tidy(g, hn, |g.nodes|, 0)
    ensures OnlyKept(g, hn)
  {
    forall t: nat | t < |hn| && hn[t].own && !g.tensors[t].output && Touched(g, t, |g.nodes|, 0)
      ensures exists v: nat :: IdleView(g, t, v)
    {
      assert LiveViews(g, t, |g.nodes|, 0) != {};
      var v :| v in LiveViews(g, t, |g.nodes|, 0);
      forall j: nat | j < |g.nodes|
        ensures v !in Node(g, j).src
      {
        if v in Node(g, j).src {
          ReadLater(g, v, 0, j);
        }
      }
      assert IdleView(g, t, v);
    }
  }

  // ---------- which memory a tensor gets ----------

  /** The conditions on the parent alone. */
  predicate Reusable(g: Graph, hn: Table, t: nat, p: nat)
    requires |hn| == |g.tensors| && t < |hn|
  {
    && p < |hn| && hn[p].own && !g.tensors[p].output && g.tensors[t].layout == g.tensors[p].layout
    && hn[p].nChildren == 1 && hn[p].nViews == 0
  }

  /** The first source, from source `j` on, that `t` may run in place of. */
  ghost predicate FirstReusable(g: Graph, hn: Table, t: nat, j: nat, p: nat)
    requires |hn| == |g.tensors| && t < |hn|
  {
    exists i: nat :: j <= i < |g.tensors[t].src| && g.tensors[t].src[i] == p && Reusable(g, hn, t, p) &&
                     forall k :: j <= k < i ==> !Reusable(g, hn, t, g.tensors[t].src[k])
  }

  ghost predicate NoneReusable(g: Graph, hn: Table, t: nat)
    requires |hn| == |g.tensors| && t < |hn|
  {
    CanInplace(g.tensors[t].op) ==> forall k :: 0 <= k < |g.tensors[t].src| ==> !Reusable(g, hn, t, g.tensors[t].src[k])
  }

  /** Node `i` may run in place of its source `q`: planned memory of the same layout, no output, read by nobody
      else from now on, and no view of it in use. */
  ghost predicate Replaces(g: Graph, i: nat, q: int)
    requires IdsOk(g) && i < |g.nodes|
  {
    && 0 <= q < |Node(g, i).src| && CanInplace(Node(g, i).op)
    && var p := Node(g, i).src[q];
       && Owned(g, p) && !g.tensors[p].output && g.tensors[p].layout == Node(g, i).layout
       && Readers(g, p, i) == 1 && LiveViews(g, p, i, 0) == {}
  }

  ghost predicate FirstReplaced(g: Graph, i: nat, q: int)
    requires IdsOk(g) && i < |g.nodes|
  {
    Replaces(g, i, q) && forall k :: 0 <= k < q ==> !Replaces(g, i, k)
  }

  /** The counters and owners say of a source whether it can be replaced. */
  lemma ReusableIff(g: Graph, cfg: Config, hn: Table, pools: Buffers.Pools, i: nat, q: nat)
    requires Before(g, cfg, hn, pools, i) && i < |g.nodes| && q < |Node(g, i).src| && CanInplace(Node(g, i).op)
    ensures Reusable(g, hn, g.nodes[i], Node(g, i).src[q]) <==> Replaces(g, i, q)
  {
    var p := Node(g, i).src[q];
    assert NodeOk(g, i) && LinksOk(g, g.nodes[i]) && p in Node(g, i).src;
    assert CountOk(g, hn[p], i, 0, p);
    LeftStart(g, p, i);
    if hn[p].own {
      assert Holder(g, cfg, hn[p], pools, p);
    }
    if Owned(g, p) && Readers(g, p, i) == 1 {
      assert MustKeep(g, p, i) && Defined(g, p, i);
    }
  }

  /** Buffer id `b` is what the list says for position `i`, or 0 without a list. */
  ghost predicate Given(ids: Option<seq<nat>>, i: nat, b: nat) {
    if ids.Some? then i < |ids.value| && b == ids.value[i] else b == 0
  }

  /** A node is where the first source it may replace is, and otherwise in the buffer it was given. */
  ghost predicate NodeSited(g: Graph, hn: Table, ids: Option<seq<nat>>, i: nat)
    requires IdsOk(g) && |hn| == |g.tensors| && i < |g.nodes|
  {
    var n := g.nodes[i];
    Owned(g, n) ==>
      if exists q :: FirstReplaced(g, i, q) then exists q :: FirstReplaced(g, i, q) && InPlaceOf(g, hn, i, q)
      else (forall q :: !Replaces(g, i, q)) && Given(ids, i, hn[n].bufferId)
  }

  ghost predicate InPlaceOf(g: Graph, hn: Table, i: nat, q: int)
    requires IdsOk(g) && |hn| == |g.tensors| && i < |g.nodes|
  {
    0 <= q < |Node(g, i).src| && Node(g, i).src[q] < |hn| && SameSlot(hn[g.nodes[i]], hn[Node(g, i).src[q]])
  }

  /** A leaf is in the buffer it was given where it was first listed. */
  ghost predicate LeafSited(g: Graph, hn: Table, ids: Option<seq<nat>>, j: nat)
    requires IdsOk(g) && |hn| == |g.tensors| && j < |g.leafs|
  {
    Owned(g, g.leafs[j]) ==> exists q: nat :: q <= j && g.leafs[q] == g.leafs[j] && Given(ids, q, hn[g.leafs[j]].bufferId)
  }

  /** Slots are the same but for one tensor. */
  ghost predicate SlotsBut(hn: Table, hn': Table, t: int) {
    |hn| == |hn'| && forall u :: 0 <= u < |hn| && u != t ==> SameSlot(hn'[u], hn[u])
  }

  lemma SlotsButAgain(a: Table, b: Table, c: Table, t: int)
    requires SlotsBut(a, b, t) && SlotsBut(b, c, -1)
    ensures SlotsBut(a, c, t)
  {
  }

  /** While the leafs and inputs are placed: those before position `l` and `c` are in their buffers, and
      nothing else holds memory. */
  ghost predicate Loads(g: Graph, hn: Table, leafIds: Option<seq<nat>>, nodeIds: Option<seq<nat>>, l: nat, c: nat)
    requires IdsOk(g) && |hn| == |g.tensors| && l <= |g.leafs| && c <= |g.nodes|
  {
    && (forall t: nat :: t < |hn| && hn[t].own ==> ListedLeaf(g, t, l) || ListedNode(g, t, c))
    && (forall j: nat :: j < l ==> LeafPlaced(g, hn, leafIds, j))
    && (forall j: nat :: j < c && Node(g, j).input ==> NodeSited(g, hn, nodeIds, j))
  }

  ghost predicate LeafPlaced(g: Graph, hn: Table, ids: Option<seq<nat>>, j: nat)
    requires IdsOk(g) && |hn| == |g.tensors| && j < |g.leafs|
  {
    LeafSited(g, hn, ids, j) && (Owned(g, g.leafs[j]) ==> hn[g.leafs[j]].own)
  }

  ghost predicate ListedLeaf(g: Graph, t: nat, l: nat) {
    exists q: nat :: q < l && q < |g.leafs| && g.leafs[q] == t
  }

  ghost predicate ListedNode(g: Graph, t: nat, c: nat) {
    exists q: nat :: q < c && q < |g.nodes| && g.nodes[q] == t
  }

  /** What happens to the table when a tensor without sources is served. */
  ghost predicate Served(g: Graph, hn: Table, hn': Table, t: nat, b: nat)
    requires |hn| == |g.tensors|
  {
    && t < |hn| && SlotsBut(hn, hn', t) && (forall u :: 0 <= u < |hn| && u != t ==> hn'[u].own == hn[u].own)
    && (if hn[t].own || !Owned(g, t) then SameSlot(hn'[t], hn[t]) && hn'[t].own == hn[t].own
        else hn'[t].own && hn'[t].bufferId == b)
  }

  lemma LeafServed(g: Graph, hn: Table, hn': Table, leafIds: Option<seq<nat>>, nodeIds: Option<seq<nat>>, l: nat, b: nat)
    requires WellFormed(g) && |hn| == |hn'| == |g.tensors| && l < |g.leafs| && Loads(g, hn, leafIds, nodeIds, l, 0)
    requires Served(g, hn, hn', g.leafs[l], b) && Given(leafIds, l, b)
    ensures Loads(g, hn', leafIds, nodeIds, l + 1, 0)
  {
    var t := g.leafs[l];
    forall u: nat | u < |hn'| && hn'[u].own
      ensures ListedLeaf(g, u, l + 1)
    {
      if u != t || hn[t].own {
        assert ListedLeaf(g, u, l);
      }
    }
    forall j: nat | j < l + 1
      ensures LeafPlaced(g, hn', leafIds, j)
    {
      if j < l {
        assert LeafPlaced(g, hn, leafIds, j);
        LeafStays(g, hn, hn', leafIds, j, t);
      } else if hn[t].own {
        assert ListedLeaf(g, t, l);
        var q: nat :| q < l && g.leafs[q] == t;
        assert LeafPlaced(g, hn, leafIds, q);
        EarlierLeaf(g, hn, hn', leafIds, q, j);
      }
    }
  }

  lemma EarlierLeaf(g: Graph, hn: Table, hn': Table, ids: Option<seq<nat>>, q: nat, j: nat)
    requires IdsOk(g) && |hn| == |hn'| == |g.tensors| && q < |g.leafs| && j < |g.leafs| && g.leafs[q] == g.leafs[j] && q <= j
    requires LeafSited(g, hn, ids, q) && SameSlot(hn'[g.leafs[j]], hn[g.leafs[j]])
    ensures LeafSited(g, hn', ids, j)
  {
  }

  lemma LeafStays(g: Graph, hn: Table, hn': Table, ids: Option<seq<nat>>, j: nat, t: nat)
    requires IdsOk(g) && |hn| == |hn'| == |g.tensors| && j < |g.leafs| && LeafSited(g, hn, ids, j)
    requires SlotsBut(hn, hn', t) && (g.leafs[j] == t ==> SameSlot(hn'[t], hn[t]) || !Owned(g, t))
    ensures LeafSited(g, hn', ids, j)
  {
  }

  lemma LeafsLoaded(g: Graph, hn: Table, leafIds: Option<seq<nat>>, nodeIds: Option<seq<nat>>)
    requires IdsOk(g) && |hn| == |g.tensors| && forall t :: 0 <= t < |hn| ==> !hn[t].own
    ensures Loads(g, hn, leafIds, nodeIds, 0, 0)
  {
  }

  /** Inputs have no sources, so they are where they were told to be. */
  lemma InputServed(g: Graph, hn: Table, hn': Table, leafIds: Option<seq<nat>>, nodeIds: Option<seq<nat>>, i: nat, b: nat)
    requires WellFormed(g) && |hn| == |hn'| == |g.tensors| && i < |g.nodes| && Loads(g, hn, leafIds, nodeIds, |g.leafs|, i)
    requires if Node(g, i).input then Served(g, hn, hn', g.nodes[i], b) else Unmoved(hn, hn')
    requires Given(nodeIds, i, b)
    ensures Loads(g, hn', leafIds, nodeIds, |g.leafs|, i + 1)
  {
    var t := g.nodes[i];
    NotListed(g, i);
    forall u: nat | u < |hn'| && hn'[u].own
      ensures ListedLeaf(g, u, |g.leafs|) || ListedNode(g, u, i + 1)
    {
      if u != t {
        assert ListedLeaf(g, u, |g.leafs|) || ListedNode(g, u, i);
      }
    }
    forall j: nat | j < |g.leafs|
      ensures LeafPlaced(g, hn', leafIds, j)
    {
      assert LeafPlaced(g, hn, leafIds, j) && g.leafs[j] in g.leafs;
      LeafStays(g, hn, hn', leafIds, j, t);
    }
    forall j: nat | j < i + 1 && Node(g, j).input
      ensures NodeSited(g, hn', nodeIds, j)
    {
      InputSited(g, hn', nodeIds, j, hn'[g.nodes[j]].bufferId);
    }
  }

  ghost predicate Unmoved(hn: Table, hn': Table) {
    |hn| == |hn'| && forall u :: 0 <= u < |hn| ==> SameSlot(hn'[u], hn[u]) && hn'[u].own == hn[u].own
  }

  lemma NotListed(g: Graph, i: nat)
    requires WellFormed(g) && i < |g.nodes|
    ensures !ListedLeaf(g, g.nodes[i], |g.leafs|) && !ListedNode(g, g.nodes[i], i)
  {
    forall q | 0 <= q < |g.leafs|
      ensures g.leafs[q] != g.nodes[i]
    {
      assert g.leafs[q] in g.leafs;
    }
  }

  lemma InputSited(g: Graph, hn: Table, ids: Option<seq<nat>>, j: nat, b: nat)
    requires WellFormed(g) && |hn| == |g.tensors| && j < |g.nodes| && Node(g, j).input
    ensures NodeSited(g, hn, ids, j) <==> (Owned(g, g.nodes[j]) ==> Given(ids, j, hn[g.nodes[j]].bufferId))
  {
    assert Node(g, j).src == [];
  }

  // ---------- the walk ----------

  /** Before step `i`: leafs, inputs and the first `i` nodes are where they belong. */
  ghost predicate Sited(g: Graph, hn: Table, leafIds: Option<seq<nat>>, nodeIds: Option<seq<nat>>, i: nat)
    requires IdsOk(g) && |hn| == |g.tensors| && i <= |g.nodes|
  {
    && (forall j: nat :: j < |g.leafs| ==> LeafSited(g, hn, leafIds, j))
    && (forall j: nat :: j < |g.nodes| && (j < i || Node(g, j).input) ==> NodeSited(g, hn, nodeIds, j))
  }

  lemma LoadsAreSited(g: Graph, hn: Table, leafIds: Option<seq<nat>>, nodeIds: Option<seq<nat>>)
    requires IdsOk(g) && |hn| == |g.tensors| && Loads(g, hn, leafIds, nodeIds, |g.leafs|, |g.nodes|)
    ensures Sited(g, hn, leafIds, nodeIds, 0)
  {
    forall j: nat | j < |g.leafs|
      ensures LeafSited(g, hn, leafIds, j)
    {
      assert LeafPlaced(g, hn, leafIds, j);
    }
  }

  lemma NodeStays(g: Graph, hn: Table, hn': Table, ids: Option<seq<nat>>, j: nat, t: int)
    requires WellFormed(g) && |hn| == |hn'| == |g.tensors| && j < |g.nodes| && NodeSited(g, hn, ids, j)
    requires SlotsBut(hn, hn', t) && g.nodes[j] != t && t !in Node(g, j).src
    ensures NodeSited(g, hn', ids, j)
  {
    if Owned(g, g.nodes[j]) && exists q :: FirstReplaced(g, j, q) {
      var q :| FirstReplaced(g, j, q) && InPlaceOf(g, hn, j, q);
      assert InPlaceOf(g, hn', j, q);
    }
  }

  /** Counters and freed memory do not move anything. */
  lemma SitedStays(g: Graph, hn: Table, hn': Table, leafIds: Option<seq<nat>>, nodeIds: Option<seq<nat>>, i: nat)
    requires WellFormed(g) && |hn| == |hn'| == |g.tensors| && i <= |g.nodes| && Sited(g, hn, leafIds, nodeIds, i) && SlotsBut(hn, hn', -1)
    ensures Sited(g, hn', leafIds, nodeIds, i)
  {
    forall j: nat | j < |g.leafs|
      ensures LeafSited(g, hn', leafIds, j)
    {
      LeafMoves(g, hn, hn', leafIds, j);
    }
    forall j: nat | j < |g.nodes| && (j < i || Node(g, j).input)
      ensures NodeSited(g, hn', nodeIds, j)
    {
      NodeStays(g, hn, hn', nodeIds, j, -1);
    }
  }

  lemma LeafMoves(g: Graph, hn: Table, hn': Table, ids: Option<seq<nat>>, j: nat)
    requires IdsOk(g) && |hn| == |hn'| == |g.tensors| && j < |g.leafs| && LeafSited(g, hn, ids, j)
    requires SameSlot(hn'[g.leafs[j]], hn[g.leafs[j]])
    ensures LeafSited(g, hn', ids, j)
  {
  }

  /** Serving node `i` puts it where it belongs and moves nothing else. */
  lemma SitedServed(g: Graph, cfg: Config, hn: Table, hn': Table, pools: Buffers.Pools, leafIds: Option<seq<nat>>, nodeIds: Option<seq<nat>>,
                    i: nat, how: How, b: nat)
    requires Before(g, cfg, hn, pools, i) && i < |g.nodes| && |hn'| == |hn| && Sited(g, hn, leafIds, nodeIds, i)
    requires Obtained(g, cfg, hn, hn', g.nodes[i], how) && Given(nodeIds, i, b)
    requires how.Fresh? ==> NoneReusable(g, hn, g.nodes[i]) && hn'[g.nodes[i]].bufferId == b
    requires how.Reused? ==> FirstReusable(g, hn, g.nodes[i], 0, how.p)
    ensures Sited(g, hn', leafIds, nodeIds, i + 1)
  {
    var n := g.nodes[i];
    assert SlotsBut(hn, hn', if how.Skipped? then -1 else n);
    forall j: nat | j < |g.leafs|
      ensures LeafSited(g, hn', leafIds, j)
    {
      assert g.leafs[j] in g.leafs;
      LeafMoves(g, hn, hn', leafIds, j);
    }
    forall j: nat | j < |g.nodes| && (j < i + 1 || Node(g, j).input)
      ensures NodeSited(g, hn', nodeIds, j)
    {
      if j != i {
        OthersStay(g, hn, hn', nodeIds, i, j, how.Skipped?);
      } else {
        NodeIsSited(g, cfg, hn, hn', pools, nodeIds, i, how, b);
      }
    }
  }

  lemma OthersStay(g: Graph, hn: Table, hn': Table, ids: Option<seq<nat>>, i: nat, j: nat, same: bool)
    requires WellFormed(g) && |hn| == |hn'| == |g.tensors| && i < |g.nodes| && j < |g.nodes| && j != i && NodeSited(g, hn, ids, j)
    requires SlotsBut(hn, hn', if same then -1 else g.nodes[i]) && (j < i || Node(g, j).input)
    ensures NodeSited(g, hn', ids, j)
  {
    assert NodeOk(g, j);
    assert g.nodes[i] !in Node(g, j).src;
    NodeStays(g, hn, hn', ids, j, if same then -1 else g.nodes[i]);
  }

  lemma NodeIsSited(g: Graph, cfg: Config, hn: Table, hn': Table, pools: Buffers.Pools, ids: Option<seq<nat>>, i: nat, how: How, b: nat)
    requires Before(g, cfg, hn, pools, i) && i < |g.nodes| && |hn'| == |hn| && (Node(g, i).input ==> NodeSited(g, hn, ids, i))
    requires Obtained(g, cfg, hn, hn', g.nodes[i], how) && Given(ids, i, b)
    requires how.Fresh? ==> NoneReusable(g, hn, g.nodes[i]) && hn'[g.nodes[i]].bufferId == b
    requires how.Reused? ==> FirstReusable(g, hn, g.nodes[i], 0, how.p)
    ensures NodeSited(g, hn', ids, i)
  {
    var n := g.nodes[i];
    if Owned(g, n) {
      assert hn[n].own <==> Node(g, i).input;
      if how.Fresh? {
        NothingReplaced(g, cfg, hn, pools, i);
      } else if how.Reused? {
        var q := FirstIsReplaced(g, cfg, hn, pools, i, how.p);
        assert InPlaceOf(g, hn', i, q);
      }
    }
  }

  lemma NothingReplaced(g: Graph, cfg: Config, hn: Table, pools: Buffers.Pools, i: nat)
    requires Before(g, cfg, hn, pools, i) && i < |g.nodes| && NoneReusable(g, hn, g.nodes[i])
    ensures forall q :: !Replaces(g, i, q)
  {
    forall q | 0 <= q < |Node(g, i).src| && CanInplace(Node(g, i).op)
      ensures !Replaces(g, i, q)
    {
      ReusableIff(g, cfg, hn, pools, i, q);
    }
  }

  lemma FirstIsReplaced(g: Graph, cfg: Config, hn: Table, pools: Buffers.Pools, i: nat, p: nat) returns (q: nat)
    requires Before(g, cfg, hn, pools, i) && i < |g.nodes| && CanReuse(g, cfg, hn, g.nodes[i], p) && FirstReusable(g, hn, g.nodes[i], 0, p)
    ensures FirstReplaced(g, i, q) && Node(g, i).src[q] == p
  {
    q :| q < |Node(g, i).src| && Node(g, i).src[q] == p && Reusable(g, hn, g.nodes[i], p) &&
         forall k :: 0 <= k < q ==> !Reusable(g, hn, g.nodes[i], Node(g, i).src[k]);
    ReusableIff(g, cfg, hn, pools, i, q);
    forall k | 0 <= k < q
      ensures !Replaces(g, i, k)
    {
      ReusableIff(g, cfg, hn, pools, i, k);
    }
  }
}
