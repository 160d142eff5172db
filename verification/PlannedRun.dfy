/** Running a graph in planned memory computes what running it with private storage
    for every tensor computes.

    The first machine keeps planned tensors in one shared memory, at the places the
    plan gives them; the second keeps every tensor apart. A safe plan makes them
    agree on every value that is still needed.
 */
module PlannedRun {
  import opened TensorGraph

  datatype Cell = Cell(buft: int, chunk: nat, at: nat)

  type Memory = Cell -> int

  /** The contents of each tensor. */
  type Store = seq<seq<int>>

  /** Result of a node from the contents of its sources' roots and, for a view, from
      what its root holds. */
  type Semantics = (nat, seq<seq<int>>, seq<int>) -> seq<int>

  function Read(m: Memory, p: Place): (v: seq<int>)
    ensures |v| == p.size
  {
    seq(p.size, k requires 0 <= k < p.size => m(Cell(p.buft, p.chunk, p.offset + k)))
  }

  predicate Covers(p: Place, c: Cell) {
    c.buft == p.buft && c.chunk == p.chunk && p.offset <= c.at < p.offset + p.size
  }

  function Write(m: Memory, p: Place, v: seq<int>): Memory
    requires |v| == p.size
  {
    (c: Cell) => if Covers(p, c) then v[c.at - p.offset] else m(c)
  }

  /** Shared memory for planned tensors, private storage for the external ones. */
  datatype Machine = Machine(mem: Memory, ext: Store)

  function Get(g: Graph, plan: Plan, mc: Machine, t: nat): seq<int>
    requires t < |plan| && t < |mc.ext|
  {
    if Owned(g, t) then Read(mc.mem, plan[t]) else mc.ext[t]
  }

  function Put(g: Graph, plan: Plan, mc: Machine, t: nat, v: seq<int>): (mc': Machine)
    requires t < |plan| && t < |mc.ext| && (Owned(g, t) ==> |v| == plan[t].size)
    ensures |mc'.ext| == |mc.ext|
  {
    if Owned(g, t) then mc.(mem := Write(mc.mem, plan[t], v)) else mc.(ext := mc.ext[t := v])
  }

  ghost predicate Fits(g: Graph, plan: Plan, sem: Semantics) {
    |plan| == |g.tensors| &&
    forall t: nat, args, prev :: Owned(g, Root(g, t)) && Root(g, t) < |plan| ==> |sem(t, args, prev)| == plan[Root(g, t)].size
  }

  // ---------- one step of each machine ----------

  function RootOf(g: Graph, i: nat, k: nat): (r: nat)
    requires IdsOk(g) && i < |g.nodes| && k < |Node(g, i).src|
    ensures r < |g.tensors|
  {
    assert LinksOk(g, g.nodes[i]);
    assert LinksOk(g, Node(g, i).src[k]);
    Root(g, Node(g, i).src[k])
  }

  ghost function PlannedArgs(g: Graph, plan: Plan, mc: Machine, i: nat): seq<seq<int>>
    requires IdsOk(g) && i < |g.nodes| && |plan| == |mc.ext| == |g.tensors|
  {
    seq(|Node(g, i).src|, k requires 0 <= k < |Node(g, i).src| => Get(g, plan, mc, RootOf(g, i, k)))
  }

  ghost function PrivateArgs(g: Graph, st: Store, i: nat): seq<seq<int>>
    requires IdsOk(g) && i < |g.nodes| && |st| == |g.tensors|
  {
    seq(|Node(g, i).src|, k requires 0 <= k < |Node(g, i).src| => st[RootOf(g, i, k)])
  }

  ghost function PlannedResult(g: Graph, plan: Plan, sem: Semantics, mc: Machine, i: nat): seq<int>
    requires IdsOk(g) && i < |g.nodes| && |plan| == |mc.ext| == |g.tensors|
  {
    sem(g.nodes[i],
        PlannedArgs(g, plan, mc, i),
        if IsView(g, g.nodes[i]) then Get(g, plan, mc, Target(g, i)) else [])
  }

  ghost function PlannedStep(g: Graph, plan: Plan, sem: Semantics, mc: Machine, i: nat): (mc': Machine)
    requires IdsOk(g) && i < |g.nodes| && |plan| == |mc.ext| == |g.tensors| && Fits(g, plan, sem)
    ensures |mc'.ext| == |mc.ext|
  {
    if Node(g, i).op == NONE then mc
    else Put(g, plan, mc, Target(g, i), PlannedResult(g, plan, sem, mc, i))
  }

  ghost function PrivateResult(g: Graph, sem: Semantics, st: Store, i: nat): seq<int>
    requires IdsOk(g) && i < |g.nodes| && |st| == |g.tensors|
  {
    sem(g.nodes[i],
        PrivateArgs(g, st, i),
        if IsView(g, g.nodes[i]) then st[Target(g, i)] else [])
  }

  ghost function PrivateStep(g: Graph, sem: Semantics, st: Store, i: nat): (st': Store)
    requires IdsOk(g) && i < |g.nodes| && |st| == |g.tensors|
    ensures |st'| == |st|
  {
    if Node(g, i).op == NONE then st
    else st[Target(g, i) := PrivateResult(g, sem, st, i)]
  }

  // ---------- whole runs ----------

  ghost function PlannedRun(g: Graph, plan: Plan, sem: Semantics, mc: Machine, i: nat): (mc': Machine)
    requires IdsOk(g) && i <= |g.nodes| && |plan| == |mc.ext| == |g.tensors| && Fits(g, plan, sem)
    ensures |mc'.ext| == |mc.ext|
  {
    if i == 0 then mc else PlannedStep(g, plan, sem, PlannedRun(g, plan, sem, mc, i - 1), i - 1)
  }

  ghost function PrivateRun(g: Graph, sem: Semantics, st: Store, i: nat): (st': Store)
    requires IdsOk(g) && i <= |g.nodes| && |st| == |g.tensors|
    ensures |st'| == |st|
  {
    if i == 0 then st else PrivateStep(g, sem, PrivateRun(g, sem, st, i - 1), i - 1)
  }

  /** `t` must hold its value before step `i`. */
  ghost predicate Current(g: Graph, t: nat, i: nat)
    requires IdsOk(g) && i <= |g.nodes|
  {
    && t < |g.tensors| && !IsView(g, t)
    && (g.tensors[t].external || (Usable(g, t) && Defined(g, t, i) && Needed(g, t, i)))
  }

  ghost predicate Agree(g: Graph, plan: Plan, mc: Machine, st: Store, i: nat)
    requires IdsOk(g) && i <= |g.nodes|
  {
    && |plan| == |mc.ext| == |st| == |g.tensors|
    && forall t: nat :: Current(g, t, i) ==> Get(g, plan, mc, t) == st[t]
  }

  lemma MadeStays(g: Graph, t: nat, i: nat, j: nat)
    requires i <= j <= |g.nodes| && Made(g, t, i)
    ensures Made(g, t, j)
  {
    assert g.nodes[..i] <= g.nodes[..j];
    if t in g.nodes[..i] {
      var k :| 0 <= k < i && g.nodes[..i][k] == t;
      assert g.nodes[..j][k] == t;
    }
  }

  /** The root of a source holds its value when the node runs. */
  lemma SourceIsCurrent(g: Graph, i: nat, k: nat)
    requires WellFormed(g) && i < |g.nodes| && k < |Node(g, i).src|
    ensures Current(g, RootOf(g, i, k), i)
  {
    var s := Node(g, i).src[k];
    var r := RootOf(g, i, k);
    assert NodeOk(g, i) && s in Node(g, i).src;
    assert Uses(g, i, r);
    if IsView(g, s) {
      assert s !in g.leafs;
      var j :| 0 <= j < i && g.nodes[..i][j] == s;
      assert NodeOk(g, j);
      MadeStays(g, r, j, i);
    }
  }

  lemma TargetIsCurrent(g: Graph, i: nat)
    requires WellFormed(g) && i < |g.nodes| && ViewNode(g, g.nodes[i])
    ensures Current(g, Target(g, i), i)
  {
    assert NodeOk(g, i);
    assert Uses(g, i, Target(g, i));
  }

  /** While the machines agree, a node computes the same result on both. */
  lemma SameResult(g: Graph, plan: Plan, sem: Semantics, mc: Machine, st: Store, i: nat)
    requires WellFormed(g) && i < |g.nodes| && Agree(g, plan, mc, st, i) && Node(g, i).op != NONE
    ensures PlannedResult(g, plan, sem, mc, i) == PrivateResult(g, sem, st, i)
  {
    var a, b := PlannedArgs(g, plan, mc, i), PrivateArgs(g, st, i);
    forall k | 0 <= k < |Node(g, i).src|
      ensures a[k] == b[k]
    {
      SourceIsCurrent(g, i, k);
    }
    assert a == b;
    if IsView(g, g.nodes[i]) {
      TargetIsCurrent(g, i);
    }
  }

  lemma ReadWritten(m: Memory, p: Place, v: seq<int>)
    requires |v| == p.size
    ensures Read(Write(m, p, v), p) == v
  {
    forall k | 0 <= k < p.size
      ensures Read(Write(m, p, v), p)[k] == v[k]
    {
      assert Covers(p, Cell(p.buft, p.chunk, p.offset + k));
    }
  }

  lemma ReadElsewhere(m: Memory, p: Place, v: seq<int>, q: Place)
    requires |v| == p.size && Disjoint(q, p)
    ensures Read(Write(m, p, v), q) == Read(m, q)
  {
    forall k | 0 <= k < q.size
      ensures Read(Write(m, p, v), q)[k] == Read(m, q)[k]
    {
      assert !Covers(p, Cell(q.buft, q.chunk, q.offset + k));
    }
  }

  /** What must hold its value after step `i` and is not written by it, had it before. */
  lemma CurrentBefore(g: Graph, t: nat, i: nat)
    requires WellFormed(g) && i < |g.nodes| && Current(g, t, i + 1)
    requires t != Target(g, i) || Node(g, i).op == NONE
    ensures Current(g, t, i)
    ensures !g.tensors[t].external ==> Defined(g, t, i) && Needed(g, t, i + 1)
  {
    if !g.tensors[t].external {
      if t in g.nodes[..i + 1] && t !in g.nodes[..i] {
        assert g.nodes[..i + 1] == g.nodes[..i] + [g.nodes[i]];
        assert t == g.nodes[i] == Target(g, i);
      }
      if !g.tensors[t].output {
        var j :| i + 1 <= j < |g.nodes| && Uses(g, j, t);
        assert i <= j;
      }
    }
  }

  lemma StepAgrees(g: Graph, plan: Plan, sem: Semantics, mc: Machine, st: Store, i: nat)
    requires WellFormed(g) && SafePlan(g, plan) && Fits(g, plan, sem)
    requires i < |g.nodes| && Agree(g, plan, mc, st, i)
    ensures Agree(g, plan, PlannedStep(g, plan, sem, mc, i), PrivateStep(g, sem, st, i), i + 1)
  {
    var mc', st' := PlannedStep(g, plan, sem, mc, i), PrivateStep(g, sem, st, i);
    var r := Target(g, i);
    if Node(g, i).op != NONE {
      SameResult(g, plan, sem, mc, st, i);
    }
    forall t: nat | Current(g, t, i + 1)
      ensures Get(g, plan, mc', t) == st'[t]
    {
      if Node(g, i).op != NONE && t == r {
        if Owned(g, r) {
          ReadWritten(mc.mem, plan[r], PlannedResult(g, plan, sem, mc, i));
        }
      } else {
        CurrentBefore(g, t, i);
        if Node(g, i).op != NONE && Owned(g, r) && Owned(g, t) {
          assert SafeStep(g, plan, i);
          ReadElsewhere(mc.mem, plan[r], PlannedResult(g, plan, sem, mc, i), plan[t]);
        }
      }
    }
  }

  /** A safe plan runs every prefix of the graph faithfully. */
  lemma {:induction false} RunAgrees(g: Graph, plan: Plan, sem: Semantics, mc: Machine, st: Store, i: nat)
    requires WellFormed(g) && SafePlan(g, plan) && Fits(g, plan, sem)
    requires i <= |g.nodes| && Agree(g, plan, mc, st, 0)
    ensures Agree(g, plan, PlannedRun(g, plan, sem, mc, i), PrivateRun(g, sem, st, i), i)
  {
    if i > 0 {
      RunAgrees(g, plan, sem, mc, st, i - 1);
      StepAgrees(g, plan, sem, PlannedRun(g, plan, sem, mc, i - 1), PrivateRun(g, sem, st, i - 1), i - 1);
    }
  }

  /** What the plan is for: every node reads its sources' values, and at the end every
      result that is not a view holds the value of the private run. */
  lemma PlannedRunIsFaithful(g: Graph, plan: Plan, sem: Semantics, mc: Machine, st: Store)
    requires WellFormed(g) && SafePlan(g, plan) && Fits(g, plan, sem) && Agree(g, plan, mc, st, 0)
    ensures forall i, k :: 0 <= i < |g.nodes| && 0 <= k < |Node(g, i).src| ==>
              Get(g, plan, PlannedRun(g, plan, sem, mc, i), RootOf(g, i, k)) == PrivateRun(g, sem, st, i)[RootOf(g, i, k)]
    ensures var end := |g.nodes|;
            forall t: nat :: Usable(g, t) && !IsView(g, t) && g.tensors[t].output && Made(g, t, end) ==>
              Get(g, plan, PlannedRun(g, plan, sem, mc, end), t) == PrivateRun(g, sem, st, end)[t]
  {
    forall i, k | 0 <= i < |g.nodes| && 0 <= k < |Node(g, i).src|
      ensures Get(g, plan, PlannedRun(g, plan, sem, mc, i), RootOf(g, i, k)) == PrivateRun(g, sem, st, i)[RootOf(g, i, k)]
    {
      RunAgrees(g, plan, sem, mc, st, i);
      SourceIsCurrent(g, i, k);
    }
    var end := |g.nodes|;
    RunAgrees(g, plan, sem, mc, st, end);
    forall t: nat | Usable(g, t) && !IsView(g, t) && g.tensors[t].output && Made(g, t, end)
      ensures Get(g, plan, PlannedRun(g, plan, sem, mc, end), t) == PrivateRun(g, sem, st, end)[t]
    {
      assert Current(g, t, end);
    }
  }

  // ---------- loading ----------

  /** Writes the given contents of tensors `0..n` that are loaded before the run. */
  ghost function LoadAll(g: Graph, plan: Plan, mc: Machine, st: Store, n: nat): (mc': Machine)
    requires n <= |plan| == |mc.ext| == |st| && forall t :: 0 <= t < n && Loaded(g, t) ==> |st[t]| == plan[t].size
    ensures |mc'.ext| == |mc.ext| && mc'.ext == mc.ext
  {
    if n == 0 then mc
    else
      var before := LoadAll(g, plan, mc, st, n - 1);
      if Loaded(g, n - 1) then Put(g, plan, before, n - 1, st[n - 1]) else before
  }

  /** Under a safe plan any contents of the leafs and inputs can be loaded together, so
      the runs above have somewhere to start from. */
  lemma {:induction false} LoadingWorks(g: Graph, plan: Plan, mc: Machine, st: Store, n: nat)
    requires IdsOk(g) && SafePlan(g, plan) && n <= |plan| == |mc.ext| == |st|
    requires forall t :: 0 <= t < n && Loaded(g, t) ==> |st[t]| == plan[t].size
    ensures forall t: nat :: t < n && Loaded(g, t) ==> Get(g, plan, LoadAll(g, plan, mc, st, n), t) == st[t]
  {
    if n > 0 {
      LoadingWorks(g, plan, mc, st, n - 1);
      if Loaded(g, n - 1) {
        var before := LoadAll(g, plan, mc, st, n - 1);
        ReadWritten(before.mem, plan[n - 1], st[n - 1]);
        forall t: nat | t < n - 1 && Loaded(g, t)
          ensures Get(g, plan, LoadAll(g, plan, mc, st, n), t) == st[t]
        {
          ReadElsewhere(before.mem, plan[n - 1], st[n - 1], plan[t]);
        }
      }
    }
  }

  /** A loaded machine agrees with the private store it was loaded from. */
  lemma LoadedAgrees(g: Graph, plan: Plan, mc: Machine, st: Store)
    requires IdsOk(g) && SafePlan(g, plan) && |plan| == |mc.ext| == |st|
    requires forall t: nat :: t < |st| && Loaded(g, t) ==> |st[t]| == plan[t].size
    requires forall t: nat :: t < |st| && !Owned(g, t) ==> mc.ext[t] == st[t]
    ensures Agree(g, plan, LoadAll(g, plan, mc, st, |st|), st, 0)
  {
    LoadingWorks(g, plan, mc, st, |st|);
  }

  /** From any contents of memory: load the leafs and inputs, run the graph, and everything read
      and every output is what a run without shared memory gives. */
  lemma LoadedRunIsFaithful(g: Graph, plan: Plan, sem: Semantics, mc: Machine, st: Store)
    requires WellFormed(g) && SafePlan(g, plan) && Fits(g, plan, sem) && |plan| == |mc.ext| == |st| == |g.tensors|
    requires forall t: nat :: t < |st| && Loaded(g, t) ==> |st[t]| == plan[t].size
    requires forall t: nat :: t < |st| && !Owned(g, t) ==> mc.ext[t] == st[t]
    ensures var start := LoadAll(g, plan, mc, st, |st|);
            forall i, k :: 0 <= i < |g.nodes| && 0 <= k < |Node(g, i).src| ==>
              Get(g, plan, PlannedRun(g, plan, sem, start, i), RootOf(g, i, k)) == PrivateRun(g, sem, st, i)[RootOf(g, i, k)]
    ensures var start, end := LoadAll(g, plan, mc, st, |st|), |g.nodes|;
            forall t: nat :: Usable(g, t) && !IsView(g, t) && g.tensors[t].output && Made(g, t, end) ==>
              Get(g, plan, PlannedRun(g, plan, sem, start, end), t) == PrivateRun(g, sem, st, end)[t]
  {
    LoadedAgrees(g, plan, mc, st);
    PlannedRunIsFaithful(g, plan, sem, LoadAll(g, plan, mc, st, |st|), st);
  }
}
