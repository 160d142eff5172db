/** Tensors, computation graphs and what a memory plan must guarantee to run them. */
module TensorGraph {
  import opened Wrappers

  /** The operations the planner tells apart: no operation, those it may run in place,
      and all others. */
  datatype Op =
    | NONE | FILL | SCALE | DIAG_MASK_ZERO | DIAG_MASK_INF | ADD | ADD_ID | ADD1 | SUB | MUL | DIV | SQR | SQRT
    | LOG | UNARY | ROPE | ROPE_BACK | SILU_BACK | RMS_NORM | RMS_NORM_BACK | SOFT_MAX | SOFT_MAX_BACK
    | OTHER(code: nat)

  predicate CanInplace(op: Op) {
    !op.NONE? && !op.OTHER?
  }

  /** Element type, extents and strides. */
  datatype Layout = Layout(kind: int, ne: seq<int>, nb: seq<int>)

  /** Tensors are named by their index in the graph. `external` says that the data is
      set already, so that the planner leaves the tensor alone. */
  datatype Tensor = Tensor(op: Op, src: seq<nat>, viewSrc: Option<nat>, layout: Layout,
                           input: bool, output: bool, external: bool)

  datatype Graph = Graph(tensors: seq<Tensor>, leafs: seq<nat>, nodes: seq<nat>)

  ghost predicate IdsOk(g: Graph) {
    && (forall k :: 0 <= k < |g.leafs| ==> g.leafs[k] < |g.tensors|)
    && (forall i :: 0 <= i < |g.nodes| ==> g.nodes[i] < |g.tensors|)
    && (forall t :: 0 <= t < |g.tensors| ==> LinksOk(g, t))
  }

  ghost predicate LinksOk(g: Graph, t: nat)
    requires t < |g.tensors|
  {
    && (forall k :: 0 <= k < |g.tensors[t].src| ==> g.tensors[t].src[k] < |g.tensors|)
    && (g.tensors[t].viewSrc.Some? ==> g.tensors[t].viewSrc.value < |g.tensors|)
  }

  predicate IsView(g: Graph, t: nat) {
    t < |g.tensors| && g.tensors[t].viewSrc.Some?
  }

  /** The tensor whose memory `t` uses. */
  function Root(g: Graph, t: nat): nat {
    if IsView(g, t) then g.tensors[t].viewSrc.value else t
  }

  /** The planner finds memory for `t`. */
  predicate Owned(g: Graph, t: nat) {
    t < |g.tensors| && !IsView(g, t) && !g.tensors[t].external
  }

  function Node(g: Graph, i: nat): Tensor
    requires IdsOk(g) && i < |g.nodes|
  {
    g.tensors[g.nodes[i]]
  }

  /** The tensor node `i` writes. */
  function Target(g: Graph, i: nat): (r: nat)
    requires IdsOk(g) && i < |g.nodes|
    ensures r < |g.tensors|
  {
    assert LinksOk(g, g.nodes[i]);
    Root(g, g.nodes[i])
  }

  /** `t` is a leaf or one of the first `i` nodes. */
  ghost predicate Made(g: Graph, t: nat, i: nat)
    requires i <= |g.nodes|
  {
    t in g.leafs || t in g.nodes[..i]
  }

  /** A view that stands for an operation on its root. */
  predicate ViewNode(g: Graph, v: nat) {
    v < |g.tensors| && v in g.nodes && IsView(g, v) && g.tensors[v].op != NONE
  }

  /** A tensor that gets a value: it is loaded, or some operation computes it. */
  predicate Usable(g: Graph, t: nat) {
    t < |g.tensors| && (t in g.leafs || g.tensors[t].input || g.tensors[t].external || g.tensors[t].op != NONE)
  }

  /** What `ggml_build_forward` delivers: nodes in topological order, each once; leafs
      without sources; inputs without sources; views of non-views, and every view that
      is read is a node with an operation. */
  ghost predicate WellFormed(g: Graph) {
    && IdsOk(g)
    && (forall i, j :: 0 <= i < j < |g.nodes| ==> g.nodes[i] != g.nodes[j])
    && (forall t :: t in g.leafs ==> t !in g.nodes && g.tensors[t].src == [])
    && (forall i :: 0 <= i < |g.nodes| ==> NodeOk(g, i))
    && (forall t :: 0 <= t < |g.tensors| && g.tensors[t].input ==> g.tensors[t].src == [])
  }

  ghost predicate NodeOk(g: Graph, i: nat)
    requires IdsOk(g) && i < |g.nodes|
  {
    && (forall s: nat :: s in Node(g, i).src ==> Made(g, s, i) && Usable(g, s) && (IsView(g, s) ==> ViewNode(g, s)))
    && (IsView(g, g.nodes[i]) ==> Made(g, Target(g, i), i) && Usable(g, Target(g, i)) && !IsView(g, Target(g, i)))
  }

  // ---------- liveness ----------

  /** `t` holds a value before step `i`: it was loaded, or computed by an earlier node. */
  ghost predicate Defined(g: Graph, t: nat, i: nat)
    requires i <= |g.nodes|
  {
    t < |g.tensors| && (Made(g, t, i) || (t in g.nodes && g.tensors[t].input))
  }

  /** Node `j` works on the memory of `t`: it reads `t` or a view of it, or is a view of it. */
  ghost predicate Uses(g: Graph, j: nat, t: nat)
    requires IdsOk(g) && j < |g.nodes|
  {
    || (exists s: nat :: s in Node(g, j).src && Root(g, s) == t)
    || (ViewNode(g, g.nodes[j]) && Target(g, j) == t)
  }

  /** The value of `t` is used at step `i` or later, or is a result of the graph. */
  ghost predicate Needed(g: Graph, t: nat, i: nat)
    requires IdsOk(g) && t < |g.tensors|
  {
    g.tensors[t].output || exists j :: i <= j < |g.nodes| && Uses(g, j, t)
  }

  // ---------- memory plans ----------

  /** Bytes `[offset, offset + size)` of one chunk of one buffer type. */
  datatype Place = Place(buft: int, chunk: nat, offset: nat, size: nat)

  predicate Disjoint(p: Place, q: Place) {
    p.buft == q.buft && p.chunk == q.chunk ==> p.offset + p.size <= q.offset || q.offset + q.size <= p.offset
  }

  /** One place for each tensor; only those of owned tensors mean anything. */
  type Plan = seq<Place>

  /** Node `i` may run on top of its source `p`: an in-place operation on the same
      layout at the same address, and nobody needs `p` afterwards. */
  ghost predicate RunsInPlace(g: Graph, plan: Plan, i: nat, p: nat)
    requires IdsOk(g) && |plan| == |g.tensors| && i < |g.nodes|
  {
    var n := g.nodes[i];
    && p in Node(g, i).src && Owned(g, p) && Owned(g, n)
    && CanInplace(g.tensors[n].op) && g.tensors[n].layout == g.tensors[p].layout
    && plan[n].buft == plan[p].buft && plan[n].chunk == plan[p].chunk && plan[n].offset == plan[p].offset
    && plan[n].size <= plan[p].size
    && !Needed(g, p, i + 1)
  }

  /** Step `i` destroys nothing: it writes apart from every value still needed, and
      overlaps a source only to run in place on it. */
  ghost predicate SafeStep(g: Graph, plan: Plan, i: nat)
    requires IdsOk(g) && |plan| == |g.tensors| && i < |g.nodes|
  {
    var r := Target(g, i);
    Owned(g, r) && Node(g, i).op != NONE ==>
      && (forall t: nat :: Owned(g, t) && t != r && Defined(g, t, i) && Needed(g, t, i + 1) ==> Disjoint(plan[t], plan[r]))
      && (forall s: nat :: s in Node(g, i).src && Owned(g, Root(g, s)) && Root(g, s) != r ==>
            Disjoint(plan[Root(g, s)], plan[r]) || (s == Root(g, s) && RunsInPlace(g, plan, i, s)))
  }

  /** All steps are safe, and everything loaded before the run is apart. */
  ghost predicate SafePlan(g: Graph, plan: Plan)
    requires IdsOk(g)
  {
    && |plan| == |g.tensors|
    && (forall t: nat, u: nat :: Loaded(g, t) && Loaded(g, u) && t != u ==> Disjoint(plan[t], plan[u]))
    && (forall i :: 0 <= i < |g.nodes| ==> SafeStep(g, plan, i))
  }

  /** A leaf or input that the planner places and the application fills in. */
  ghost predicate Loaded(g: Graph, t: nat) {
    Owned(g, t) && Defined(g, t, 0)
  }
}
