/** Graphs as the scheduler of `ggml-backend.cpp` sees them: tensors with backends and buffers. */
module SchedGraph {
  import opened Wrappers

  datatype Buffer = Buffer(buft: nat, weights: bool)

  /** `viewSrc` is the tensor whose memory this one shares; `backend` is -1 while unassigned. */
  datatype Tensor = Tensor(viewOp: bool, viewSrc: Option<nat>, srcs: seq<nat>, backend: int, buffer: Option<Buffer>, input: bool)

  datatype Graph = Graph(tensors: seq<Tensor>, nodes: seq<nat>)

  /** Buffer types of the backends, what each backend can read, and pipeline copies. */
  datatype Backends = Backends(bufts: seq<nat>, canRead: (int, nat) -> bool, nCopies: nat)

  predicate InGraph(g: Graph) {
    && (forall i :: 0 <= i < |g.nodes| ==> g.nodes[i] < |g.tensors|)
    && (forall t, j :: 0 <= t < |g.tensors| && 0 <= j < |g.tensors[t].srcs| ==> g.tensors[t].srcs[j] < |g.tensors|)
    && (forall t :: 0 <= t < |g.tensors| && g.tensors[t].viewSrc.Some? ==> g.tensors[t].viewSrc.value < |g.tensors|)
  }

  predicate BackendsKnown(g: Graph, s: Backends) {
    forall t :: 0 <= t < |g.tensors| ==> -1 <= g.tensors[t].backend < |s.bufts|
  }

  /** Whether backend `b` can read the buffer the tensor is in, or will be in. */
  predicate Supported(g: Graph, s: Backends, t: nat, b: int)
    requires InGraph(g) && BackendsKnown(g, s) && t < |g.tensors|
  {
    var x := g.tensors[t];
    var buffer := if x.viewSrc.Some? then g.tensors[x.viewSrc.value].buffer else x.buffer;
    if buffer.Some? then s.canRead(b, buffer.value.buft)
    else
      var id := if x.backend == -1 && x.viewSrc.Some? then g.tensors[x.viewSrc.value].backend else x.backend;
      id != -1 && s.canRead(b, s.bufts[id])
  }

  /** Backend `b` needs a copy of the tensor. */
  predicate Foreign(g: Graph, s: Backends, t: nat, b: int)
    requires InGraph(g) && BackendsKnown(g, s) && t < |g.tensors|
  {
    g.tensors[t].backend != b && !Supported(g, s, t, b)
  }

  function Node(g: Graph, i: nat): (t: Tensor)
    requires InGraph(g) && i < |g.nodes|
    ensures forall j :: 0 <= j < |t.srcs| ==> t.srcs[j] < |g.tensors|
  {
    g.tensors[g.nodes[i]]
  }

  /** What a node reads: a tensor of the graph or its copy on a backend. */
  datatype Ref = Orig(t: nat) | Copy(t: nat, backend: int)

  function RefOn(g: Graph, s: Backends, t: nat, b: int): Ref
    requires InGraph(g) && BackendsKnown(g, s) && t < |g.tensors|
  {
    if Foreign(g, s, t, b) then Copy(t, b) else Orig(t)
  }

  datatype Split = Split(backend: int, start: nat, end: nat, inputs: seq<nat>)
}
