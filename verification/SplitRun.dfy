/** Running the splits in order computes what running the nodes in order computes. */
module SplitRun {
  import opened Wrappers
  import opened SchedGraph
  import opened SchedSplit

  /** What the operations compute: a node from its sources' values, a view from its root's. */
  datatype Semantics<!V> = Semantics(op: (nat, seq<V>) -> V, view: (nat, V) -> V)

  /** A computed graph: nodes are distinct, and what a node reads was computed before it. */
  ghost predicate Ordered(g: Graph)
    requires InGraph(g)
  {
    && (forall i, j :: 0 <= i < j < |g.nodes| ==> g.nodes[i] != g.nodes[j])
    && (forall i :: 0 <= i < |g.nodes| ==> forall j :: 0 <= j < |Node(g, i).srcs| ==> Ready(g, Node(g, i).srcs[j], i))
  }

  function Root(g: Graph, t: nat): (r: nat)
    requires InGraph(g) && t < |g.tensors|
    ensures r < |g.tensors|
  {
    if g.tensors[t].viewOp && g.tensors[t].viewSrc.Some? then g.tensors[t].viewSrc.value else t
  }

  /** Node `k` computes tensor `r`; view operations compute nothing. */
  predicate Computes(g: Graph, k: nat, r: nat)
    requires InGraph(g) && k < |g.nodes|
  {
    !Node(g, k).viewOp && g.nodes[k] == r
  }

  /** The memory behind `t` is not written by node `i` or a later one. */
  ghost predicate Ready(g: Graph, t: nat, i: nat)
    requires InGraph(g) && t < |g.tensors|
  {
    forall k :: i <= k < |g.nodes| ==> !Computes(g, k, Root(g, t))
  }

  function Read<V>(g: Graph, sem: Semantics<V>, vals: seq<V>, t: nat): V
    requires InGraph(g) && t < |g.tensors| == |vals|
  {
    if g.tensors[t].viewOp then sem.view(t, vals[Root(g, t)]) else vals[t]
  }

  function Reads<V>(g: Graph, sem: Semantics<V>, vals: seq<V>, ts: seq<nat>): seq<V>
    requires InGraph(g) && |g.tensors| == |vals| && forall j :: 0 <= j < |ts| ==> ts[j] < |g.tensors|
  {
    seq(|ts|, j requires 0 <= j < |ts| => Read(g, sem, vals, ts[j]))
  }

  // ---------- the original order ----------

  /** Values after the first `n` nodes; view operations compute nothing. */
  function Plainly<V>(g: Graph, sem: Semantics<V>, init: seq<V>, n: nat): (r: seq<V>)
    requires InGraph(g) && |init| == |g.tensors| && n <= |g.nodes|
    ensures |r| == |init|
  {
    if n == 0 then init
    else
      var vals := Plainly(g, sem, init, n - 1);
      var x := Node(g, n - 1);
      if x.viewOp then vals else vals[g.nodes[n - 1] := sem.op(g.nodes[n - 1], Reads(g, sem, vals, x.srcs))]
  }

  // ---------- split by split ----------

  datatype Memory<V> = Memory(vals: seq<V>, copies: map<(nat, int), V>)

  function Fetch<V>(g: Graph, sem: Semantics<V>, junk: V, m: Memory<V>, r: Ref): V
    requires InGraph(g) && |g.tensors| == |m.vals|
  {
    match r
    case Orig(t) => if t < |g.tensors| then Read(g, sem, m.vals, t) else junk
    case Copy(t, b) => if (t, b) in m.copies then m.copies[(t, b)] else junk
  }

  function Fetches<V>(g: Graph, sem: Semantics<V>, junk: V, m: Memory<V>, rs: seq<Ref>): (r: seq<V>)
    requires InGraph(g) && |g.tensors| == |m.vals|
    ensures |r| == |rs| && forall j :: 0 <= j < |rs| ==> r[j] == Fetch(g, sem, junk, m, rs[j])
  {
    seq(|rs|, j requires 0 <= j < |rs| => Fetch(g, sem, junk, m, rs[j]))
  }

  /** Copies the first `p` inputs of a split to its backend. */
  function CopiedIn<V>(g: Graph, sem: Semantics<V>, junk: V, m: Memory<V>, x: Split, p: nat): (r: Memory<V>)
    requires InGraph(g) && |g.tensors| == |m.vals| && p <= |x.inputs|
    ensures r.vals == m.vals
  {
    if p == 0 then m
    else
      var m' := CopiedIn(g, sem, junk, m, x, p - 1);
      m'.(copies := m'.copies[(x.inputs[p - 1], x.backend) := Fetch(g, sem, junk, m', Orig(x.inputs[p - 1]))])
  }

  function Ran<V>(g: Graph, sem: Semantics<V>, junk: V, m: Memory<V>, refs: seq<seq<Ref>>, i: nat): (r: Memory<V>)
    requires InGraph(g) && |g.tensors| == |m.vals| && i < |g.nodes| == |refs|
    ensures |r.vals| == |m.vals|
  {
    if Node(g, i).viewOp then m
    else m.(vals := m.vals[g.nodes[i] := sem.op(g.nodes[i], Fetches(g, sem, junk, m, refs[i]))])
  }

  /** Nodes `a` to `b` in order. */
  function RanAll<V>(g: Graph, sem: Semantics<V>, junk: V, m: Memory<V>, refs: seq<seq<Ref>>, a: nat, b: nat): (r: Memory<V>)
    requires InGraph(g) && |g.tensors| == |m.vals| && a <= b <= |g.nodes| == |refs|
    ensures |r.vals| == |m.vals|
  {
    if a == b then m else Ran(g, sem, junk, RanAll(g, sem, junk, m, refs, a, b - 1), refs, b - 1)
  }

  /** The first `k` splits, each after its copies. */
  function SplitBySplit<V>(g: Graph, sem: Semantics<V>, junk: V, init: seq<V>, splits: seq<Split>, refs: seq<seq<Ref>>, k: nat): (r: Memory<V>)
    requires InGraph(g) && |g.tensors| == |init| && k <= |splits| && |refs| == |g.nodes|
    requires forall j :: 0 <= j < |splits| ==> splits[j].start <= splits[j].end <= |g.nodes|
    ensures |r.vals| == |init|
  {
    if k == 0 then Memory(init, map[])
    else
      var x := splits[k - 1];
      var m := CopiedIn(g, sem, junk, SplitBySplit(g, sem, junk, init, splits, refs, k - 1), x, |x.inputs|);
      RanAll(g, sem, junk, m, refs, x.start, x.end)
  }

  // ---------- they agree ----------

  /** After `n` nodes and the copies of all splits before number `k`, memory holds the values of
      the original order, and every copy made is up to date for good. */
  ghost predicate Agrees<V>(g: Graph, sem: Semantics<V>, init: seq<V>, splits: seq<Split>, m: Memory<V>, k: nat, n: nat)
    requires InGraph(g) && |g.tensors| == |init| && n <= |g.nodes|
  {
    && m.vals == Plainly(g, sem, init, n)
    && (forall c :: c in m.copies ==> c.0 < |g.tensors| && Ready(g, c.0, n) && m.copies[c] == Read(g, sem, m.vals, c.0))
    && (forall j, b, t: nat :: j < k && Lists(splits, j, b, t) ==> (t, b) in m.copies)
  }

  // ---------- when inputs are ready ----------

  ghost predicate AllReady(g: Graph, ts: seq<nat>, n: nat)
    requires InGraph(g)
  {
    forall q :: 0 <= q < |ts| ==> ts[q] < |g.tensors| && Ready(g, ts[q], n)
  }

  /** No split computes the memory behind one of its own inputs, and no later split does. */
  ghost predicate InputsReady(g: Graph, splits: seq<Split>)
    requires InGraph(g)
  {
    forall k :: 0 <= k < |splits| ==> AllReady(g, splits[k].inputs, splits[k].start)
  }

  /** A tensor is on the backend of the memory it stands for. */
  predicate WithRoot(g: Graph, t: nat)
    requires InGraph(g) && t < |g.tensors|
  {
    g.tensors[Root(g, t)].backend == g.tensors[t].backend
  }

  /** An input on its root's backend is ready: the root's producer is not in the split. */
  lemma InputReady(g: Graph, s: Backends, x: Split, t: nat)
    requires InGraph(g) && BackendsKnown(g, s) && Ordered(g) && OnBackend(g, x) && x.end <= |g.nodes|
    requires InputOk(g, s, x, x.end, t) && WithRoot(g, t)
    ensures Ready(g, t, x.start)
  {
    var i :| x.start <= i < x.end && i < |g.nodes| && !Node(g, i).viewOp && Node(g, i).backend == x.backend && t in Node(g, i).srcs;
    var j :| 0 <= j < |Node(g, i).srcs| && Node(g, i).srcs[j] == t;
    assert Ready(g, Node(g, i).srcs[j], i);
    forall k | x.start <= k < |g.nodes|
      ensures !Computes(g, k, Root(g, t))
    {
      if k < i {
        assert !Node(g, k).viewOp ==> Node(g, k).backend == x.backend;
      }
    }
  }

  /** In particular when there are no views, or every view is on its root's backend. */
  lemma ViewsWithRootsAreReady(g: Graph, s: Backends, splits: seq<Split>, refs: seq<seq<Ref>>)
    requires InGraph(g) && BackendsKnown(g, s) && Ordered(g) && GoodSplit(g, s, splits, refs)
    requires forall t :: 0 <= t < |g.tensors| ==> WithRoot(g, t)
    ensures InputsReady(g, splits)
  {
    forall k | 0 <= k < |splits|
      ensures AllReady(g, splits[k].inputs, splits[k].start)
    {
      var x := splits[k];
      EndsInside(splits, |g.nodes|, k);
      forall q | 0 <= q < |x.inputs|
        ensures x.inputs[q] < |g.tensors| && Ready(g, x.inputs[q], x.start)
      {
        assert x.inputs[q] in splits[k].inputs;
        InputReady(g, s, x, x.inputs[q]);
      }
    }
  }

  lemma {:induction false} CopiedAgrees<V>(g: Graph, sem: Semantics<V>, junk: V, init: seq<V>, splits: seq<Split>, m: Memory<V>, k: nat, n: nat,
                                           x: Split, p: nat)
    requires InGraph(g) && |init| == |g.tensors| && p <= |x.inputs| && n <= |g.nodes| && AllReady(g, x.inputs, n)
    requires Agrees(g, sem, init, splits, m, k, n)
    ensures var r := CopiedIn(g, sem, junk, m, x, p);
            && Agrees(g, sem, init, splits, r, k, n)
            && forall q :: 0 <= q < p ==> (x.inputs[q], x.backend) in r.copies
  {
    if p > 0 {
      CopiedAgrees(g, sem, junk, init, splits, m, k, n, x, p - 1);
      CopyKeeps(g, sem, init, splits, CopiedIn(g, sem, junk, m, x, p - 1), k, n, x.inputs[p - 1], x.backend);
    }
  }

  lemma CopyKeeps<V>(g: Graph, sem: Semantics<V>, init: seq<V>, splits: seq<Split>, m: Memory<V>, k: nat, n: nat, t: nat, b: int)
    requires InGraph(g) && |init| == |g.tensors| && n <= |g.nodes| && Agrees(g, sem, init, splits, m, k, n)
    requires t < |g.tensors| && Ready(g, t, n)
    ensures Agrees(g, sem, init, splits, m.(copies := m.copies[(t, b) := Read(g, sem, m.vals, t)]), k, n)
  {
  }

  lemma AllCopied<V>(g: Graph, sem: Semantics<V>, junk: V, init: seq<V>, splits: seq<Split>, m: Memory<V>, k: nat)
    requires InGraph(g) && |init| == |g.tensors| && k < |splits| && splits[k].start <= |g.nodes|
    requires AllReady(g, splits[k].inputs, splits[k].start)
    requires Agrees(g, sem, init, splits, m, k, splits[k].start)
    ensures Agrees(g, sem, init, splits, CopiedIn(g, sem, junk, m, splits[k], |splits[k].inputs|), k + 1, splits[k].start)
  {
    var x := splits[k];
    CopiedAgrees(g, sem, junk, init, splits, m, k, x.start, x, |x.inputs|);
    var r := CopiedIn(g, sem, junk, m, x, |x.inputs|);
    forall j, b, t: nat | j < k + 1 && Lists(splits, j, b, t)
      ensures (t, b) in r.copies
    {
      if j == k {
        var q :| 0 <= q < |x.inputs| && x.inputs[q] == t;
      }
    }
  }

  lemma {:induction false} Later(splits: seq<Split>, n: nat, j: nat, k: nat)
    requires Tiles(splits, n) && j < k < |splits|
    ensures splits[j].end <= splits[k].start
  {
    if j + 1 < k {
      Later(splits, n, j, k - 1);
      assert splits[k - 1].start < splits[k - 1].end && splits[k - 1].end == splits[k - 1 + 1].start;
    } else {
      assert splits[j].end == splits[j + 1].start;
    }
  }

  /** When node `i` of split `k` runs, it reads the values the original order gives it. */
  lemma SourcesAgree<V>(g: Graph, s: Backends, sem: Semantics<V>, junk: V, init: seq<V>, splits: seq<Split>, refs: seq<seq<Ref>>,
                        m: Memory<V>, k: nat, i: nat)
    requires InGraph(g) && BackendsKnown(g, s) && |init| == |g.tensors| && GoodSplit(g, s, splits, refs)
    requires k < |splits| && splits[k].start <= i < splits[k].end && i < |g.nodes| && !Node(g, i).viewOp
    requires Agrees(g, sem, init, splits, m, k + 1, i)
    ensures Fetches(g, sem, junk, m, refs[i]) == Reads(g, sem, Plainly(g, sem, init, i), Node(g, i).srcs)
  {
    var x := Node(g, i);
    assert NodeOk(g, s, splits, refs[i], i);
    forall j | 0 <= j < |x.srcs|
      ensures Fetch(g, sem, junk, m, refs[i][j]) == Read(g, sem, m.vals, x.srcs[j])
    {
      var t := x.srcs[j];
      if Foreign(g, s, t, x.backend) {
        CopyAgrees(g, s, sem, init, splits, m, k, i, x.backend, t);
      }
    }
  }

  lemma CopyAgrees<V>(g: Graph, s: Backends, sem: Semantics<V>, init: seq<V>, splits: seq<Split>, m: Memory<V>, k: nat, i: nat, b: int, t: nat)
    requires InGraph(g) && |init| == |g.tensors| && Tiles(splits, |g.nodes|) && i < |g.nodes| && t < |g.tensors|
    requires k < |splits| && i < splits[k].end && ListedBy(splits, i, b, t)
    requires Agrees(g, sem, init, splits, m, k + 1, i)
    ensures (t, b) in m.copies && m.copies[(t, b)] == Read(g, sem, m.vals, t)
  {
    var k' :| Lists(splits, k', b, t) && splits[k'].start <= i;
    if k < k' {
      Later(splits, |g.nodes|, k, k');
      assert false;
    }
  }

  lemma NodeAgrees<V>(g: Graph, s: Backends, sem: Semantics<V>, junk: V, init: seq<V>, splits: seq<Split>, refs: seq<seq<Ref>>,
                      m: Memory<V>, k: nat, i: nat)
    requires InGraph(g) && BackendsKnown(g, s) && |init| == |g.tensors| && GoodSplit(g, s, splits, refs)
    requires k < |splits| && splits[k].start <= i < splits[k].end && i < |g.nodes|
    requires Agrees(g, sem, init, splits, m, k + 1, i)
    ensures Agrees(g, sem, init, splits, Ran(g, sem, junk, m, refs, i), k + 1, i + 1)
  {
    if !Node(g, i).viewOp {
      SourcesAgree(g, s, sem, junk, init, splits, refs, m, k, i);
    }
    WriteAgrees(g, sem, junk, init, splits, refs, m, k + 1, i);
  }

  lemma WriteAgrees<V>(g: Graph, sem: Semantics<V>, junk: V, init: seq<V>, splits: seq<Split>, refs: seq<seq<Ref>>, m: Memory<V>, k: nat, i: nat)
    requires InGraph(g) && |init| == |g.tensors| && i < |g.nodes| == |refs| && Agrees(g, sem, init, splits, m, k, i)
    requires !Node(g, i).viewOp ==> Fetches(g, sem, junk, m, refs[i]) == Reads(g, sem, m.vals, Node(g, i).srcs)
    ensures Agrees(g, sem, init, splits, Ran(g, sem, junk, m, refs, i), k, i + 1)
  {
    var r := Ran(g, sem, junk, m, refs, i);
    assert r.vals == Plainly(g, sem, init, i + 1);
    forall c | c in r.copies
      ensures Ready(g, c.0, i + 1) && r.copies[c] == Read(g, sem, r.vals, c.0)
    {
      assert Ready(g, c.0, i);
      assert !Computes(g, i, Root(g, c.0));
    }
  }

  lemma {:induction false} NodesAgree<V>(g: Graph, s: Backends, sem: Semantics<V>, junk: V, init: seq<V>, splits: seq<Split>, refs: seq<seq<Ref>>,
                                         m: Memory<V>, k: nat, i: nat)
    requires InGraph(g) && BackendsKnown(g, s) && |init| == |g.tensors| && GoodSplit(g, s, splits, refs)
    requires k < |splits| && splits[k].start <= i <= splits[k].end && splits[k].end <= |g.nodes|
    requires Agrees(g, sem, init, splits, m, k + 1, splits[k].start)
    ensures Agrees(g, sem, init, splits, RanAll(g, sem, junk, m, refs, splits[k].start, i), k + 1, i)
  {
    if i > splits[k].start {
      NodesAgree(g, s, sem, junk, init, splits, refs, m, k, i - 1);
      NodeAgrees(g, s, sem, junk, init, splits, refs, RanAll(g, sem, junk, m, refs, splits[k].start, i - 1), k, i - 1);
    }
  }

  /** Where the first `k` splits end. */
  function EndOf(splits: seq<Split>, k: nat): nat
    requires k <= |splits|
  {
    if k == 0 then 0 else splits[k - 1].end
  }

  lemma EndsInside(splits: seq<Split>, n: nat, k: nat)
    requires Tiles(splits, n) && k < |splits|
    ensures splits[k].end <= n && splits[k].start == EndOf(splits, k)
  {
    if k < |splits| - 1 {
      Later(splits, n, k, |splits| - 1);
    }
    if k > 0 {
      assert splits[k - 1].end == splits[k - 1 + 1].start;
    }
  }

  lemma SplitsFit(splits: seq<Split>, n: nat)
    requires Tiles(splits, n)
    ensures forall j :: 0 <= j < |splits| ==> splits[j].start <= splits[j].end <= n
  {
    forall j | 0 <= j < |splits|
      ensures splits[j].start <= splits[j].end <= n
    {
      EndsInside(splits, n, j);
    }
  }

  lemma {:induction false} SplitsAgree<V>(g: Graph, s: Backends, sem: Semantics<V>, junk: V, init: seq<V>, splits: seq<Split>, refs: seq<seq<Ref>>, k: nat)
    requires InGraph(g) && BackendsKnown(g, s) && |init| == |g.tensors| && GoodSplit(g, s, splits, refs) && k <= |splits|
    requires InputsReady(g, splits)
    requires forall j :: 0 <= j < |splits| ==> splits[j].start <= splits[j].end <= |g.nodes|
    ensures Agrees(g, sem, init, splits, SplitBySplit(g, sem, junk, init, splits, refs, k), k, EndOf(splits, k))
  {
    if k > 0 {
      SplitsAgree(g, s, sem, junk, init, splits, refs, k - 1);
      EndsInside(splits, |g.nodes|, k - 1);
      var x, m := splits[k - 1], SplitBySplit(g, sem, junk, init, splits, refs, k - 1);
      AllCopied(g, sem, junk, init, splits, m, k - 1);
      NodesAgree(g, s, sem, junk, init, splits, refs, CopiedIn(g, sem, junk, m, x, |x.inputs|), k - 1, x.end);
    }
  }

  /** With ready inputs, running the splits leaves every tensor with the value of the original order,
      whatever the operations compute. */
  lemma SplittingPreservesValues<V>(g: Graph, s: Backends, sem: Semantics<V>, junk: V, init: seq<V>, splits: seq<Split>, refs: seq<seq<Ref>>)
    requires InGraph(g) && BackendsKnown(g, s) && |init| == |g.tensors| && GoodSplit(g, s, splits, refs) && InputsReady(g, splits)
    ensures forall j :: 0 <= j < |splits| ==> splits[j].start <= splits[j].end <= |g.nodes|
    ensures SplitBySplit(g, sem, junk, init, splits, refs, |splits|).vals == Plainly(g, sem, init, |g.nodes|)
  {
    SplitsFit(splits, |g.nodes|);
    SplitsAgree(g, s, sem, junk, init, splits, refs, |splits|);
  }

  // ---------- and only then ----------

  ghost predicate NotComputed(g: Graph, x: nat, a: nat, b: nat)
    requires InGraph(g) && b <= |g.nodes|
  {
    forall k :: a <= k < b ==> !Computes(g, k, x)
  }

  /** A tensor keeps its value while nobody computes it, in the original order, */
  lemma {:induction false} PlainlyKeeps<V>(g: Graph, sem: Semantics<V>, init: seq<V>, x: nat, a: nat, b: nat)
    requires InGraph(g) && |init| == |g.tensors| && a <= b <= |g.nodes| && x < |g.tensors| && NotComputed(g, x, a, b)
    ensures Plainly(g, sem, init, b)[x] == Plainly(g, sem, init, a)[x]
  {
    if a < b {
      PlainlyKeeps(g, sem, init, x, a, b - 1);
      assert !Computes(g, b - 1, x);
    }
  }

  /** within a split, whose nodes do not touch the copies either, */
  lemma {:induction false} RanKeeps<V>(g: Graph, sem: Semantics<V>, junk: V, m: Memory<V>, refs: seq<seq<Ref>>, x: nat, a: nat, b: nat)
    requires InGraph(g) && |g.tensors| == |m.vals| && a <= b <= |g.nodes| == |refs| && x < |g.tensors|
    ensures RanAll(g, sem, junk, m, refs, a, b).copies == m.copies
    ensures NotComputed(g, x, a, b) ==> RanAll(g, sem, junk, m, refs, a, b).vals[x] == m.vals[x]
  {
    if a < b {
      RanKeeps(g, sem, junk, m, refs, x, a, b - 1);
      assert NotComputed(g, x, a, b) ==> NotComputed(g, x, a, b - 1) && !Computes(g, b - 1, x);
    }
  }

  /** from the start of a run in splits, */
  lemma {:induction false} SplitsKeep<V>(g: Graph, sem: Semantics<V>, junk: V, init: seq<V>, splits: seq<Split>, refs: seq<seq<Ref>>, x: nat, k: nat)
    requires InGraph(g) && |g.tensors| == |init| && k <= |splits| && |refs| == |g.nodes| && x < |g.tensors| && Tiles(splits, |g.nodes|)
    requires forall j :: 0 <= j < |splits| ==> splits[j].start <= splits[j].end <= |g.nodes|
    requires NotComputed(g, x, 0, EndOf(splits, k))
    ensures SplitBySplit(g, sem, junk, init, splits, refs, k).vals[x] == init[x]
  {
    if k > 0 {
      EndsInside(splits, |g.nodes|, k - 1);
      SplitsKeep(g, sem, junk, init, splits, refs, x, k - 1);
      var y := splits[k - 1];
      var m := CopiedIn(g, sem, junk, SplitBySplit(g, sem, junk, init, splits, refs, k - 1), y, |y.inputs|);
      RanKeeps(g, sem, junk, m, refs, x, y.start, y.end);
    }
  }

  /** and to its end. */
  lemma {:induction false} SplitsKeepOn<V>(g: Graph, sem: Semantics<V>, junk: V, init: seq<V>, splits: seq<Split>, refs: seq<seq<Ref>>, x: nat, j: nat, k: nat)
    requires InGraph(g) && |g.tensors| == |init| && j <= k <= |splits| && |refs| == |g.nodes| && x < |g.tensors| && Tiles(splits, |g.nodes|)
    requires forall j :: 0 <= j < |splits| ==> splits[j].start <= splits[j].end <= |g.nodes|
    requires NotComputed(g, x, EndOf(splits, j), |g.nodes|)
    ensures SplitBySplit(g, sem, junk, init, splits, refs, k).vals[x] == SplitBySplit(g, sem, junk, init, splits, refs, j).vals[x]
  {
    if j < k {
      SplitsKeepOn(g, sem, junk, init, splits, refs, x, j, k - 1);
      EndsInside(splits, |g.nodes|, k - 1);
      EndsGrow(splits, |g.nodes|, j, k - 1);
      var y := splits[k - 1];
      var m := CopiedIn(g, sem, junk, SplitBySplit(g, sem, junk, init, splits, refs, k - 1), y, |y.inputs|);
      RanKeeps(g, sem, junk, m, refs, x, y.start, y.end);
    }
  }

  lemma {:induction false} EndsGrow(splits: seq<Split>, n: nat, j: nat, k: nat)
    requires Tiles(splits, n) && j <= k <= |splits|
    ensures EndOf(splits, j) <= EndOf(splits, k)
  {
    if j < k {
      EndsGrow(splits, n, j, k - 1);
      EndsInside(splits, n, k - 1);
    }
  }

  /** An input's copy is what the tensor reads as when the split starts. */
  lemma {:induction false} CopyHolds<V>(g: Graph, sem: Semantics<V>, junk: V, m: Memory<V>, x: Split, p: nat, q: nat)
    requires InGraph(g) && |g.tensors| == |m.vals| && q < p <= |x.inputs| && x.inputs[q] < |g.tensors|
    ensures var c := (x.inputs[q], x.backend);
            c in CopiedIn(g, sem, junk, m, x, p).copies && CopiedIn(g, sem, junk, m, x, p).copies[c] == Read(g, sem, m.vals, x.inputs[q])
  {
    if q < p - 1 {
      CopyHolds(g, sem, junk, m, x, p - 1, q);
    }
  }

  /** Operations that tell whether node `n` reads its source `j` after `r` was computed. */
  function Telltale(r: nat, n: nat, j: nat): Semantics<int> {
    Semantics((t: nat, xs: seq<int>) => if t == r then 1 else if t == n && j < |xs| then xs[j] else 0, (t: nat, x: int) => x)
  }

  function Zeros(n: nat): (z: seq<int>)
    ensures |z| == n && forall i :: 0 <= i < n ==> z[i] == 0
  {
    seq(n, _ => 0)
  }

  lemma {:induction false} RanKeepsOn<V>(g: Graph, sem: Semantics<V>, junk: V, m: Memory<V>, refs: seq<seq<Ref>>, x: nat, a: nat, b: nat, c: nat)
    requires InGraph(g) && |g.tensors| == |m.vals| && a <= b <= c <= |g.nodes| == |refs| && x < |g.tensors| && NotComputed(g, x, b, c)
    ensures RanAll(g, sem, junk, m, refs, a, c).vals[x] == RanAll(g, sem, junk, m, refs, a, b).vals[x]
  {
    if b < c {
      RanKeepsOn(g, sem, junk, m, refs, x, a, b, c - 1);
      assert !Computes(g, c - 1, x);
    }
  }

  /** Only node `p` computes what it computes. */
  lemma OnlyOnce(g: Graph, p: nat, x: nat)
    requires InGraph(g) && Ordered(g) && p < |g.nodes| && Computes(g, p, x)
    ensures NotComputed(g, x, 0, p) && NotComputed(g, x, p + 1, |g.nodes|)
  {
  }

  /** Node `i` reads tensor `t` as its source `j`, and node `p` before it computes the memory behind `t`. */
  ghost predicate ReadsAfter(g: Graph, t: nat, p: nat, i: nat, j: nat)
    requires InGraph(g)
  {
    && t < |g.tensors| && p < i < |g.nodes| && Computes(g, p, Root(g, t))
    && !Node(g, i).viewOp && j < |Node(g, i).srcs| && Node(g, i).srcs[j] == t
  }

  lemma {:induction false} PlainOrderTells(g: Graph, t: nat, p: nat, i: nat, j: nat)
    requires InGraph(g) && Ordered(g) && ReadsAfter(g, t, p, i, j)
    ensures Plainly(g, Telltale(Root(g, t), g.nodes[i], j), Zeros(|g.tensors|), |g.nodes|)[g.nodes[i]] == 1
  {
    var r, n, init := Root(g, t), g.nodes[i], Zeros(|g.tensors|);
    var sem := Telltale(r, n, j);
    OnlyOnce(g, p, r);
    OnlyOnce(g, i, n);
    assert Plainly(g, sem, init, p + 1)[r] == 1;
    PlainlyKeeps(g, sem, init, r, p + 1, i);
    assert Read(g, sem, Plainly(g, sem, init, i), t) == 1;
    assert Plainly(g, sem, init, i + 1)[n] == 1;
    PlainlyKeeps(g, sem, init, n, i + 1, |g.nodes|);
  }

  /** The memory when split `k` has made its copies. */
  ghost function AtStart(g: Graph, sem: Semantics<int>, splits: seq<Split>, refs: seq<seq<Ref>>, k: nat): (m: Memory<int>)
    requires InGraph(g) && k < |splits| && |refs| == |g.nodes|
    requires forall j :: 0 <= j < |splits| ==> splits[j].start <= splits[j].end <= |g.nodes|
    ensures |m.vals| == |g.tensors|
  {
    CopiedIn(g, sem, 0, SplitBySplit(g, sem, 0, Zeros(|g.tensors|), splits, refs, k), splits[k], |splits[k].inputs|)
  }

  /** The copy is made too early. */
  lemma {:induction false} CopyIsStale(g: Graph, s: Backends, splits: seq<Split>, refs: seq<seq<Ref>>, k: nat, q: nat, p: nat, sem: Semantics<int>)
    requires InGraph(g) && BackendsKnown(g, s) && Ordered(g) && GoodSplit(g, s, splits, refs) && k < |splits| && q < |splits[k].inputs|
    requires forall j :: 0 <= j < |splits| ==> splits[j].start <= splits[j].end <= |g.nodes|
    requires splits[k].inputs[q] < |g.tensors| && splits[k].start <= p < |g.nodes| && Computes(g, p, Root(g, splits[k].inputs[q]))
    requires forall t: nat, x :: sem.view(t, x) == x
    ensures var c := (splits[k].inputs[q], splits[k].backend); var m := AtStart(g, sem, splits, refs, k);
            c in m.copies && m.copies[c] == 0
  {
    var t := splits[k].inputs[q];
    var r := Root(g, t);
    OnlyOnce(g, p, r);
    EndsInside(splits, |g.nodes|, k);
    SplitsKeep(g, sem, 0, Zeros(|g.tensors|), splits, refs, r, k);
    CopyHolds(g, sem, 0, SplitBySplit(g, sem, 0, Zeros(|g.tensors|), splits, refs, k), splits[k], |splits[k].inputs|, q);
  }

  lemma {:induction false} SplitOrderTells(g: Graph, s: Backends, splits: seq<Split>, refs: seq<seq<Ref>>, k: nat, q: nat, p: nat, i: nat, j: nat)
    requires InGraph(g) && BackendsKnown(g, s) && Ordered(g) && GoodSplit(g, s, splits, refs) && k < |splits| && q < |splits[k].inputs|
    requires forall j :: 0 <= j < |splits| ==> splits[j].start <= splits[j].end <= |g.nodes|
    requires ReadsAfter(g, splits[k].inputs[q], p, i, j) && splits[k].start <= p && i < splits[k].end
    requires |refs[i]| > j && refs[i][j] == Copy(splits[k].inputs[q], splits[k].backend)
    ensures SplitBySplit(g, Telltale(Root(g, splits[k].inputs[q]), g.nodes[i], j), 0, Zeros(|g.tensors|), splits, refs, |splits|).vals[g.nodes[i]] == 0
  {
    var t, x, n := splits[k].inputs[q], splits[k], g.nodes[i];
    var sem := Telltale(Root(g, t), n, j);
    CopyIsStale(g, s, splits, refs, k, q, p, sem);
    var m := AtStart(g, sem, splits, refs, k);
    NodeReadsStale(g, sem, m, refs, t, x.backend, x.start, p, i, j);
    OnlyOnce(g, i, n);
    RanKeepsOn(g, sem, 0, m, refs, n, x.start, i + 1, x.end);
    assert SplitBySplit(g, sem, 0, Zeros(|g.tensors|), splits, refs, k + 1) == RanAll(g, sem, 0, m, refs, x.start, x.end);
    SplitsKeepOn(g, sem, 0, Zeros(|g.tensors|), splits, refs, n, k + 1, |splits|);
  }

  lemma {:induction false} NodeReadsStale(g: Graph, sem: Semantics<int>, m: Memory<int>, refs: seq<seq<Ref>>, t: nat, b: int, a: nat, p: nat, i: nat, j: nat)
    requires InGraph(g) && Ordered(g) && |m.vals| == |g.tensors| && |refs| == |g.nodes| && a <= i && ReadsAfter(g, t, p, i, j)
    requires sem == Telltale(Root(g, t), g.nodes[i], j) && (t, b) in m.copies && m.copies[(t, b)] == 0
    requires j < |refs[i]| && refs[i][j] == Copy(t, b)
    ensures RanAll(g, sem, 0, m, refs, a, i + 1).vals[g.nodes[i]] == 0
  {
    RanKeeps(g, sem, 0, m, refs, t, a, i);
    var before := RanAll(g, sem, 0, m, refs, a, i);
    assert Fetches(g, sem, 0, before, refs[i])[j] == 0;
    assert g.nodes[i] != Root(g, t);
  }

  /** A listed input that its split computes, and the node that needs its copy. */
  lemma FindReader(g: Graph, s: Backends, splits: seq<Split>, refs: seq<seq<Ref>>, k: nat, q: nat, p: nat) returns (i: nat, j: nat)
    requires InGraph(g) && BackendsKnown(g, s) && Ordered(g) && GoodSplit(g, s, splits, refs) && k < |splits| && q < |splits[k].inputs|
    requires splits[k].inputs[q] < |g.tensors| && splits[k].start <= p < |g.nodes| && Computes(g, p, Root(g, splits[k].inputs[q]))
    ensures ReadsAfter(g, splits[k].inputs[q], p, i, j) && i < splits[k].end
    ensures j < |refs[i]| && refs[i][j] == Copy(splits[k].inputs[q], splits[k].backend)
  {
    var x, t := splits[k], splits[k].inputs[q];
    assert InputOk(g, s, x, x.end, t);
    i :| x.start <= i < x.end && i < |g.nodes| && !Node(g, i).viewOp && Node(g, i).backend == x.backend && t in Node(g, i).srcs;
    j :| 0 <= j < |Node(g, i).srcs| && Node(g, i).srcs[j] == t;
    assert Ready(g, Node(g, i).srcs[j], i);
    assert NodeOk(g, s, splits, refs[i], i);
  }

  /** If some input is not ready, some operations show the difference. */
  lemma UnreadyIsSeen(g: Graph, s: Backends, splits: seq<Split>, refs: seq<seq<Ref>>) returns (sem: Semantics<int>)
    requires InGraph(g) && BackendsKnown(g, s) && Ordered(g) && GoodSplit(g, s, splits, refs) && !InputsReady(g, splits)
    requires forall j :: 0 <= j < |splits| ==> splits[j].start <= splits[j].end <= |g.nodes|
    ensures SplitBySplit(g, sem, 0, Zeros(|g.tensors|), splits, refs, |splits|).vals != Plainly(g, sem, Zeros(|g.tensors|), |g.nodes|)
  {
    var k :| 0 <= k < |splits| && !AllReady(g, splits[k].inputs, splits[k].start);
    var q :| 0 <= q < |splits[k].inputs| && !(splits[k].inputs[q] < |g.tensors| && Ready(g, splits[k].inputs[q], splits[k].start));
    var t := splits[k].inputs[q];
    assert InputOk(g, s, splits[k], splits[k].end, t);
    var p :| splits[k].start <= p < |g.nodes| && Computes(g, p, Root(g, t));
    var i, j := FindReader(g, s, splits, refs, k, q, p);
    sem := Telltale(Root(g, t), g.nodes[i], j);
    PlainOrderTells(g, t, p, i, j);
    SplitOrderTells(g, s, splits, refs, k, q, p, i, j);
  }

  /** Running the splits agrees with the original order, whatever the operations compute and whatever
      memory holds before. */
  ghost predicate AlwaysAgrees(g: Graph, splits: seq<Split>, refs: seq<seq<Ref>>)
    requires InGraph(g) && |refs| == |g.nodes|
    requires forall j :: 0 <= j < |splits| ==> splits[j].start <= splits[j].end <= |g.nodes|
  {
    forall sem: Semantics<int>, junk: int, init: seq<int> | |init| == |g.tensors| ::
      SplitBySplit(g, sem, junk, init, splits, refs, |splits|).vals == Plainly(g, sem, init, |g.nodes|)
  }

  /** The exact condition: no split, and no later one, computes what stands behind an input of the split. */
  lemma AgreesIffReady(g: Graph, s: Backends, splits: seq<Split>, refs: seq<seq<Ref>>)
    requires InGraph(g) && BackendsKnown(g, s) && Ordered(g) && GoodSplit(g, s, splits, refs)
    ensures forall j :: 0 <= j < |splits| ==> splits[j].start <= splits[j].end <= |g.nodes|
    ensures AlwaysAgrees(g, splits, refs) <==> InputsReady(g, splits)
  {
    SplitsFit(splits, |g.nodes|);
    if InputsReady(g, splits) {
      forall sem: Semantics<int>, junk: int, init: seq<int> | |init| == |g.tensors|
        ensures SplitBySplit(g, sem, junk, init, splits, refs, |splits|).vals == Plainly(g, sem, init, |g.nodes|)
      {
        SplittingPreservesValues(g, s, sem, junk, init, splits, refs);
      }
    } else {
      var sem := UnreadyIsSeen(g, s, splits, refs);
    }
  }

  // ---------- a view on another backend than its root ----------

  function StrayGraph(): Graph {
    Graph([Tensor(false, None, [], 0, None, false), Tensor(false, None, [0], 0, None, false),
           Tensor(true, Some(1), [1], 1, None, false), Tensor(false, None, [2], 0, None, false)],
          [1, 2, 3])
  }

  function StrayBackends(): Backends {
    Backends([0, 1], (b: int, t: nat) => b == t, 1)
  }

  function CountUp(): Semantics<int> {
    Semantics((t: nat, xs: seq<int>) => if |xs| > 0 then xs[0] + 1 else 0, (t: nat, x: int) => x)
  }

  /** A view assigned to another backend than its root, in the split that computes the root, is
      copied before the root is computed. */
  lemma StrayViewIsCopiedTooEarly()
    ensures var g, s, splits := StrayGraph(), StrayBackends(), [Split(0, 0, 3, [2])];
            var refs := [[Orig(0)], [Orig(1)], [Copy(2, 0)]];
            && InGraph(g) && BackendsKnown(g, s) && GoodSplit(g, s, splits, refs) && !WithRoot(g, 2)
            && Plainly(g, CountUp(), [5, 0, 0, 0], 3)[3] == 7
            && SplitBySplit(g, CountUp(), 0, [5, 0, 0, 0], splits, refs, 1).vals[3] == 1
  {
    var g, s, splits := StrayGraph(), StrayBackends(), [Split(0, 0, 3, [2])];
    var refs := [[Orig(0)], [Orig(1)], [Copy(2, 0)]];
    StraySplitIsGood(g, s, splits, refs);
    assert Plainly(g, CountUp(), [5, 0, 0, 0], 1) == [5, 6, 0, 0];
    assert Plainly(g, CountUp(), [5, 0, 0, 0], 2) == [5, 6, 0, 0];
    var m := CopiedIn(g, CountUp(), 0, Memory([5, 0, 0, 0], map[]), splits[0], 1);
    assert CopiedIn(g, CountUp(), 0, Memory([5, 0, 0, 0], map[]), splits[0], 0) == Memory([5, 0, 0, 0], map[]);
    assert m == Memory([5, 0, 0, 0], map[(2, 0) := 0]);
    assert RanAll(g, CountUp(), 0, m, refs, 0, 0) == m;
    assert RanAll(g, CountUp(), 0, m, refs, 0, 1).vals == [5, 6, 0, 0];
    assert RanAll(g, CountUp(), 0, m, refs, 0, 2) == RanAll(g, CountUp(), 0, m, refs, 0, 1);
    assert SplitBySplit(g, CountUp(), 0, [5, 0, 0, 0], splits, refs, 0) == Memory([5, 0, 0, 0], map[]);
    assert SplitBySplit(g, CountUp(), 0, [5, 0, 0, 0], splits, refs, 1) == RanAll(g, CountUp(), 0, m, refs, 0, 3);
  }

  lemma StraySplitIsGood(g: Graph, s: Backends, splits: seq<Split>, refs: seq<seq<Ref>>)
    requires g == StrayGraph() && s == StrayBackends() && splits == [Split(0, 0, 3, [2])]
    requires refs == [[Orig(0)], [Orig(1)], [Copy(2, 0)]]
    ensures InGraph(g) && BackendsKnown(g, s) && GoodSplit(g, s, splits, refs)
  {
    StrayShape(g, s);
    StrayInputs(g, s, splits);
    StrayNodes(g, s, splits, refs);
  }

  lemma StrayShape(g: Graph, s: Backends)
    requires g == StrayGraph() && s == StrayBackends()
    ensures InGraph(g) && BackendsKnown(g, s)
  {
  }

  lemma StrayInputs(g: Graph, s: Backends, splits: seq<Split>)
    requires g == StrayGraph() && s == StrayBackends() && splits == [Split(0, 0, 3, [2])] && InGraph(g) && BackendsKnown(g, s)
    ensures OnBackend(g, splits[0]) && InputsOk(g, s, splits) && ListedOnce(splits)
  {
    assert InputOk(g, s, splits[0], 3, 2) by {
      assert Node(g, 2).srcs[0] == 2;
      assert UsedIn(g, splits[0], 3, 2);
    }
  }

  lemma StrayNodes(g: Graph, s: Backends, splits: seq<Split>, refs: seq<seq<Ref>>)
    requires g == StrayGraph() && s == StrayBackends() && splits == [Split(0, 0, 3, [2])] && InGraph(g) && BackendsKnown(g, s)
    requires refs == [[Orig(0)], [Orig(1)], [Copy(2, 0)]]
    ensures forall i :: 0 <= i < 3 ==> NodeOk(g, s, splits, refs[i], i)
  {
    assert Lists(splits, 0, 0, 2);
    assert ListedBy(splits, 2, 0, 2);
    assert NodeOk(g, s, splits, refs[2], 2);
  }
}
