/** Cutting a graph into runs of nodes for one backend each: pass 5 of
    `ggml_backend_sched_split_graph`. */
module SchedSplit {
  import opened Wrappers
  import opened SchedGraph

  const MAX_INPUTS: nat := 30

  datatype Outcome = Done | Unassigned | TooManyInputs

  // ---------- what the pass delivers ----------

  /** The splits cut `0..n` into intervals, none empty. */
  ghost predicate Tiles(splits: seq<Split>, n: nat) {
    && |splits| > 0 && splits[0].start == 0 && splits[|splits| - 1].end == n
    && (forall k :: 0 <= k < |splits| ==> splits[k].start < splits[k].end)
    && (forall k :: 0 <= k < |splits| - 1 ==> splits[k].end == splits[k + 1].start)
  }

  ghost predicate OnBackend(g: Graph, x: Split)
    requires InGraph(g)
  {
    forall i :: x.start <= i < x.end && i < |g.nodes| && !Node(g, i).viewOp ==> Node(g, i).backend == x.backend
  }

  /** Tensor `t` is an input of split `k` on backend `b`. */
  ghost predicate Lists(splits: seq<Split>, k: int, b: int, t: nat) {
    0 <= k < |splits| && splits[k].backend == b && t in splits[k].inputs
  }

  /** The copy that node `i` reads is made for its own or an earlier split. */
  ghost predicate ListedBy(splits: seq<Split>, i: nat, b: int, t: nat) {
    exists k :: Lists(splits, k, b, t) && splits[k].start <= i
  }

  /** Node `i` reads copies exactly where it has to, and each is listed. */
  ghost predicate NodeOk(g: Graph, s: Backends, splits: seq<Split>, refs: seq<Ref>, i: nat)
    requires InGraph(g) && BackendsKnown(g, s) && i < |g.nodes|
  {
    var x := Node(g, i);
    && |refs| == |x.srcs|
    && (x.viewOp ==> forall j :: 0 <= j < |x.srcs| ==> refs[j] == Orig(x.srcs[j]))
    && (!x.viewOp ==> forall j :: 0 <= j < |x.srcs| ==>
          && refs[j] == RefOn(g, s, x.srcs[j], x.backend)
          && (Foreign(g, s, x.srcs[j], x.backend) ==> ListedBy(splits, i, x.backend, x.srcs[j])))
  }

  /** Every copy is listed once. */
  ghost predicate ListedOnce(splits: seq<Split>) {
    && (forall k, p, q :: 0 <= k < |splits| && 0 <= p < q < |splits[k].inputs| ==> splits[k].inputs[p] != splits[k].inputs[q])
    && (forall j, k, b, t :: Lists(splits, j, b, t) && Lists(splits, k, b, t) ==> j == k)
  }

  /** Some node of the split reads the input. */
  ghost predicate UsedIn(g: Graph, x: Split, end: nat, t: nat)
    requires InGraph(g)
  {
    exists i :: x.start <= i < end && i < |g.nodes| && !Node(g, i).viewOp && Node(g, i).backend == x.backend && t in Node(g, i).srcs
  }

  /** Inputs are tensors the backend cannot read, and somebody in the split needs them. */
  ghost predicate InputOk(g: Graph, s: Backends, x: Split, end: nat, t: nat)
    requires InGraph(g) && BackendsKnown(g, s)
  {
    t < |g.tensors| && Foreign(g, s, t, x.backend) && UsedIn(g, x, end, t)
  }

  ghost predicate InputsOk(g: Graph, s: Backends, splits: seq<Split>)
    requires InGraph(g) && BackendsKnown(g, s)
  {
    forall k, t :: 0 <= k < |splits| && t in splits[k].inputs ==> InputOk(g, s, splits[k], splits[k].end, t)
  }

  ghost predicate GoodSplit(g: Graph, s: Backends, splits: seq<Split>, refs: seq<seq<Ref>>)
    requires InGraph(g) && BackendsKnown(g, s)
  {
    && Tiles(splits, |g.nodes|) && (forall k :: 0 <= k < |splits| ==> OnBackend(g, splits[k]))
    && |refs| == |g.nodes| && (forall i :: 0 <= i < |g.nodes| ==> NodeOk(g, s, splits, refs[i], i))
    && ListedOnce(splits) && InputsOk(g, s, splits)
  }

  // ---------- the pass halfway ----------

  /** Tensors with a copy, per backend. */
  type Copies = set<(nat, int)>

  ghost predicate CopiesOk(g: Graph, splits: seq<Split>, copies: Copies) {
    && (forall k, b, t: nat :: Lists(splits, k, b, t) ==> (t, b) in copies)
    && (forall t, b :: (t, b) in copies && t < |g.tensors| && b != g.tensors[t].backend ==> exists k :: Lists(splits, k, b, t))
  }

  ghost predicate Chained(splits: seq<Split>) {
    && |splits| > 0 && splits[0].start == 0 && splits[|splits| - 1].start <= splits[|splits| - 1].end
    && (forall k :: 0 <= k < |splits| - 1 ==> splits[k].start < splits[k].end == splits[k + 1].start)
  }

  ghost predicate NodesOk(g: Graph, s: Backends, splits: seq<Split>, refs: seq<seq<Ref>>, n: nat)
    requires InGraph(g) && BackendsKnown(g, s)
  {
    n <= |g.nodes| && n <= |refs| && forall i :: 0 <= i < n ==> NodeOk(g, s, splits, refs[i], i)
  }

  /** The first `n` nodes are settled; the last split ends where the pass has got to. */
  ghost predicate Half(g: Graph, s: Backends, splits: seq<Split>, refs: seq<seq<Ref>>, copies: Copies, n: nat)
    requires InGraph(g) && BackendsKnown(g, s)
  {
    && Chained(splits) && (forall k :: 0 <= k < |splits| ==> OnBackend(g, splits[k]))
    && NodesOk(g, s, splits, refs, n)
    && ListedOnce(splits) && InputsOk(g, s, splits) && CopiesOk(g, splits, copies)
  }

  /** Later splits and longer inputs do not take anything back. */
  ghost predicate Grows(v: seq<Split>, w: seq<Split>) {
    && |v| <= |w|
    && forall k :: 0 <= k < |v| ==> w[k].start == v[k].start && w[k].backend == v[k].backend && v[k].inputs <= w[k].inputs
  }

  lemma GrowsLists(v: seq<Split>, w: seq<Split>, k: int, b: int, t: nat)
    requires Grows(v, w) && Lists(v, k, b, t)
    ensures Lists(w, k, b, t)
  {
    var p :| 0 <= p < |v[k].inputs| && v[k].inputs[p] == t;
    assert w[k].inputs[p] == t;
  }

  lemma GrowsListedBy(v: seq<Split>, w: seq<Split>, i: nat, b: int, t: nat)
    requires Grows(v, w) && ListedBy(v, i, b, t)
    ensures ListedBy(w, i, b, t)
  {
    var k :| Lists(v, k, b, t) && v[k].start <= i;
    GrowsLists(v, w, k, b, t);
  }

  lemma GrowsNodes(g: Graph, s: Backends, v: seq<Split>, w: seq<Split>, refs: seq<seq<Ref>>, n: nat)
    requires InGraph(g) && BackendsKnown(g, s) && Grows(v, w) && NodesOk(g, s, v, refs, n)
    ensures NodesOk(g, s, w, refs, n)
  {
    forall i | 0 <= i < n
      ensures NodeOk(g, s, w, refs[i], i)
    {
      GrowsNode(g, s, v, w, refs[i], i);
    }
  }

  lemma GrowsNode(g: Graph, s: Backends, v: seq<Split>, w: seq<Split>, refs: seq<Ref>, i: nat)
    requires InGraph(g) && BackendsKnown(g, s) && Grows(v, w) && i < |g.nodes| && NodeOk(g, s, v, refs, i)
    ensures NodeOk(g, s, w, refs, i)
  {
    var x := Node(g, i);
    forall j | 0 <= j < |x.srcs| && !x.viewOp && Foreign(g, s, x.srcs[j], x.backend)
      ensures ListedBy(w, i, x.backend, x.srcs[j])
    {
      GrowsListedBy(v, w, i, x.backend, x.srcs[j]);
    }
  }

  function Last(v: seq<Split>): Split
    requires |v| > 0
  {
    v[|v| - 1]
  }

  // ---------- a new split ----------

  function Opened(v: seq<Split>, b: int): seq<Split>
    requires |v| > 0
  {
    v + [Split(b, Last(v).end, Last(v).end, [])]
  }

  lemma OpenedKeeps(g: Graph, s: Backends, v: seq<Split>, refs: seq<seq<Ref>>, copies: Copies, n: nat, b: int)
    requires InGraph(g) && BackendsKnown(g, s) && Half(g, s, v, refs, copies, n) && Last(v).start < Last(v).end
    ensures Half(g, s, Opened(v, b), refs, copies, n)
  {
    var w := Opened(v, b);
    GrowsNodes(g, s, v, w, refs, n);
    assert ListedOnce(w) by {
      OpenedLists(v, b);
    }
    assert CopiesOk(g, w, copies) by {
      OpenedCopies(g, v, copies, b);
    }
  }

  lemma OpenedLists(v: seq<Split>, b: int)
    requires |v| > 0 && ListedOnce(v)
    ensures ListedOnce(Opened(v, b))
  {
    var w := Opened(v, b);
    forall j, k, c, t | Lists(w, j, c, t) && Lists(w, k, c, t)
      ensures j == k
    {
      assert Lists(v, j, c, t) && Lists(v, k, c, t);
    }
  }

  lemma OpenedCopies(g: Graph, v: seq<Split>, copies: Copies, b: int)
    requires |v| > 0 && CopiesOk(g, v, copies)
    ensures CopiesOk(g, Opened(v, b), copies)
  {
    var w := Opened(v, b);
    forall k, c, t: nat | Lists(w, k, c, t)
      ensures (t, c) in copies
    {
      assert Lists(v, k, c, t);
    }
    forall t, c | (t, c) in copies && t < |g.tensors| && c != g.tensors[t].backend
      ensures exists k :: Lists(w, k, c, t)
    {
      var k :| Lists(v, k, c, t);
      assert Lists(w, k, c, t);
    }
  }

  // ---------- one more node in the last split ----------

  function Extended(v: seq<Split>): seq<Split>
    requires |v| > 0
  {
    v[|v| - 1 := Last(v).(end := Last(v).end + 1)]
  }

  lemma ExtendedKeeps(g: Graph, s: Backends, v: seq<Split>, refs: seq<seq<Ref>>, copies: Copies, n: nat)
    requires InGraph(g) && BackendsKnown(g, s) && Half(g, s, v, refs, copies, n) && Last(v).end < |g.nodes|
    requires !Node(g, Last(v).end).viewOp ==> Node(g, Last(v).end).backend == Last(v).backend
    ensures Half(g, s, Extended(v), refs, copies, n)
  {
    var w := Extended(v);
    assert NodesOk(g, s, w, refs, n) by {
      GrowsNodes(g, s, v, w, refs, n);
    }
    assert forall k, b, t :: Lists(w, k, b, t) <==> Lists(v, k, b, t);
    assert ListedOnce(w);
    assert CopiesOk(g, w, copies) by {
      SameLists(g, v, w, copies);
    }
    forall k, t | 0 <= k < |w| && t in w[k].inputs
      ensures InputOk(g, s, w[k], w[k].end, t)
    {
      assert InputOk(g, s, v[k], v[k].end, t);
      UsedLonger(g, v[k], v[k].end, w[k], w[k].end, t);
    }
  }

  lemma SameLists(g: Graph, v: seq<Split>, w: seq<Split>, copies: Copies)
    requires CopiesOk(g, v, copies) && forall k, b, t :: Lists(w, k, b, t) <==> Lists(v, k, b, t)
    ensures CopiesOk(g, w, copies)
  {
    forall t, b | (t, b) in copies && t < |g.tensors| && b != g.tensors[t].backend
      ensures exists k :: Lists(w, k, b, t)
    {
      var k :| Lists(v, k, b, t);
      assert Lists(w, k, b, t);
    }
  }

  lemma UsedLonger(g: Graph, x: Split, end: nat, y: Split, end': nat, t: nat)
    requires InGraph(g) && UsedIn(g, x, end, t) && y.start == x.start && y.backend == x.backend && end <= end'
    ensures UsedIn(g, y, end', t)
  {
  }

  // ---------- one more input of the last split ----------

  function WithInput(v: seq<Split>, t: nat): seq<Split>
    requires |v| > 0
  {
    v[|v| - 1 := Last(v).(inputs := Last(v).inputs + [t])]
  }

  lemma WithInputKeeps(g: Graph, s: Backends, v: seq<Split>, refs: seq<seq<Ref>>, copies: Copies, n: nat, t: nat)
    requires InGraph(g) && BackendsKnown(g, s) && Half(g, s, v, refs, copies, n) && t < |g.tensors|
    requires (t, Last(v).backend) !in copies && InputOk(g, s, Last(v), Last(v).end, t)
    ensures Half(g, s, WithInput(v, t), refs, copies + {(t, Last(v).backend)}, n)
    ensures Lists(WithInput(v, t), |v| - 1, Last(v).backend, t)
  {
    var w, copies' := WithInput(v, t), copies + {(t, Last(v).backend)};
    GrowsNodes(g, s, v, w, refs, n);
    WithInputLists(v, t);
    assert forall k :: 0 <= k < |w| ==> OnBackend(g, w[k]) by {
      assert forall k :: 0 <= k < |v| ==> OnBackend(g, v[k]);
    }
    assert ListedOnce(w) by {
      WithInputOnce(g, v, copies, t);
    }
    assert CopiesOk(g, w, copies') by {
      WithInputCopies(g, v, copies, t);
    }
    assert InputsOk(g, s, w) by {
      WithInputInputs(g, s, v, t);
    }
  }

  lemma WithInputInputs(g: Graph, s: Backends, v: seq<Split>, t: nat)
    requires InGraph(g) && BackendsKnown(g, s) && |v| > 0 && InputsOk(g, s, v) && InputOk(g, s, Last(v), Last(v).end, t)
    ensures InputsOk(g, s, WithInput(v, t))
  {
    var w := WithInput(v, t);
    forall k, u | 0 <= k < |w| && u in w[k].inputs
      ensures InputOk(g, s, w[k], w[k].end, u)
    {
      assert InputOk(g, s, v[k], v[k].end, u);
      UsedLonger(g, v[k], v[k].end, w[k], w[k].end, u);
    }
  }

  lemma WithInputLists(v: seq<Split>, t: nat)
    requires |v| > 0
    ensures forall k, b, u :: Lists(WithInput(v, t), k, b, u) <==> Lists(v, k, b, u) || (k == |v| - 1 && b == Last(v).backend && u == t)
  {
  }

  lemma WithInputOnce(g: Graph, v: seq<Split>, copies: Copies, t: nat)
    requires |v| > 0 && ListedOnce(v) && CopiesOk(g, v, copies) && (t, Last(v).backend) !in copies
    ensures ListedOnce(WithInput(v, t))
  {
    WithInputLists(v, t);
    var w, x := WithInput(v, t), Last(v);
    assert !Lists(v, |v| - 1, x.backend, t);
    forall k, p, q | 0 <= k < |w| && 0 <= p < q < |w[k].inputs|
      ensures w[k].inputs[p] != w[k].inputs[q]
    {
      if k == |v| - 1 && q == |x.inputs| {
        assert x.inputs[p] in x.inputs;
      } else {
        assert v[k].inputs[p] != v[k].inputs[q];
      }
    }
  }

  lemma WithInputCopies(g: Graph, v: seq<Split>, copies: Copies, t: nat)
    requires |v| > 0 && CopiesOk(g, v, copies)
    ensures CopiesOk(g, WithInput(v, t), copies + {(t, Last(v).backend)})
  {
    WithInputLists(v, t);
    var w := WithInput(v, t);
    forall u, b | (u, b) in copies + {(t, Last(v).backend)} && u < |g.tensors| && b != g.tensors[u].backend
      ensures exists k :: Lists(w, k, b, u)
    {
      if (u, b) in copies {
        var k :| Lists(v, k, b, u);
        assert Lists(w, k, b, u);
      } else {
        assert Lists(w, |v| - 1, b, u);
      }
    }
  }

  // ---------- one node ----------

  function Closed(v: seq<Split>, end: nat): seq<Split>
    requires |v| > 0
  {
    v[|v| - 1 := Last(v).(end := end)]
  }

  /** The first `j` sources of node `i` are settled. */
  ghost predicate RowOk(g: Graph, s: Backends, v: seq<Split>, row: seq<Ref>, i: nat, j: nat)
    requires InGraph(g) && BackendsKnown(g, s) && i < |g.nodes|
  {
    var x := Node(g, i);
    && |row| == j <= |x.srcs|
    && forall k :: 0 <= k < j ==>
         && row[k] == RefOn(g, s, x.srcs[k], x.backend)
         && (Foreign(g, s, x.srcs[k], x.backend) ==> ListedBy(v, i, x.backend, x.srcs[k]))
  }

  lemma RowGrows(g: Graph, s: Backends, v: seq<Split>, w: seq<Split>, row: seq<Ref>, i: nat, j: nat)
    requires InGraph(g) && BackendsKnown(g, s) && i < |g.nodes| && RowOk(g, s, v, row, i, j) && Grows(v, w)
    ensures RowOk(g, s, w, row, i, j)
  {
    var x := Node(g, i);
    forall k | 0 <= k < j && Foreign(g, s, x.srcs[k], x.backend)
      ensures ListedBy(w, i, x.backend, x.srcs[k])
    {
      GrowsListedBy(v, w, i, x.backend, x.srcs[k]);
    }
  }

  lemma RowDone(g: Graph, s: Backends, v: seq<Split>, refs: seq<seq<Ref>>, copies: Copies, i: nat, row: seq<Ref>)
    requires InGraph(g) && BackendsKnown(g, s) && i < |g.nodes| == |refs| && !Node(g, i).viewOp
    requires Half(g, s, v, refs, copies, i) && RowOk(g, s, v, row, i, |Node(g, i).srcs|)
    ensures Half(g, s, v, refs[i := row], copies, i + 1)
  {
    assert NodeOk(g, s, v, row, i);
  }

  /** The refs of a node nobody has touched. */
  ghost predicate Untouched(g: Graph, refs: seq<seq<Ref>>, i: nat)
    requires InGraph(g) && i < |g.nodes|
  {
    && i < |refs| && |refs[i]| == |Node(g, i).srcs|
    && forall j :: 0 <= j < |refs[i]| ==> refs[i][j] == Orig(Node(g, i).srcs[j])
  }

  /** A copy that exists is listed in a split that has started. */
  lemma CopyIsListed(g: Graph, s: Backends, v: seq<Split>, refs: seq<seq<Ref>>, copies: Copies, i: nat, t: nat, b: int)
    requires InGraph(g) && BackendsKnown(g, s) && Half(g, s, v, refs, copies, i) && Last(v).start <= i
    requires t < |g.tensors| && (t, b) in copies && g.tensors[t].backend != b
    ensures ListedBy(v, i, b, t)
  {
    var k :| Lists(v, k, b, t);
    StartsBefore(v, k, |v| - 1);
  }

  lemma EndsBefore(v: seq<Split>, i: nat)
    requires |v| > 0 && Chained(Closed(v, i))
    ensures forall k :: 0 <= k < |v| - 1 ==> v[k].end <= i
  {
    var w := Closed(v, i);
    forall k | 0 <= k < |v| - 1
      ensures v[k].end <= i
    {
      assert w[k].end == w[k + 1].start;
      StartsBefore(w, k + 1, |w| - 1);
    }
  }

  lemma {:induction false} StartsBefore(v: seq<Split>, j: nat, k: nat)
    requires Chained(v) && j <= k < |v|
    ensures v[j].start <= v[k].start
  {
    if j < k {
      StartsBefore(v, j, k - 1);
      assert v[k - 1].start < v[k - 1].end == v[k - 1 + 1].start;
    }
  }

  /** The graph inputs are, once each, the tensors with copies on their own backend. */
  ghost predicate MirrorsOk(g: Graph, copies: Copies, inputs: seq<nat>) {
    && (forall i, j :: 0 <= i < j < |inputs| ==> inputs[i] != inputs[j])
    && (forall t: nat :: t < |g.tensors| ==> (t in inputs <==> (t, g.tensors[t].backend) in copies))
  }

  /** The input tensors that node `i` reads are graph inputs, if there are pipeline copies. */
  ghost predicate Mirrored(g: Graph, s: Backends, inputs: seq<nat>, i: nat)
    requires InGraph(g) && i < |g.nodes|
  {
    s.nCopies > 1 && !Node(g, i).viewOp ==> forall j :: 0 <= j < |Node(g, i).srcs| && g.tensors[Node(g, i).srcs[j]].input ==> Node(g, i).srcs[j] in inputs
  }

  lemma MirroredStays(g: Graph, s: Backends, a: seq<nat>, b: seq<nat>, n: nat)
    requires InGraph(g) && n <= |g.nodes| && a <= b && forall k :: 0 <= k < n ==> Mirrored(g, s, a, k)
    ensures forall k :: 0 <= k < n ==> Mirrored(g, s, b, k)
  {
    forall k | 0 <= k < n
      ensures Mirrored(g, s, b, k)
    {
      assert Mirrored(g, s, a, k);
    }
  }

  /** Node `i` or one of its sources has no backend. */
  ghost predicate Missing(g: Graph, i: int)
    requires InGraph(g)
  {
    0 <= i < |g.nodes| && (Node(g, i).backend == -1 || exists t :: t in Node(g, i).srcs && g.tensors[t].backend == -1)
  }

  /** A foreign source that is a weight, or that would be one input too many. */
  ghost predicate Pressing(g: Graph, s: Backends, copies: Copies, x: Split, t: nat)
    requires InGraph(g) && BackendsKnown(g, s) && t < |g.tensors|
  {
    && Foreign(g, s, t, x.backend)
    && ((g.tensors[t].buffer.Some? && g.tensors[t].buffer.value.weights) ||
        (|x.inputs| == MAX_INPUTS && (t, x.backend) !in copies))
  }

  // ---------- what a node adds to a split ----------

  /** Node `i` reads `u`, and no node before it in the split does. */
  ghost predicate NewHere(g: Graph, x: Split, i: nat, u: nat)
    requires InGraph(g) && i < |g.nodes|
  {
    u in Node(g, i).srcs && forall j :: x.start <= j < i && !Node(g, j).viewOp ==> u !in Node(g, j).srcs
  }

  /** Only the last split changes: it gets inputs that are new with node `i`. */
  ghost predicate OnlyLast(g: Graph, v: seq<Split>, w: seq<Split>, i: nat)
    requires InGraph(g) && i < |g.nodes|
  {
    && |v| == |w| > 0 && v[..|v| - 1] == w[..|w| - 1]
    && Last(w) == Last(v).(inputs := Last(w).inputs) && Last(v).inputs <= Last(w).inputs
    && forall q :: |Last(v).inputs| <= q < |Last(w).inputs| ==> NewHere(g, Last(v), i, Last(w).inputs[q])
  }

  lemma OnlyLastAgain(g: Graph, u: seq<Split>, v: seq<Split>, w: seq<Split>, i: nat)
    requires InGraph(g) && i < |g.nodes| && OnlyLast(g, u, v, i) && OnlyLast(g, v, w, i)
    ensures OnlyLast(g, u, w, i)
  {
    forall q | |Last(u).inputs| <= q < |Last(w).inputs|
      ensures NewHere(g, Last(u), i, Last(w).inputs[q])
    {
      if q < |Last(v).inputs| {
        assert Last(w).inputs[q] == Last(v).inputs[q];
      }
    }
  }

  /** A foreign source without a copy was read by no node before in the split. */
  lemma UnlistedIsNew(g: Graph, s: Backends, v: seq<Split>, refs: seq<seq<Ref>>, copies: Copies, i: nat, t: nat)
    requires InGraph(g) && BackendsKnown(g, s) && Half(g, s, v, refs, copies, i) && i < |g.nodes| && Last(v).end == i + 1
    requires t in Node(g, i).srcs && Foreign(g, s, t, Last(v).backend) && (t, Last(v).backend) !in copies
    ensures NewHere(g, Last(v), i, t)
  {
    forall j | Last(v).start <= j < i && !Node(g, j).viewOp
      ensures t !in Node(g, j).srcs
    {
      assert OnBackend(g, v[|v| - 1]);
      assert NodeOk(g, s, v, refs[j], j);
    }
  }

  /** A full split that overflows got its last two inputs from one node. */
  lemma TwoNewInputs(g: Graph, v: seq<Split>, w: seq<Split>, i: nat)
    requires InGraph(g) && i < |g.nodes| && OnlyLast(g, v, w, i)
    ensures |Last(v).inputs| < MAX_INPUTS && |Last(w).inputs| == MAX_INPUTS + 1 ==> Last(w).inputs[MAX_INPUTS - 1] in Node(g, i).srcs
  {
    if |Last(v).inputs| < MAX_INPUTS && |Last(w).inputs| == MAX_INPUTS + 1 {
      assert NewHere(g, Last(v), i, Last(w).inputs[MAX_INPUTS - 1]);
    }
  }

  // ---------- foreign weights come first ----------

  /** Node `i` reads a weight that backend `b` cannot read. */
  ghost predicate ForeignWeight(g: Graph, s: Backends, i: nat, b: int)
    requires InGraph(g) && BackendsKnown(g, s) && i < |g.nodes|
  {
    exists j :: 0 <= j < |Node(g, i).srcs| && WeightAt(g, s, i, j, b)
  }

  ghost predicate WeightAt(g: Graph, s: Backends, i: nat, j: int, b: int)
    requires InGraph(g) && BackendsKnown(g, s) && i < |g.nodes| && 0 <= j < |Node(g, i).srcs|
  {
    var t := Node(g, i).srcs[j];
    g.tensors[t].buffer.Some? && g.tensors[t].buffer.value.weights && Foreign(g, s, t, b)
  }

  /** No node of the split before node `i` reads an input of it. */
  ghost predicate NoInputBefore(g: Graph, x: Split, i: nat)
    requires InGraph(g) && i < |g.nodes|
  {
    forall u, j :: u in x.inputs && x.start <= j < i && !Node(g, j).viewOp ==> u !in Node(g, j).srcs
  }

  /** A node that reads a foreign weight is the first of its split to read any input. */
  ghost predicate WeightsFirst(g: Graph, s: Backends, x: Split, n: nat)
    requires InGraph(g) && BackendsKnown(g, s)
  {
    forall i {:trigger NoInputBefore(g, x, i)} ::
      x.start <= i < x.end && i < n && i < |g.nodes| && !Node(g, i).viewOp && ForeignWeight(g, s, i, x.backend) ==> NoInputBefore(g, x, i)
  }

  ghost predicate Weighed(g: Graph, s: Backends, v: seq<Split>, n: nat)
    requires InGraph(g) && BackendsKnown(g, s)
  {
    forall k {:trigger WeightsFirst(g, s, v[k], n)} :: 0 <= k < |v| ==> WeightsFirst(g, s, v[k], n)
  }

  lemma WeighedView(g: Graph, s: Backends, v: seq<Split>, i: nat)
    requires InGraph(g) && BackendsKnown(g, s) && i < |g.nodes| && Node(g, i).viewOp && |v| > 0 && Weighed(g, s, Closed(v, i), i)
    ensures Weighed(g, s, Closed(v, i + 1), i + 1)
  {
    var a, b := Closed(v, i), Closed(v, i + 1);
    forall k | 0 <= k < |b|
      ensures WeightsFirst(g, s, b[k], i + 1)
    {
      WeightsStay(g, s, a[k], b[k], i);
    }
  }

  lemma WeightsStay(g: Graph, s: Backends, x: Split, y: Split, i: nat)
    requires InGraph(g) && BackendsKnown(g, s) && i < |g.nodes| && Node(g, i).viewOp && WeightsFirst(g, s, x, i)
    requires y == x.(end := y.end) && (y.end == x.end || (x.end == i && y.end == i + 1))
    ensures WeightsFirst(g, s, y, i + 1)
  {
    forall j | y.start <= j < y.end && j < i + 1 && !Node(g, j).viewOp && ForeignWeight(g, s, j, y.backend)
      ensures NoInputBefore(g, y, j)
    {
      assert NoInputBefore(g, x, j);
    }
  }

  lemma WeighedNext(g: Graph, s: Backends, v: seq<Split>, w: seq<Split>, i: nat)
    requires InGraph(g) && BackendsKnown(g, s) && i < |g.nodes| && OnlyLast(g, v, w, i) && Last(v).start <= i
    requires Weighed(g, s, Closed(v, i), i) && forall k :: 0 <= k < |v| - 1 ==> v[k].end <= i
    requires ForeignWeight(g, s, i, Last(v).backend) ==> Last(v).inputs == []
    ensures Weighed(g, s, Closed(w, i + 1), i + 1)
  {
    var a, b := Closed(v, i), Closed(w, i + 1);
    forall k | 0 <= k < |b|
      ensures WeightsFirst(g, s, b[k], i + 1)
    {
      if k < |b| - 1 {
        assert v[..|v| - 1][k] == w[..|w| - 1][k];
        assert WeightsFirst(g, s, a[k], i);
      } else {
        LastWeights(g, s, a[k], b[k], i);
      }
    }
  }

  lemma LastWeights(g: Graph, s: Backends, x: Split, y: Split, i: nat)
    requires InGraph(g) && BackendsKnown(g, s) && i < |g.nodes| && WeightsFirst(g, s, x, i)
    requires y == x.(inputs := y.inputs, end := i + 1) && x.end == i && x.inputs <= y.inputs && x.start <= i
    requires forall q :: |x.inputs| <= q < |y.inputs| ==> NewHere(g, x, i, y.inputs[q])
    requires ForeignWeight(g, s, i, x.backend) ==> x.inputs == []
    ensures WeightsFirst(g, s, y, i + 1)
  {
    forall j | y.start <= j < y.end && !Node(g, j).viewOp && ForeignWeight(g, s, j, y.backend)
      ensures NoInputBefore(g, y, j)
    {
      forall u, l | u in y.inputs && y.start <= l < j && !Node(g, l).viewOp
        ensures u !in Node(g, l).srcs
      {
        var q :| 0 <= q < |y.inputs| && y.inputs[q] == u;
        if q < |x.inputs| {
          assert u in x.inputs && NoInputBefore(g, x, j);
        } else {
          assert NewHere(g, x, i, y.inputs[q]);
        }
      }
    }
  }

  // ---------- where a source is read ----------

  /** The memory behind a tensor is of type `buft`: that of the buffer it is in, or else of the backend it, or
      the tensor it is a view of, is assigned to. */
  ghost predicate LivesIn(g: Graph, s: Backends, t: nat, buft: nat)
    requires InGraph(g) && BackendsKnown(g, s) && t < |g.tensors|
  {
    var holder := g.tensors[match g.tensors[t].viewSrc case Some(r) => r case None => t];
    || (exists w :: holder.buffer == Some(Buffer(buft, w)))
    || (holder.buffer.None? && g.tensors[t].backend >= 0 && buft == s.bufts[g.tensors[t].backend])
    || (holder.buffer.None? && g.tensors[t].backend == -1 && holder.backend >= 0 && buft == s.bufts[holder.backend])
  }

  /** A node reads a source in place if that is on its own backend or in memory its backend can read, and from a
      copy otherwise. */
  ghost predicate ReadsWhereItCan(g: Graph, s: Backends, refs: seq<Ref>, i: nat)
    requires InGraph(g) && BackendsKnown(g, s) && i < |g.nodes|
  {
    var x := Node(g, i);
    |refs| == |x.srcs| && forall j :: 0 <= j < |refs| ==>
      refs[j] == if g.tensors[x.srcs[j]].backend == x.backend || Reachable(g, s, x.srcs[j], x.backend) then Orig(x.srcs[j]) else Copy(x.srcs[j], x.backend)
  }

  ghost predicate Reachable(g: Graph, s: Backends, t: nat, b: int)
    requires InGraph(g) && BackendsKnown(g, s) && t < |g.tensors|
  {
    exists buft :: LivesIn(g, s, t, buft) && s.canRead(b, buft)
  }

  lemma SupportedIff(g: Graph, s: Backends, t: nat, b: int)
    requires InGraph(g) && BackendsKnown(g, s) && t < |g.tensors|
    ensures Supported(g, s, t, b) <==> Reachable(g, s, t, b)
  {
    var x := g.tensors[t];
    var buffer := if x.viewSrc.Some? then g.tensors[x.viewSrc.value].buffer else x.buffer;
    if Supported(g, s, t, b) {
      if buffer.Some? {
        assert buffer == Some(Buffer(buffer.value.buft, buffer.value.weights));
        assert LivesIn(g, s, t, buffer.value.buft);
      } else {
        var id := if x.backend == -1 && x.viewSrc.Some? then g.tensors[x.viewSrc.value].backend else x.backend;
        assert LivesIn(g, s, t, s.bufts[id]);
      }
    }
  }

  lemma RefsReadWhereTheyCan(g: Graph, s: Backends, splits: seq<Split>, refs: seq<seq<Ref>>)
    requires InGraph(g) && BackendsKnown(g, s)
    ensures |g.nodes| > 0 && GoodSplit(g, s, splits, refs) ==>
              forall i :: 0 <= i < |g.nodes| && !Node(g, i).viewOp ==> ReadsWhereItCan(g, s, refs[i], i)
  {
    if |g.nodes| > 0 && GoodSplit(g, s, splits, refs) {
      forall i | 0 <= i < |g.nodes| && !Node(g, i).viewOp
        ensures ReadsWhereItCan(g, s, refs[i], i)
      {
        assert NodeOk(g, s, splits, refs[i], i);
        forall j | 0 <= j < |Node(g, i).srcs|
          ensures Supported(g, s, Node(g, i).srcs[j], Node(g, i).backend) <==> Reachable(g, s, Node(g, i).srcs[j], Node(g, i).backend)
        {
          SupportedIff(g, s, Node(g, i).srcs[j], Node(g, i).backend);
        }
      }
    }
  }

  class Splitter {
    const g: Graph
    const s: Backends
    var splits: seq<Split>
    var refs: seq<seq<Ref>>
    var copies: Copies
    var graphInputs: seq<nat>

    ghost predicate Valid(end: nat, n: nat)
      reads this
    {
      && InGraph(g) && BackendsKnown(g, s) && |splits| > 0 && |refs| == |g.nodes| && end <= |g.nodes|
      && Half(g, s, Closed(splits, end), refs, copies, n)
      && (forall i :: n <= i < |g.nodes| ==> Untouched(g, refs, i))
      && (forall k :: 0 <= k < |splits| ==> |splits[k].inputs| <= MAX_INPUTS)
      && MirrorsOk(g, copies, graphInputs) && |graphInputs| <= MAX_INPUTS
    }

    /** Source `t` of node `i` was one input too many, of the graph or of the split of the node. */
    ghost predicate Bursts(i: int, t: nat)
      requires InGraph(g) && BackendsKnown(g, s)
      reads this
    {
      && 0 <= i < |g.nodes| && !Node(g, i).viewOp && t in Node(g, i).srcs
      && (GraphOverflows(t) || (SplitOverflows(t) && Last(splits).start <= i && Last(splits).backend == Node(g, i).backend))
    }

    /** And a split bursts only if one node brings at least two new inputs: the last two are its sources. */
    ghost predicate Overflows(i: int, t: nat)
      requires InGraph(g) && BackendsKnown(g, s)
      reads this
    {
      Bursts(i, t) && (GraphOverflows(t) || (SplitOverflows(t) && Last(splits).inputs[MAX_INPUTS - 1] in Node(g, i).srcs))
    }

    /** The open split's backend can read `t`, or has a copy. */
    ghost predicate Copied(t: nat)
      requires InGraph(g) && BackendsKnown(g, s)
      reads this
    {
      t < |g.tensors| && |splits| > 0 && (Foreign(g, s, t, Last(splits).backend) ==> (t, Last(splits).backend) in copies)
    }

    ghost predicate AllCopied(i: nat)
      requires InGraph(g) && BackendsKnown(g, s) && i < |g.nodes|
      reads this
    {
      forall j :: 0 <= j < |Node(g, i).srcs| ==> Copied(Node(g, i).srcs[j])
    }

    ghost predicate GraphOverflows(t: nat)
      requires t < |g.tensors|
      reads this
    {
      s.nCopies > 1 && g.tensors[t].input && |graphInputs| == MAX_INPUTS + 1 && graphInputs[MAX_INPUTS] == t
    }

    ghost predicate SplitOverflows(t: nat)
      requires InGraph(g) && BackendsKnown(g, s) && t < |g.tensors|
      reads this
    {
      && |splits| > 0 && |Last(splits).inputs| == MAX_INPUTS + 1
      && Last(splits).inputs[MAX_INPUTS] == t && Foreign(g, s, t, Last(splits).backend)
    }

    constructor (graph: Graph, backends: Backends)
      ensures g == graph && s == backends && splits == [] && copies == {} && graphInputs == []
      ensures |refs| == |g.nodes|
      ensures forall i :: 0 <= i < |g.nodes| && InGraph(g) ==> Untouched(g, refs, i)
    {
      g, s := graph, backends;
      splits, copies, graphInputs := [], {}, [];
      refs := seq(|graph.nodes|, i requires 0 <= i < |graph.nodes| =>
        if graph.nodes[i] < |graph.tensors| then
          var srcs := graph.tensors[graph.nodes[i]].srcs;
          seq(|srcs|, j requires 0 <= j < |srcs| => Orig(srcs[j]))
        else []);
    }

    /** With several pipeline copies an input tensor gets one set of them on its own backend. */
    method MirrorInput(t: nat, ghost end: nat, ghost n: nat) returns (ok: bool)
      requires Valid(end, n) && t < |g.tensors|
      modifies this`copies, this`graphInputs
      ensures old(copies) <= copies && old(graphInputs) <= graphInputs
      ensures if ok then Valid(end, n) else GraphOverflows(t)
      ensures forall u, b :: (u, b) in copies && (u, b) !in old(copies) ==> b == g.tensors[t].backend && u == t
      ensures g.tensors[t].input && s.nCopies > 1 ==> t in graphInputs
    {
      ok := true;
      if g.tensors[t].input && s.nCopies > 1 && (t, g.tensors[t].backend) !in copies {
        copies := copies + {(t, g.tensors[t].backend)};
        ok := |graphInputs| < MAX_INPUTS;
        graphInputs := graphInputs + [t];
      }
    }

    /** Where the current split reads source `t` of node `i`. */
    method Source(i: nat, t: nat) returns (ok: Outcome, r: Ref)
      requires Valid(i + 1, i) && !Node(g, i).viewOp && Node(g, i).backend == Last(splits).backend && t in Node(g, i).srcs
      requires Last(splits).start <= i
      modifies this`splits, this`copies, this`graphInputs
      ensures OnlyLast(g, old(splits), splits, i) && old(copies) <= copies && (old(Copied(t)) ==> splits == old(splits))
      ensures old(graphInputs) <= graphInputs && (ok.Done? && g.tensors[t].input && s.nCopies > 1 ==> t in graphInputs)
      ensures ok.Unassigned? ==> g.tensors[t].backend == -1
      ensures ok.TooManyInputs? ==> GraphOverflows(t) || (SplitOverflows(t) && !old(Copied(t)))
      ensures ok.Done? ==> Valid(i + 1, i) && Grows(Closed(old(splits), i + 1), Closed(splits, i + 1))
      ensures ok.Done? ==> t < |g.tensors| && r == RefOn(g, s, t, Node(g, i).backend)
      ensures ok.Done? && Foreign(g, s, t, Node(g, i).backend) ==> ListedBy(Closed(splits, i + 1), i, Node(g, i).backend, t)
    {
      r := Orig(t);
      if g.tensors[t].backend == -1 {
        return Unassigned, r;
      }
      var fits := MirrorInput(t, i + 1, i);
      if !fits {
        return TooManyInputs, r;
      }
      if Foreign(g, s, t, Last(splits).backend) {
        ok := Import(i, t);
        r := Copy(t, Last(splits).backend);
        return ok, r;
      }
      return Done, r;
    }

    /** Makes sure that the source has a copy on the split's backend. */
    method Import(i: nat, t: nat) returns (ok: Outcome)
      requires Valid(i + 1, i) && !Node(g, i).viewOp && Node(g, i).backend == Last(splits).backend && t in Node(g, i).srcs
      requires Last(splits).start <= i && Foreign(g, s, t, Last(splits).backend)
      modifies this`splits, this`copies
      ensures OnlyLast(g, old(splits), splits, i) && old(copies) <= copies && !ok.Unassigned?
      ensures (t, Last(splits).backend) in old(copies) ==> ok.Done? && splits == old(splits)
      ensures ok.TooManyInputs? ==> SplitOverflows(t)
      ensures ok.Done? ==> Valid(i + 1, i) && Grows(Closed(old(splits), i + 1), Closed(splits, i + 1))
      ensures ok.Done? ==> ListedBy(Closed(splits, i + 1), i, Node(g, i).backend, t)
    {
      ghost var v := Closed(splits, i + 1);
      var b := Last(splits).backend;
      if (t, b) !in copies {
        UnlistedIsNew(g, s, v, refs, copies, i, t);
        assert UsedIn(g, Last(v), i + 1, t);
        WithInputKeeps(g, s, v, refs, copies, i, t);
        copies := copies + {(t, b)};
        splits := splits[|splits| - 1 := Last(splits).(inputs := Last(splits).inputs + [t])];
        assert Closed(splits, i + 1) == WithInput(v, t);
        if |Last(splits).inputs| > MAX_INPUTS {
          return TooManyInputs;
        }
      } else {
        CopyIsListed(g, s, v, refs, copies, i, t, b);
      }
      return Done;
    }

    /** Looks at all sources of node `i`. */
    method Row(i: nat) returns (ok: Outcome, row: seq<Ref>, ghost culprit: nat)
      requires Valid(i + 1, i) && !Node(g, i).viewOp && Node(g, i).backend == Last(splits).backend && Last(splits).start <= i
      modifies this`splits, this`copies, this`graphInputs
      ensures OnlyLast(g, old(splits), splits, i) && old(copies) <= copies && (old(AllCopied(i)) ==> splits == old(splits))
      ensures old(graphInputs) <= graphInputs && (ok.Done? ==> Mirrored(g, s, graphInputs, i))
      ensures ok.Unassigned? ==> Missing(g, i)
      ensures ok.TooManyInputs? ==> Bursts(i, culprit) && (GraphOverflows(culprit) || !old(AllCopied(i)))
      ensures ok.Done? ==> Valid(i + 1, i) && RowOk(g, s, Closed(splits, i + 1), row, i, |Node(g, i).srcs|)
    {
      row, culprit := [], 0;
      var x := Node(g, i);
      for j := 0 to |x.srcs|
        invariant Valid(i + 1, i) && RowOk(g, s, Closed(splits, i + 1), row, i, j)
        invariant OnlyLast(g, old(splits), splits, i) && old(copies) <= copies && (old(AllCopied(i)) ==> splits == old(splits))
        invariant old(graphInputs) <= graphInputs
        invariant s.nCopies > 1 ==> forall k :: 0 <= k < j && g.tensors[x.srcs[k]].input ==> x.srcs[k] in graphInputs
      {
        ghost var before := splits;
        ok, row, culprit := RowNext(i, row);
        OnlyLastAgain(g, old(splits), before, splits, i);
        if !ok.Done? {
          return;
        }
      }
      return Done, row, culprit;
    }

    /** One more source of node `i`. */
    method RowNext(i: nat, before: seq<Ref>) returns (ok: Outcome, row: seq<Ref>, ghost culprit: nat)
      requires Valid(i + 1, i) && !Node(g, i).viewOp && Node(g, i).backend == Last(splits).backend && Last(splits).start <= i
      requires |before| < |Node(g, i).srcs| && RowOk(g, s, Closed(splits, i + 1), before, i, |before|)
      modifies this`splits, this`copies, this`graphInputs
      ensures OnlyLast(g, old(splits), splits, i) && old(copies) <= copies && (old(AllCopied(i)) ==> splits == old(splits))
      ensures ok.Unassigned? ==> Missing(g, i)
      ensures ok.TooManyInputs? ==> Bursts(i, culprit) && (GraphOverflows(culprit) || !old(AllCopied(i)))
      ensures old(graphInputs) <= graphInputs
      ensures ok.Done? ==> var t := Node(g, i).srcs[|before|]; g.tensors[t].input && s.nCopies > 1 ==> t in graphInputs
      ensures ok.Done? ==> Valid(i + 1, i) && RowOk(g, s, Closed(splits, i + 1), row, i, |before| + 1)
    {
      ghost var v := Closed(splits, i + 1);
      var r;
      culprit := Node(g, i).srcs[|before|];
      ok, r := Source(i, Node(g, i).srcs[|before|]);
      row := before + [r];
      if ok.Done? {
        RowGrows(g, s, v, Closed(splits, i + 1), before, i, |before|);
      }
    }

    method Sources(i: nat) returns (ok: Outcome, ghost culprit: nat)
      requires Valid(i + 1, i) && !Node(g, i).viewOp && Node(g, i).backend == Last(splits).backend && Last(splits).start <= i
      requires |Last(splits).inputs| < MAX_INPUTS || AllCopied(i)
      modifies this
      ensures OnlyLast(g, old(splits), splits, i)
      ensures old(graphInputs) <= graphInputs && (ok.Done? ==> Mirrored(g, s, graphInputs, i))
      ensures ok.Unassigned? ==> Missing(g, i)
      ensures ok.TooManyInputs? ==> Overflows(i, culprit)
      ensures ok.Done? ==> Valid(i + 1, i + 1)
    {
      ghost var before := splits;
      var row;
      ok, row, culprit := Row(i);
      if ok.TooManyInputs? {
        TwoNewInputs(g, before, splits, i);
      }
      if ok.Done? {
        RowDone(g, s, Closed(splits, i + 1), refs, copies, i, row);
        assert forall k :: i < k < |g.nodes| ==> Untouched(g, refs, k) && refs[k] == refs[i := row][k];
        refs := refs[i := row];
      }
    }

    /** A split with inputs ends before a node that needs a foreign weight, or a new input
        when there is no room for one. */
    method NeedsNewSplit(i: nat) returns (need: bool)
      requires InGraph(g) && BackendsKnown(g, s) && |splits| > 0 && i < |g.nodes|
      ensures need <==>
              && Node(g, i).backend == Last(splits).backend && Last(splits).inputs != []
              && exists j :: 0 <= j < |Node(g, i).srcs| && Pressing(g, s, copies, Last(splits), Node(g, i).srcs[j])
    {
      var cur := Last(splits);
      var x := Node(g, i);
      if x.backend != cur.backend || |cur.inputs| == 0 {
        return false;
      }
      for j := 0 to |x.srcs|
        invariant forall k :: 0 <= k < j ==> !Pressing(g, s, copies, cur, x.srcs[k])
      {
        var t := x.srcs[j];
        if g.tensors[t].buffer.Some? && g.tensors[t].buffer.value.weights && Foreign(g, s, t, cur.backend) {
          return true;
        }
        if |cur.inputs| == MAX_INPUTS && (t, cur.backend) !in copies && Foreign(g, s, t, cur.backend) {
          return true;
        }
      }
      return false;
    }

    method Open(i: nat, b: int)
      requires Valid(i, i) && Last(splits).start < i && Weighed(g, s, Closed(splits, i), i)
      modifies this`splits
      ensures Valid(i, i) && Last(splits).start == i && Last(splits).backend == b && Last(splits).inputs == []
      ensures Weighed(g, s, Closed(splits, i), i)
    {
      OpenedKeeps(g, s, Closed(splits, i), refs, copies, i, b);
      ghost var v := Closed(splits, i);
      splits := splits[|splits| - 1 := Last(splits).(end := i)];
      splits := splits + [Split(b, i, 0, [])];
      assert Closed(splits, i) == Opened(v, b);
    }

    /** A split that has inputs has nodes. */
    lemma InputsMeanNodes(i: nat)
      requires Valid(i, i) && Last(splits).inputs != []
      ensures Last(splits).start < i
    {
      var v := Closed(splits, i);
      assert InputOk(g, s, v[|v| - 1], v[|v| - 1].end, Last(v).inputs[0]);
    }

    method Visit(i: nat) returns (ok: Outcome, ghost culprit: nat)
      requires Valid(i, i) && i < |g.nodes| && Last(splits).start <= i
      requires Last(splits).start < i || Node(g, i).viewOp || Node(g, i).backend == Last(splits).backend
      requires Weighed(g, s, Closed(splits, i), i)
      modifies this
      ensures old(graphInputs) <= graphInputs && (ok.Done? ==> Mirrored(g, s, graphInputs, i))
      ensures ok.Unassigned? ==> Missing(g, i)
      ensures ok.TooManyInputs? ==> Overflows(i, culprit)
      ensures ok.Done? ==> Valid(i + 1, i + 1) && Last(splits).start < i + 1 && Weighed(g, s, Closed(splits, i + 1), i + 1)
    {
      if Node(g, i).viewOp {
        Extend(i);
        SkipView(i);
        WeighedView(g, s, splits, i);
        return Done, 0;
      }
      if Node(g, i).backend == -1 {
        return Unassigned, 0;
      }
      Cut(i);
      ok, culprit := Fill(i);
    }

    /** Opens a new split for node `i` if it has to. */
    method Cut(i: nat)
      requires Valid(i, i) && i < |g.nodes| && Last(splits).start <= i && !Node(g, i).viewOp && Weighed(g, s, Closed(splits, i), i)
      requires Last(splits).start < i || Node(g, i).backend == Last(splits).backend
      modifies this`splits
      ensures Valid(i, i) && Last(splits).start <= i && Node(g, i).backend == Last(splits).backend && Weighed(g, s, Closed(splits, i), i)
      ensures |Last(splits).inputs| < MAX_INPUTS || AllCopied(i)
      ensures ForeignWeight(g, s, i, Last(splits).backend) ==> Last(splits).inputs == []
    {
      var need := NeedsNewSplit(i);
      if Node(g, i).backend != Last(splits).backend || need {
        if need {
          InputsMeanNodes(i);
        }
        Open(i, Node(g, i).backend);
      } else {
        NothingPressing(i);
      }
    }

    lemma NothingPressing(i: nat)
      requires InGraph(g) && BackendsKnown(g, s) && |splits| > 0 && i < |g.nodes| && |Last(splits).inputs| <= MAX_INPUTS
      requires Last(splits).inputs == [] || forall j :: 0 <= j < |Node(g, i).srcs| ==> !Pressing(g, s, copies, Last(splits), Node(g, i).srcs[j])
      ensures |Last(splits).inputs| < MAX_INPUTS || AllCopied(i)
      ensures ForeignWeight(g, s, i, Last(splits).backend) ==> Last(splits).inputs == []
    {
      if Last(splits).inputs != [] {
        forall j | 0 <= j < |Node(g, i).srcs|
          ensures !WeightAt(g, s, i, j, Last(splits).backend) && (|Last(splits).inputs| == MAX_INPUTS ==> Copied(Node(g, i).srcs[j]))
        {
          assert !Pressing(g, s, copies, Last(splits), Node(g, i).srcs[j]);
        }
      }
    }

    /** Node `i` joins the open split. */
    method Fill(i: nat) returns (ok: Outcome, ghost culprit: nat)
      requires Valid(i, i) && i < |g.nodes| && Last(splits).start <= i && !Node(g, i).viewOp && Weighed(g, s, Closed(splits, i), i)
      requires Node(g, i).backend == Last(splits).backend && (|Last(splits).inputs| < MAX_INPUTS || AllCopied(i))
      requires ForeignWeight(g, s, i, Last(splits).backend) ==> Last(splits).inputs == []
      modifies this
      ensures old(graphInputs) <= graphInputs && (ok.Done? ==> Mirrored(g, s, graphInputs, i))
      ensures ok.Unassigned? ==> Missing(g, i)
      ensures ok.TooManyInputs? ==> Overflows(i, culprit)
      ensures ok.Done? ==> Valid(i + 1, i + 1) && Last(splits).start < i + 1 && Weighed(g, s, Closed(splits, i + 1), i + 1)
    {
      ghost var before := splits;
      EndsBefore(splits, i);
      Extend(i);
      ok, culprit := Sources(i);
      if ok.Done? {
        WeighedNext(g, s, before, splits, i);
      }
    }

    lemma Extend(i: nat)
      requires Valid(i, i) && i < |g.nodes| && Last(splits).start <= i
      requires !Node(g, i).viewOp ==> Node(g, i).backend == Last(splits).backend
      ensures Valid(i + 1, i)
    {
      ExtendedKeeps(g, s, Closed(splits, i), refs, copies, i);
      assert Closed(splits, i + 1) == Extended(Closed(splits, i));
    }

    lemma SkipView(i: nat)
      requires Valid(i + 1, i) && Node(g, i).viewOp
      ensures Valid(i + 1, i + 1)
    {
      assert Untouched(g, refs, i);
      assert NodeOk(g, s, Closed(splits, i + 1), refs[i], i);
    }

    /** `stale` is what the first split's backend field holds from before. */
    method Run(stale: int) returns (ok: Outcome)
      requires InGraph(g) && BackendsKnown(g, s) && copies == {} && graphInputs == [] && |refs| == |g.nodes|
      requires forall i :: 0 <= i < |g.nodes| ==> Untouched(g, refs, i)
      modifies this
      ensures ok.Done? && |g.nodes| > 0 ==> GoodSplit(g, s, splits, refs) && Weighed(g, s, splits, |g.nodes|)
      ensures ok.Done? && |g.nodes| > 0 ==> forall i :: 0 <= i < |g.nodes| && !Node(g, i).viewOp ==> ReadsWhereItCan(g, s, refs[i], i)
      ensures ok.Done? ==> forall k :: 0 <= k < |splits| ==> |splits[k].inputs| <= MAX_INPUTS
      ensures ok.Done? ==> MirrorsOk(g, copies, graphInputs) && forall i :: 0 <= i < |g.nodes| ==> Mirrored(g, s, graphInputs, i)
      ensures ok.Done? ==> |graphInputs| <= MAX_INPUTS
      ensures ok.Unassigned? ==> exists i :: Missing(g, i)
      ensures ok.TooManyInputs? ==> exists i, t :: Overflows(i, t)
    {
      var i := Begin(stale);
      ghost var at, culprit;
      ok, at, culprit := Walk(i);
      if ok.Done? {
        splits := Finish();
        RefsReadWhereTheyCan(g, s, splits, refs);
      }
    }

    method Walk(from: nat) returns (ok: Outcome, ghost at: nat, ghost culprit: nat)
      requires from <= |g.nodes| && Reached(from)
      modifies this
      ensures ok.Done? ==> Reached(|g.nodes|)
      ensures ok.Unassigned? ==> Missing(g, at)
      ensures ok.TooManyInputs? ==> Overflows(at, culprit)
    {
      var i := from;
      ok, at, culprit := Done, from, 0;
      while ok.Done? && i < |g.nodes|
        invariant i <= |g.nodes| && (ok.Done? ==> Reached(i))
        invariant ok.Unassigned? ==> Missing(g, at)
        invariant ok.TooManyInputs? ==> Overflows(at, culprit)
        decreases |g.nodes| - i
      {
        at := i;
        ok, culprit := Next(i);
        i := i + 1;
      }
    }

    /** The pass has got to node `i`: the open split has a node, or node `i` will be its first. */
    ghost predicate Reached(i: nat)
      requires i <= |g.nodes|
      reads this
    {
      && Valid(i, i) && Last(splits).start <= i
      && (Last(splits).start < i || i == |g.nodes| == 0 ||
          (i < |g.nodes| && (Node(g, i).viewOp || Node(g, i).backend == Last(splits).backend)))
      && (forall k :: 0 <= k < i ==> Mirrored(g, s, graphInputs, k)) && Weighed(g, s, Closed(splits, i), i)
    }

    method Next(i: nat) returns (ok: Outcome, ghost culprit: nat)
      requires i < |g.nodes| && Reached(i)
      modifies this
      ensures ok.Unassigned? ==> Missing(g, i)
      ensures ok.TooManyInputs? ==> Overflows(i, culprit)
      ensures ok.Done? ==> Reached(i + 1)
    {
      ghost var was := graphInputs;
      ok, culprit := Visit(i);
      if ok.Done? {
        MirroredStays(g, s, was, graphInputs, i);
      }
    }

    method Finish() returns (v: seq<Split>)
      requires Valid(|g.nodes|, |g.nodes|) && (Last(splits).start < |g.nodes| || |g.nodes| == 0)
      ensures |g.nodes| > 0 ==> GoodSplit(g, s, v, refs) && v == Closed(splits, |g.nodes|)
      ensures forall k :: 0 <= k < |v| ==> |v[k].inputs| <= MAX_INPUTS
    {
      v := splits[|splits| - 1 := Last(splits).(end := |g.nodes|)];
    }

    /** Finds the first split's backend, skipping view operations. */
    method Begin(stale: int) returns (i: nat)
      requires InGraph(g) && BackendsKnown(g, s) && copies == {} && graphInputs == [] && |refs| == |g.nodes|
      requires forall k :: 0 <= k < |g.nodes| ==> Untouched(g, refs, k)
      modifies this`splits
      ensures i <= |g.nodes| && Valid(i, i) && Last(splits).start == 0
      ensures forall k :: 0 <= k < i ==> Mirrored(g, s, graphInputs, k)
      ensures Weighed(g, s, Closed(splits, i), i)
      ensures i < |g.nodes| ==> Node(g, i).backend == Last(splits).backend
    {
      var b := stale;
      i := 0;
      while i < |g.nodes|
        invariant i <= |g.nodes| && forall k :: 0 <= k < i ==> Node(g, k).viewOp
      {
        if !Node(g, i).viewOp {
          b := Node(g, i).backend;
          break;
        }
        i := i + 1;
      }
      splits := [Split(b, 0, 0, [])];
      assert NodesOk(g, s, Closed(splits, i), refs, i) by {
        forall k | 0 <= k < i
          ensures NodeOk(g, s, Closed(splits, i), refs[k], k)
        {
          assert Untouched(g, refs, k);
        }
      }
    }
  }
}
