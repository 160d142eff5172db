/** Best-first search on one level of the graph of `libhnsw.c`. */
module LevelSearch {
  import opened Sets
  import opened Scores
  import opened ScoreHeap

  type Vector = seq<real>

  /** An entry of the index; `neighbors[l]` is its list on level `l`. */
  datatype Item = Item(id: string, vec: Vector, level: int, neighbors: seq<seq<nat>>)

  type Graph = seq<Item>

  predicate OnLevel(g: Graph, l: nat, v: nat) {
    v < |g| && l <= g[v].level && l < |g[v].neighbors|
  }

  function Neighbors(g: Graph, l: nat, v: nat): seq<nat> {
    if OnLevel(g, l, v) then g[v].neighbors[l] else []
  }

  /** Edges of level `l` stay on level `l`. */
  ghost predicate LevelOk(g: Graph, l: nat) {
    forall v: nat, k :: OnLevel(g, l, v) && 0 <= k < |Neighbors(g, l, v)| ==> OnLevel(g, l, Neighbors(g, l, v)[k])
  }

  // ---------- reachability ----------

  ghost predicate Path(g: Graph, l: nat, p: seq<nat>) {
    |p| > 0 && forall k :: 0 <= k < |p| - 1 ==> EdgeAt(g, l, p, k)
  }

  /** Node `k + 1` of `p` is a neighbour of node `k`. */
  ghost predicate EdgeAt(g: Graph, l: nat, p: seq<nat>, k: nat)
    requires k + 1 < |p|
  {
    p[k + 1] in Neighbors(g, l, p[k])
  }

  ghost predicate Reachable(g: Graph, l: nat, from: nat, v: nat) {
    exists p :: Path(g, l, p) && p[0] == from && p[|p| - 1] == v
  }

  lemma ReachableStart(g: Graph, l: nat, v: nat)
    ensures Reachable(g, l, v, v)
  {
    assert Path(g, l, [v]) && [v][0] == v;
  }

  lemma ReachableStep(g: Graph, l: nat, from: nat, u: nat, v: nat)
    requires Reachable(g, l, from, u) && v in Neighbors(g, l, u)
    ensures Reachable(g, l, from, v)
  {
    var p :| Path(g, l, p) && p[0] == from && p[|p| - 1] == u;
    var q := p + [v];
    forall k | 0 <= k < |q| - 1
      ensures EdgeAt(g, l, q, k)
    {
      if k < |p| - 1 {
        assert EdgeAt(g, l, p, k);
      }
    }
    assert Path(g, l, q) && q[0] == from && q[|q| - 1] == v;
  }

  /** A set that contains the start and all neighbours of its members contains
      everything reachable. */
  lemma ClosedContainsReachable(g: Graph, l: nat, from: nat, s: set<nat>, v: nat)
    requires from in s && forall u, w :: u in s && w in Neighbors(g, l, u) ==> w in s
    requires Reachable(g, l, from, v)
    ensures v in s
  {
    var p :| Path(g, l, p) && p[0] == from && p[|p| - 1] == v;
    PathStaysIn(g, l, p, s, |p| - 1);
  }

  lemma {:induction false} PathStaysIn(g: Graph, l: nat, p: seq<nat>, s: set<nat>, k: nat)
    requires Path(g, l, p) && k < |p| && p[0] in s
    requires forall u, w :: u in s && w in Neighbors(g, l, u) ==> w in s
    ensures p[k] in s
  {
    if k > 0 {
      PathStaysIn(g, l, p, s, k - 1);
      assert EdgeAt(g, l, p, k - 1);
    }
  }

  // ---------- heaps of nodes ----------

  type Score = nat -> real

  ghost function Entries(s: set<nat>, score: Score): multiset<NodeScore> {
    multiset(set v | v in s :: NodeScore(v, score(v)))
  }

  lemma EntriesAdd(s: set<nat>, score: Score, v: nat)
    requires v !in s
    ensures Entries(s + {v}, score) == Entries(s, score) + multiset{NodeScore(v, score(v))}
  {
    var x := NodeScore(v, score(v));
    var a, b := (set u | u in s :: NodeScore(u, score(u))), (set u | u in s + {v} :: NodeScore(u, score(u)));
    assert b == a + {x} && x !in a;
  }

  lemma {:induction false} EntriesSize(s: set<nat>, score: Score)
    ensures |Entries(s, score)| == |s|
  {
    if s != {} {
      var v :| v in s;
      EntriesSize(s - {v}, score);
      EntriesAdd(s - {v}, score, v);
      assert s - {v} + {v} == s;
    }
  }

  /** The heap holds exactly the nodes `s`, each with its score. */
  ghost predicate HoldsNodes(h: Heap, s: set<nat>, score: Score)
    reads h, h.data
  {
    h.Valid() && multiset(h.Items()) == Entries(s, score)
  }

  lemma HeapSize(h: Heap, s: set<nat>, score: Score)
    requires HoldsNodes(h, s, score)
    ensures h.size == |s|
  {
    EntriesSize(s, score);
    assert |multiset(h.Items())| == |h.Items()|;
  }

  lemma NodeOf(h: Heap, s: set<nat>, score: Score, k: nat)
    requires HoldsNodes(h, s, score) && k < h.size
    ensures h.Items()[k].idx in s && h.Items()[k].score == score(h.Items()[k].idx)
  {
    assert h.Items()[k] in multiset(h.Items());
  }

  lemma PlaceOf(h: Heap, s: set<nat>, score: Score, v: nat) returns (k: nat)
    requires HoldsNodes(h, s, score) && v in s
    ensures k < h.size && h.Items()[k] == NodeScore(v, score(v))
  {
    var x := NodeScore(v, score(v));
    assert x in Entries(s, score);
    assert x in h.Items();
    k :| 0 <= k < |h.Items()| && h.Items()[k] == x;
  }

  method PushNode(h: Heap, v: nat, score: Score, ghost s: set<nat>)
    requires HoldsNodes(h, s, score) && v !in s
    modifies h, h.data
    ensures HoldsNodes(h, s + {v}, score) && (h.data == old(h.data) || fresh(h.data))
  {
    EntriesAdd(s, score, v);
    h.Push(v, score(v));
  }

  method PopNode(h: Heap, score: Score, ghost s: set<nat>) returns (x: NodeScore)
    requires HoldsNodes(h, s, score) && h.size > 0
    modifies h, h.data
    ensures x.idx in s && x.score == score(x.idx) && HoldsNodes(h, s - {x.idx}, score) && h.data == old(h.data)
    ensures forall v :: v in s ==> !HasPriority(h.metric, h.worstFirst, score(v), x.score)
  {
    NodeOf(h, s, score, 0);
    ghost var top := h.Items()[0];
    EntriesAdd(s - {top.idx}, score, top.idx);
    assert s - {top.idx} + {top.idx} == s;
    AllBelowRoot(h, s, score);
    x := h.Pop();
  }

  lemma AllBelowRoot(h: Heap, s: set<nat>, score: Score)
    requires HoldsNodes(h, s, score) && h.size > 0
    ensures h.Items()[0].idx in s && h.Items()[0].score == score(h.Items()[0].idx)
    ensures forall v :: v in s ==> !HasPriority(h.metric, h.worstFirst, score(v), h.Items()[0].score)
  {
    NodeOf(h, s, score, 0);
    forall v | v in s
      ensures !HasPriority(h.metric, h.worstFirst, score(v), h.Items()[0].score)
    {
      var k := PlaceOf(h, s, score, v);
      RootFirst(h.metric, h.worstFirst, h.Items(), k);
    }
  }

  // ---------- the search, as values ----------

  /** `r` is a choice of the `ef` best of `v`. */
  ghost predicate TopOf(m: Metric, score: Score, ef: nat, v: set<nat>, r: set<nat>) {
    && r <= v && |r| <= ef && (|r| < ef ==> r == v)
    && (forall x, y :: x in v && x !in r && y in r ==> !Better(m, score(x), score(y)))
  }

  /** Visited nodes, expanded nodes, candidates, results; `cur` is being expanded. */
  datatype State = State(visited: set<nat>, expanded: set<nat>, cands: set<nat>, results: set<nat>, cur: set<nat>)

  ghost predicate SearchInv(g: Graph, l: nat, m: Metric, score: Score, ef: nat, entry: nat, s: State) {
    && entry in s.visited && s.results != {}
    && (forall v :: v in s.visited ==> OnLevel(g, l, v) && Reachable(g, l, entry, v))
    && TopOf(m, score, ef, s.visited, s.results)
    && s.cands + s.expanded + s.cur <= s.visited
    && s.cands !! s.expanded && s.cur !! s.cands && s.cur !! s.expanded
    && s.results <= s.expanded + s.cands + s.cur
    && (forall e, w :: e in s.expanded && w in Neighbors(g, l, e) ==> w in s.visited)
  }

  /** A node that is not better than the worst result is not better than any. */
  lemma RejectKeeps(m: Metric, score: Score, ef: nat, v: set<nat>, r: set<nat>, x: nat, worst: nat)
    requires TopOf(m, score, ef, v, r) && x !in v && |r| == ef && worst in r
    requires forall y :: y in r ==> !Worse(m, score(y), score(worst))
    requires !Better(m, score(x), score(worst))
    ensures TopOf(m, score, ef, v + {x}, r)
  {
  }

  /** Taking a node in while there is room. */
  lemma AcceptKeeps(m: Metric, score: Score, ef: nat, v: set<nat>, r: set<nat>, x: nat)
    requires TopOf(m, score, ef, v, r) && x !in v && |r| < ef
    ensures TopOf(m, score, ef, v + {x}, r + {x})
  {
  }

  /** Taking a better node in and dropping the worst. */
  lemma ReplaceKeeps(m: Metric, score: Score, ef: nat, v: set<nat>, r: set<nat>, x: nat, worst: nat, out: nat)
    requires TopOf(m, score, ef, v, r) && x !in v && |r| == ef && worst in r
    requires Better(m, score(x), score(worst))
    requires out in r + {x} && forall y :: y in r + {x} ==> !Worse(m, score(y), score(out))
    ensures TopOf(m, score, ef, v + {x}, r + {x} - {out})
  {
    var r' := r + {x} - {out};
    assert r' + {out} == r + {x};
    forall a, b | a in v + {x} && a !in r' && b in r'
      ensures !Better(m, score(a), score(b))
    {
    }
  }

  lemma VisitKeeps(g: Graph, l: nat, m: Metric, score: Score, ef: nat, entry: nat, s: State, c: nat, v: nat, s': State)
    requires SearchInv(g, l, m, score, ef, entry, s) && v !in s.visited && c in s.visited
    requires v in Neighbors(g, l, c) && OnLevel(g, l, v)
    requires s'.visited == s.visited + {v} && s'.expanded == s.expanded && s'.cur == s.cur
    requires (s'.cands == s.cands && s'.results == s.results) || (s'.cands == s.cands + {v} && s'.results <= s.results + {v})
    requires TopOf(m, score, ef, s'.visited, s'.results) && s'.results != {}
    ensures SearchInv(g, l, m, score, ef, entry, s')
  {
    ReachableStep(g, l, entry, c, v);
  }

  /** No candidate is better. */
  ghost predicate Leads(m: Metric, score: Score, best: nat, cands: set<nat>) {
    best in cands && forall u :: u in cands ==> !Better(m, score(u), score(best))
  }

  ghost predicate BeatenByAll(m: Metric, score: Score, v: nat, results: set<nat>) {
    forall y :: y in results ==> Worse(m, score(v), score(y))
  }

  lemma WorstDecides(m: Metric, score: Score, v: nat, results: set<nat>, worst: nat)
    requires worst in results && forall y :: y in results ==> !Worse(m, score(y), score(worst))
    ensures Worse(m, score(v), score(worst)) <==> BeatenByAll(m, score, v, results)
  {
  }

  /** What the search delivers: the `ef` best of the visited nodes, whose neighbours were
      all visited; and everything reachable, if that is at most `ef` nodes. */
  ghost predicate Found(g: Graph, l: nat, m: Metric, score: Score, ef: nat, entry: nat, visited: set<nat>, results: set<nat>) {
    && entry in visited
    && (forall v :: v in visited ==> OnLevel(g, l, v) && Reachable(g, l, entry, v))
    && TopOf(m, score, ef, visited, results)
    && (forall r, w :: r in results && w in Neighbors(g, l, r) ==> w in visited)
  }

  /** When the best candidate is worse than every result, all results have been expanded. */
  lemma BeatenAreExpanded(g: Graph, l: nat, m: Metric, score: Score, ef: nat, entry: nat, s: State, c: nat)
    requires SearchInv(g, l, m, score, ef, entry, s) && s.cur == {c} && BeatenByAll(m, score, c, s.results)
    requires Leads(m, score, c, s.cands + {c})
    ensures s.results <= s.expanded && Found(g, l, m, score, ef, entry, s.visited, s.results)
  {
  }

  ghost function ReachableSet(g: Graph, l: nat, entry: nat): set<nat> {
    set v | 0 <= v < |g| && Reachable(g, l, entry, v)
  }

  /** With few enough reachable nodes the search finds them all. */
  lemma SmallIsComplete(g: Graph, l: nat, m: Metric, score: Score, ef: nat, entry: nat, visited: set<nat>, results: set<nat>)
    requires Found(g, l, m, score, ef, entry, visited, results) && |ReachableSet(g, l, entry)| <= ef
    ensures results == ReachableSet(g, l, entry)
  {
    var all := ReachableSet(g, l, entry);
    assert visited <= all;
    SubsetSize(visited, all);
    SubsetSize(results, visited);
    if results != visited {
      assert results < visited;
      StrictSubsetSize(results, visited);
    }
    forall v | v in all
      ensures v in results
    {
      ClosedContainsReachable(g, l, entry, results, v);
    }
  }

  /** No neighbour of a result that was left out is better than any result: the results
      are a local optimum. */
  lemma FoundIsLocalOptimum(g: Graph, l: nat, m: Metric, score: Score, ef: nat, entry: nat, visited: set<nat>,
                            results: set<nat>, r: nat, w: nat, y: nat)
    requires Found(g, l, m, score, ef, entry, visited, results)
    requires r in results && w in Neighbors(g, l, r) && w !in results && y in results
    ensures !Better(m, score(w), score(y))
  {
  }

  // ---------- the search ----------

  lemma StartInv(g: Graph, l: nat, m: Metric, score: Score, ef: nat, from: nat)
    requires ef > 0 && OnLevel(g, l, from)
    ensures SearchInv(g, l, m, score, ef, from, State({from}, {}, {from}, {from}, {}))
  {
    ReachableStart(g, l, from);
  }

  method HeapOf(capacity: nat, m: Metric, wf: bool, v: nat, score: Score) returns (h: Heap)
    requires capacity > 0
    ensures fresh(h) && fresh(h.data) && h.metric == m && h.worstFirst == wf && HoldsNodes(h, {v}, score)
  {
    h := new Heap(capacity, m, wf);
    PushNode(h, v, score, {});
    assert {} + {v} == {v};
  }

  class Searcher {
    const g: Graph
    const l: nat
    const m: Metric
    const ef: nat
    const score: Score
    const entry: nat
    const cands: Heap
    const results: Heap
    const visited: array<bool>
    ghost var st: State

    /** The heaps and flags stand for `st`. */
    ghost predicate Shape()
      reads this, cands, cands.data, results, results.data, visited
    {
      && cands != results && cands.data != results.data
      && !cands.worstFirst && results.worstFirst && cands.metric == results.metric == m
      && HoldsNodes(cands, st.cands, score) && HoldsNodes(results, st.results, score)
      && visited.Length == |g| && (forall v :: 0 <= v < |g| ==> (visited[v] <==> v in st.visited))
    }

    ghost predicate Valid()
      reads this, cands, cands.data, results, results.data, visited
    {
      Shape() && LevelOk(g, l) && SearchInv(g, l, m, score, ef, entry, st)
    }

    constructor (graph: Graph, level: nat, metric: Metric, budget: nat, s: Score, from: nat)
      requires budget > 0 && LevelOk(graph, level) && OnLevel(graph, level, from)
      ensures Valid() && fresh(cands) && fresh(cands.data) && fresh(results) && fresh(results.data) && fresh(visited)
      ensures g == graph && l == level && m == metric && ef == budget && score == s && entry == from
      ensures st.cur == {}
    {
      g, l, m, ef, score, entry := graph, level, metric, budget, s, from;
      var c := HeapOf(budget * 2, metric, false, from, s);
      var r := HeapOf(budget, metric, true, from, s);
      var seen := new bool[|graph|](_ => false);
      seen[from] := true;
      cands, results, visited := c, r, seen;
      st := State({from}, {}, {from}, {from}, {});
      StartInv(graph, level, metric, s, budget, from);
    }

    /** Looks at one neighbour of the node being expanded. */
    method Look(v: nat, ghost c: nat)
      requires Valid() && c in st.visited && v in Neighbors(g, l, c) && OnLevel(g, l, v)
      modifies this, cands, cands.data, results, results.data, visited
      ensures Valid() && v in st.visited && old(st.visited) <= st.visited
      ensures st.expanded == old(st.expanded) && st.cur == old(st.cur)
      ensures cands.data == old(cands.data) || fresh(cands.data)
      ensures results.data == old(results.data) || fresh(results.data)
    {
      if visited[v] {
        return;
      }
      ghost var before := st;
      visited[v] := true;
      st := st.(visited := st.visited + {v});
      Consider(v, before);
      VisitKeeps(g, l, m, score, ef, entry, before, c, v, st);
    }

    /** Keeps a new node if there is room among the results or if it beats the worst. */
    method Consider(v: nat, ghost before: State)
      requires Shape() && st == before.(visited := before.visited + {v}) && v !in before.visited
      requires st.cands <= before.visited && before.results != {} && TopOf(m, score, ef, before.visited, before.results)
      modifies this`st, cands, cands.data, results, results.data
      ensures Shape() && st.visited == old(st.visited) && st.expanded == old(st.expanded) && st.cur == old(st.cur)
      ensures (st.cands == before.cands && st.results == before.results) ||
              (st.cands == before.cands + {v} && st.results <= before.results + {v})
      ensures TopOf(m, score, ef, st.visited, st.results) && st.results != {}
      ensures cands.data == old(cands.data) || fresh(cands.data)
      ensures results.data == old(results.data) || fresh(results.data)
    {
      HeapSize(results, st.results, score);
      AllBelowRoot(results, st.results, score);
      var worst := results.data[0];
      if results.size < ef || Better(m, score(v), worst.score) {
        ghost var out := Keep(v);
        KeptTop(m, score, ef, before.visited, before.results, v, worst.idx, out, st.results);
      } else {
        RejectKeeps(m, score, ef, before.visited, st.results, v, worst.idx);
      }
    }

    method Keep(v: nat) returns (ghost out: nat)
      requires Shape() && v !in st.cands && v !in st.results
      modifies this`st, cands, cands.data, results, results.data
      ensures Shape() && st == old(st).(cands := old(st.cands) + {v}, results := st.results)
      ensures if |old(st.results)| < ef then st.results == old(st.results) + {v}
              else out in old(st.results) + {v} && st.results == old(st.results) + {v} - {out}
      ensures |old(st.results)| >= ef ==> forall y :: y in old(st.results) + {v} ==> !Worse(m, score(y), score(out))
      ensures cands.data == old(cands.data) || fresh(cands.data)
      ensures results.data == old(results.data) || fresh(results.data)
    {
      PushBoth(v);
      HeapSize(results, st.results, score);
      out := v;
      if results.size > ef {
        var w := PopNode(results, score, st.results);
        out := w.idx;
        st := st.(results := st.results - {w.idx});
      }
    }

    method PushBoth(v: nat)
      requires Shape() && v !in st.cands && v !in st.results
      modifies this`st, cands, cands.data, results, results.data
      ensures Shape() && st == old(st).(cands := old(st.cands) + {v}, results := old(st.results) + {v})
      ensures cands.data == old(cands.data) || fresh(cands.data)
      ensures results.data == old(results.data) || fresh(results.data)
    {
      PushNode(cands, v, score, st.cands);
      PushNode(results, v, score, st.results);
      st := st.(cands := st.cands + {v}, results := st.results + {v});
    }

    /** Looks at all neighbours of the node taken from the candidates. */
    method LookAll(c: nat)
      requires Valid() && c in st.visited
      modifies this, cands, cands.data, results, results.data, visited
      ensures Valid() && st.cur == old(st.cur) && st.expanded == old(st.expanded)
      ensures AllIn(Neighbors(g, l, c), |Neighbors(g, l, c)|, st.visited)
      ensures cands.data == old(cands.data) || fresh(cands.data)
      ensures results.data == old(results.data) || fresh(results.data)
    {
      var ns := Neighbors(g, l, c);
      for n := 0 to |ns|
        invariant Valid() && c in st.visited && st.cur == old(st.cur) && st.expanded == old(st.expanded)
        invariant AllIn(ns, n, st.visited)
        invariant cands.data == old(cands.data) || fresh(cands.data)
        invariant results.data == old(results.data) || fresh(results.data)
      {
        EdgeStays(g, l, c, n);
        ghost var before := st.visited;
        Look(ns[n], c);
        AllInGrows(ns, n, before, st.visited);
      }
    }

    method Expand(c: nat)
      requires Valid() && st.cur == {c}
      modifies this, cands, cands.data, results, results.data, visited
      ensures Valid() && st.cur == {} && st.expanded == old(st.expanded) + {c}
      ensures cands.data == old(cands.data) || fresh(cands.data)
      ensures results.data == old(results.data) || fresh(results.data)
    {
      assert c in st.visited;
      LookAll(c);
      ExpandedKeeps(g, l, m, score, ef, entry, st, c);
      st := st.(cur := {}, expanded := st.expanded + {c});
    }

    /** Takes the best candidate out; it is the node being looked at from now on. */
    method Next() returns (c: NodeScore)
      requires Valid() && st.cur == {} && cands.size > 0
      modifies this`st, cands, cands.data
      ensures Valid() && st.cur == {c.idx} && c.score == score(c.idx) && c.idx !in old(st.expanded)
      ensures st.expanded == old(st.expanded) && cands.data == old(cands.data)
      ensures c.idx in old(st.cands) && st.results == old(st.results)
      ensures Leads(m, score, c.idx, old(st.cands)) && st.cands == old(st.cands) - {c.idx}
    {
      c := PopNode(cands, score, st.cands);
      st := st.(cands := st.cands - {c.idx}, cur := {c.idx});
    }

    /** One round: the best candidate is expanded, unless the results are full and it is worse
        than every one of them. */
    method Step() returns (done: bool, ghost best: nat)
      requires Valid() && st.cur == {} && cands.size > 0
      modifies this, cands, cands.data, results, results.data, visited
      ensures done ==> HoldsNodes(results, st.results, score) && Found(g, l, m, score, ef, entry, st.visited, st.results)
      ensures !done ==> Valid() && st.cur == {} && st.expanded == old(st.expanded) + {best}
      ensures best !in old(st.expanded) && Leads(m, score, best, old(st.cands))
      ensures done <==> |old(st.results)| >= ef && BeatenByAll(m, score, best, old(st.results))
      ensures cands.data == old(cands.data) || fresh(cands.data)
      ensures results.data == old(results.data) || fresh(results.data)
    {
      var c := Next();
      best := c.idx;
      done := MustStop(best, c.score);
      if !done {
        Expand(c.idx);
      }
    }

    method MustStop(ghost c: nat, x: real) returns (stop: bool)
      requires Valid() && st.cur == {c} && x == score(c) && Leads(m, score, c, st.cands + {c})
      ensures stop <==> |st.results| >= ef && BeatenByAll(m, score, c, st.results)
      ensures stop ==> Found(g, l, m, score, ef, entry, st.visited, st.results)
    {
      HeapSize(results, st.results, score);
      AllBelowRoot(results, st.results, score);
      var worst := results.data[0];
      stop := results.size >= ef && Worse(m, x, worst.score);
      WorstDecides(m, score, c, st.results, worst.idx);
      if stop {
        BeatenAreExpanded(g, l, m, score, ef, entry, st, c);
      }
    }

    method Run()
      requires Valid() && st.cur == {}
      modifies this, cands, cands.data, results, results.data, visited
      ensures HoldsNodes(results, st.results, score)
      ensures Found(g, l, m, score, ef, entry, st.visited, st.results)
      ensures results.data == old(results.data) || fresh(results.data)
    {
      ExpandedBound(g, l, m, score, ef, entry, st);
      var done := false;
      while cands.size > 0 && !done
        invariant if done then HoldsNodes(results, st.results, score) && Found(g, l, m, score, ef, entry, st.visited, st.results)
                  else Valid() && st.cur == {} && |st.expanded| <= |g|
        invariant cands.data == old(cands.data) || fresh(cands.data)
        invariant results.data == old(results.data) || fresh(results.data)
        decreases if done then 0 else 1 + |g| - |st.expanded|
      {
        ghost var best;
        ghost var before := st.expanded;
        done, best := Step();
        if !done {
          assert |before + {best}| == |before| + 1;
          ExpandedBound(g, l, m, score, ef, entry, st);
        }
      }
      if !done {
        HeapSize(cands, st.cands, score);
      }
    }
  }

  ghost predicate AllIn(s: seq<nat>, n: nat, v: set<nat>)
    requires n <= |s|
  {
    forall k :: 0 <= k < n ==> s[k] in v
  }

  lemma AllInGrows(s: seq<nat>, n: nat, v: set<nat>, w: set<nat>)
    requires n < |s| && AllIn(s, n, v) && v <= w && s[n] in w
    ensures AllIn(s, n + 1, w)
  {
  }

  lemma EdgeStays(g: Graph, l: nat, c: nat, k: nat)
    requires LevelOk(g, l) && k < |Neighbors(g, l, c)|
    ensures OnLevel(g, l, Neighbors(g, l, c)[k])
  {
  }

  lemma ExpandedKeeps(g: Graph, l: nat, m: Metric, score: Score, ef: nat, entry: nat, s: State, c: nat)
    requires SearchInv(g, l, m, score, ef, entry, s) && s.cur == {c}
    requires AllIn(Neighbors(g, l, c), |Neighbors(g, l, c)|, s.visited)
    ensures SearchInv(g, l, m, score, ef, entry, s.(cur := {}, expanded := s.expanded + {c}))
  {
  }

  /** Every round expands a node not expanded before, and there are only so many. */
  lemma ExpandedBound(g: Graph, l: nat, m: Metric, score: Score, ef: nat, entry: nat, s: State)
    requires SearchInv(g, l, m, score, ef, entry, s)
    ensures |s.expanded| <= |g|
  {
    BoundedCard(s.expanded, |g|);
  }

  lemma {:induction false} BoundedCard(s: set<nat>, n: nat)
    requires forall v :: v in s ==> v < n
    ensures |s| <= n
  {
    if n == 0 {
      assert s == {};
    } else {
      BoundedCard(s - {n - 1}, n - 1);
    }
  }

  lemma KeptTop(m: Metric, score: Score, ef: nat, v: set<nat>, r: set<nat>, x: nat, worst: nat, out: nat, r': set<nat>)
    requires TopOf(m, score, ef, v, r) && r != {} && x !in v && worst in r
    requires |r| < ef || Better(m, score(x), score(worst))
    requires if |r| < ef then r' == r + {x} else out in r + {x} && r' == r + {x} - {out}
    requires |r| >= ef ==> forall y :: y in r + {x} ==> !Worse(m, score(y), score(out))
    ensures TopOf(m, score, ef, v + {x}, r') && r' != {} && r' <= r + {x}
  {
    if |r| < ef {
      AcceptKeeps(m, score, ef, v, r, x);
    } else {
      ReplaceKeeps(m, score, ef, v, r, x, worst, out);
      assert |r + {x}| == |r| + 1;
      assert r' + {out} == r + {x};
    }
  }

  /** The search as its callers use it: a heap of the nodes found. */
  method SearchLevel(g: Graph, l: nat, m: Metric, ef: nat, score: Score, from: nat)
    returns (top: Heap, ghost visited: set<nat>, ghost found: set<nat>)
    requires ef > 0 && LevelOk(g, l) && OnLevel(g, l, from)
    ensures fresh(top) && fresh(top.data) && top.metric == m && top.worstFirst && HoldsNodes(top, found, score)
    ensures Found(g, l, m, score, ef, from, visited, found)
  {
    var search := new Searcher(g, l, m, ef, score, from);
    search.Run();
    top, visited, found := search.results, search.st.visited, search.st.results;
  }
}
