/** The greedy walk towards a query through the upper levels. */
module Descent {
  import opened Scores
  import opened LevelSearch

  /** Nodes of level `l` strictly better than `v`. */
  ghost function BetterNodes(g: Graph, l: nat, m: Metric, score: Score, v: nat): set<nat> {
    set u | 0 <= u < |g| && OnLevel(g, l, u) && Better(m, score(u), score(v))
  }

  lemma BetterShrinks(g: Graph, l: nat, m: Metric, score: Score, u: nat, v: nat)
    requires OnLevel(g, l, u) && Better(m, score(u), score(v))
    ensures BetterNodes(g, l, m, score, u) < BetterNodes(g, l, m, score, v)
  {
    assert u in BetterNodes(g, l, m, score, v) && u !in BetterNodes(g, l, m, score, u);
  }

  /** No neighbour on level `l` is better. */
  ghost predicate LocalBest(g: Graph, l: nat, m: Metric, score: Score, v: nat) {
    forall k :: 0 <= k < |Neighbors(g, l, v)| ==> !Better(m, score(Neighbors(g, l, v)[k]), score(v))
  }

  ghost predicate NotWorse(m: Metric, score: Score, v: nat, u: nat) {
    !Worse(m, score(v), score(u))
  }

  /** One pass over the list of `from`; the current node moves to each better neighbour in turn. */
  method Pass(g: Graph, l: nat, m: Metric, score: Score, from: nat, d: real) returns (cur: nat, dist: real, changed: bool)
    requires LevelOk(g, l) && OnLevel(g, l, from) && d == score(from)
    ensures OnLevel(g, l, cur) && dist == score(cur)
    ensures if changed then Better(m, dist, d) else cur == from && LocalBest(g, l, m, score, from)
    ensures forall k :: 0 <= k < |Neighbors(g, l, from)| ==> !Better(m, score(Neighbors(g, l, from)[k]), dist)
  {
    cur, dist, changed := from, d, false;
    var ns := Neighbors(g, l, from);
    for n := 0 to |ns|
      invariant OnLevel(g, l, cur) && dist == score(cur)
      invariant if changed then Better(m, dist, d) else cur == from
      invariant forall k :: 0 <= k < n ==> !Better(m, score(ns[k]), dist)
    {
      EdgeStays(g, l, from, n);
      var s := score(ns[n]);
      if Better(m, s, dist) {
        dist, cur, changed := s, ns[n], true;
      }
    }
  }

  /** The walk on one level ends, at a node with no better neighbour there. */
  method Walk(g: Graph, l: nat, m: Metric, score: Score, from: nat, d: real) returns (cur: nat, dist: real)
    requires LevelOk(g, l) && OnLevel(g, l, from) && d == score(from)
    ensures OnLevel(g, l, cur) && dist == score(cur)
    ensures LocalBest(g, l, m, score, cur) && NotWorse(m, score, cur, from)
  {
    cur, dist := from, d;
    var changed := true;
    while changed
      invariant OnLevel(g, l, cur) && dist == score(cur) && NotWorse(m, score, cur, from)
      invariant !changed ==> LocalBest(g, l, m, score, cur)
      decreases BetterNodes(g, l, m, score, cur), changed
    {
      ghost var was := cur;
      cur, dist, changed := Pass(g, l, m, score, cur, dist);
      if changed {
        BetterShrinks(g, l, m, score, cur, was);
      }
    }
  }

  /** Walks from level `high` down to level `low + 1`; every level visited is one the current
      node has. */
  method Descend(g: Graph, high: int, low: int, m: Metric, score: Score, from: nat) returns (cur: nat, dist: real)
    requires -1 <= low && from < |g| && high == g[from].level && |g[from].neighbors| == high + 1
    requires forall l: nat :: low < l <= high ==> LevelOk(g, l)
    requires 0 <= high
    ensures cur < |g| && dist == score(cur) && NotWorse(m, score, cur, from)
    ensures if low < high then OnLevel(g, low + 1, cur) && LocalBest(g, low + 1, m, score, cur)
            else cur == from
  {
    cur, dist := from, score(from);
    var l := high;
    while l > low
      invariant cur < |g| && dist == score(cur) && NotWorse(m, score, cur, from)
      invariant if low < high then low <= l <= high else l == high
      invariant l == high ==> cur == from
      invariant low < high && l < high ==> OnLevel(g, l + 1, cur) && LocalBest(g, l + 1, m, score, cur)
    {
      cur, dist := Walk(g, l, m, score, cur, dist);
      l := l - 1;
    }
  }
}
