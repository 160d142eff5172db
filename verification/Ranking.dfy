/** A list of scored nodes in order, as a ranking of a set of nodes. */
module Ranking {
  import opened Scores
  import opened LevelSearch
  import opened BestFirst

  /** `s` names the nodes of `nodes` once each, with their scores, best first. */
  ghost predicate Ranks(m: Metric, score: Score, nodes: set<nat>, s: seq<NodeScore>) {
    && Sorted(m, s)
    && (forall k :: 0 <= k < |s| ==> s[k].idx in nodes && s[k].score == score(s[k].idx))
    && (forall i, j :: 0 <= i < j < |s| ==> s[i].idx != s[j].idx)
    && (forall v :: v in nodes ==> NodeScore(v, score(v)) in s)
  }

  lemma TwiceCounted<T>(s: seq<T>, i: nat, j: nat)
    requires i < j < |s| && s[i] == s[j]
    ensures multiset(s)[s[i]] >= 2
  {
    assert s == s[..i] + [s[i]] + s[i + 1..j] + [s[j]] + s[j + 1..];
  }

  lemma RanksFrom(m: Metric, score: Score, nodes: set<nat>, s: seq<NodeScore>)
    requires Sorted(m, s) && multiset(s) == Entries(nodes, score)
    ensures Ranks(m, score, nodes, s)
  {
    forall k | 0 <= k < |s|
      ensures s[k].idx in nodes && s[k].score == score(s[k].idx)
    {
      assert s[k] in multiset(s);
    }
    forall i, j | 0 <= i < j < |s|
      ensures s[i].idx != s[j].idx
    {
      assert multiset(s)[s[i]] <= 1;
      if s[i] == s[j] {
        TwiceCounted(s, i, j);
      }
    }
    forall v | v in nodes
      ensures NodeScore(v, score(v)) in s
    {
      assert NodeScore(v, score(v)) in multiset(s);
    }
  }

  ghost function Nodes(s: seq<NodeScore>): set<nat> {
    set k | 0 <= k < |s| :: s[k].idx
  }

  lemma NodesNext(s: seq<NodeScore>, k: nat)
    requires k < |s|
    ensures Nodes(s[..k + 1]) == Nodes(s[..k]) + {s[k].idx}
  {
    forall v | v in Nodes(s[..k]) + {s[k].idx}
      ensures v in Nodes(s[..k + 1])
    {
      if v == s[k].idx {
        assert s[..k + 1][k].idx == v;
      } else {
        var j :| 0 <= j < k && s[..k][j].idx == v;
        assert s[..k + 1][j].idx == v;
      }
    }
  }

  lemma {:induction false} NodesCard(s: seq<NodeScore>, k: nat)
    requires k <= |s| && forall i, j :: 0 <= i < j < |s| ==> s[i].idx != s[j].idx
    ensures |Nodes(s[..k])| == k
  {
    if k == 0 {
      assert Nodes(s[..0]) == {};
    } else {
      NodesCard(s, k - 1);
      NodesNext(s, k - 1);
      assert s[k - 1].idx !in Nodes(s[..k - 1]);
    }
  }

  /** The first `limit` of a ranking are the best `limit` of its nodes. */
  lemma PrefixIsTop(m: Metric, score: Score, nodes: set<nat>, s: seq<NodeScore>, limit: nat)
    requires Ranks(m, score, nodes, s)
    ensures TopOf(m, score, limit, nodes, Nodes(s[..if limit < |s| then limit else |s|]))
  {
    var n := if limit < |s| then limit else |s|;
    NodesCard(s, n);
    var r := Nodes(s[..n]);
    forall v | v in nodes && v !in r
      ensures n < |s| && forall y :: y in r ==> !Better(m, score(v), score(y))
    {
      var k :| 0 <= k < |s| && s[k] == NodeScore(v, score(v));
      assert forall j :: 0 <= j < n ==> s[..n][j].idx in r;
      assert forall j :: 0 <= j < n ==> s[..n][j] == s[j];
      forall y | y in r
        ensures !Better(m, score(v), score(y))
      {
        var j :| 0 <= j < n && s[..n][j].idx == y;
        assert !Worse(m, s[j].score, s[k].score);
      }
    }
  }
}
