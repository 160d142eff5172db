/** The exchange sort that puts the best score first. */
module BestFirst {
  import opened Scores
  import opened ScoreHeap

  ghost predicate Sorted(m: Metric, s: seq<NodeScore>) {
    forall i, j :: 0 <= i < j < |s| ==> !Worse(m, s[i].score, s[j].score)
  }

  /** The first `n` are in order and none of the others is better. */
  ghost predicate SortedUpTo(m: Metric, s: seq<NodeScore>, n: nat)
    requires n <= |s|
  {
    forall i, j :: 0 <= i < n && i < j < |s| ==> !Worse(m, s[i].score, s[j].score)
  }

  /** Element `x` is not worse than any of those between it and `y`. */
  ghost predicate BestOf(m: Metric, s: seq<NodeScore>, x: nat, y: nat)
    requires x < |s| && y <= |s|
  {
    forall j :: x < j < y ==> !Worse(m, s[x].score, s[j].score)
  }

  lemma SwapSorted(m: Metric, s: seq<NodeScore>, x: nat, y: nat)
    requires x < y < |s| && SortedUpTo(m, s, x)
    ensures SortedUpTo(m, s[x := s[y]][y := s[x]], x)
  {
    var t := s[x := s[y]][y := s[x]];
    forall i, j | 0 <= i < x && i < j < |t|
      ensures !Worse(m, t[i].score, t[j].score)
    {
      var k := if j == x then y else if j == y then x else j;
      assert t[j] == s[k];
    }
  }

  /** The inner loop: brings the best of the rest to place `x`. */
  method SelectBest(m: Metric, a: array<NodeScore>, x: nat)
    requires x < a.Length && SortedUpTo(m, a[..], x)
    modifies a
    ensures SortedUpTo(m, a[..], x + 1) && multiset(a[..]) == old(multiset(a[..]))
  {
    for y := x + 1 to a.Length
      invariant SortedUpTo(m, a[..], x) && BestOf(m, a[..], x, y) && multiset(a[..]) == old(multiset(a[..]))
    {
      if Worse(m, a[x].score, a[y].score) {
        ghost var s := a[..];
        a[x], a[y] := a[y], a[x];
        assert a[..] == s[x := s[y]][y := s[x]];
        SwapSorted(m, s, x, y);
        SwapKeeps(s, x, y);
        SwapBest(m, s, x, y);
      }
    }
  }

  lemma SwapBest(m: Metric, s: seq<NodeScore>, x: nat, y: nat)
    requires x < y < |s| && BestOf(m, s, x, y) && Worse(m, s[x].score, s[y].score)
    ensures BestOf(m, s[x := s[y]][y := s[x]], x, y + 1)
  {
  }

  method SortBestFirst(m: Metric, a: array<NodeScore>)
    modifies a
    ensures Sorted(m, a[..]) && multiset(a[..]) == old(multiset(a[..]))
  {
    for x := 0 to a.Length
      invariant SortedUpTo(m, a[..], x) && multiset(a[..]) == old(multiset(a[..]))
    {
      SelectBest(m, a, x);
    }
  }
}
