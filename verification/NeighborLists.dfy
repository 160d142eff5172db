/** Neighbour lists of a bounded length that keep the best of everything offered. */
module NeighborLists {
  import opened Scores
  import opened LevelSearch

  ghost function SetOf(s: seq<nat>): set<nat> {
    set x | x in s
  }

  predicate Distinct(s: seq<nat>) {
    forall i, j :: 0 <= i < j < |s| ==> s[i] != s[j]
  }

  lemma {:induction false} DistinctCard(s: seq<nat>)
    requires Distinct(s)
    ensures |SetOf(s)| == |s|
  {
    if s == [] {
      assert SetOf(s) == {};
    } else {
      var n := |s| - 1;
      DistinctCard(s[..n]);
      assert SetOf(s) == SetOf(s[..n]) + {s[n]};
    }
  }

  /** `list` is a choice of the `cap` best nodes of `offered`, each named once. */
  ghost predicate KeepsBest(m: Metric, score: Score, cap: nat, offered: set<nat>, list: seq<nat>) {
    Distinct(list) && TopOf(m, score, cap, offered, SetOf(list))
  }

  lemma KeepsBestSize(m: Metric, score: Score, cap: nat, offered: set<nat>, list: seq<nat>)
    requires KeepsBest(m, score, cap, offered, list)
    ensures |list| <= cap && (|list| < cap ==> SetOf(list) == offered) && SetOf(list) <= offered
  {
    DistinctCard(list);
  }

  /** The first of the worst elements. */
  method WorstOf(m: Metric, score: Score, list: seq<nat>) returns (w: nat)
    requires list != []
    ensures w < |list| && forall k :: 0 <= k < |list| ==> !Worse(m, score(list[k]), score(list[w]))
  {
    w := 0;
    for i := 0 to |list|
      invariant w < |list|
      invariant forall k :: 0 <= k < i ==> !Worse(m, score(list[k]), score(list[w]))
    {
      if Worse(m, score(list[i]), score(list[w])) {
        w := i;
      }
    }
  }

  /** Dropping `out`, the worst of `r` and `x`, leaves the best of everything offered. */
  lemma DropWorstKeeps(m: Metric, score: Score, cap: nat, v: set<nat>, r: set<nat>, x: nat, out: nat)
    requires TopOf(m, score, cap, v, r) && x !in r && |r| == cap
    requires out in r + {x} && forall y :: y in r + {x} ==> !Worse(m, score(y), score(out))
    ensures TopOf(m, score, cap, v + {x}, r + {x} - {out})
  {
    var r' := r + {x} - {out};
    assert r' + {out} == r + {x};
    forall a, b | a in v + {x} && a !in r' && b in r'
      ensures !Better(m, score(a), score(b))
    {
      assert !Worse(m, score(b), score(out));
      if a != out {
        assert a in v && a !in r;
      }
    }
  }

  /** The last element takes the place of element `w`. */
  lemma RemovedAt(s: seq<nat>, w: nat) returns (r: seq<nat>)
    requires Distinct(s) && w < |s|
    ensures r == s[w := s[|s| - 1]][..|s| - 1]
    ensures Distinct(r) && SetOf(r) == SetOf(s) - {s[w]}
  {
    var n := |s| - 1;
    r := s[w := s[n]][..n];
    forall x | x in SetOf(s) - {s[w]}
      ensures x in r
    {
      var k :| 0 <= k < |s| && s[k] == x;
      assert r[if k == n then w else k] == x;
    }
  }

  lemma AppendDistinct(s: seq<nat>, x: nat)
    requires Distinct(s) && x !in s
    ensures Distinct(s + [x]) && SetOf(s + [x]) == SetOf(s) + {x}
  {
  }

  method Contains(list: seq<nat>, x: nat) returns (found: bool)
    ensures found <==> x in list
  {
    for i := 0 to |list|
      invariant x !in list[..i]
    {
      if list[i] == x {
        return true;
      }
    }
    return false;
  }

  /** One more offer to a list: a known neighbour changes nothing; otherwise the new one goes
      to the end and, over the limit, the worst is replaced by the last. */
  method Offer(m: Metric, score: Score, cap: nat, list: seq<nat>, x: nat, ghost offered: set<nat>) returns (r: seq<nat>)
    requires cap > 0 && KeepsBest(m, score, cap, offered, list)
    ensures KeepsBest(m, score, cap, offered + {x}, r)
    ensures x in list ==> r == list
    ensures x !in list && |list| < cap ==> r == list + [x]
  {
    KeepsBestSize(m, score, cap, offered, list);
    var known := Contains(list, x);
    if known {
      assert offered + {x} == offered;
      return list;
    }
    AppendDistinct(list, x);
    DistinctCard(list);
    r := list + [x];
    if |r| > cap {
      r := Prune(m, score, cap, list, x, offered);
    } else {
      assert SetOf(list) == offered;
      DistinctCard(r);
    }
  }

  method Prune(m: Metric, score: Score, cap: nat, list: seq<nat>, x: nat, ghost offered: set<nat>) returns (r: seq<nat>)
    requires KeepsBest(m, score, cap, offered, list) && |list| == cap && x !in list
    ensures KeepsBest(m, score, cap, offered + {x}, r)
  {
    var s := list + [x];
    AppendDistinct(list, x);
    var w := WorstOf(m, score, s);
    r := s[w := s[|s| - 1]][..|s| - 1];
    ghost var _ := RemovedAt(s, w);
    DistinctCard(list);
    DropWorstKeeps(m, score, cap, offered, SetOf(list), x, s[w]);
  }
}
