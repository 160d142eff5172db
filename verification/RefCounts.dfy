/** How often a tensor will still be read, and which views of it are still in use: the
    meaning of the counters the planner keeps. */
module RefCounts {
  import opened TensorGraph

  /** Times `t` is listed as a source by nodes `i` and later. */
  ghost function Readers(g: Graph, t: nat, i: nat): nat
    requires IdsOk(g) && i <= |g.nodes|
    decreases |g.nodes| - i
  {
    if i == |g.nodes| then 0 else multiset(Node(g, i).src)[t] + Readers(g, t, i + 1)
  }

  ghost predicate At(g: Graph, i: nat, k: nat) {
    IdsOk(g) && i <= |g.nodes| && k <= if i < |g.nodes| then |Node(g, i).src| else 0
  }

  /** Times `t` will still be read when node `i` has given up its first `k` sources. */
  ghost function Left(g: Graph, t: nat, i: nat, k: nat): nat
    requires At(g, i, k)
  {
    if i == |g.nodes| then 0 else multiset(Node(g, i).src[k..])[t] + Readers(g, t, i + 1)
  }

  lemma LeftStart(g: Graph, t: nat, i: nat)
    requires At(g, i, 0)
    ensures Left(g, t, i, 0) == Readers(g, t, i)
  {
    if i < |g.nodes| {
      assert Node(g, i).src[0..] == Node(g, i).src;
    }
  }

  lemma LeftNext(g: Graph, t: nat, i: nat, k: nat)
    requires At(g, i, k) && i < |g.nodes| && k < |Node(g, i).src|
    ensures Left(g, t, i, k) == Left(g, t, i, k + 1) + if Node(g, i).src[k] == t then 1 else 0
  {
    var src := Node(g, i).src;
    assert src[k..] == [src[k]] + src[k + 1..];
  }

  lemma LeftEnd(g: Graph, t: nat, i: nat)
    requires IdsOk(g) && i < |g.nodes|
    ensures Left(g, t, i, |Node(g, i).src|) == Readers(g, t, i + 1) == Left(g, t, i + 1, 0)
  {
    assert Node(g, i).src[|Node(g, i).src|..] == [];
    LeftStart(g, t, i + 1);
  }

  lemma {:induction false} ReadersFall(g: Graph, t: nat, i: nat, j: nat)
    requires IdsOk(g) && i <= j <= |g.nodes|
    ensures Readers(g, t, j) <= Readers(g, t, i)
    decreases j - i
  {
    if i < j {
      ReadersFall(g, t, i + 1, j);
    }
  }

  lemma {:induction false} LeftFalls(g: Graph, t: nat, i: nat, k: nat, l: nat)
    requires At(g, i, l) && k <= l
    ensures Left(g, t, i, l) <= Left(g, t, i, k)
    decreases l
  {
    if k < l {
      LeftNext(g, t, i, l - 1);
      LeftFalls(g, t, i, k, l - 1);
    }
  }

  lemma LeftAtMost(g: Graph, t: nat, i: nat, k: nat)
    requires At(g, i, k)
    ensures Left(g, t, i, k) <= Readers(g, t, 0)
  {
    LeftFalls(g, t, i, 0, k);
    LeftStart(g, t, i);
    ReadersFall(g, t, 0, i);
  }

  lemma {:induction false} ReadLater(g: Graph, t: nat, i: nat, j: nat)
    requires IdsOk(g) && i <= j < |g.nodes| && t in Node(g, j).src
    ensures Readers(g, t, i) > 0
    decreases j - i
  {
    if i < j {
      ReadLater(g, t, i + 1, j);
    }
  }

  /** Nothing reads a node up to its own position. */
  lemma {:induction false} NotReadBefore(g: Graph, j: nat, i: nat)
    requires WellFormed(g) && i <= j < |g.nodes|
    ensures Readers(g, g.nodes[j], i) == Readers(g, g.nodes[j], 0)
  {
    if i > 0 {
      NotReadBefore(g, j, i - 1);
      var t := g.nodes[j];
      assert !Made(g, t, i - 1);
      assert NodeOk(g, i - 1);
      assert multiset(Node(g, i - 1).src)[t] == 0;
    }
  }

  // ---------- views ----------

  ghost function Views(g: Graph, r: nat): set<nat> {
    set v | v in g.nodes && ViewNode(g, v) && Root(g, v) == r
  }

  /** A view is in use until its last reader is done; one that nobody reads stays in use. */
  ghost predicate InUse(g: Graph, v: nat, i: nat, k: nat)
    requires At(g, i, k)
  {
    Readers(g, v, 0) == 0 || Left(g, v, i, k) > 0
  }

  ghost function LiveViews(g: Graph, r: nat, i: nat, k: nat): set<nat>
    requires At(g, i, k)
  {
    set v | v in Views(g, r) && InUse(g, v, i, k)
  }

  lemma ViewsStart(g: Graph, r: nat)
    requires At(g, 0, 0)
    ensures LiveViews(g, r, 0, 0) == Views(g, r)
  {
    forall v | v in Views(g, r)
      ensures InUse(g, v, 0, 0)
    {
      LeftStart(g, v, 0);
    }
  }

  /** Giving up source `k` ends the use of that source if it is a view read for the last
      time, and changes no other view. */
  lemma ViewsNext(g: Graph, r: nat, i: nat, k: nat)
    requires WellFormed(g) && At(g, i, k) && i < |g.nodes| && k < |Node(g, i).src|
    ensures var p := Node(g, i).src[k];
            var ends := ViewNode(g, p) && Root(g, p) == r && Left(g, p, i, k + 1) == 0;
            && LiveViews(g, r, i, k + 1) == LiveViews(g, r, i, k) - (if ends then {p} else {})
            && (ends ==> p in LiveViews(g, r, i, k))
  {
    var p := Node(g, i).src[k];
    forall v | v in Views(g, r)
      ensures v != p ==> (InUse(g, v, i, k) <==> InUse(g, v, i, k + 1))
      ensures v == p ==> InUse(g, v, i, k) && (InUse(g, v, i, k + 1) <==> Left(g, p, i, k + 1) > 0)
    {
      LeftNext(g, v, i, k);
      LeftAtMost(g, v, i, k);
    }
    if ViewNode(g, p) && Root(g, p) == r {
      assert p in Views(g, r);
    }
  }

  lemma ViewsEnd(g: Graph, r: nat, i: nat)
    requires IdsOk(g) && i < |g.nodes|
    ensures LiveViews(g, r, i, |Node(g, i).src|) == LiveViews(g, r, i + 1, 0)
  {
    forall v | v in Views(g, r)
      ensures InUse(g, v, i, |Node(g, i).src|) <==> InUse(g, v, i + 1, 0)
    {
      LeftEnd(g, v, i);
    }
  }

  lemma {:induction false} ViewsFall(g: Graph, r: nat, i: nat, k: nat, l: nat)
    requires At(g, i, l) && k <= l
    ensures LiveViews(g, r, i, l) <= LiveViews(g, r, i, k)
  {
    forall v | v in LiveViews(g, r, i, l)
      ensures v in LiveViews(g, r, i, k)
    {
      LeftFalls(g, v, i, k, l);
    }
  }

  /** A view has no views. */
  lemma NoViewsOfViews(g: Graph, r: nat)
    requires WellFormed(g) && IsView(g, r)
    ensures Views(g, r) == {}
  {
    forall v | v in g.nodes && ViewNode(g, v)
      ensures !IsView(g, Root(g, v))
    {
      var j :| 0 <= j < |g.nodes| && g.nodes[j] == v;
      assert NodeOk(g, j);
    }
  }

  /** A view that node `i` reads is in use when it runs. */
  lemma ViewSourceIsLive(g: Graph, i: nat, s: nat)
    requires WellFormed(g) && i < |g.nodes| && s in Node(g, i).src && IsView(g, s)
    ensures s in LiveViews(g, Root(g, s), i, 0)
  {
    assert NodeOk(g, i);
    ReadLater(g, s, i, i);
    LeftStart(g, s, i);
  }

  // ---------- what must be kept ----------

  /** The planner must not give up `t` before step `i`. */
  ghost predicate MustKeep(g: Graph, t: nat, i: nat)
    requires At(g, i, 0) && t < |g.tensors|
  {
    Readers(g, t, i) > 0 || LiveViews(g, t, i, 0) != {} || g.tensors[t].output
  }

  lemma KeepFalls(g: Graph, t: nat, i: nat)
    requires IdsOk(g) && i < |g.nodes| && t < |g.tensors| && MustKeep(g, t, i + 1)
    ensures MustKeep(g, t, i)
  {
    ViewsFall(g, t, i, 0, |Node(g, i).src|);
    ViewsEnd(g, t, i);
  }

  /** What is needed from step `i` on has readers left or views in use. */
  lemma NeededIsKept(g: Graph, t: nat, i: nat)
    requires WellFormed(g) && i <= |g.nodes| && t < |g.tensors| && Needed(g, t, i)
    ensures MustKeep(g, t, i)
  {
    if !g.tensors[t].output {
      var j :| i <= j < |g.nodes| && Uses(g, j, t);
      UsedIsKept(g, t, i, j);
    }
  }

  lemma UsedIsKept(g: Graph, t: nat, i: nat, j: nat)
    requires WellFormed(g) && i <= j < |g.nodes| && t < |g.tensors| && Uses(g, j, t)
    ensures MustKeep(g, t, i)
  {
    if ViewNode(g, g.nodes[j]) && Target(g, j) == t {
      NotReadBefore(g, j, i);
      LeftStart(g, g.nodes[j], i);
      assert g.nodes[j] in LiveViews(g, t, i, 0);
    } else {
      var s: nat :| s in Node(g, j).src && Root(g, s) == t;
      ReadLater(g, s, i, j);
      if s != t {
        assert NodeOk(g, j);
        LeftStart(g, s, i);
        assert s in LiveViews(g, t, i, 0);
      }
    }
  }

  // ---------- counting ----------

  /** Times `t` is listed as a source by the first `i` nodes. */
  ghost function Counted(g: Graph, t: nat, i: nat): nat
    requires IdsOk(g) && i <= |g.nodes|
  {
    if i == 0 then 0 else Counted(g, t, i - 1) + multiset(Node(g, i - 1).src)[t]
  }

  lemma {:induction false} CountedAll(g: Graph, t: nat, i: nat)
    requires IdsOk(g) && i <= |g.nodes|
    ensures Counted(g, t, i) + Readers(g, t, i) == Readers(g, t, 0)
  {
    if i > 0 {
      CountedAll(g, t, i - 1);
    }
  }

  /** The views of `r` among the first `i` nodes. */
  ghost function ViewsBelow(g: Graph, r: nat, i: nat): set<nat>
    requires i <= |g.nodes|
  {
    set v | v in g.nodes[..i] && ViewNode(g, v) && Root(g, v) == r
  }

  lemma ViewsBelowNext(g: Graph, r: nat, i: nat)
    requires WellFormed(g) && i < |g.nodes|
    ensures |ViewsBelow(g, r, i + 1)| == |ViewsBelow(g, r, i)| +
            if ViewNode(g, g.nodes[i]) && Target(g, i) == r then 1 else 0
  {
    var v := g.nodes[i];
    assert g.nodes[..i + 1] == g.nodes[..i] + [v];
    assert v !in g.nodes[..i];
    if ViewNode(g, v) && Target(g, i) == r {
      assert ViewsBelow(g, r, i + 1) == ViewsBelow(g, r, i) + {v};
    } else {
      assert ViewsBelow(g, r, i + 1) == ViewsBelow(g, r, i);
    }
  }

  lemma ViewsBelowAll(g: Graph, r: nat)
    ensures ViewsBelow(g, r, |g.nodes|) == Views(g, r)
  {
    assert g.nodes[..|g.nodes|] == g.nodes;
  }
}
