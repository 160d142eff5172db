/** The binary heaps of `libhnsw.c`. One flag turns a heap that yields its best element into
    one that yields its worst. */
module ScoreHeap {
  import opened Scores

  predicate HasPriority(m: Metric, worstFirst: bool, a: real, b: real) {
    if worstFirst then Worse(m, a, b) else Better(m, a, b)
  }

  /** `a` may stand above `b`. */
  predicate Above(m: Metric, wf: bool, a: NodeScore, b: NodeScore) {
    !HasPriority(m, wf, b.score, a.score)
  }

  function Parent(i: nat): nat
    requires i > 0
  {
    (i - 1) / 2
  }

  ghost predicate Ordered(m: Metric, wf: bool, s: seq<NodeScore>) {
    forall k :: 0 < k < |s| ==> Above(m, wf, s[Parent(k)], s[k])
  }

  /** Nothing in the heap has priority over its root. */
  lemma {:induction false} RootFirst(m: Metric, wf: bool, s: seq<NodeScore>, k: nat)
    requires Ordered(m, wf, s) && k < |s|
    ensures Above(m, wf, s[0], s[k])
  {
    if k > 0 {
      RootFirst(m, wf, s, Parent(k));
      assert Above(m, wf, s[Parent(k)], s[k]);
    }
  }

  lemma SwapKeeps(t: seq<NodeScore>, i: nat, j: nat)
    requires i < |t| && j < |t|
    ensures multiset(t[i := t[j]][j := t[i]]) == multiset(t)
  {
  }

  // ---------- moving a hole up ----------

  function SiftUp(m: Metric, wf: bool, s: seq<NodeScore>, i: nat, x: NodeScore): (r: seq<NodeScore>)
    requires i < |s|
    ensures |r| == |s|
    decreases i
  {
    if i == 0 || !HasPriority(m, wf, x.score, s[Parent(i)].score) then s[i := x]
    else SiftUp(m, wf, s[i := s[Parent(i)]], Parent(i), x)
  }

  /** With `x` in the hole, only `x` may be above its parent, and what hangs below the
      hole may hang below that parent. */
  ghost predicate HoleUp(m: Metric, wf: bool, s: seq<NodeScore>, i: nat, x: NodeScore)
    requires i < |s|
  {
    var t := s[i := x];
    && (forall k :: 0 < k < |t| && k != i ==> Above(m, wf, t[Parent(k)], t[k]))
    && (i > 0 ==> forall k :: 0 < k < |t| && Parent(k) == i ==> Above(m, wf, t[Parent(i)], t[k]))
  }

  lemma {:induction false} SiftUpOk(m: Metric, wf: bool, s: seq<NodeScore>, i: nat, x: NodeScore)
    requires i < |s| && HoleUp(m, wf, s, i, x)
    ensures Ordered(m, wf, SiftUp(m, wf, s, i, x))
    ensures multiset(SiftUp(m, wf, s, i, x)) == multiset(s[i := x])
    decreases i
  {
    if i > 0 && HasPriority(m, wf, x.score, s[Parent(i)].score) {
      var p := Parent(i);
      var s', t := s[i := s[p]], s[i := x];
      HoleMovesUp(m, wf, s, i, x);
      SiftUpOk(m, wf, s', p, x);
      assert s'[p := x] == t[i := t[p]][p := t[i]];
      SwapKeeps(t, i, p);
    }
  }

  lemma HoleMovesUp(m: Metric, wf: bool, s: seq<NodeScore>, i: nat, x: NodeScore)
    requires 0 < i < |s| && HoleUp(m, wf, s, i, x) && HasPriority(m, wf, x.score, s[Parent(i)].score)
    ensures HoleUp(m, wf, s[i := s[Parent(i)]], Parent(i), x)
  {
    var p := Parent(i);
    var t, t' := s[i := x], s[i := s[p]][p := x];
    forall k | 0 < k < |t'| && k != p
      ensures Above(m, wf, t'[Parent(k)], t'[k])
    {
      if k != i {
        assert Above(m, wf, t[Parent(k)], t[k]);
      }
    }
    if p > 0 {
      assert Above(m, wf, t[Parent(p)], t[p]);
      forall k | 0 < k < |t'| && Parent(k) == p
        ensures Above(m, wf, t'[Parent(p)], t'[k])
      {
        if k != i {
          assert Above(m, wf, t[Parent(k)], t[k]);
        }
      }
    }
  }

  // ---------- moving a hole down ----------

  /** The child of `i` that comes first. */
  function FirstChild(m: Metric, wf: bool, s: seq<NodeScore>, i: nat): (c: nat)
    requires 2 * i + 1 < |s|
    ensures (c == 2 * i + 1 || c == 2 * i + 2) && c < |s|
  {
    var c := 2 * i + 1;
    if c + 1 < |s| && HasPriority(m, wf, s[c + 1].score, s[c].score) then c + 1 else c
  }

  function SiftDown(m: Metric, wf: bool, s: seq<NodeScore>, i: nat, x: NodeScore): (r: seq<NodeScore>)
    requires i < |s|
    ensures |r| == |s|
    decreases |s| - i
  {
    if 2 * i + 1 >= |s| then s[i := x]
    else
      var c := FirstChild(m, wf, s, i);
      if !HasPriority(m, wf, s[c].score, x.score) then s[i := x]
      else SiftDown(m, wf, s[i := s[c]], c, x)
  }

  /** With `x` in the hole, only `x` may be below its children, and those may hang below
      the hole's parent. */
  ghost predicate HoleDown(m: Metric, wf: bool, s: seq<NodeScore>, i: nat, x: NodeScore)
    requires i < |s|
  {
    var t := s[i := x];
    && (forall k :: 0 < k < |t| && Parent(k) != i ==> Above(m, wf, t[Parent(k)], t[k]))
    && (i > 0 ==> forall k :: 0 < k < |t| && Parent(k) == i ==> Above(m, wf, t[Parent(i)], t[k]))
  }

  lemma {:induction false} SiftDownOk(m: Metric, wf: bool, s: seq<NodeScore>, i: nat, x: NodeScore)
    requires i < |s| && HoleDown(m, wf, s, i, x)
    ensures Ordered(m, wf, SiftDown(m, wf, s, i, x))
    ensures multiset(SiftDown(m, wf, s, i, x)) == multiset(s[i := x])
    decreases |s| - i
  {
    if 2 * i + 1 < |s| {
      var c := FirstChild(m, wf, s, i);
      if HasPriority(m, wf, s[c].score, x.score) {
        var s', t := s[i := s[c]], s[i := x];
        HoleMovesDown(m, wf, s, i, x);
        SiftDownOk(m, wf, s', c, x);
        assert s'[c := x] == t[i := t[c]][c := t[i]];
        SwapKeeps(t, i, c);
      } else {
        HoleStops(m, wf, s, i, x);
      }
    }
  }

  lemma ChildrenOf(k: nat)
    requires k > 0
    ensures k == 2 * Parent(k) + 1 || k == 2 * Parent(k) + 2
  {
  }

  lemma HoleStops(m: Metric, wf: bool, s: seq<NodeScore>, i: nat, x: NodeScore)
    requires i < |s| && 2 * i + 1 < |s| && HoleDown(m, wf, s, i, x)
    requires !HasPriority(m, wf, s[FirstChild(m, wf, s, i)].score, x.score)
    ensures Ordered(m, wf, s[i := x])
  {
    var t := s[i := x];
    var c := FirstChild(m, wf, s, i);
    forall k | 0 < k < |t|
      ensures Above(m, wf, t[Parent(k)], t[k])
    {
      if Parent(k) == i {
        ChildrenOf(k);
        assert t[k] == s[k] && !HasPriority(m, wf, s[k].score, s[c].score);
      }
    }
  }

  lemma HoleMovesDown(m: Metric, wf: bool, s: seq<NodeScore>, i: nat, x: NodeScore)
    requires i < |s| && 2 * i + 1 < |s| && HoleDown(m, wf, s, i, x)
    requires HasPriority(m, wf, s[FirstChild(m, wf, s, i)].score, x.score)
    ensures var c := FirstChild(m, wf, s, i); HoleDown(m, wf, s[i := s[c]], c, x)
  {
    var c := FirstChild(m, wf, s, i);
    var t, t' := s[i := x], s[i := s[c]][c := x];
    forall k | 0 < k < |t'| && Parent(k) != c
      ensures Above(m, wf, t'[Parent(k)], t'[k])
    {
      if k == i {
        assert Above(m, wf, t[Parent(i)], t[c]);
      } else if Parent(k) == i {
        assert k == 2 * i + 1 || k == 2 * i + 2;
      } else {
        assert Above(m, wf, t[Parent(k)], t[k]);
      }
    }
    forall k | 0 < k < |t'| && Parent(k) == c
      ensures Above(m, wf, t'[Parent(c)], t'[k])
    {
      assert Above(m, wf, t[Parent(k)], t[k]);
    }
  }

  /** Putting `x` into a new last place `g` and sifting it up. */
  lemma PushedOk(m: Metric, wf: bool, s: seq<NodeScore>, g: NodeScore, x: NodeScore)
    requires Ordered(m, wf, s)
    ensures var r := SiftUp(m, wf, s + [g], |s|, x);
            Ordered(m, wf, r) && multiset(r) == multiset(s) + multiset{x}
  {
    var t := s + [g];
    assert t[|s| := x] == s + [x];
    assert HoleUp(m, wf, t, |s|, x) by {
      forall k | 0 < k < |s|
        ensures Above(m, wf, (s + [x])[Parent(k)], (s + [x])[k])
      {
        assert Above(m, wf, s[Parent(k)], s[k]);
      }
    }
    SiftUpOk(m, wf, t, |s|, x);
  }

  /** Taking the root away and sifting the last element down. */
  function Popped(m: Metric, wf: bool, s: seq<NodeScore>): seq<NodeScore>
    requires |s| > 0
  {
    var n := |s| - 1;
    if n == 0 then [] else SiftDown(m, wf, s[..n], 0, s[n])
  }

  lemma PoppedOk(m: Metric, wf: bool, s: seq<NodeScore>)
    requires Ordered(m, wf, s) && |s| > 0
    ensures Ordered(m, wf, Popped(m, wf, s)) && multiset(Popped(m, wf, s)) == multiset(s) - multiset{s[0]}
    ensures forall k :: 0 <= k < |s| ==> Above(m, wf, s[0], s[k])
  {
    forall k | 0 <= k < |s|
      ensures Above(m, wf, s[0], s[k])
    {
      RootFirst(m, wf, s, k);
    }
    var n := |s| - 1;
    if n > 0 {
      var t := s[..n];
      assert HoleDown(m, wf, t, 0, s[n]) by {
        forall k | 0 < k < n && Parent(k) != 0
          ensures Above(m, wf, t[0 := s[n]][Parent(k)], t[0 := s[n]][k])
        {
          assert Above(m, wf, s[Parent(k)], s[k]);
        }
      }
      SiftDownOk(m, wf, t, 0, s[n]);
    }
    RestMultiset(s);
  }

  lemma RestMultiset(s: seq<NodeScore>)
    requires |s| > 0
    ensures var n := |s| - 1;
            if n == 0 then multiset(s) - multiset{s[0]} == multiset{}
            else multiset(s[..n][0 := s[n]]) == multiset(s) - multiset{s[0]}
  {
    var n := |s| - 1;
    if n == 0 {
      assert s == [s[0]];
    } else {
      assert s == [s[0]] + s[1..n] + [s[n]];
      assert s[..n][0 := s[n]] == [s[n]] + s[1..n];
    }
  }

  // ---------- the heap ----------

  class Heap {
    const metric: Metric
    const worstFirst: bool
    var data: array<NodeScore>
    var size: nat

    ghost predicate Valid()
      reads this, data
    {
      && 0 < data.Length && size <= data.Length
      && Ordered(metric, worstFirst, data[..size])
    }

    ghost function Items(): seq<NodeScore>
      requires size <= data.Length
      reads this, data
    {
      data[..size]
    }

    constructor (capacity: nat, m: Metric, wf: bool)
      requires capacity > 0
      ensures Valid() && fresh(data) && size == 0 && metric == m && worstFirst == wf
    {
      metric, worstFirst := m, wf;
      data := new NodeScore[capacity](_ => NodeScore(0, 0.0));
      size := 0;
    }

    method Push(idx: nat, score: real)
      requires Valid()
      modifies this, data
      ensures Valid() && (data == old(data) || fresh(data))
      ensures size == old(size) + 1 && multiset(Items()) == old(multiset(Items())) + multiset{NodeScore(idx, score)}
    {
      if size == data.Length {
        Grow();
      }
      var x := NodeScore(idx, score);
      assert data[..size + 1] == old(Items()) + [data[size]];
      PushedOk(metric, worstFirst, old(Items()), data[size], x);
      size := size + 1;
      Rise(size - 1, x);
    }

    method Grow()
      requires Valid()
      modifies this`data
      ensures fresh(data) && data.Length == 2 * old(data.Length) && data[..size] == old(data[..size])
    {
      var bigger := new NodeScore[data.Length * 2](_ => NodeScore(0, 0.0));
      forall i | 0 <= i < size {
        bigger[i] := data[i];
      }
      data := bigger;
    }

    /** Moves parents down into the hole until `x` fits. */
    method Rise(hole: nat, x: NodeScore)
      requires hole < size <= data.Length
      modifies data
      ensures data[..size] == SiftUp(metric, worstFirst, old(data[..size]), hole, x)
    {
      var i: nat := hole;
      while i > 0
        invariant i <= hole
        invariant SiftUp(metric, worstFirst, data[..size], i, x) == SiftUp(metric, worstFirst, old(data[..size]), hole, x)
      {
        var p := (i - 1) / 2;
        if !HasPriority(metric, worstFirst, x.score, data[p].score) {
          break;
        }
        ghost var s := data[..size];
        data[i] := data[p];
        assert data[..size] == s[i := s[p]];
        i := p;
      }
      ghost var s := data[..size];
      data[i] := x;
      assert data[..size] == s[i := x];
    }

    /** Removes and returns the root: nothing in the heap has priority over it. */
    method Pop() returns (top: NodeScore)
      requires Valid() && size > 0
      modifies this, data
      ensures Valid() && data == old(data) && size == old(size) - 1
      ensures top == old(Items())[0] && forall k :: 0 <= k < old(size) ==> Above(metric, worstFirst, top, old(Items())[k])
      ensures multiset(Items()) == old(multiset(Items())) - multiset{top}
    {
      PoppedOk(metric, worstFirst, Items());
      top := data[0];
      TakeRoot();
    }

    method TakeRoot()
      requires 0 < size <= data.Length
      modifies this, data
      ensures data == old(data) && size == old(size) - 1
      ensures data[..size] == Popped(metric, worstFirst, old(data[..size]))
    {
      ghost var was := data[..size];
      size := size - 1;
      var last := data[size];
      assert data[..size] == was[..size];
      if size > 0 {
        Sink(last);
      } else {
        data[0] := last;
      }
    }

    /** Moves first children up into the hole at the root until `x` fits. */
    method Sink(x: NodeScore)
      requires 0 < size <= data.Length
      modifies data
      ensures data[..size] == SiftDown(metric, worstFirst, old(data[..size]), 0, x)
    {
      var i := 0;
      while i * 2 + 1 < size
        invariant i < size
        invariant SiftDown(metric, worstFirst, data[..size], i, x) == SiftDown(metric, worstFirst, old(data[..size]), 0, x)
      {
        var c := i * 2 + 1;
        if c + 1 < size && HasPriority(metric, worstFirst, data[c + 1].score, data[c].score) {
          c := c + 1;
        }
        assert c == FirstChild(metric, worstFirst, data[..size], i);
        if !HasPriority(metric, worstFirst, data[c].score, x.score) {
          break;
        }
        ghost var s := data[..size];
        data[i] := data[c];
        assert data[..size] == s[i := s[c]];
        i := c;
      }
      ghost var s := data[..size];
      data[i] := x;
      assert data[..size] == s[i := x];
    }
  }
}
