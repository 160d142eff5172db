/** The fallback all-reduce over any number of backends: fold the excess over a power of
    two in, exchange along a butterfly, copy the result back.

    Values are those of each backend's last node; `add` is the element-wise addition the
    backends run. Copies read their source when they are issued and fill a scratch buffer of
    their target; additions read that buffer when the step's graphs are computed.
 */
module AllReduce {
  import opened Wrappers
  import opened Bits

  /** The contents of a tensor. */
  type Value = seq<int>

  type Addition = (Value, Value) -> Value

  type Zeroing = Value -> Value

  predicate Commutes(add: Addition, x: Value, y: Value) {
    add(x, y) == add(y, x)
  }

  predicate Associates(add: Addition, x: Value, y: Value, z: Value) {
    add(add(x, y), z) == add(x, add(y, z))
  }

  ghost predicate Commutative(add: Addition) {
    forall x, y :: Commutes(add, x, y)
  }

  ghost predicate Associative(add: Addition) {
    forall x, y, z :: Associates(add, x, y, z)
  }

  /** The values added up from left to right. */
  function Sum(s: seq<Value>, add: Addition): Value
    requires |s| > 0
  {
    if |s| == 1 then s[0] else add(Sum(s[..|s| - 1], add), s[|s| - 1])
  }

  function Zip(a: seq<Value>, b: seq<Value>, add: Addition): seq<Value>
    requires |a| == |b|
  {
    seq(|a|, i requires 0 <= i < |a| => add(a[i], b[i]))
  }

  lemma {:induction false} SumConcat(a: seq<Value>, b: seq<Value>, add: Addition)
    requires |a| > 0 && |b| > 0 && Associative(add)
    ensures Sum(a + b, add) == add(Sum(a, add), Sum(b, add))
  {
    var s := a + b;
    assert s[..|s| - 1] == a + b[..|b| - 1];
    if |b| == 1 {
      assert a + b[..0] == a;
    } else {
      SumConcat(a, b[..|b| - 1], add);
      assert Associates(add, Sum(a, add), Sum(b[..|b| - 1], add), b[|b| - 1]);
    }
  }

  lemma {:induction false} SumZip(a: seq<Value>, b: seq<Value>, add: Addition)
    requires |a| == |b| > 0 && Associative(add) && Commutative(add)
    ensures Sum(Zip(a, b, add), add) == add(Sum(a, add), Sum(b, add))
  {
    var n := |a| - 1;
    if n > 0 {
      SumZip(a[..n], b[..n], add);
      assert Zip(a, b, add)[..n] == Zip(a[..n], b[..n], add);
      FourSwap(Sum(a[..n], add), Sum(b[..n], add), a[n], b[n], add);
    }
  }

  lemma FourSwap(x: Value, y: Value, u: Value, v: Value, add: Addition)
    requires Associative(add) && Commutative(add)
    ensures add(add(x, y), add(u, v)) == add(add(x, u), add(y, v))
  {
    assert Associates(add, x, y, add(u, v)) && Associates(add, y, u, v) && Commutes(add, y, u);
    assert Associates(add, u, y, v) && Associates(add, x, u, add(y, v));
  }

  // ---------- the three phases, as functions ----------

  /** Excess backends `p..` are added into the first ones. */
  function FoldIn(v: seq<Value>, p: nat, add: Addition): (r: seq<Value>)
    requires p <= |v| <= 2 * p
    ensures |r| == |v|
  {
    seq(|v|, j requires 0 <= j < |v| => if j + p < |v| then add(v[j], v[j + p]) else v[j])
  }

  /** Backends below `p` add their partner's value. */
  function Round(v: seq<Value>, p: nat, o: nat, add: Addition): (r: seq<Value>)
    ensures |r| == |v|
  {
    seq(|v|, j requires 0 <= j < |v| => if j < p && Xor(j, o) < |v| then add(v[j], v[Xor(j, o)]) else v[j])
  }

  function Rounds(v: seq<Value>, p: nat, k: nat, add: Addition): (r: seq<Value>)
    ensures |r| == |v|
    decreases k
  {
    if k == 0 then v else Rounds(Round(v, p, Pow2(k - 1), add), p, k - 1, add)
  }

  /** The excess backends get the result. */
  function CopyBack(v: seq<Value>, p: nat): (r: seq<Value>)
    requires p <= |v| <= 2 * p
    ensures |r| == |v|
  {
    seq(|v|, j requires 0 <= j < |v| => if j < p then v[j] else v[j - p])
  }

  function Reduced(v: seq<Value>, k: nat, add: Addition): seq<Value>
    requires Pow2(k) <= |v| <= 2 * Pow2(k)
  {
    CopyBack(Rounds(FoldIn(v, Pow2(k), add), Pow2(k), k, add), Pow2(k))
  }

  // ---------- what the butterfly computes ----------

  function Halve(h: seq<Value>, add: Addition): (r: seq<Value>)
    requires |h| % 2 == 0
    ensures |r| == |h| / 2
  {
    Zip(h[..|h| / 2], h[|h| / 2..], add)
  }

  /** The first `p` values repeat `h`. */
  ghost predicate Repeats(v: seq<Value>, p: nat, h: seq<Value>) {
    p <= |v| && |h| > 0 && forall j :: 0 <= j < p ==> v[j] == h[j % |h|]
  }

  /** One round: the values repeat half as long a sequence. This needs addition to
      commute, and nothing else. */
  lemma RoundHalves(v: seq<Value>, m: nat, k: nat, h: seq<Value>, add: Addition)
    requires Commutative(add) && k < m && |h| == Pow2(k + 1) && Repeats(v, Pow2(m), h)
    ensures Repeats(Round(v, Pow2(m), Pow2(k), add), Pow2(m), Halve(h, add))
  {
    var o, p, c := Pow2(k), Pow2(m), Pow2(m - k - 1);
    Pow2Product(m - k - 1, k + 1);
    var v', h' := Round(v, p, o, add), Halve(h, add);
    forall j | 0 <= j < p
      ensures v'[j] == h'[j % |h'|]
    {
      PartnerBelow(j, k, c);
      var x := Xor(j, o);
      assert v'[j] == add(v[j], v[x]);
      assert x % |h| == if j % |h| < o then j % |h| + o else j % |h| - o by {
        PartnerBack(j, k);
      }
      HalfMod(j, o);
      assert Commutes(add, h[j % |h|], h[x % |h|]);
    }
  }

  lemma {:induction false} RoundsHalve(v: seq<Value>, m: nat, k: nat, h: seq<Value>, add: Addition) returns (t: Value)
    requires Commutative(add) && k <= m && |h| == Pow2(k) && Repeats(v, Pow2(m), h)
    ensures forall j :: 0 <= j < Pow2(m) ==> Rounds(v, Pow2(m), k, add)[j] == t
    ensures Associative(add) ==> t == Sum(h, add)
    decreases k
  {
    if k == 0 {
      t := h[0];
    } else {
      RoundHalves(v, m, k - 1, h, add);
      t := RoundsHalve(Round(v, Pow2(m), Pow2(k - 1), add), m, k - 1, Halve(h, add), add);
      if Associative(add) {
        HalveSum(h, add);
      }
    }
  }

  lemma {:induction false} HalveSum(h: seq<Value>, add: Addition)
    requires |h| > 0 && |h| % 2 == 0 && Associative(add) && Commutative(add)
    ensures Sum(Halve(h, add), add) == Sum(h, add)
  {
    var n := |h| / 2;
    SumZip(h[..n], h[n..], add);
    SumConcat(h[..n], h[n..], add);
    assert h[..n] + h[n..] == h;
  }

  /** Folding the excess in keeps the sum. */
  lemma FoldInSum(v: seq<Value>, p: nat, add: Addition)
    requires 0 < p <= |v| < 2 * p && Associative(add) && Commutative(add)
    ensures Sum(FoldIn(v, p, add)[..p], add) == Sum(v, add)
  {
    var f := FoldIn(v, p, add)[..p];
    if |v| == p {
      assert f == v by {
        FoldInNothing(v, p, add);
      }
    } else {
      var a, b, c := Parts(v, p);
      assert f == Zip(a, c, add) + b by {
        FoldInParts(v, p, add);
      }
      SumThree(a, b, c, add);
    }
  }

  lemma Parts(v: seq<Value>, p: nat) returns (a: seq<Value>, b: seq<Value>, c: seq<Value>)
    requires 0 < p < |v| < 2 * p
    ensures a == v[..|v| - p] && b == v[|v| - p..p] && c == v[p..] && v == (a + b) + c
    ensures |a| == |c| > 0 && |b| > 0
  {
    a, b, c := v[..|v| - p], v[|v| - p..p], v[p..];
  }

  lemma FoldInNothing(v: seq<Value>, p: nat, add: Addition)
    requires 0 < p == |v|
    ensures FoldIn(v, p, add)[..p] == v
  {
    var f := FoldIn(v, p, add)[..p];
    forall j | 0 <= j < p
      ensures f[j] == v[j]
    {
    }
  }

  lemma FoldInParts(v: seq<Value>, p: nat, add: Addition)
    requires 0 < p <= |v| < 2 * p
    ensures FoldIn(v, p, add)[..p] == Zip(v[..|v| - p], v[p..], add) + v[|v| - p..p]
  {
    var f, g := FoldIn(v, p, add)[..p], Zip(v[..|v| - p], v[p..], add) + v[|v| - p..p];
    forall j | 0 <= j < p
      ensures f[j] == g[j]
    {
    }
  }

  lemma SumThree(a: seq<Value>, b: seq<Value>, c: seq<Value>, add: Addition)
    requires |a| == |c| > 0 && |b| > 0 && Associative(add) && Commutative(add)
    ensures Sum(Zip(a, c, add) + b, add) == Sum((a + b) + c, add)
  {
    SumConcat(Zip(a, c, add), b, add);
    SumZip(a, c, add);
    SumConcat(a + b, c, add);
    SumConcat(a, b, add);
    var x, y, z := Sum(a, add), Sum(b, add), Sum(c, add);
    assert Associates(add, x, z, y) && Commutes(add, z, y) && Associates(add, x, y, z);
  }

  /** The result of the all-reduce: all backends end with the same value if addition
      commutes, and with the sum of all starting values if it is also associative. */
  lemma ReducedIsSum(v: seq<Value>, k: nat, add: Addition)
    requires Pow2(k) <= |v| < 2 * Pow2(k) && Commutative(add)
    ensures forall i, j :: 0 <= i < |v| && 0 <= j < |v| ==> Reduced(v, k, add)[i] == Reduced(v, k, add)[j]
    ensures Associative(add) ==> forall j :: 0 <= j < |v| ==> Reduced(v, k, add)[j] == Sum(v, add)
  {
    var p := Pow2(k);
    var f := FoldIn(v, p, add);
    forall j | 0 <= j < p
      ensures f[j] == f[..p][j % p]
    {
      assert j % p == j by {
        Remainder(0, p, j);
      }
    }
    var t := RoundsHalve(f, k, k, f[..p], add);
    if Associative(add) {
      FoldInSum(v, p, add);
    }
  }

  // ---------- the reduction ----------

  /** Largest power of two not above half of `n`, found by counting down. */
  method HalfPower(n: nat) returns (offset: nat, ghost k: nat)
    requires n >= 2
    ensures offset == Pow2(k) && 2 * offset <= n < 4 * offset
  {
    offset := n / 2;
    while And(offset, offset - 1) != 0
      invariant 0 < offset <= n / 2
      invariant forall i: nat :: Pow2(i) <= n / 2 ==> Pow2(i) <= offset
      decreases offset
    {
      PowerTest(offset);
      assert offset > 1 by {
        assert Pow2(0) == 1;
      }
      offset := offset - 1;
    }
    PowerTest(offset);
    k :| offset == Pow2(k);
    assert Pow2(k + 1) == 2 * offset;
  }

  class Reducer {
    const add: Addition
    const steps: nat          // scratch buffers per backend
    const maxNodes: nat       // auxiliary tensors in the pool
    const maxGraphs: nat      // auxiliary graphs in the pool
    const vals: array<Value>      // value of each backend's last node
    var scratch: map<(nat, nat), Value>  // contents of the scratch buffers, by backend and number
    var pending: seq<Option<nat>>  // per backend: the scratch buffer its addition of this step reads
    var ina: nat
    var iga: nat
    ghost var filled: multiset<(nat, nat)>  // how often each scratch buffer was filled

    ghost predicate Valid()
      reads this
    {
      && |pending| == vals.Length && ina <= maxNodes && iga <= maxGraphs
      && forall j :: 0 <= j < |pending| && pending[j].Some? ==> (j, pending[j].value) in scratch
    }

    /** What the prepared addition of backend `j` will read. */
    ghost predicate WillAdd(j: nat, x: Value)
      reads this
    {
      && j < |pending| && pending[j].Some? && (j, pending[j].value) in scratch
      && scratch[(j, pending[j].value)] == x
    }

    constructor (values: array<Value>, addition: Addition, nodes: nat, graphs: nat)
      ensures Valid() && vals == values && add == addition && steps == CeilLog2(values.Length)
      ensures maxNodes == nodes && maxGraphs == graphs && ina == iga == 0 && filled == multiset{}
      ensures forall j :: 0 <= j < |pending| ==> pending[j].None?
    {
      vals, add := values, addition;
      steps, maxNodes, maxGraphs := CeilLog2(values.Length), nodes, graphs;
      scratch, pending := map[], seq(values.Length, _ => None);
      ina, iga := 0, 0;
      filled := multiset{};
    }

    /** Copies the value of `src` to a scratch buffer of `dst` and prepares the addition.
        The slot of `dst` must be free: that is the assertion of the source. */
    method PushData(src: nat, dst: nat, buf: nat)
      requires Valid() && src < vals.Length && dst < vals.Length && buf < steps
      requires pending[dst].None? && ina + 2 <= maxNodes && iga + 1 <= maxGraphs
      modifies this`scratch, this`pending, this`ina, this`iga, this`filled
      ensures Valid() && pending == old(pending)[dst := Some(buf)] && scratch == old(scratch)[(dst, buf) := vals[src]]
      ensures ina == old(ina) + 2 && iga == old(iga) + 1 && filled == old(filled) + multiset{(dst, buf)}
    {
      ina := ina + 2;
      scratch := scratch[(dst, buf) := vals[src]];
      pending := pending[dst := Some(buf)];
      iga := iga + 1;
      filled := filled + multiset{(dst, buf)};
    }

    /** Runs the prepared addition of backend `j`. */
    method Compute(j: nat)
      requires Valid() && j < vals.Length && pending[j].Some?
      modifies vals
      ensures vals[j] == add(old(vals[j]), scratch[(j, pending[j].value)])
      ensures forall i :: 0 <= i < vals.Length && i != j ==> vals[i] == old(vals[i])
    {
      vals[j] := add(vals[j], scratch[(j, pending[j].value)]);
    }

    method ClearStep()
      requires Valid()
      modifies this`pending
      ensures Valid() && forall j :: 0 <= j < |pending| ==> pending[j].None?
    {
      pending := seq(vals.Length, _ => None);
    }

    /** The subgraph leaves every backend's last node with its value. */
    method Load(values: seq<Value>)
      requires |values| == vals.Length
      modifies vals
      ensures vals[..] == values
    {
      forall j | 0 <= j < vals.Length {
        vals[j] := values[j];
      }
    }

    /** Zeroes the backends that did not compute their slice. */
    method ZeroDisabled(computed: seq<bool>, zeroed: Zeroing)
      requires Valid() && |computed| == vals.Length
      requires ina + vals.Length <= maxNodes && iga + vals.Length <= maxGraphs
      modifies this`ina, this`iga, vals
      ensures Valid() && ina == old(ina) + Idle(computed, |computed|) && iga == old(iga) + Idle(computed, |computed|)
      ensures forall j :: 0 <= j < vals.Length ==> vals[j] == if computed[j] then old(vals[j]) else zeroed(old(vals[j]))
    {
      for j := 0 to vals.Length
        invariant Valid() && ina == old(ina) + Idle(computed, j) && iga == old(iga) + Idle(computed, j)
        invariant forall i :: 0 <= i < j ==> vals[i] == if computed[i] then old(vals[i]) else zeroed(old(vals[i]))
        invariant forall i :: j <= i < vals.Length ==> vals[i] == old(vals[i])
      {
        if !computed[j] {
          ina, iga := ina + 1, iga + 1;
          vals[j] := zeroed(vals[j]);
        }
      }
    }

    method ZeroIdle(computed: seq<bool>, zeroed: Zeroing)
      requires Valid() && |computed| == vals.Length
      requires ina + vals.Length <= maxNodes && iga + vals.Length <= maxGraphs
      modifies this`ina, this`iga, vals
      ensures Valid() && ina <= old(ina) + vals.Length && iga <= old(iga) + vals.Length
      ensures vals[..] == Zeroed(old(vals[..]), computed, zeroed)
    {
      ZeroDisabled(computed, zeroed);
    }

    /** Adds the excess backends into the first ones, one after the other: the first through
        scratch buffer 0, the others through buffer 1. */
    method Fold(p: nat) returns (buf: nat)
      requires Valid() && p <= vals.Length <= 2 * p
      requires forall j :: 0 <= j < |pending| ==> pending[j].None?
      requires Min(vals.Length - p, 2) <= steps
      requires ina + 2 * (vals.Length - p) <= maxNodes && iga + (vals.Length - p) <= maxGraphs
      modifies this`scratch, this`pending, this`ina, this`iga, this`filled, vals
      ensures Valid() && vals[..] == FoldIn(old(vals[..]), p, add) && buf == Min(vals.Length - p, 1)
      ensures ina == old(ina) + 2 * (vals.Length - p) && iga == old(iga) + (vals.Length - p)
      ensures forall d: nat, b: nat :: filled[(d, b)] == old(filled)[(d, b)] + FoldFills(vals.Length - p, d, b)
    {
      buf := 0;
      assert forall d: nat, b: nat :: FoldFills(0, d, b) == 0;
      for src := p to vals.Length
        invariant Valid() && ina == old(ina) + 2 * (src - p) && iga == old(iga) + (src - p) && buf == Min(src - p, 1)
        invariant forall j :: 0 <= j < vals.Length ==>
                    vals[j] == if j + p < src then add(old(vals[j]), old(vals[j + p])) else old(vals[j])
        invariant forall j :: src - p <= j < |pending| ==> pending[j].None?
        invariant forall d: nat, b: nat :: filled[(d, b)] == old(filled)[(d, b)] + FoldFills(src - p, d, b)
      {
        AddInto(src, src - p, buf);
        buf := 1;
      }
    }

    method AddInto(src: nat, dst: nat, buf: nat)
      requires Valid() && src < vals.Length && dst < vals.Length && buf < steps
      requires pending[dst].None? && ina + 2 <= maxNodes && iga + 1 <= maxGraphs
      modifies this`scratch, this`pending, this`ina, this`iga, this`filled, vals
      ensures Valid() && pending == old(pending)[dst := Some(buf)] && vals[..] == old(vals[..])[dst := add(old(vals[dst]), old(vals[src]))]
      ensures ina == old(ina) + 2 && iga == old(iga) + 1 && filled == old(filled) + multiset{(dst, buf)}
    {
      PushData(src, dst, buf);
      Compute(dst);
    }

    /** One butterfly step: all copies are issued before any addition runs. */
    method Exchange(o: nat, p: nat, buf: nat)
      requires Valid() && Paired(p, o) && p <= vals.Length && buf < steps
      requires ina + 2 * p <= maxNodes && iga + p <= maxGraphs
      modifies this`scratch, this`pending, this`ina, this`iga, this`filled, vals
      ensures Valid() && vals[..] == Round(old(vals[..]), p, o, add)
      ensures ina == old(ina) + 2 * p && iga == old(iga) + p
      ensures forall d: nat, b: nat :: filled[(d, b)] == old(filled)[(d, b)] + if d < p && b == buf then 1 else 0
    {
      ClearStep();
      IssueCopies(o, p, buf);
      AddAll(p, Partners(vals[..], p, o));
    }

    method AddAll(p: nat, ghost operands: seq<Value>)
      requires Valid() && p == |operands| <= vals.Length && forall i :: 0 <= i < p ==> WillAdd(i, operands[i])
      modifies vals
      ensures forall i :: 0 <= i < vals.Length ==>
                vals[i] == if i < p then add(old(vals[i]), operands[i]) else old(vals[i])
    {
      for j := 0 to p
        invariant forall i :: 0 <= i < vals.Length ==>
                    vals[i] == if i < j then add(old(vals[i]), operands[i]) else old(vals[i])
      {
        assert WillAdd(j, operands[j]);
        Compute(j);
      }
    }

    /** No backend below `p` is sent to twice, since they are paired up. */
    method IssueCopies(o: nat, p: nat, buf: nat)
      requires Valid() && Paired(p, o) && p <= vals.Length && buf < steps
      requires ina + 2 * p <= maxNodes && iga + p <= maxGraphs
      requires forall j :: 0 <= j < |pending| ==> pending[j].None?
      modifies this`scratch, this`pending, this`ina, this`iga, this`filled
      ensures Valid() && ina == old(ina) + 2 * p && iga == old(iga) + p
      ensures forall i :: 0 <= i < p ==> WillAdd(i, vals[Xor(i, o)])
      ensures forall d: nat, b: nat :: filled[(d, b)] == old(filled)[(d, b)] + if d < p && b == buf then 1 else 0
    {
      for j := 0 to p
        invariant Valid() && ina == old(ina) + 2 * j && iga == old(iga) + j
        invariant forall i :: 0 <= i < p ==> if Xor(i, o) < j then WillAdd(i, vals[Xor(i, o)]) else pending[i].None?
        invariant forall d: nat, b: nat :: filled[(d, b)] == old(filled)[(d, b)] + if d < p && Xor(d, o) < j && b == buf then 1 else 0
      {
        var other := Xor(j, o);
        assert other < p && Xor(other, o) == j;
        if other < vals.Length {
          PushData(j, other, buf);
        }
      }
    }

    method CopyToExcess(p: nat)
      requires Valid() && p <= vals.Length <= 2 * p
      modifies vals
      ensures vals[..] == CopyBack(old(vals[..]), p)
    {
      for j := p to vals.Length
        invariant forall i :: 0 <= i < vals.Length ==> vals[i] == if p <= i < j then old(vals[i - p]) else old(vals[i])
      {
        vals[j] := vals[j - p];
      }
    }

    /** The whole all-reduce. It never runs out of scratch buffers, tensors or graphs. */
    method Run(computed: seq<bool>, zeroed: Zeroing) returns (buf: nat, ghost m: nat)
      requires Valid() && vals.Length >= 2 && |computed| == vals.Length && steps == CeilLog2(vals.Length)
      requires ina + NodeBudget(vals.Length) <= maxNodes && iga + GraphBudget(vals.Length) <= maxGraphs
      modifies this`scratch, this`pending, this`ina, this`iga, this`filled, vals
      ensures Valid() && AllReduced(Zeroed(old(vals[..]), computed, zeroed), vals[..], add)
      ensures ina <= old(ina) + NodeBudget(vals.Length) && iga <= old(iga) + GraphBudget(vals.Length)
      ensures buf == CeilLog2(vals.Length) && 0 < m && Pow2(m) <= vals.Length < 2 * Pow2(m)
      ensures forall d: nat, b: nat :: filled[(d, b)] == old(filled)[(d, b)] + Fills(vals.Length, m, d, b)
    {
      var offset; ghost var k;
      offset, k := HalfPower(vals.Length);
      m := k + 1;
      var p := 2 * offset;
      CallFits(vals.Length, m);
      ZeroIdle(computed, zeroed);
      ghost var v := vals[..];
      ClearStep();
      buf := Fold(p);
      buf := Butterfly(p, m, buf);
      CopyToExcess(p);
      assert vals[..] == Reduced(v, m, add);
      Delivered(v, m, add);
    }

    /** The rounds from offset `p / 2` down to 1, each through scratch buffers of its own. */
    method Butterfly(p: nat, ghost m: nat, buf: nat) returns (i_buf: nat)
      requires Valid() && p == Pow2(m) && 0 < m && p <= vals.Length && buf + m <= steps
      requires ina + 2 * Times(p, m) <= maxNodes && iga + Times(p, m) <= maxGraphs
      modifies this`scratch, this`pending, this`ina, this`iga, this`filled, vals
      ensures Valid() && vals[..] == Rounds(old(vals[..]), p, m, add)
      ensures ina == old(ina) + 2 * Times(p, m) && iga == old(iga) + Times(p, m) && i_buf == buf + m
      ensures forall d: nat, b: nat :: filled[(d, b)] == old(filled)[(d, b)] + if d < p && buf <= b < buf + m then 1 else 0
    {
      var offset := p / 2;
      ghost var k: nat := m;
      i_buf := buf;
      while offset >= 1
        invariant Valid() && k <= m && i_buf + k == buf + m
        invariant offset == HalfPow(k)
        invariant ina == old(ina) + 2 * Times(p, m - k) && iga == old(iga) + Times(p, m - k)
        invariant Rounds(vals[..], p, k, add) == Rounds(old(vals[..]), p, m, add)
        invariant forall d: nat, b: nat :: filled[(d, b)] == old(filled)[(d, b)] + if d < p && buf <= b < i_buf then 1 else 0
        decreases offset
      {
        PairedBelow(m, k - 1);
        TimesGrow(p, m - k + 1, m);
        Exchange(offset, p, i_buf);
        offset := offset / 2;
        i_buf := i_buf + 1;
        k := k - 1;
      }
    }
  }

  // ---------- scratch buffers ----------

  function Min(a: nat, b: nat): nat {
    if a < b then a else b
  }

  /** How often folding in `excess` backends fills scratch buffer `b` of backend `d`. */
  function FoldFills(excess: nat, d: nat, b: nat): nat {
    if d < excess && b == Min(d, 1) then 1 else 0
  }

  /** How often one call for `n` backends fills scratch buffer `b` of backend `d`: in the fold, and
      in one of the `m` rounds. */
  function Fills(n: nat, m: nat, d: nat, b: nat): nat
    requires Pow2(m) <= n
  {
    var first := Min(n - Pow2(m), 1);
    FoldFills(n - Pow2(m), d, b) + if d < Pow2(m) && first <= b < first + m then 1 else 0
  }

  /** There is a scratch buffer for each step, so that a copy need not wait for an addition that
      still reads an earlier one. That works out exactly when there is at most one excess backend:
      from the second on, the fold and the first round fill the same buffer. */
  lemma FilledOnceIff(n: nat, m: nat)
    requires 0 < m && Pow2(m) <= n < 2 * Pow2(m)
    ensures (forall d: nat, b: nat :: Fills(n, m, d, b) <= 1) <==> n <= Pow2(m) + 1
  {
    if n > Pow2(m) + 1 {
      assert Fills(n, m, 1, 1) == 2;
    }
  }

  /** Auxiliary tensors and graphs one call may take, per the pool sizes of the source. */
  function NodeBudget(n: nat): nat {
    3 * n * CeilLog2(n)
  }

  function GraphBudget(n: nat): nat {
    2 * n * CeilLog2(n)
  }

  /** Zeroing, folding and the butterfly stay within the budget of one call. */
  lemma CallFits(n: nat, m: nat)
    requires 0 < m && Pow2(m) <= n < 2 * Pow2(m)
    ensures CeilLog2(n) == m + if Pow2(m) < n then 1 else 0
    ensures n + 2 * (n - Pow2(m)) + 2 * Times(Pow2(m), m) <= NodeBudget(n)
    ensures n + (n - Pow2(m)) + Times(Pow2(m), m) <= GraphBudget(n)
  {
    var p := Pow2(m);
    if p < n {
      CeilLog2Is(n, m);
    } else {
      CeilLog2Is(n, m - 1);
    }
    TimesIs(p, m);
    Budget(n, p, m, CeilLog2(n));
  }

  lemma Budget(n: nat, p: nat, m: nat, c: nat)
    requires 0 < m && p <= n && c == m + if p < n then 1 else 0
    ensures n + 2 * (n - p) + 2 * (p * m) <= 3 * n * c
    ensures n + (n - p) + p * m <= 2 * n * c
  {
    ProductGrows(p, n, m);
    assert n <= n * m by {
      ProductGrows(1, m, n);
    }
    assert n * c == if p < n then n * m + n else n * m;
    BudgetLinear(n, p, p * m, n * m, n * c);
    assert 3 * n * c == 3 * (n * c) && 2 * n * c == 2 * (n * c);
  }

  lemma BudgetLinear(n: nat, p: nat, pm: nat, nm: nat, nc: nat)
    requires p <= n <= nm && pm <= nm && nc == if p < n then nm + n else nm
    ensures n + 2 * (n - p) + 2 * pm <= 3 * nc && n + (n - p) + pm <= 2 * nc
  {
  }

  /** How many of the first `n` backends did not compute their slice. */
  function Idle(computed: seq<bool>, n: nat): (k: nat)
    requires n <= |computed|
    ensures k <= n
  {
    if n == 0 then 0 else Idle(computed, n - 1) + if computed[n - 1] then 0 else 1
  }

  function Zeroed(v: seq<Value>, computed: seq<bool>, zeroed: Zeroing): (r: seq<Value>)
    requires |computed| == |v|
    ensures |r| == |v|
  {
    seq(|v|, j requires 0 <= j < |v| => if computed[j] then v[j] else zeroed(v[j]))
  }

  /** What an all-reduce delivers. */
  ghost predicate AllReduced(v: seq<Value>, v': seq<Value>, add: Addition) {
    && |v'| == |v|
    && (Commutative(add) ==> forall i, j :: 0 <= i < |v| && 0 <= j < |v| ==> v'[i] == v'[j])
    && (Commutative(add) && Associative(add) ==> forall j :: 0 <= j < |v| ==> v'[j] == Sum(v, add))
  }

  function HalfPow(k: nat): nat {
    if k == 0 then 0 else Pow2(k - 1)
  }

  /** `m` rounds of `p`. */
  function Times(p: nat, m: nat): nat {
    if m == 0 then 0 else Times(p, m - 1) + p
  }

  lemma {:induction false} TimesGrow(p: nat, l: nat, m: nat)
    requires l <= m
    ensures Times(p, l) <= Times(p, m)
  {
    if l < m {
      TimesGrow(p, l, m - 1);
    }
  }

  lemma {:induction false} TimesIs(p: nat, m: nat)
    ensures Times(p, m) == p * m
  {
    if m > 0 {
      TimesIs(p, m - 1);
      assert p * m == p * (m - 1) + p;
    }
  }

  lemma Delivered(v: seq<Value>, m: nat, add: Addition)
    requires Pow2(m) <= |v| < 2 * Pow2(m)
    ensures AllReduced(v, Reduced(v, m, add), add)
  {
    if Commutative(add) {
      ReducedIsSum(v, m, add);
    }
  }

  /** One graph computation: every subgraph but the last is followed by an all-reduce of
      its last nodes. Pools sized for `maxSub` subgraphs serve up to that many. */
  method ReduceAll(r: Reducer, outputs: seq<seq<Value>>, computed: seq<seq<bool>>, zeroed: Zeroing, ghost maxSub: nat)
    returns (reduced: seq<seq<Value>>)
    requires r.Valid() && r.vals.Length >= 2 && r.steps == CeilLog2(r.vals.Length) && r.ina == r.iga == 0
    requires 0 < |outputs| <= maxSub && |computed| == |outputs|
    requires forall i :: 0 <= i < |outputs| ==> |outputs[i]| == |computed[i]| == r.vals.Length
    requires Times(NodeBudget(r.vals.Length), maxSub) <= r.maxNodes && Times(GraphBudget(r.vals.Length), maxSub) <= r.maxGraphs
    modifies r, r.vals
    ensures |reduced| == |outputs| - 1
    ensures forall i :: 0 <= i < |reduced| ==> AllReduced(Zeroed(outputs[i], computed[i], zeroed), reduced[i], r.add)
  {
    reduced := [];
    for i := 0 to |outputs|
      invariant r.Valid() && |reduced| == if i < |outputs| then i else i - 1
      invariant r.ina <= Times(NodeBudget(r.vals.Length), i) && r.iga <= Times(GraphBudget(r.vals.Length), i)
      invariant forall j :: 0 <= j < |reduced| ==> AllReduced(Zeroed(outputs[j], computed[j], zeroed), reduced[j], r.add)
    {
      r.Load(outputs[i]);
      if i < |outputs| - 1 {
        var v := ReduceOne(r, outputs[i], computed[i], zeroed, i, maxSub);
        reduced := reduced + [v];
      }
    }
  }

  /** The all-reduce after subgraph `i`. */
  method ReduceOne(r: Reducer, output: seq<Value>, computed: seq<bool>, zeroed: Zeroing, ghost i: nat, ghost maxSub: nat)
    returns (v: seq<Value>)
    requires r.Valid() && r.vals.Length >= 2 && r.steps == CeilLog2(r.vals.Length) && i < maxSub
    requires |computed| == r.vals.Length && r.vals[..] == output
    requires r.ina <= Times(NodeBudget(r.vals.Length), i) && r.iga <= Times(GraphBudget(r.vals.Length), i)
    requires Times(NodeBudget(r.vals.Length), maxSub) <= r.maxNodes && Times(GraphBudget(r.vals.Length), maxSub) <= r.maxGraphs
    modifies r, r.vals
    ensures r.Valid() && |output| == |computed| && AllReduced(Zeroed(output, computed, zeroed), v, r.add)
    ensures r.ina <= Times(NodeBudget(r.vals.Length), i + 1) && r.iga <= Times(GraphBudget(r.vals.Length), i + 1)
  {
    TimesGrow(NodeBudget(r.vals.Length), i + 1, maxSub);
    TimesGrow(GraphBudget(r.vals.Length), i + 1, maxSub);
    var _, _ := r.Run(computed, zeroed);
    v := r.vals[..];
  }

  ghost function Partners(v: seq<Value>, p: nat, o: nat): (x: seq<Value>)
    requires Paired(p, o) && p <= |v|
    ensures |x| == p && forall i :: 0 <= i < p ==> x[i] == v[Xor(i, o)]
  {
    seq(p, i requires 0 <= i < p => v[Xor(i, o)])
  }

  /** Flipping the bit of `o` pairs up the numbers below `p`. */
  ghost predicate Paired(p: nat, o: nat) {
    forall i :: 0 <= i < p ==> Xor(i, o) < p && Xor(Xor(i, o), o) == i
  }

  lemma PairedBelow(m: nat, k: nat)
    requires k < m
    ensures Paired(Pow2(m), Pow2(k))
  {
    var c := Pow2(m - k - 1);
    Pow2Product(m - k - 1, k + 1);
    forall i | 0 <= i < Pow2(m)
      ensures Xor(i, Pow2(k)) < Pow2(m) && Xor(Xor(i, Pow2(k)), Pow2(k)) == i
    {
      PartnerBelow(i, k, c);
      PartnerBack(i, k);
    }
  }
}
