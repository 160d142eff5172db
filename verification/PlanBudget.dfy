/** What a graph asks of each buffer type, and the bounds under which planning it cannot fail:
    the bytes asked for stay below half the address space, so that the sixteenth chunk is never
    full, and the ranges asked for stay below the size of a free-block table. */
module PlanBudget {
  import opened Wrappers
  import opened DynTallocr
  import opened Buffers
  import opened TensorGraph
  import opened PlannerState

  /** Buffer ids for nodes and leafs; without a list every tensor goes to buffer 0. */
  function BufferId(ids: Option<seq<nat>>, i: nat): nat {
    if ids.Some? && i < |ids.value| then ids.value[i] else 0
  }

  ghost predicate IdsInRange(ids: Option<seq<nat>>, n: nat, nBuffers: nat) {
    nBuffers > 0 && (ids.Some? ==> |ids.value| == n && forall i :: 0 <= i < n ==> ids.value[i] < nBuffers)
  }

  /** The buffer type of the `i`-th tensor of a list. */
  function BuftAt(cfg: Config, ids: Option<seq<nat>>, i: nat): int {
    if BufferId(ids, i) < |cfg.bufts| then cfg.bufts[BufferId(ids, i)] else 0
  }

  // ---------- bounds ----------

  ghost predicate Affordable(s: Spent) {
    s.bytes <= HALF_MAX && s.ranges <= MAX_FREE_BLOCKS - 2
  }

  ghost predicate Solvent(l: Ledger) {
    forall t :: t in l ==> Affordable(l[t])
  }

  predicate AtMost(s: Spent, t: Spent) {
    s.bytes <= t.bytes && s.ranges <= t.ranges
  }

  /** `m` allows for everything in `l`. */
  ghost predicate Covers(m: Ledger, l: Ledger) {
    m.Keys == l.Keys && forall t :: t in l ==> AtMost(l[t], m[t])
  }

  lemma CoveredIsSolvent(m: Ledger, l: Ledger)
    requires Covers(m, l) && Solvent(m)
    ensures Solvent(l)
  {
  }

  // ---------- what is asked for ----------

  /** The nodes that are inputs are placed in the first pass, the others in the second. */
  datatype Pass = All | Inputs | Others

  predicate Due(g: Graph, t: nat, pass: Pass) {
    Owned(g, t) && (pass.Inputs? ==> g.tensors[t].input) && (pass.Others? ==> !g.tensors[t].input)
  }

  function Plus(s: Spent, t: Spent): Spent {
    Spent(s.bytes + t.bytes, s.ranges + t.ranges)
  }

  function Share(due: bool, bytes: nat): Spent {
    if due then Spent(bytes, 1) else Spent(0, 0)
  }

  /** The `i`-th tensor of a list needs memory of one buffer type. */
  predicate Asks(g: Graph, cfg: Config, ts: seq<nat>, ids: Option<seq<nat>>, pass: Pass, buft: int, i: nat)
    requires i < |ts|
  {
    Due(g, ts[i], pass) && BuftAt(cfg, ids, i) == buft
  }

  /** The aligned sizes, and the number, of the first `i` tensors of a list that need memory
      of one buffer type. */
  function Need(g: Graph, cfg: Config, ts: seq<nat>, ids: Option<seq<nat>>, pass: Pass, buft: int, i: nat): Spent
    requires i <= |ts|
  {
    if i == 0 then Spent(0, 0)
    else Plus(Need(g, cfg, ts, ids, pass, buft, i - 1), Share(Asks(g, cfg, ts, ids, pass, buft, i - 1), Reserved(cfg, buft, ts[i - 1])))
  }

  /** The books once those tensors have been served. */
  function Bill(base: Ledger, g: Graph, cfg: Config, ts: seq<nat>, ids: Option<seq<nat>>, pass: Pass, i: nat): Ledger
    requires i <= |ts|
  {
    map t | t in base :: Plus(base[t], Need(g, cfg, ts, ids, pass, t, i))
  }

  /** The books once one more tensor has been served. */
  function Next(l: Ledger, g: Graph, cfg: Config, t: nat, pass: Pass, buft: int): Ledger {
    if Due(g, t, pass) && buft in l then Charged(l, buft, Reserved(cfg, buft, t)) else l
  }

  lemma {:induction false} BillStarts(base: Ledger, g: Graph, cfg: Config, ts: seq<nat>, ids: Option<seq<nat>>, pass: Pass)
    ensures Bill(base, g, cfg, ts, ids, pass, 0) == base
  {
    assert forall t :: t in base ==> Plus(base[t], Need(g, cfg, ts, ids, pass, t, 0)) == base[t];
  }

  lemma NextCovered(base: Spent, l: Spent, l': Spent, need: Spent, asks: bool, bytes: nat)
    requires AtMost(l, Plus(base, need)) && l' == Plus(l, Share(asks, bytes))
    ensures AtMost(l', Plus(base, Plus(need, Share(asks, bytes))))
  {
  }

  lemma {:induction false} BillNext(base: Ledger, g: Graph, cfg: Config, ts: seq<nat>, ids: Option<seq<nat>>, pass: Pass, i: nat, l: Ledger)
    requires i < |ts| && Covers(Bill(base, g, cfg, ts, ids, pass, i), l)
    ensures Covers(Bill(base, g, cfg, ts, ids, pass, i + 1), Next(l, g, cfg, ts[i], pass, BuftAt(cfg, ids, i)))
  {
    var m, m' := Bill(base, g, cfg, ts, ids, pass, i), Bill(base, g, cfg, ts, ids, pass, i + 1);
    var l' := Next(l, g, cfg, ts[i], pass, BuftAt(cfg, ids, i));
    forall t | t in l'
      ensures AtMost(l'[t], m'[t])
    {
      assert t in m && AtMost(l[t], m[t]);
      NextCovered(base[t], l[t], l'[t], Need(g, cfg, ts, ids, pass, t, i), Asks(g, cfg, ts, ids, pass, t, i), Reserved(cfg, t, ts[i]));
    }
  }

  lemma CoversItself(l: Ledger)
    ensures Covers(l, l)
  {
  }

  lemma CoversTransitive(a: Ledger, b: Ledger, c: Ledger)
    requires Covers(a, b) && Covers(b, c)
    ensures Covers(a, c)
  {
    forall t | t in c
      ensures AtMost(c[t], a[t])
    {
      assert AtMost(c[t], b[t]) && AtMost(b[t], a[t]);
    }
  }

  lemma {:induction false} NeedGrows(g: Graph, cfg: Config, ts: seq<nat>, ids: Option<seq<nat>>, pass: Pass, buft: int, i: nat, j: nat)
    requires i <= j <= |ts|
    ensures AtMost(Need(g, cfg, ts, ids, pass, buft, i), Need(g, cfg, ts, ids, pass, buft, j))
  {
    if i < j {
      NeedGrows(g, cfg, ts, ids, pass, buft, i, j - 1);
    }
  }

  /** While the whole bill can be paid, every part of it can. */
  lemma {:induction false} PartIsSolvent(base: Ledger, g: Graph, cfg: Config, ts: seq<nat>, ids: Option<seq<nat>>, pass: Pass, i: nat, l: Ledger)
    requires i <= |ts| && Covers(Bill(base, g, cfg, ts, ids, pass, i), l)
    requires Solvent(Bill(base, g, cfg, ts, ids, pass, |ts|))
    ensures Solvent(l)
  {
    forall t | t in l
      ensures Affordable(l[t])
    {
      NeedGrows(g, cfg, ts, ids, pass, t, i, |ts|);
      assert t in Bill(base, g, cfg, ts, ids, pass, |ts|);
    }
  }

  lemma ShareSplits(i: Spent, o: Spent, all: bool, inputs: bool, others: bool, bytes: nat)
    requires (all <==> inputs || others) && !(inputs && others)
    ensures Plus(Plus(i, o), Share(all, bytes)) == Plus(Plus(i, Share(inputs, bytes)), Plus(o, Share(others, bytes)))
  {
  }

  lemma {:induction false} NeedSplits(g: Graph, cfg: Config, ts: seq<nat>, ids: Option<seq<nat>>, buft: int, i: nat)
    requires i <= |ts|
    ensures Need(g, cfg, ts, ids, All, buft, i) ==
            Plus(Need(g, cfg, ts, ids, Inputs, buft, i), Need(g, cfg, ts, ids, Others, buft, i))
  {
    if i > 0 {
      NeedSplits(g, cfg, ts, ids, buft, i - 1);
      var ins, others := Need(g, cfg, ts, ids, Inputs, buft, i - 1), Need(g, cfg, ts, ids, Others, buft, i - 1);
      ShareSplits(ins, others, Asks(g, cfg, ts, ids, All, buft, i - 1), Asks(g, cfg, ts, ids, Inputs, buft, i - 1),
                  Asks(g, cfg, ts, ids, Others, buft, i - 1), Reserved(cfg, buft, ts[i - 1]));
    }
  }

  /** Both passes together serve every node once. */
  lemma {:induction false} BillSplits(base: Ledger, g: Graph, cfg: Config, ts: seq<nat>, ids: Option<seq<nat>>)
    ensures Bill(Bill(base, g, cfg, ts, ids, Inputs, |ts|), g, cfg, ts, ids, Others, |ts|) == Bill(base, g, cfg, ts, ids, All, |ts|)
  {
    forall t | t in base
      ensures Need(g, cfg, ts, ids, All, t, |ts|) ==
              Plus(Need(g, cfg, ts, ids, Inputs, t, |ts|), Need(g, cfg, ts, ids, Others, t, |ts|))
    {
      NeedSplits(g, cfg, ts, ids, t, |ts|);
    }
  }

  // ---------- room for a whole graph ----------

  /** A node that may run in place of a source is not larger than the source. */
  ghost predicate InplaceFits(g: Graph, cfg: Config) {
    forall b: nat, t: nat, p: nat :: b < |cfg.bufts| && t < |g.tensors| && p < |g.tensors| && MayReplace(g, t, p) ==>
      cfg.size(cfg.bufts[b], t) <= cfg.size(cfg.bufts[b], p)
  }

  ghost predicate MayReplace(g: Graph, t: nat, p: nat)
    requires t < |g.tensors| && p < |g.tensors|
  {
    CanInplace(g.tensors[t].op) && p in g.tensors[t].src && g.tensors[t].layout == g.tensors[p].layout
  }

  /** The books once the whole graph has been served. */
  function Total(base: Ledger, g: Graph, cfg: Config, nodeIds: Option<seq<nat>>, leafIds: Option<seq<nat>>): Ledger {
    Bill(Bill(base, g, cfg, g.leafs, leafIds, All, |g.leafs|), g, cfg, g.nodes, nodeIds, All, |g.nodes|)
  }

  ghost predicate Room(base: Ledger, g: Graph, cfg: Config, nodeIds: Option<seq<nat>>, leafIds: Option<seq<nat>>) {
    InplaceFits(g, cfg) && Solvent(Total(base, g, cfg, nodeIds, leafIds))
  }

  /** What has room with a pass has room without it. */
  lemma {:induction false} RoomForPart(base: Ledger, g: Graph, cfg: Config, ts: seq<nat>, ids: Option<seq<nat>>, pass: Pass)
    ensures Solvent(Bill(base, g, cfg, ts, ids, pass, |ts|)) ==> Solvent(base)
  {
    if Solvent(Bill(base, g, cfg, ts, ids, pass, |ts|)) {
      BillStarts(base, g, cfg, ts, ids, pass);
      PartIsSolvent(base, g, cfg, ts, ids, pass, 0, base);
    }
  }

  /** One step of a pass stays within the bill, and goes through if the bill can be paid. */
  lemma {:induction false} StepIsBilled(base: Ledger, g: Graph, cfg: Config, ts: seq<nat>, ids: Option<seq<nat>>, pass: Pass, i: nat,
                                        l: Ledger, l': Ledger, ok: bool)
    requires i < |ts| && BufferId(ids, i) < |cfg.bufts| && Covers(Bill(base, g, cfg, ts, ids, pass, i), l)
    requires ok ==> Covers(Next(l, g, cfg, ts[i], pass, cfg.bufts[BufferId(ids, i)]), l')
    requires InplaceFits(g, cfg) && Solvent(Next(l, g, cfg, ts[i], pass, cfg.bufts[BufferId(ids, i)])) ==> ok
    ensures ok ==> Covers(Bill(base, g, cfg, ts, ids, pass, i + 1), l')
    ensures InplaceFits(g, cfg) && Solvent(Bill(base, g, cfg, ts, ids, pass, |ts|)) ==> ok
  {
    BillNext(base, g, cfg, ts, ids, pass, i, l);
    var next := Next(l, g, cfg, ts[i], pass, BuftAt(cfg, ids, i));
    if ok {
      CoversTransitive(Bill(base, g, cfg, ts, ids, pass, i + 1), next, l');
    } else if Solvent(Bill(base, g, cfg, ts, ids, pass, |ts|)) {
      PartIsSolvent(base, g, cfg, ts, ids, pass, i + 1, next);
    }
  }
}
