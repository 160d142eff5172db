/** The planner's table of tensors, as a value, and the invariants it keeps: allocated
    tensors own live, pairwise separate ranges; counters mean what `RefCounts` says; and
    every step planned so far is safe. */
module PlannerState {
  import opened Alignment
  import opened FreeSpace
  import opened DynTallocr
  import opened Buffers
  import opened TensorGraph
  import opened RefCounts

  /** Buffer types by buffer id; the size of a tensor in a buffer type. */
  datatype Config = Config(bufts: seq<int>, align: int -> nat, size: (int, nat) -> nat)

  datatype HashNode = HashNode(nChildren: int, nViews: int, bufferId: nat, addr: Address, own: bool)

  const EMPTY := HashNode(0, 0, 0, Address(0, 0), false)

  type Table = seq<HashNode>

  ghost predicate ConfigOk(g: Graph, cfg: Config) {
    forall b: nat :: b < |cfg.bufts| ==>
      cfg.align(cfg.bufts[b]) > 0 && forall t: nat :: t < |g.tensors| ==> SizeOk(cfg, cfg.bufts[b], t)
  }

  ghost predicate SizeOk(cfg: Config, buft: int, t: nat) {
    cfg.align(buft) > 0 && cfg.size(buft, t) > 0 && Align(cfg.size(buft, t), cfg.align(buft)) <= HALF_MAX
  }

  function Buft(cfg: Config, h: HashNode): int {
    if h.bufferId < |cfg.bufts| then cfg.bufts[h.bufferId] else 0
  }

  /** Bytes reserved for `t` in a buffer type. */
  function Reserved(cfg: Config, buft: int, t: nat): (r: nat)
    ensures cfg.size(buft, t) <= r
  {
    if cfg.align(buft) > 0 then Align(cfg.size(buft, t), cfg.align(buft)) else cfg.size(buft, t)
  }

  function Extent(cfg: Config, h: HashNode, t: nat): Range {
    Range(h.addr.chunk, Block(h.addr.offset, Reserved(cfg, Buft(cfg, h), t)))
  }

  ghost predicate Holder(g: Graph, cfg: Config, h: HashNode, pools: Pools, t: nat) {
    && Owned(g, t) && Placed(cfg, h, pools, t)
    && LiveIn(pools, Buft(cfg, h), Extent(cfg, h, t))
    && cfg.align(Buft(cfg, h)) > 0 && h.addr.offset % cfg.align(Buft(cfg, h)) == 0
  }

  ghost predicate Placed(cfg: Config, h: HashNode, pools: Pools, t: nat) {
    h.bufferId < |cfg.bufts| && Below(pools, Buft(cfg, h), Extent(cfg, h, t))
  }

  predicate Clear(cfg: Config, h: HashNode, t: nat, k: HashNode, u: nat) {
    Buft(cfg, h) == Buft(cfg, k) ==> Separate(Extent(cfg, h, t), Extent(cfg, k, u))
  }

  /** Allocated tensors hold live ranges that are pairwise separate. */
  ghost predicate Consistent(g: Graph, cfg: Config, hn: Table, pools: Pools) {
    && |hn| == |g.tensors|
    && (forall t: nat :: t < |hn| && hn[t].own ==> Holder(g, cfg, hn[t], pools, t))
    && (forall t: nat, u: nat :: t < |hn| && u < |hn| && t != u && hn[t].own && hn[u].own ==>
          Clear(cfg, hn[t], t, hn[u], u))
  }

  predicate SameSlot(h: HashNode, k: HashNode) {
    h.bufferId == k.bufferId && h.addr == k.addr
  }

  // ---------- the three ways the table and the pools change together ----------

  function GivenSlot(h: HashNode, b: nat, addr: Address): HashNode {
    h.(own := true, bufferId := b, addr := addr)
  }

  /** A tensor gets a range of its own. */
  lemma FreshKeeps(g: Graph, cfg: Config, hn: Table, pools: Pools, pools': Pools, t: nat, b: nat, addr: Address)
    requires ConfigOk(g, cfg) && Consistent(g, cfg, hn, pools)
    requires Owned(g, t) && !hn[t].own && b < |cfg.bufts| && addr.offset % cfg.align(cfg.bufts[b]) == 0
    requires Grew(pools, pools', cfg.bufts[b], Range(addr.chunk, Block(addr.offset, Reserved(cfg, cfg.bufts[b], t))))
    ensures Consistent(g, cfg, hn[t := GivenSlot(hn[t], b, addr)], pools')
  {
    var hn' := hn[t := GivenSlot(hn[t], b, addr)];
    forall u: nat | u < |hn'| && hn'[u].own
      ensures Holder(g, cfg, hn'[u], pools', u)
      ensures u != t ==> Clear(cfg, hn'[t], t, hn'[u], u) && Clear(cfg, hn'[u], u, hn'[t], t)
    {
      if u != t {
        HolderStays(g, cfg, hn[u], pools, pools', u);
      }
    }
  }

  lemma HolderStays(g: Graph, cfg: Config, h: HashNode, pools: Pools, pools': Pools, u: nat)
    requires Holder(g, cfg, h, pools, u) && PoolsGrow(pools, pools')
    requires LiveIn(pools', Buft(cfg, h), Extent(cfg, h, u))
    ensures Holder(g, cfg, h, pools', u)
  {
    BelowStays(pools, pools', Buft(cfg, h), Extent(cfg, h, u));
  }

  /** The tail of `p`'s range that `t` does not need. */
  function Spare(cfg: Config, h: HashNode, p: nat, t: nat): Block
    requires Reserved(cfg, Buft(cfg, h), t) <= Reserved(cfg, Buft(cfg, h), p)
  {
    var keep := Reserved(cfg, Buft(cfg, h), t);
    Block(h.addr.offset + keep, Reserved(cfg, Buft(cfg, h), p) - keep)
  }

  function TakenOver(hn: Table, p: nat, t: nat): Table
    requires p < |hn| && t < |hn|
  {
    hn[t := GivenSlot(hn[t], hn[p].bufferId, hn[p].addr)][p := hn[p].(own := false)]
  }

  /** A tensor takes over its parent's range; what it does not need is freed. */
  lemma TakeOverKeeps(g: Graph, cfg: Config, hn: Table, pools: Pools, pools': Pools, p: nat, t: nat)
    requires ConfigOk(g, cfg) && Consistent(g, cfg, hn, pools)
    requires Owned(g, t) && !hn[t].own && p < |hn| && hn[p].own
    requires Reserved(cfg, Buft(cfg, hn[p]), t) <= Reserved(cfg, Buft(cfg, hn[p]), p)
    requires if Spare(cfg, hn[p], p, t).size == 0 then pools' == pools
             else Shrank(pools, pools', Buft(cfg, hn[p]), Extent(cfg, hn[p], p), Spare(cfg, hn[p], p, t))
    ensures p != t && Consistent(g, cfg, TakenOver(hn, p, t), pools')
  {
    var hn' := TakenOver(hn, p, t);
    TakerHolds(g, cfg, hn, pools, pools', p, t);
    forall u: nat | u < |hn'| && hn'[u].own && u != t
      ensures Holder(g, cfg, hn'[u], pools', u)
      ensures Clear(cfg, hn'[t], t, hn'[u], u) && Clear(cfg, hn'[u], u, hn'[t], t)
    {
      assert hn[u].own && u != p;
      assert Holder(g, cfg, hn[u], pools, u) && Clear(cfg, hn[p], p, hn[u], u);
      NotSame(g, cfg, hn, pools, p, u);
      assert PoolsGrow(pools, pools') by {
        PoolsGrowRefl(pools);
      }
      HolderStays(g, cfg, hn[u], pools, pools', u);
    }
  }

  lemma PoolsGrowRefl(pools: Pools)
    ensures PoolsGrow(pools, pools)
  {
  }

  /** Different holders of one buffer type have different ranges. */
  lemma NotSame(g: Graph, cfg: Config, hn: Table, pools: Pools, p: nat, u: nat)
    requires ConfigOk(g, cfg) && Consistent(g, cfg, hn, pools) && p < |hn| && u < |hn| && p != u
    requires hn[p].own && hn[u].own
    ensures Buft(cfg, hn[p]) == Buft(cfg, hn[u]) ==> Extent(cfg, hn[p], p) != Extent(cfg, hn[u], u)
  {
    assert Holder(g, cfg, hn[p], pools, p) && Holder(g, cfg, hn[u], pools, u) && Clear(cfg, hn[p], p, hn[u], u);
    assert SizeOk(cfg, cfg.bufts[hn[p].bufferId], p);
  }

  lemma TakerHolds(g: Graph, cfg: Config, hn: Table, pools: Pools, pools': Pools, p: nat, t: nat)
    requires ConfigOk(g, cfg) && Consistent(g, cfg, hn, pools)
    requires Owned(g, t) && !hn[t].own && p < |hn| && hn[p].own
    requires Reserved(cfg, Buft(cfg, hn[p]), t) <= Reserved(cfg, Buft(cfg, hn[p]), p)
    requires if Spare(cfg, hn[p], p, t).size == 0 then pools' == pools
             else Shrank(pools, pools', Buft(cfg, hn[p]), Extent(cfg, hn[p], p), Spare(cfg, hn[p], p, t))
    ensures p != t && Holder(g, cfg, TakenOver(hn, p, t)[t], pools', t)
  {
    var h' := TakenOver(hn, p, t)[t];
    assert Holder(g, cfg, hn[p], pools, p);
    assert SizeOk(cfg, cfg.bufts[hn[p].bufferId], t);
    var e, e' := Extent(cfg, hn[p], p), Extent(cfg, h', t);
    if Spare(cfg, hn[p], p, t).size == 0 {
      assert e' == e;
    } else {
      assert e' in Rest(e.chunk, e.block, Spare(cfg, hn[p], p, t));
      BelowStays(pools, pools', Buft(cfg, hn[p]), e);
    }
  }

  /** A tensor gives its range back. */
  lemma FreeKeeps(g: Graph, cfg: Config, hn: Table, pools: Pools, pools': Pools, t: nat)
    requires ConfigOk(g, cfg) && Consistent(g, cfg, hn, pools) && t < |hn| && hn[t].own
    requires Shrank(pools, pools', Buft(cfg, hn[t]), Extent(cfg, hn[t], t), Extent(cfg, hn[t], t).block)
    ensures Consistent(g, cfg, hn[t := hn[t].(own := false)], pools')
  {
    var hn' := hn[t := hn[t].(own := false)];
    forall u: nat | u < |hn'| && hn'[u].own
      ensures Holder(g, cfg, hn'[u], pools', u)
    {
      NotSame(g, cfg, hn, pools, t, u);
      HolderStays(g, cfg, hn[u], pools, pools', u);
    }
  }

  /** Counters do not matter to memory. */
  lemma CountersKeep(g: Graph, cfg: Config, hn: Table, hn': Table, pools: Pools)
    requires Consistent(g, cfg, hn, pools) && |hn'| == |hn|
    requires forall t :: 0 <= t < |hn| ==> SameSlot(hn'[t], hn[t]) && hn'[t].own == hn[t].own
    ensures Consistent(g, cfg, hn', pools)
  {
    forall t: nat | t < |hn'| && hn'[t].own
      ensures Holder(g, cfg, hn'[t], pools, t)
    {
      assert Holder(g, cfg, hn[t], pools, t);
    }
    forall t: nat, u: nat | t < |hn'| && u < |hn'| && t != u && hn'[t].own && hn'[u].own
      ensures Clear(cfg, hn'[t], t, hn'[u], u)
    {
      assert Clear(cfg, hn[t], t, hn[u], u);
    }
  }
}
