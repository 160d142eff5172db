/** The index of `libhnsw.c` as its callers see it. */
module HnswIndex {
  import opened Scores
  import opened ScoreHeap
  import opened LevelSearch
  import opened NeighborLists
  import opened BestFirst
  import opened Ranking
  import opened Descent
  import opened HnswBuild

  datatype Status = Done | Invalid | OutOfMemory

  datatype Hit = Hit(id: string, score: real)

  datatype Answer = Hits(hits: seq<Hit>) | NotBuilt

  /** What changed the index so far. */
  datatype Event = Added(rec: Record) | BuiltAgain

  ghost function AddedIn(log: seq<Event>): multiset<Record> {
    if log == [] then multiset{}
    else AddedIn(log[..|log| - 1]) + match log[|log| - 1] case Added(r) => multiset{r} case BuiltAgain => multiset{}
  }

  lemma {:induction false} BuildLogged(log: seq<Event>)
    ensures AddedIn(log + [BuiltAgain]) == AddedIn(log) && UpToDate(log + [BuiltAgain])
  {
    var next := log + [BuiltAgain];
    assert next[..|next| - 1] == log;
  }

  /** Nothing was added since the last successful build. */
  ghost predicate UpToDate(log: seq<Event>) {
    log != [] && log[|log| - 1].BuiltAgain?
  }

  // ---------- what a search delivers ----------

  predicate Passes(m: Metric, score: real, threshold: real) {
    if m.L2? then score <= threshold else score >= threshold
  }

  /** The nodes at most as far, or at least as similar, as the threshold. */
  ghost function Passing(m: Metric, score: Score, threshold: real, s: set<nat>): set<nat> {
    set v | v in s && if m.L2? then score(v) <= threshold else score(v) >= threshold
  }

  /** The hits are the `limit` best passing nodes of `cand`, best first, with their true scores. */
  ghost predicate BestHits(s: Space, g: Graph, q: Vector, limit: nat, threshold: real, cand: set<nat>, hits: seq<Hit>, which: seq<nat>) {
    var score := ScoreTo(s, Records(g), q);
    && |hits| == |which| && Distinct(which)
    && (forall k :: 0 <= k < |which| ==> which[k] < |g| && hits[k] == Hit(g[which[k]].id, s.dist(q, g[which[k]].vec)))
    && (forall k :: 0 <= k < |hits| ==> if s.metric.L2? then hits[k].score <= threshold else hits[k].score >= threshold)
    && (forall i, j :: 0 <= i < j < |hits| ==> !Worse(s.metric, hits[i].score, hits[j].score))
    && TopOf(s.metric, score, limit, Passing(s.metric, score, threshold, cand), SetOf(which))
  }

  ghost function AllNodes(n: nat): (r: set<nat>)
    ensures forall v :: v in r <==> 0 <= v < n
  {
    if n == 0 then {} else AllNodes(n - 1) + {n - 1}
  }

  /** Room for the wider of the index's setting and the limit, and for 64 at least. */
  function Largest(a: nat, b: nat, c: nat): (r: nat)
    ensures r >= a && r >= b && r >= c && (r == a || r == b || r == c)
  {
    if a >= b && a >= c then a else if b >= c then b else c
  }

  function Budget(efSearch: nat, limit: nat): nat {
    var ef := if efSearch < limit then limit else efSearch;
    if ef < 64 then 64 else ef
  }

  predicate Exhaustive(efSearch: nat, limit: nat, count: nat) {
    count <= Budget(efSearch, limit) || count <= 1024
  }

  /** Where the candidates come from: all items, or the best-first search on level 0 from
      a node the descent reached. */
  ghost predicate Candidates(s: Space, g: Graph, q: Vector, ef: nat, exhaustive: bool, entry: nat, cand: set<nat>) {
    var score := ScoreTo(s, Records(g), q);
    if exhaustive then cand == AllNodes(|g|)
    else exists from, visited :: NotWorse(s.metric, score, from, entry) && Found(g, 0, s.metric, score, ef, from, visited, cand)
  }

  /** The best hit is at least as good as the entry point, if that passes. */
  lemma NoWorseThanEntry(s: Space, g: Graph, q: Vector, limit: nat, threshold: real, ef: nat, exhaustive: bool, entry: nat,
                         cand: set<nat>, hits: seq<Hit>, which: seq<nat>)
    requires Candidates(s, g, q, ef, exhaustive, entry, cand) && entry < |g| && limit > 0 && ef > 0
    requires BestHits(s, g, q, limit, threshold, cand, hits, which)
    requires Passes(s.metric, ScoreTo(s, Records(g), q)(entry), threshold)
    ensures hits != [] && !Worse(s.metric, hits[0].score, ScoreTo(s, Records(g), q)(entry))
  {
    var score := ScoreTo(s, Records(g), q);
    var c := CandidateNotWorse(s, g, q, ef, exhaustive, entry, cand);
    var pass := Passing(s.metric, score, threshold, cand);
    assert c in pass;
    TopHasBest(s.metric, score, limit, pass, which, c);
  }

  lemma CandidateNotWorse(s: Space, g: Graph, q: Vector, ef: nat, exhaustive: bool, entry: nat, cand: set<nat>) returns (c: nat)
    requires Candidates(s, g, q, ef, exhaustive, entry, cand) && entry < |g| && ef > 0
    ensures c in cand && !Worse(s.metric, ScoreTo(s, Records(g), q)(c), ScoreTo(s, Records(g), q)(entry))
  {
    var score := ScoreTo(s, Records(g), q);
    if exhaustive {
      c := entry;
    } else {
      var from, visited :| NotWorse(s.metric, score, from, entry) && Found(g, 0, s.metric, score, ef, from, visited, cand);
      if from in cand {
        c := from;
      } else {
        assert cand != {};
        c :| c in cand;
      }
    }
  }

  lemma TopHasBest(m: Metric, score: Score, limit: nat, pass: set<nat>, which: seq<nat>, c: nat)
    requires limit > 0 && c in pass && TopOf(m, score, limit, pass, SetOf(which))
    requires forall i, j :: 0 <= i < j < |which| ==> !Worse(m, score(which[i]), score(which[j]))
    ensures which != [] && !Worse(m, score(which[0]), score(c))
  {
    assert which == [] ==> SetOf(which) == {};
    if which != [] {
      assert which[0] in SetOf(which);
      if c in SetOf(which) {
        var k :| 0 <= k < |which| && which[k] == c;
      }
    }
  }

  // ---------- writing the hits ----------

  /** In a ranking the nodes that pass come first. */
  lemma {:induction false} PassingFirst(m: Metric, threshold: real, s: seq<NodeScore>) returns (p: nat)
    requires Sorted(m, s)
    ensures p <= |s| && forall k :: 0 <= k < |s| ==> (Passes(m, s[k].score, threshold) <==> k < p)
  {
    p := |s|;
    while p > 0 && !Passes(m, s[p - 1].score, threshold)
      invariant p <= |s| && forall k :: p <= k < |s| ==> !Passes(m, s[k].score, threshold)
    {
      p := p - 1;
    }
    if p > 0 {
      forall k | 0 <= k < p - 1
        ensures Passes(m, s[k].score, threshold)
      {
        assert !Worse(m, s[k].score, s[p - 1].score);
      }
    }
  }

  lemma PrefixRanks(m: Metric, score: Score, threshold: real, cand: set<nat>, s: seq<NodeScore>, p: nat)
    requires Ranks(m, score, cand, s) && p <= |s|
    requires forall k :: 0 <= k < |s| ==> (Passes(m, s[k].score, threshold) <==> k < p)
    ensures Ranks(m, score, Passing(m, score, threshold, cand), s[..p])
  {
    var t := s[..p];
    forall v | v in Passing(m, score, threshold, cand)
      ensures NodeScore(v, score(v)) in t
    {
      var k :| 0 <= k < |s| && s[k] == NodeScore(v, score(v));
      assert t[k] == s[k];
    }
  }

  function Least(a: nat, b: nat): nat {
    if a < b then a else b
  }

  /** The nodes written so far are the first passing ones. */
  ghost predicate Written(s: seq<NodeScore>, n: nat, hits: seq<Hit>, which: seq<nat>, g: Graph)
    requires n <= |s|
  {
    && |hits| == |which| == n
    && forall k :: 0 <= k < n ==> s[k].idx < |g| && which[k] == s[k].idx && hits[k] == Hit(g[s[k].idx].id, s[k].score)
  }

  method Write(sp: Space, g: Graph, ranked: seq<NodeScore>, limit: nat, threshold: real, ghost p: nat)
    returns (hits: seq<Hit>, ghost which: seq<nat>)
    requires forall k :: 0 <= k < |ranked| ==> ranked[k].idx < |g|
    requires p <= |ranked| && forall k :: 0 <= k < |ranked| ==> (Passes(sp.metric, ranked[k].score, threshold) <==> k < p)
    ensures Written(ranked, Least(p, limit), hits, which, g)
  {
    hits, which := [], [];
    var i := 0;
    while i < |ranked| && |hits| < limit
      invariant i <= |ranked| && |hits| == Least(Least(i, p), limit)
      invariant Written(ranked, |hits|, hits, which, g)
    {
      if Passes(sp.metric, ranked[i].score, threshold) {
        hits := hits + [Hit(g[ranked[i].idx].id, ranked[i].score)];
        which := which + [ranked[i].idx];
      }
      i := i + 1;
    }
  }

  lemma WrittenIsBest(s: Space, g: Graph, q: Vector, limit: nat, threshold: real, cand: set<nat>, ranked: seq<NodeScore>, p: nat,
                      hits: seq<Hit>, which: seq<nat>)
    requires Ranks(s.metric, ScoreTo(s, Records(g), q), cand, ranked) && p <= |ranked|
    requires forall k :: 0 <= k < |ranked| ==> (Passes(s.metric, ranked[k].score, threshold) <==> k < p)
    requires Written(ranked, Least(p, limit), hits, which, g)
    ensures BestHits(s, g, q, limit, threshold, cand, hits, which)
  {
    var score, n := ScoreTo(s, Records(g), q), Least(p, limit);
    PrefixRanks(s.metric, score, threshold, cand, ranked, p);
    PrefixIsTop(s.metric, score, Passing(s.metric, score, threshold, cand), ranked[..p], limit);
    assert ranked[..p][..n] == ranked[..n];
    SameNames(ranked, n, which);
  }

  lemma SameNames(ranked: seq<NodeScore>, n: nat, which: seq<nat>)
    requires n <= |ranked| && |which| == n && forall k :: 0 <= k < n ==> which[k] == ranked[k].idx
    ensures SetOf(which) == Nodes(ranked[..n])
  {
    forall v | v in SetOf(which)
      ensures v in Nodes(ranked[..n])
    {
      var k :| 0 <= k < n && which[k] == v;
      assert ranked[..n][k].idx == v;
    }
    forall v | v in Nodes(ranked[..n])
      ensures v in SetOf(which)
    {
      var k :| 0 <= k < n && ranked[..n][k].idx == v;
      assert which[k] == v;
    }
  }

  // ---------- the candidates ----------

  /** Every item with its score. */
  method ScoreAll(n: nat, score: Score) returns (a: array<NodeScore>)
    ensures fresh(a) && multiset(a[..]) == Entries(AllNodes(n), score)
  {
    a := new NodeScore[n](_ => NodeScore(0, 0.0));
    for i := 0 to n
      invariant forall k :: 0 <= k < i ==> a[k] == NodeScore(k, score(k))
    {
      a[i] := NodeScore(i, score(i));
    }
    InOrder(a[..], n, score);
    assert a[..n] == a[..];
  }

  lemma {:induction false} InOrder(s: seq<NodeScore>, n: nat, score: Score)
    requires n <= |s| && forall k :: 0 <= k < n ==> s[k] == NodeScore(k, score(k))
    ensures multiset(s[..n]) == Entries(AllNodes(n), score)
  {
    if n > 0 {
      InOrder(s, n - 1, score);
      EntriesAdd(AllNodes(n - 1), score, n - 1);
      assert s[..n] == s[..n - 1] + [s[n - 1]];
    }
  }

  lemma DrainStep(done: seq<NodeScore>, rest: set<nat>, score: Score, x: NodeScore, s: set<nat>)
    requires multiset(done) + Entries(rest, score) == Entries(s, score) && x.idx in rest && x.score == score(x.idx)
    ensures multiset(done + [x]) + Entries(rest - {x.idx}, score) == Entries(s, score)
  {
    EntriesAdd(rest - {x.idx}, score, x.idx);
    assert rest - {x.idx} + {x.idx} == rest;
  }

  method DrainOne(h: Heap, score: Score, a: array<NodeScore>, i: nat, ghost rest: set<nat>, ghost s: set<nat>)
    returns (ghost left: set<nat>)
    requires HoldsNodes(h, rest, score) && h.size > 0 && i < a.Length && h.data != a
    requires multiset(a[..i]) + Entries(rest, score) == Entries(s, score)
    modifies h, h.data, a
    ensures HoldsNodes(h, left, score) && h.size == old(h.size) - 1 && h.data == old(h.data)
    ensures multiset(a[..i + 1]) + Entries(left, score) == Entries(s, score)
  {
    HeapSize(h, rest, score);
    var x := PopNode(h, score, rest);
    left := rest - {x.idx};
    HeapSize(h, left, score);
    DrainStep(a[..i], rest, score, x, s);
    a[i] := x;
    assert a[..i + 1] == a[..i] + [x];
  }

  /** Pops everything off a heap. */
  method Drain(h: Heap, score: Score, ghost s: set<nat>) returns (a: array<NodeScore>)
    requires HoldsNodes(h, s, score)
    modifies h, h.data
    ensures fresh(a) && multiset(a[..]) == Entries(s, score)
  {
    var n := h.size;
    a := new NodeScore[n](_ => NodeScore(0, 0.0));
    ghost var rest := s;
    for i := 0 to n
      invariant HoldsNodes(h, rest, score) && h.size == n - i && h.data == old(h.data) && h.data != a
      invariant multiset(a[..i]) + Entries(rest, score) == Entries(s, score)
    {
      rest := DrainOne(h, score, a, i, rest, s);
    }
    EntriesSize(rest, score);
    assert a[..n] == a[..];
  }

  // ---------- the index ----------

  class Index {
    const space: Space
    const efSearch: nat
    var items: Graph
    var maxLevel: int
    var entry: nat
    var entrySet: bool
    ghost var offers: Offers
    ghost var log: seq<Event>

    /** The items are those added, in some order; the graph is built if and only if nothing was
        added since the last build. */
    ghost predicate Valid()
      reads this
    {
      && multiset(Records(items)) == AddedIn(log)
      && (entrySet <==> UpToDate(log))
      && (entrySet ==> Built(space, items, offers, maxLevel, entry))
    }

    constructor (s: Space, ef: nat)
      requires ef > 0
      ensures Valid() && space == s && efSearch == ef && log == []
    {
      space, efSearch := s, ef;
      items, maxLevel, entry, entrySet := [], -1, 0, false;
      offers, log := map[], [];
    }

    method Add(id: string, vec: Vector, memory: bool) returns (st: Status)
      requires Valid()
      modifies this
      ensures Valid() && (st.Invalid? <==> id == "") && (st.OutOfMemory? <==> id != "" && !memory)
      ensures if st.Done? then log == old(log) + [Added(Record(id, vec))] else unchanged(this)
    {
      if id == "" {
        return Invalid;
      }
      if !memory {
        return OutOfMemory;
      }
      ghost var was := items;
      items := items + [Item(id, vec, -1, [])];
      assert Records(items) == Records(was) + [Record(id, vec)];
      entrySet, maxLevel := false, -1;
      log := log + [Added(Record(id, vec))];
      assert log[..|log| - 1] == old(log);
      return Done;
    }

    /** Builds on a temporary copy: a build that runs out of memory changes nothing. */
    method Build(draws: seq<nat>, rolls: nat -> nat -> real, memory: bool) returns (st: Status)
      requires Valid() && |draws| == |items|
      modifies this
      ensures Valid() && !st.Invalid? && (memory ==> st.Done?)
      ensures if st.Done? && |old(items)| > 0 then log == old(log) + [BuiltAgain] && entrySet else unchanged(this)
      ensures st.Done? ==> Records(items) == Shuffled(Records(old(items)), 0, draws) && Levelled(items, rolls, |items|)
    {
      if |items| == 0 {
        return Done;
      }
      var b, ok := BuildCopy(draws, rolls, memory);
      if !ok {
        return OutOfMemory;
      }
      Adopt(b);
      return Done;
    }

    /** The copy takes the place of the items. */
    method Adopt(b: Builder)
      requires multiset(Records(b.items)) == AddedIn(log)
      requires b.entrySet && Built(space, b.items, b.offers, b.maxLevel, b.entry)
      modifies this
      ensures Valid() && items == b.items && entrySet && log == old(log) + [BuiltAgain]
    {
      items, maxLevel, entry, entrySet := b.items, b.maxLevel, b.entry, b.entrySet;
      BuildLogged(log);
      offers, log := b.offers, log + [BuiltAgain];
    }

    method BuildCopy(draws: seq<nat>, rolls: nat -> nat -> real, memory: bool) returns (b: Builder, ok: bool)
      requires items != [] && |draws| == |items|
      ensures fresh(b) && (memory ==> ok)
      ensures ok ==> b.entrySet && Built(space, b.items, b.offers, b.maxLevel, b.entry)
      ensures ok ==> multiset(Records(b.items)) == multiset(Records(items))
      ensures ok ==> Records(b.items) == Shuffled(Records(items), 0, draws) && Levelled(b.items, rolls, |b.items|)
    {
      b := new Builder(space, items, memory);
      ok := memory;
      if !memory {
        ok := *;
      }
      if ok {
        ok := b.Run(draws, rolls);
      }
    }

    /** Candidates of the graph search. */
    method Explore(score: Score, ef: nat) returns (a: array<NodeScore>, ghost cand: set<nat>, ghost from: nat, ghost visited: set<nat>)
      requires Built(space, items, offers, maxLevel, entry) && ef > 0
      ensures fresh(a) && multiset(a[..]) == Entries(cand, score)
      ensures NotWorse(space.metric, score, from, entry) && Found(items, 0, space.metric, score, ef, from, visited, cand)
      ensures maxLevel > 0 ==> LocalBest(items, 1, space.metric, score, from)
    {
      forall l: nat
        ensures LevelOk(items, l)
      {
        LinkedLevels(space, items, offers, |items|, l);
      }
      var cur, dist := Descend(items, maxLevel, 0, space.metric, score, entry);
      from := cur;
      var top;
      top, visited, cand := SearchLevel(items, 0, space.metric, ef, score, cur);
      a := Drain(top, score, cand);
    }

    method Gather(q: Vector, limit: nat) returns (a: array<NodeScore>, ghost cand: set<nat>)
      requires Built(space, items, offers, maxLevel, entry)
      ensures fresh(a) && multiset(a[..]) == Entries(cand, ScoreTo(space, Records(items), q))
      ensures Candidates(space, items, q, Largest(efSearch, limit, 64), |items| <= 1024 || |items| <= Largest(efSearch, limit, 64), entry, cand)
    {
      assert Budget(efSearch, limit) == Largest(efSearch, limit, 64);
      var score, ef := ScoreTo(space, Records(items), q), Budget(efSearch, limit);
      if Exhaustive(efSearch, limit, |items|) {
        a := ScoreAll(|items|, score);
        cand := AllNodes(|items|);
      } else {
        ghost var from, visited;
        a, cand, from, visited := Explore(score, ef);
      }
    }

    method Search(q: Vector, limit: nat, threshold: real) returns (ans: Answer, ghost which: seq<nat>, ghost cand: set<nat>)
      requires Valid()
      ensures ans.NotBuilt? <==> limit > 0 && items != [] && !UpToDate(log)
      ensures limit == 0 || items == [] ==> ans == Hits([])
      ensures ans.Hits? && limit > 0 && items != [] ==>
                && Candidates(space, items, q, Largest(efSearch, limit, 64), |items| <= 1024 || |items| <= Largest(efSearch, limit, 64), entry, cand)
                && BestHits(space, items, q, limit, threshold, cand, ans.hits, which)
    {
      which, cand := [], {};
      if limit == 0 || |items| == 0 {
        return Hits([]), which, cand;
      }
      if !entrySet {
        return NotBuilt, which, cand;
      }
      var hits;
      hits, which, cand := SearchBuilt(q, limit, threshold);
      return Hits(hits), which, cand;
    }

    method SearchBuilt(q: Vector, limit: nat, threshold: real) returns (hits: seq<Hit>, ghost which: seq<nat>, ghost cand: set<nat>)
      requires Built(space, items, offers, maxLevel, entry)
      ensures Candidates(space, items, q, Largest(efSearch, limit, 64), |items| <= 1024 || |items| <= Largest(efSearch, limit, 64), entry, cand)
      ensures BestHits(space, items, q, limit, threshold, cand, hits, which)
    {
      var a;
      a, cand := Gather(q, limit);
      SortBestFirst(space.metric, a);
      RanksFrom(space.metric, ScoreTo(space, Records(items), q), cand, a[..]);
      ghost var ef := Largest(efSearch, limit, 64);
      CandidatesInside(space, items, q, ef, |items| <= 1024 || |items| <= ef, entry, cand);
      ghost var p := PassingFirst(space.metric, threshold, a[..]);
      hits, which := Write(space, items, a[..], limit, threshold, p);
      WrittenIsBest(space, items, q, limit, threshold, cand, a[..], p, hits, which);
    }
  }

  lemma CandidatesInside(s: Space, g: Graph, q: Vector, ef: nat, exhaustive: bool, entry: nat, cand: set<nat>)
    requires Candidates(s, g, q, ef, exhaustive, entry, cand)
    ensures forall v :: v in cand ==> v < |g|
  {
  }

  /** On the exhaustive path every item that passes and is not a hit finds the answer full
      of hits that are no worse. */
  lemma ExactWhenSmall(s: Space, g: Graph, q: Vector, limit: nat, threshold: real, efSearch: nat, entry: nat, cand: set<nat>,
                       hits: seq<Hit>, which: seq<nat>, v: nat)
    requires Exhaustive(efSearch, limit, |g|)
    requires Candidates(s, g, q, Budget(efSearch, limit), true, entry, cand)
    requires BestHits(s, g, q, limit, threshold, cand, hits, which)
    requires v < |g| && v !in which && Passes(s.metric, s.dist(q, g[v].vec), threshold)
    ensures |hits| == limit && forall k :: 0 <= k < |hits| ==> !Better(s.metric, s.dist(q, g[v].vec), hits[k].score)
  {
    var score := ScoreTo(s, Records(g), q);
    assert v in Passing(s.metric, score, threshold, cand) && v !in SetOf(which);
    DistinctCard(which);
    forall k | 0 <= k < |hits|
      ensures !Better(s.metric, s.dist(q, g[v].vec), hits[k].score)
    {
      assert which[k] in SetOf(which);
    }
  }
}
