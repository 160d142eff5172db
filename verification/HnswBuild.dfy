/** Building the index of `libhnsw.c`: items are shuffled and inserted one by one. */
module HnswBuild {
  import opened Sets
  import opened Scores
  import opened ScoreHeap
  import opened LevelSearch
  import opened NeighborLists
  import opened BestFirst
  import opened Ranking
  import opened Descent

  const M: nat := 16
  const EF_CONSTRUCTION: nat := 64
  const TOP_LEVEL: nat := 16

  function Cap(l: nat): (c: nat)
    ensures c >= M
  {
    if l == 0 then 2 * M else M
  }

  type Distance = (Vector, Vector) -> real

  /** The score function of an index. */
  datatype Space = Space(metric: Metric, dist: Distance)

  datatype Record = Record(id: string, vec: Vector)

  function Records(g: Graph): (r: seq<Record>)
    ensures |r| == |g| && forall v :: 0 <= v < |g| ==> r[v] == Record(g[v].id, g[v].vec)
  {
    seq(|g|, v requires 0 <= v < |g| => Record(g[v].id, g[v].vec))
  }

  /** Scores of all records against one vector. */
  function ScoreTo(s: Space, recs: seq<Record>, q: Vector): Score {
    (v: nat) => if v < |recs| then s.dist(q, recs[v].vec) else 0.0
  }

  // ---------- the invariant ----------

  /** Which nodes were ever offered to the list of node `v` on level `l`. */
  type Offers = map<(nat, nat), set<nat>>

  function Offered(o: Offers, v: nat, l: nat): set<nat> {
    if (v, l) in o then o[(v, l)] else {}
  }

  /** The first `n` items are inserted. */
  ghost predicate Shaped(g: Graph, n: nat) {
    forall v :: 0 <= v < |g| ==>
      if v < n then g[v].level >= 0 && |g[v].neighbors| == g[v].level + 1
      else g[v].level == -1 && g[v].neighbors == []
  }

  /** The list keeps the best of what it was offered: other nodes of the level. */
  ghost predicate ListOk(s: Space, recs: seq<Record>, g: Graph, o: Offers, v: nat, l: nat)
    requires v < |recs|
  {
    && KeepsBest(s.metric, ScoreTo(s, recs, recs[v].vec), Cap(l), Offered(o, v, l), Neighbors(g, l, v))
    && (forall t :: t in Offered(o, v, l) ==> t != v && OnLevel(g, l, t))
  }

  ghost predicate ListsOk(s: Space, recs: seq<Record>, g: Graph, o: Offers)
    requires |recs| == |g|
  {
    forall v: nat, l: nat :: ListAt(s, recs, g, o, v, l)
  }

  /** Only nodes of the level have been offered anything. */
  ghost predicate ListAt(s: Space, recs: seq<Record>, g: Graph, o: Offers, v: nat, l: nat)
    requires |recs| == |g|
  {
    if OnLevel(g, l, v) then ListOk(s, recs, g, o, v, l) else Offered(o, v, l) == {}
  }

  /** The entry point is on the top level. */
  ghost predicate EntryOk(g: Graph, n: nat, maxLevel: int, entry: nat) {
    && entry < n <= |g| && g[entry].level == maxLevel
    && forall v :: 0 <= v < n ==> g[v].level <= maxLevel
  }

  ghost predicate Linked(s: Space, g: Graph, o: Offers, n: nat) {
    n <= |g| && Shaped(g, n) && ListsOk(s, Records(g), g, o)
  }

  /** What the invariant says about one list. */
  lemma LinkedList(s: Space, g: Graph, o: Offers, n: nat, v: nat, l: nat)
    requires Linked(s, g, o, n) && OnLevel(g, l, v)
    ensures v < n && Distinct(Neighbors(g, l, v)) && |Neighbors(g, l, v)| <= if l == 0 then 32 else 16
    ensures forall k :: 0 <= k < |Neighbors(g, l, v)| ==>
              var t := Neighbors(g, l, v)[k]; t != v && t < n && g[t].level >= l
    ensures TopOf(s.metric, ScoreTo(s, Records(g), g[v].vec), Cap(l), Offered(o, v, l), SetOf(Neighbors(g, l, v)))
  {
    var recs, ns := Records(g), Neighbors(g, l, v);
    assert ListAt(s, recs, g, o, v, l);
    KeepsBestSize(s.metric, ScoreTo(s, recs, recs[v].vec), Cap(l), Offered(o, v, l), ns);
    forall k | 0 <= k < |ns|
      ensures ns[k] != v && ns[k] < n && g[ns[k]].level >= l
    {
      assert ns[k] in SetOf(ns);
    }
  }

  lemma LinkedLevels(s: Space, g: Graph, o: Offers, n: nat, l: nat)
    requires Linked(s, g, o, n)
    ensures LevelOk(g, l)
  {
    forall v: nat, k | OnLevel(g, l, v) && 0 <= k < |Neighbors(g, l, v)|
      ensures OnLevel(g, l, Neighbors(g, l, v)[k])
    {
      LinkedList(s, g, o, n, v, l);
    }
  }

  // ---------- one list changes ----------

  function WithList(g: Graph, v: nat, l: nat, list: seq<nat>): (r: Graph)
    requires OnLevel(g, l, v)
    ensures |r| == |g| && Records(r) == Records(g)
    ensures forall u :: 0 <= u < |g| ==> r[u].level == g[u].level && |r[u].neighbors| == |g[u].neighbors|
  {
    var r := g[v := g[v].(neighbors := g[v].neighbors[l := list])];
    assert Records(r) == Records(g);
    r
  }

  lemma WithListReads(g: Graph, v: nat, l: nat, list: seq<nat>, u: nat, k: nat)
    requires OnLevel(g, l, v)
    ensures OnLevel(WithList(g, v, l, list), k, u) == OnLevel(g, k, u)
    ensures Neighbors(WithList(g, v, l, list), k, u) == if (u, k) == (v, l) then list else Neighbors(g, k, u)
  {
  }

  lemma WithListLinked(s: Space, g: Graph, o: Offers, n: nat, v: nat, l: nat, list: seq<nat>, t: nat)
    requires Linked(s, g, o, n) && OnLevel(g, l, v) && OnLevel(g, l, t) && t != v
    requires KeepsBest(s.metric, ScoreTo(s, Records(g), g[v].vec), Cap(l), Offered(o, v, l) + {t}, list)
    ensures Linked(s, WithList(g, v, l, list), o[(v, l) := Offered(o, v, l) + {t}], n)
  {
    var g', o', recs := WithList(g, v, l, list), o[(v, l) := Offered(o, v, l) + {t}], Records(g);
    forall u: nat, k: nat
      ensures ListAt(s, recs, g', o', u, k)
    {
      WithListReads(g, v, l, list, u, k);
      assert ListAt(s, recs, g, o, u, k);
      if OnLevel(g, k, u) {
        WithListOne(s, g, o, v, l, list, t, u, k);
      }
    }
  }

  lemma WithListOne(s: Space, g: Graph, o: Offers, v: nat, l: nat, list: seq<nat>, t: nat, u: nat, k: nat)
    requires OnLevel(g, l, v) && OnLevel(g, l, t) && t != v && OnLevel(g, k, u)
    requires ListOk(s, Records(g), g, o, u, k)
    requires KeepsBest(s.metric, ScoreTo(s, Records(g), g[v].vec), Cap(l), Offered(o, v, l) + {t}, list)
    ensures ListOk(s, Records(g), WithList(g, v, l, list), o[(v, l) := Offered(o, v, l) + {t}], u, k)
  {
    var g', o' := WithList(g, v, l, list), o[(v, l) := Offered(o, v, l) + {t}];
    WithListReads(g, v, l, list, u, k);
    forall w | w in Offered(o', u, k)
      ensures w != u && OnLevel(g', k, w)
    {
      WithListReads(g, v, l, list, w, k);
    }
  }

  // ---------- a node comes in ----------

  function Placed(g: Graph, i: nat, level: nat): (r: Graph)
    requires i < |g|
    ensures |r| == |g| && Records(r) == Records(g)
  {
    var r := g[i := g[i].(level := level, neighbors := seq(level + 1, _ => []))];
    assert Records(r) == Records(g);
    r
  }

  lemma PlacedLinked(s: Space, g: Graph, o: Offers, i: nat, level: nat)
    requires i < |g| && Linked(s, g, o, i)
    ensures Linked(s, Placed(g, i, level), o, i + 1)
    ensures forall l: nat :: Untouched(o, i, l)
  {
    var g', recs := Placed(g, i, level), Records(g);
    forall v: nat, l: nat
      ensures ListAt(s, recs, g', o, v, l)
    {
      assert ListAt(s, recs, g, o, v, l);
      if v == i {
        assert !OnLevel(g, l, i);
        assert SetOf([]) == {};
      }
    }
    forall l: nat
      ensures Untouched(o, i, l)
    {
      forall v: nat, k: nat | k <= l
        ensures i !in Offered(o, v, k) && Offered(o, i, k) == {}
      {
        assert !OnLevel(g, k, i);
        assert ListAt(s, recs, g, o, v, k) && ListAt(s, recs, g, o, i, k);
      }
    }
  }

  /** No offer on level `l` or below involves node `i`. */
  ghost predicate Untouched(o: Offers, i: nat, l: int) {
    forall v: nat, k: nat :: k <= l ==> i !in Offered(o, v, k) && Offered(o, i, k) == {}
  }

  lemma {:induction false} PathAvoids(g: Graph, l: nat, p: seq<nat>, i: nat, k: nat)
    requires Path(g, l, p) && k < |p| && p[0] != i
    requires forall v: nat :: i !in Neighbors(g, l, v)
    ensures p[k] != i
  {
    if k > 0 {
      assert EdgeAt(g, l, p, k - 1);
    }
  }

  /** The search for the new node's neighbours cannot find the new node itself. */
  lemma SearchAvoids(s: Space, g: Graph, o: Offers, n: nat, l: nat, i: nat, from: nat, v: nat)
    requires Linked(s, g, o, n) && Untouched(o, i, l) && from != i && Reachable(g, l, from, v)
    ensures v != i
  {
    forall u: nat
      ensures i !in Neighbors(g, l, u)
    {
      if OnLevel(g, l, u) {
        assert ListAt(s, Records(g), g, o, u, l);
        assert i !in Offered(o, u, l);
        assert i !in SetOf(Neighbors(g, l, u));
      }
    }
    var p :| Path(g, l, p) && p[0] == from && p[|p| - 1] == v;
    PathAvoids(g, l, p, i, |p| - 1);
  }

  // ---------- building ----------

  /** Only lists differ. */
  ghost predicate SameNodes(g: Graph, h: Graph) {
    && |g| == |h| && Records(g) == Records(h)
    && forall v :: 0 <= v < |g| ==> h[v].level == g[v].level && |h[v].neighbors| == |g[v].neighbors|
  }

  lemma SameNodesAgain(f: Graph, g: Graph, h: Graph)
    requires SameNodes(f, g) && SameNodes(g, h)
    ensures SameNodes(f, h)
  {
  }

  lemma SameLevels(g: Graph, h: Graph, l: nat, v: nat)
    requires SameNodes(g, h)
    ensures OnLevel(h, l, v) == OnLevel(g, l, v)
  {
  }

  /** The list of the new node on a level: the 16 best of what a search from `from`, with room for 64, found
      there; the best of all is `next`. */
  ghost predicate NearestFound(s: Space, g: Graph, l: nat, i: nat, from: nat, next: nat, list: seq<nat>)
    requires i < |g|
  {
    var score := ScoreTo(s, Records(g), g[i].vec);
    exists visited, found ::
      && Found(g, l, s.metric, score, 64, from, visited, found) && TopOf(s.metric, score, 16, found, SetOf(list))
      && BestOf(s.metric, score, found, next)
  }

  ghost predicate BestOf(m: Metric, score: Score, found: set<nat>, v: nat) {
    v in found && forall u :: u in found ==> !Better(m, score(u), score(v))
  }

  lemma FirstIsBest(m: Metric, score: Score, found: set<nat>, near: seq<NodeScore>)
    requires Ranks(m, score, found, near) && near != []
    ensures BestOf(m, score, found, near[0].idx)
  {
    forall u | u in found
      ensures !Better(m, score(u), score(near[0].idx))
    {
      var k :| 0 <= k < |near| && near[k] == NodeScore(u, score(u));
      assert k > 0 ==> !Worse(m, near[0].score, near[k].score);
    }
  }

  /** A search sees only the lists of its level. */
  lemma SameFound(g: Graph, h: Graph, l: nat, m: Metric, score: Score, ef: nat, from: nat, visited: set<nat>, found: set<nat>)
    requires SameNodes(g, h) && (forall v: nat :: Neighbors(h, l, v) == Neighbors(g, l, v))
    requires Found(g, l, m, score, ef, from, visited, found)
    ensures Found(h, l, m, score, ef, from, visited, found)
  {
    forall v | v in visited
      ensures OnLevel(h, l, v) && Reachable(h, l, from, v)
    {
      SameLevels(g, h, l, v);
      var p :| Path(g, l, p) && p[0] == from && p[|p| - 1] == v;
      assert Path(h, l, p) by {
        forall k | 0 <= k < |p| - 1
          ensures EdgeAt(h, l, p, k)
        {
          assert EdgeAt(g, l, p, k);
        }
      }
    }
  }

  lemma SameNearest(s: Space, g: Graph, h: Graph, l: nat, i: nat, from: nat, next: nat, list: seq<nat>)
    requires SameNodes(g, h) && i < |g| && (forall v: nat :: Neighbors(h, l, v) == Neighbors(g, l, v))
    requires NearestFound(s, g, l, i, from, next, list)
    ensures NearestFound(s, h, l, i, from, next, list)
  {
    var score := ScoreTo(s, Records(g), g[i].vec);
    assert Records(h)[i].vec == Records(g)[i].vec;
    var visited, found :| && Found(g, l, s.metric, score, 64, from, visited, found) && TopOf(s.metric, score, 16, found, SetOf(list))
                          && BestOf(s.metric, score, found, next);
    SameFound(g, h, l, s.metric, score, 64, from, visited, found);
  }

  lemma ShortListKeepsAll(m: Metric, score: Score, cap: nat, offered: set<nat>, list: seq<nat>)
    requires KeepsBest(m, score, cap, offered, list) && |offered| <= cap
    ensures SetOf(list) == offered
  {
    DistinctCard(list);
    if SetOf(list) != offered {
      StrictSubsetSize(SetOf(list), offered);
    }
  }

  /** Node `i` and the nodes of `s` were offered to each other on level `l`; nothing else was offered. */
  ghost predicate Offering(o: Offers, o': Offers, i: nat, l: nat, s: set<nat>) {
    forall v: nat, k: nat {:trigger Offered(o', v, k)} :: Offered(o', v, k) == Offered(o, v, k) + Extra(i, l, s, v, k)
  }

  ghost function Extra(i: nat, l: nat, s: set<nat>, v: nat, k: nat): set<nat> {
    if k != l then {} else if v == i then s else if v in s then {i} else {}
  }

  function OneMore(o: Offers, v: nat, l: nat, t: nat): Offers {
    o[(v, l) := Offered(o, v, l) + {t}]
  }

  /** The offers after node `i` was joined to the first `k` nodes of `near`. */
  ghost function OfferFirst(o: Offers, i: nat, l: nat, near: seq<NodeScore>, k: nat): Offers
    requires k <= |near|
  {
    if k == 0 then o
    else OneMore(OneMore(OfferFirst(o, i, l, near, k - 1), i, l, near[k - 1].idx), near[k - 1].idx, l, i)
  }

  lemma {:induction false} OfferFirstIs(o: Offers, i: nat, l: nat, near: seq<NodeScore>, k: nat)
    requires k <= |near| && forall j :: 0 <= j < |near| ==> near[j].idx != i
    ensures Offering(o, OfferFirst(o, i, l, near, k), i, l, Nodes(near[..k]))
  {
    if k == 0 {
      assert Nodes(near[..0]) == {};
    } else {
      OfferFirstIs(o, i, l, near, k - 1);
      OfferingNext(o, OfferFirst(o, i, l, near, k - 1), i, l, Nodes(near[..k - 1]), near[k - 1].idx);
      NodesNext(near, k - 1);
    }
  }

  lemma OfferingNext(o: Offers, o': Offers, i: nat, l: nat, s: set<nat>, v: nat)
    requires Offering(o, o', i, l, s) && v != i
    ensures Offering(o, OneMore(OneMore(o', i, l, v), v, l, i), i, l, s + {v})
  {
    var p := OneMore(OneMore(o', i, l, v), v, l, i);
    forall u: nat, k: nat
      ensures Offered(p, u, k) == Offered(o, u, k) + Extra(i, l, s + {v}, u, k)
    {
      assert Offered(o', u, k) == Offered(o, u, k) + Extra(i, l, s, u, k);
    }
  }

  lemma OfferingUntouched(o: Offers, o': Offers, i: nat, l: nat, s: set<nat>)
    requires Offering(o, o', i, l, s) && Untouched(o, i, l)
    ensures Untouched(o', i, l - 1) && Offered(o', i, l) == s
  {
    forall u: nat, k: nat | k <= l - 1
      ensures i !in Offered(o', u, k) && Offered(o', i, k) == {}
    {
      assert Offered(o', u, k) == Offered(o, u, k) + Extra(i, l, s, u, k);
      assert Offered(o', i, k) == Offered(o, i, k) + Extra(i, l, s, i, k);
    }
    assert Offered(o', i, l) == Offered(o, i, l) + Extra(i, l, s, i, l);
  }

  /** Lists of other levels stay as they are. */
  ghost predicate OtherLists(g: Graph, h: Graph, l: nat) {
    forall v: nat, k: nat {:trigger Neighbors(h, k, v)} :: k != l ==> Neighbors(h, k, v) == Neighbors(g, k, v)
  }

  lemma OtherListsAgain(f: Graph, g: Graph, h: Graph, l: nat)
    requires OtherLists(f, g, l) && OtherLists(g, h, l)
    ensures OtherLists(f, h, l)
  {
  }

  ghost predicate Joinable(g: Graph, l: nat, i: nat, near: seq<NodeScore>) {
    OnLevel(g, l, i) && forall k :: 0 <= k < |near| ==> near[k].idx != i && OnLevel(g, l, near[k].idx)
  }

  lemma CanJoin(g: Graph, h: Graph, l: nat, i: nat, near: seq<NodeScore>, k: nat)
    requires Joinable(g, l, i, near) && SameNodes(g, h) && k < |near|
    ensures OnLevel(h, l, i) && near[k].idx != i && OnLevel(h, l, near[k].idx)
  {
  }

  /** Nodes found on a level can be joined to the new node. */
  lemma FoundCanJoin(s: Space, g: Graph, o: Offers, n: nat, l: nat, i: nat, from: nat, score: Score, visited: set<nat>,
                     found: set<nat>, near: seq<NodeScore>)
    requires Linked(s, g, o, n) && Untouched(o, i, l) && from != i && OnLevel(g, l, i)
    requires Found(g, l, s.metric, score, EF_CONSTRUCTION, from, visited, found) && Ranks(s.metric, score, found, near)
    ensures Joinable(g, l, i, near)
  {
    forall k | 0 <= k < |near|
      ensures near[k].idx != i && OnLevel(g, l, near[k].idx)
    {
      SearchAvoids(s, g, o, n, l, i, from, near[k].idx);
    }
  }

  lemma OfferedAreListed(s: Space, g: Graph, o: Offers, n: nat, l: nat, i: nat, near: seq<NodeScore>, k: nat, found: set<nat>)
    requires Linked(s, g, o, n) && OnLevel(g, l, i)
    requires k == if M < |near| then M else |near|
    requires Offered(o, i, l) == Nodes(near[..k])
    requires Ranks(s.metric, ScoreTo(s, Records(g), g[i].vec), found, near)
    ensures TopOf(s.metric, ScoreTo(s, Records(g), g[i].vec), 16, found, SetOf(Neighbors(g, l, i)))
    ensures SetOf(Neighbors(g, l, i)) == Offered(o, i, l)
  {
    var score := ScoreTo(s, Records(g), g[i].vec);
    NodesCard(near, k);
    PrefixIsTop(s.metric, score, found, near, M);
    assert ListAt(s, Records(g), g, o, i, l);
    ShortListKeepsAll(s.metric, score, Cap(l), Offered(o, i, l), Neighbors(g, l, i));
  }

  lemma EntryKept(g: Graph, h: Graph, n: nat, maxLevel: int, entry: nat)
    requires EntryOk(g, n, maxLevel, entry) && SameNodes(g, h)
    ensures EntryOk(h, n, maxLevel, entry)
  {
  }

  /** No item is inserted. */
  ghost predicate Plain(g: Graph) {
    forall v :: 0 <= v < |g| ==> g[v].level == -1 && g[v].neighbors == []
  }

  lemma PlainIsLinked(s: Space, g: Graph)
    requires Plain(g)
    ensures Linked(s, g, map[], 0)
  {
  }

  // ---------- the shuffle ----------

  /** One of the places from `i` on. */
  function Place(i: nat, draw: nat, n: nat): (j: nat)
    requires i < n
    ensures i <= j < n
  {
    i + draw % (n - i)
  }

  function Swapped<T>(s: seq<T>, i: nat, j: nat): (r: seq<T>)
    requires i < |s| && j < |s|
    ensures |r| == |s| && multiset(r) == multiset(s)
  {
    s[i := s[j]][j := s[i]]
  }

  /** From place `i` on, each place is swapped with one that its draw picks among those left. */
  function Shuffled<T>(s: seq<T>, i: nat, draws: seq<nat>): (r: seq<T>)
    requires i + |draws| == |s|
    ensures |r| == |s| && multiset(r) == multiset(s)
    decreases |draws|
  {
    if draws == [] then s else Shuffled(Swapped(s, i, Place(i, draws[0], |s|)), i + 1, draws[1..])
  }

  lemma {:induction false} NothingLeft<T>(s: seq<T>, t: seq<T>, i: nat)
    requires i == |s| == |t| && s[..i] == t[..i]
    ensures Shuffled(s, i, []) == t
  {
    assert s == s[..i] && t == t[..i];
  }

  lemma {:induction false} ShuffleEnds<T>(s: seq<T>, was: seq<T>, draws: seq<nat>)
    requires |s| == |was| == |draws|
    ensures Shuffled(s, |s|, draws[|s|..]) == s && Shuffled(was, 0, draws[0..]) == Shuffled(was, 0, draws)
  {
    NothingLeft(s, s, |s|);
    assert draws[|s|..] == [] && draws[0..] == draws;
  }

  lemma {:induction false} ShuffledNext<T>(s: seq<T>, i: nat, draw: nat, rest: seq<nat>)
    requires i + |rest| + 1 == |s|
    ensures Shuffled(s, i, [draw] + rest) == Shuffled(Swapped(s, i, Place(i, draw, |s|)), i + 1, rest)
  {
    var draws := [draw] + rest;
    assert draws[0] == draw && draws[1..] == rest;
  }

  lemma {:induction false} ShuffledFrom<T>(s: seq<T>, i: nat, draws: seq<nat>)
    requires i < |s| == |draws|
    ensures Shuffled(s, i, draws[i..]) == Shuffled(Swapped(s, i, Place(i, draws[i], |s|)), i + 1, draws[i + 1..])
  {
    assert draws[i..] == [draws[i]] + draws[i + 1..];
    ShuffledNext(s, i, draws[i], draws[i + 1..]);
  }

  /** Every order of the items can come out. */
  lemma {:induction false} AnyOrderCanCome<T>(s: seq<T>, t: seq<T>, i: nat) returns (draws: seq<nat>)
    requires i <= |s| == |t| && s[..i] == t[..i] && multiset(s) == multiset(t)
    ensures i + |draws| == |s| && Shuffled(s, i, draws) == t
    decreases |s| - i
  {
    if i == |s| {
      NothingLeft(s, t, i);
      return [];
    }
    var k := PlaceLeft(s, t, i);
    AgreeFurther(s, t, i, k);
    var rest := AnyOrderCanCome(Swapped(s, i, k), t, i + 1);
    var draw := DrawFor(i, k, |s|);
    draws := [draw] + rest;
    ShuffledNext(s, i, draw, rest);
  }

  lemma DrawFor(i: nat, k: nat, n: nat) returns (draw: nat)
    requires i <= k < n
    ensures Place(i, draw, n) == k
  {
    draw := k - i;
  }

  lemma AgreeFurther<T>(s: seq<T>, t: seq<T>, i: nat, k: nat)
    requires i <= k < |s| == |t| && s[..i] == t[..i] && s[k] == t[i]
    ensures Swapped(s, i, k)[..i + 1] == t[..i + 1]
  {
    var next := Swapped(s, i, k);
    assert next[..i] == s[..i];
    assert next[..i + 1] == next[..i] + [next[i]] && t[..i + 1] == t[..i] + [t[i]];
  }

  lemma PlaceLeft<T>(s: seq<T>, t: seq<T>, i: nat) returns (k: nat)
    requires i < |s| == |t| && s[..i] == t[..i] && multiset(s) == multiset(t)
    ensures i <= k < |s| && s[k] == t[i]
  {
    RestsAgree(s, t, i);
    assert t[i..][0] == t[i];
    assert t[i] in multiset(s[i..]);
    var j :| 0 <= j < |s[i..]| && s[i..][j] == t[i];
    k := i + j;
  }

  lemma RestsAgree<T>(s: seq<T>, t: seq<T>, i: nat)
    requires i < |s| == |t| && s[..i] == t[..i] && multiset(s) == multiset(t)
    ensures multiset(s[i..]) == multiset(t[i..])
  {
    assert s == s[..i] + s[i..] && t == t[..i] + t[i..];
    assert multiset(s[..i] + s[i..]) == multiset(t[..i] + t[i..]);
    assert multiset(s[i..]) == multiset(s) - multiset(s[..i]);
    assert multiset(t[i..]) == multiset(t) - multiset(t[..i]);
  }

  lemma SwappedRecords(g: Graph, i: nat, j: nat)
    requires i < |g| && j < |g|
    ensures Records(Swapped(g, i, j)) == Swapped(Records(g), i, j) && (Plain(g) ==> Plain(Swapped(g, i, j)))
  {
  }

  lemma {:induction false} ShuffledItems(g: Graph, i: nat, draws: seq<nat>)
    requires i < |g| == |draws| && Plain(g)
    ensures var next := Swapped(g, i, Place(i, draws[i], |g|));
            && Plain(next) && |next| == |g|
            && Shuffled(Records(next), i + 1, draws[i + 1..]) == Shuffled(Records(g), i, draws[i..])
  {
    SwappedRecords(g, i, Place(i, draws[i], |g|));
    ShuffledFrom(Records(g), i, draws);
  }

  /** The level goes up by one for each draw below one tenth, to 16 at most. */
  ghost predicate Rolled(rolls: nat -> real, level: nat) {
    && level <= TOP_LEVEL && (forall k :: 0 <= k < level ==> rolls(k) < 0.1)
    && (level < TOP_LEVEL ==> rolls(level) >= 0.1)
  }

  /** The walk to the new node's top level ended at a local optimum one level above, or stayed at the entry point. */
  ghost predicate Approached(s: Space, g: Graph, i: nat, level: nat, maxLevel: int, entry: nat, cur: nat)
    requires i < |g|
  {
    var score := ScoreTo(s, Records(g), g[i].vec);
    if level < maxLevel then LocalBest(g, level + 1, s.metric, score, cur) && NotWorse(s.metric, score, cur, entry) else cur == entry
  }

  function Lower(a: int, b: int): int {
    if a < b then a else b
  }

  // ---------- what an insertion does ----------

  /** Node `i` is connected on the levels above `l` up to `top`, each search starting at the best node found
      on the level above; the levels from `l` down, and those above `top`, are as before. */
  ghost predicate Wired(s: Space, g: Graph, o: Offers, h: Graph, p: Offers, i: nat, l: int, top: int, starts: map<int, nat>) {
    && -1 <= l <= top && l in starts && i < |g| && SameNodes(g, h)
    && (forall v: nat, k: nat :: k <= l || k > top ==> Kept(g, o, h, p, v, k))
    && (forall k: nat :: l < k <= top ==> WiredOn(s, g, o, h, p, i, k, starts))
  }

  ghost predicate Kept(g: Graph, o: Offers, h: Graph, p: Offers, v: nat, k: nat) {
    Neighbors(h, k, v) == Neighbors(g, k, v) && Offered(p, v, k) == Offered(o, v, k)
  }

  /** On one level: the list, and the offers both ways between the node and its list. */
  ghost predicate WiredOn(s: Space, g: Graph, o: Offers, h: Graph, p: Offers, i: nat, k: nat, starts: map<int, nat>)
    requires i < |g|
  {
    && k in starts && k - 1 in starts
    && NearestFound(s, g, k, i, starts[k], starts[k - 1], Neighbors(h, k, i)) && Neighbors(h, k, i) != []
    && OfferedBoth(o, p, i, k, SetOf(Neighbors(h, k, i)))
  }

  ghost predicate OfferedBoth(o: Offers, p: Offers, i: nat, k: nat, s: set<nat>) {
    forall v: nat {:trigger Offered(p, v, k)} :: Offered(p, v, k) == Offered(o, v, k) + Extra(i, k, s, v, k)
  }

  lemma WiredStarts(s: Space, g: Graph, o: Offers, i: nat, top: int, from: nat)
    requires -1 <= top && i < |g|
    ensures Wired(s, g, o, g, o, i, top, top, map[top := from])
  {
  }

  lemma OthersKept(g: Graph, o: Offers, h: Graph, p: Offers, i: nat, l: nat)
    requires SameNodes(g, h) && OtherLists(g, h, l) && Offering(o, p, i, l, SetOf(Neighbors(h, l, i)))
    ensures forall v: nat, k: nat :: k != l ==> Kept(g, o, h, p, v, k)
  {
    forall v: nat, k: nat | k != l
      ensures Kept(g, o, h, p, v, k)
    {
      assert Offered(p, v, k) == Offered(o, v, k) + Extra(i, l, SetOf(Neighbors(h, l, i)), v, k);
    }
  }

  lemma KeptAgain(g: Graph, o: Offers, g1: Graph, o1: Offers, h: Graph, p: Offers, l: int, top: int)
    requires forall v: nat, k: nat :: k <= l || k > top ==> Kept(g, o, g1, o1, v, k)
    requires forall v: nat, k: nat :: k != l ==> Kept(g1, o1, h, p, v, k)
    requires l <= top
    ensures forall v: nat, k: nat :: k <= l - 1 || k > top ==> Kept(g, o, h, p, v, k)
  {
    forall v: nat, k: nat | k <= l - 1 || k > top
      ensures Kept(g, o, h, p, v, k)
    {
      assert Kept(g, o, g1, o1, v, k) && Kept(g1, o1, h, p, v, k);
    }
  }

  lemma WiredNext(s: Space, g: Graph, o: Offers, g1: Graph, o1: Offers, h: Graph, p: Offers, i: nat, l: nat, top: int,
                  starts: map<int, nat>, next: nat)
    requires Wired(s, g, o, g1, o1, i, l, top, starts) && SameNodes(g1, h) && OtherLists(g1, h, l)
    requires NearestFound(s, g1, l, i, starts[l], next, Neighbors(h, l, i)) && Neighbors(h, l, i) != []
    requires Offering(o1, p, i, l, SetOf(Neighbors(h, l, i)))
    ensures Wired(s, g, o, h, p, i, l - 1, top, starts[l - 1 := next])
  {
    SameNodesAgain(g, g1, h);
    OthersKept(g1, o1, h, p, i, l);
    WiredHere(s, g, o, g1, o1, h, p, i, l, top, starts, next);
    var more := starts[l - 1 := next];
    forall k: nat | l < k <= top
      ensures WiredOn(s, g, o, h, p, i, k, more)
    {
      assert WiredOn(s, g, o, g1, o1, i, k, starts);
      WiredStays(s, g, o, g1, o1, h, p, i, k, starts, more);
    }
    KeptAgain(g, o, g1, o1, h, p, l, top);
  }

  lemma WiredStays(s: Space, g: Graph, o: Offers, g1: Graph, o1: Offers, h: Graph, p: Offers, i: nat, k: nat,
                   starts: map<int, nat>, more: map<int, nat>)
    requires i < |g| && WiredOn(s, g, o, g1, o1, i, k, starts) && forall v: nat :: Kept(g1, o1, h, p, v, k)
    requires k in more && k - 1 in more && more[k] == starts[k] && more[k - 1] == starts[k - 1]
    ensures WiredOn(s, g, o, h, p, i, k, more)
  {
    assert Kept(g1, o1, h, p, i, k);
    forall v: nat
      ensures Offered(p, v, k) == Offered(o, v, k) + Extra(i, k, SetOf(Neighbors(h, k, i)), v, k)
    {
      assert Kept(g1, o1, h, p, v, k);
    }
  }

  lemma WiredHere(s: Space, g: Graph, o: Offers, g1: Graph, o1: Offers, h: Graph, p: Offers, i: nat, l: nat, top: int,
                  starts: map<int, nat>, next: nat)
    requires Wired(s, g, o, g1, o1, i, l, top, starts)
    requires NearestFound(s, g1, l, i, starts[l], next, Neighbors(h, l, i)) && Neighbors(h, l, i) != []
    requires Offering(o1, p, i, l, SetOf(Neighbors(h, l, i)))
    ensures WiredOn(s, g, o, h, p, i, l, starts[l - 1 := next])
  {
    SameNodesBack(g, g1);
    forall v: nat
      ensures Neighbors(g, l, v) == Neighbors(g1, l, v)
    {
      assert Kept(g, o, g1, o1, v, l);
    }
    SameNearest(s, g1, g, l, i, starts[l], next, Neighbors(h, l, i));
    forall v: nat
      ensures Offered(p, v, l) == Offered(o, v, l) + Extra(i, l, SetOf(Neighbors(h, l, i)), v, l)
    {
      assert Kept(g, o, g1, o1, v, l);
    }
  }

  lemma SameNodesBack(g: Graph, h: Graph)
    requires SameNodes(g, h)
    ensures SameNodes(h, g)
  {
  }

  /** One level is connected. */
  lemma ConnectedTo(s: Space, g: Graph, o: Offers, h: Graph, p: Offers, i: nat, from: nat, l: nat, near: seq<NodeScore>,
                    visited: set<nat>, found: set<nat>)
    requires Linked(s, h, p, i + 1) && i < |g| && SameNodes(g, h) && OnLevel(h, l, i) && Untouched(o, i, l) && near != []
    requires Found(g, l, s.metric, ScoreTo(s, Records(g), g[i].vec), EF_CONSTRUCTION, from, visited, found)
    requires Ranks(s.metric, ScoreTo(s, Records(g), g[i].vec), found, near)
    requires p == OfferFirst(o, i, l, near, if M < |near| then M else |near|) && Joinable(g, l, i, near)
    ensures Untouched(p, i, l - 1) && NearestFound(s, g, l, i, from, near[0].idx, Neighbors(h, l, i))
    ensures Neighbors(h, l, i) != [] && Offering(o, p, i, l, SetOf(Neighbors(h, l, i)))
  {
    var k := if M < |near| then M else |near|;
    OfferFirstIs(o, i, l, near, k);
    OfferingUntouched(o, p, i, l, Nodes(near[..k]));
    assert Records(h)[i].vec == Records(g)[i].vec;
    OfferedAreListed(s, h, p, i + 1, l, i, near, k, found);
    FirstIsBest(s.metric, ScoreTo(s, Records(g), g[i].vec), found, near);
    assert near[..k][0].idx in Nodes(near[..k]);
    assert Neighbors(h, l, i) == [] ==> SetOf(Neighbors(h, l, i)) == {};
  }

  // ---------- edges go both ways, and everything hangs together ----------

  ghost predicate Symmetric(o: Offers) {
    forall u: nat, v: nat, l: nat :: u in Offered(o, v, l) <==> v in Offered(o, u, l)
  }

  /** Some node before `v` is on level `l`. */
  ghost predicate Preceded(g: Graph, v: nat, l: nat) {
    exists u: nat :: u < v && u < |g| && g[u].level >= l
  }

  /** Node `v` was joined to an earlier node on level `l`. */
  ghost predicate Attached(o: Offers, v: nat, l: nat) {
    exists u: nat :: u < v && u in Offered(o, v, l)
  }

  /** Offers go both ways, and each node was joined to an earlier one on each level that had one. */
  ghost predicate Knit(g: Graph, o: Offers, n: nat) {
    && n <= |g| && Symmetric(o)
    && forall v: nat, l: nat :: v < n && l <= g[v].level && Preceded(g, v, l) ==> Attached(o, v, l)
  }

  lemma KnitFirst(g: Graph, o: Offers, level: nat)
    requires |g| > 0 && Knit(g, o, 0)
    ensures Knit(Placed(g, 0, level), o, 1)
  {
  }

  lemma KnitNext(s: Space, g: Graph, o: Offers, h: Graph, p: Offers, i: nat, level: nat, maxLevel: int, starts: map<int, nat>)
    requires i < |g| && Linked(s, h, p, i + 1) && Knit(g, o, i)
    requires forall v :: 0 <= v < i ==> g[v].level <= maxLevel
    requires Wired(s, Placed(g, i, level), o, h, p, i, -1, Lower(level, maxLevel), starts)
    ensures Knit(h, p, i + 1)
  {
    var g' := Placed(g, i, level);
    forall v: nat, l: nat
      ensures OfferedAt(o, p, i, l, Joined(h, i, l, Lower(level, maxLevel)), v)
    {
      if l <= Lower(level, maxLevel) {
        assert WiredOn(s, g', o, h, p, i, l, starts);
      } else {
        assert Kept(g', o, h, p, v, l);
      }
    }
    forall u: nat, v: nat, l: nat
      ensures u in Offered(p, v, l) <==> v in Offered(p, u, l)
    {
      SymmetricNext(o, p, i, l, Joined(h, i, l, Lower(level, maxLevel)), u, v);
    }
    forall v: nat, l: nat | v < i + 1 && l <= h[v].level && Preceded(h, v, l)
      ensures Attached(p, v, l)
    {
      if v < i {
        assert Preceded(g, v, l);
        var u: nat :| u < v && u in Offered(o, v, l);
        assert OfferedAt(o, p, i, l, Joined(h, i, l, Lower(level, maxLevel)), v);
      } else {
        assert WiredOn(s, g', o, h, p, i, l, starts);
        AttachedHere(s, h, p, i, l);
      }
    }
  }

  ghost function Joined(h: Graph, i: nat, l: nat, top: int): set<nat> {
    if l <= top then SetOf(Neighbors(h, l, i)) else {}
  }

  ghost predicate OfferedAt(o: Offers, p: Offers, i: nat, l: nat, s: set<nat>, v: nat) {
    Offered(p, v, l) == Offered(o, v, l) + Extra(i, l, s, v, l)
  }

  lemma SymmetricNext(o: Offers, p: Offers, i: nat, l: nat, s: set<nat>, u: nat, v: nat)
    requires Symmetric(o) && OfferedAt(o, p, i, l, s, u) && OfferedAt(o, p, i, l, s, v)
    ensures u in Offered(p, v, l) <==> v in Offered(p, u, l)
  {
    assert u in Offered(o, v, l) <==> v in Offered(o, u, l);
  }

  lemma AttachedHere(s: Space, h: Graph, p: Offers, i: nat, l: nat)
    requires Linked(s, h, p, i + 1) && i < |h| && l <= h[i].level && Neighbors(h, l, i) != []
    ensures Attached(p, i, l)
  {
    LinkedList(s, h, p, i + 1, i, l);
    var u := Neighbors(h, l, i)[0];
    assert u in SetOf(Neighbors(h, l, i));
    assert u < i && u in Offered(p, i, l);
  }

  /** In a finished graph of more than one node every node has a neighbour on level 0. */
  lemma NoneAlone(s: Space, g: Graph, o: Offers, v: nat)
    requires Linked(s, g, o, |g|) && Knit(g, o, |g|) && |g| > 1 && v < |g|
    ensures Neighbors(g, 0, v) != []
  {
    assert OnLevel(g, 0, v) && OnLevel(g, 0, 1) && OnLevel(g, 0, 0);
    if v == 0 {
      assert g[0].level >= 0 && Preceded(g, 1, 0);
      assert Attached(o, 1, 0);
      assert 0 in Offered(o, 1, 0);
      assert 1 in Offered(o, 0, 0);
    } else {
      assert g[0].level >= 0 && Preceded(g, v, 0);
      assert Attached(o, v, 0);
    }
    LinkedList(s, g, o, |g|, v, 0);
    EmptyListOffers(s.metric, ScoreTo(s, Records(g), g[v].vec), Cap(0), Offered(o, v, 0), Neighbors(g, 0, v));
  }

  lemma EmptyListOffers(m: Metric, score: Score, cap: nat, offered: set<nat>, list: seq<nat>)
    requires cap > 0 && TopOf(m, score, cap, offered, SetOf(list)) && offered != {}
    ensures list != []
  {
    assert offered <= SetOf(list) || |SetOf(list)| >= 1;
    assert forall x :: x in SetOf(list) ==> x in list;
  }

  /** Every node hangs together with the first one: a chain of nodes, each joined to an earlier one. */
  lemma {:induction false} ChainToFirst(g: Graph, o: Offers, v: nat) returns (chain: seq<nat>)
    requires Knit(g, o, |g|) && v < |g| && forall u :: 0 <= u < |g| ==> g[u].level >= 0
    ensures |chain| > 0 && chain[0] == v && chain[|chain| - 1] == 0
    ensures forall k :: 0 <= k < |chain| - 1 ==> JoinedAt(o, chain, k)
    decreases v
  {
    if v == 0 {
      return [0];
    }
    assert g[0].level >= 0 && Preceded(g, v, 0);
    assert Attached(o, v, 0);
    var u: nat :| u < v && u in Offered(o, v, 0);
    var rest := ChainToFirst(g, o, u);
    chain := [v] + rest;
    forall k | 0 <= k < |chain| - 1
      ensures JoinedAt(o, chain, k)
    {
      if k > 0 {
        assert JoinedAt(o, rest, k - 1);
      }
    }
  }

  ghost predicate JoinedAt(o: Offers, chain: seq<nat>, k: nat)
    requires k + 1 < |chain|
  {
    chain[k + 1] < chain[k] && chain[k + 1] in Offered(o, chain[k], 0) && chain[k] in Offered(o, chain[k + 1], 0)
  }

  /** A finished graph. */
  ghost predicate Built(s: Space, g: Graph, o: Offers, maxLevel: int, entry: nat) {
    Linked(s, g, o, |g|) && Knit(g, o, |g|) && EntryOk(g, |g|, maxLevel, entry)
  }

  /** The first `n` items are on the levels drawn for them. */
  ghost predicate Levelled(g: Graph, rolls: nat -> nat -> real, n: nat) {
    n <= |g| && forall v :: 0 <= v < n ==> g[v].level >= 0 && Rolled(rolls(v), g[v].level)
  }

  /** The level of a new node, from its own draws. */
  method RandomLevel(rolls: nat -> real) returns (level: nat)
    ensures Rolled(rolls, level)
  {
    level := 0;
    while level < TOP_LEVEL && rolls(level) < 0.1
      invariant level <= TOP_LEVEL && forall k :: 0 <= k < level ==> rolls(k) < 0.1
    {
      level := level + 1;
    }
  }

  /** The temporary copy of the index that a build works on. */
  class Builder {
    const space: Space
    /** Whether every request for memory is met; otherwise any of them may be refused. */
    const memory: bool
    var items: Graph
    var maxLevel: int
    var entry: nat
    var entrySet: bool
    ghost var offers: Offers

    constructor (s: Space, g: Graph, enough: bool)
      ensures space == s && memory == enough && Records(items) == Records(g) && Plain(items) && offers == map[] && !entrySet
    {
      space, memory := s, enough;
      items := seq(|g|, i requires 0 <= i < |g| => g[i].(level := -1, neighbors := []));
      maxLevel, entry, entrySet := -1, 0, false;
      offers := map[];
    }

    /** Adds a directed edge; false when memory runs out. */
    method AddEdge(src: nat, dst: nat, l: nat, ghost n: nat) returns (ok: bool)
      requires Linked(space, items, offers, n) && OnLevel(items, l, src) && OnLevel(items, l, dst) && src != dst
      modifies this`items, this`offers
      ensures Linked(space, items, offers, n) && SameNodes(old(items), items) && OtherLists(old(items), items, l)
      ensures if ok then offers == OneMore(old(offers), src, l, dst) else offers == old(offers) && items == old(items)
      ensures memory ==> ok
    {
      ok := memory;
      if !memory {
        ok := *;
      }
      if ok {
        var score := ScoreTo(space, Records(items), items[src].vec);
        assert ListAt(space, Records(items), items, offers, src, l);
        var list := Offer(space.metric, score, Cap(l), items[src].neighbors[l], dst, Offered(offers, src, l));
        WithListLinked(space, items, offers, n, src, l, list, dst);
        items := items[src := items[src].(neighbors := items[src].neighbors[l := list])];
        offers := offers[(src, l) := Offered(offers, src, l) + {dst}];
      }
    }

    /** Edges both ways between the new node and one found by the search. */
    method Join(i: nat, v: nat, l: nat, ghost n: nat) returns (ok: bool)
      requires Linked(space, items, offers, n) && OnLevel(items, l, i) && OnLevel(items, l, v) && i != v
      modifies this`items, this`offers
      ensures Linked(space, items, offers, n) && SameNodes(old(items), items) && OtherLists(old(items), items, l)
      ensures ok ==> offers == OneMore(OneMore(old(offers), i, l, v), v, l, i)
      ensures memory ==> ok
    {
      ghost var g := items;
      ok := AddEdge(i, v, l, n);
      if ok {
        ghost var h := items;
        SameLevels(g, h, l, i);
        SameLevels(g, h, l, v);
        ok := AddEdge(v, i, l, n);
        SameNodesAgain(g, h, items);
        OtherListsAgain(g, h, items, l);
      }
    }

    /** The nodes that a search for node `i` finds on level `l`, best first. */
    method FindNear(i: nat, from: nat, l: nat) returns (near: seq<NodeScore>, ghost visited: set<nat>, ghost found: set<nat>)
      requires LevelOk(items, l) && i < |items| && OnLevel(items, l, from)
      ensures var score := ScoreTo(space, Records(items), items[i].vec);
              && Found(items, l, space.metric, score, EF_CONSTRUCTION, from, visited, found)
              && Ranks(space.metric, score, found, near) && near != []
    {
      var score := ScoreTo(space, Records(items), items[i].vec);
      var top;
      top, visited, found := SearchLevel(items, l, space.metric, EF_CONSTRUCTION, score, from);
      var a := new NodeScore[top.size](k requires 0 <= k < top.size && top.size <= top.data.Length reads top, top.data => top.data[k]);
      assert a[..] == top.Items();
      SortBestFirst(space.metric, a);
      near := a[..];
      RanksFrom(space.metric, score, found, near);
      assert found != {};
    }

    method JoinNext(i: nat, l: nat, near: seq<NodeScore>, k: nat, ghost n: nat, ghost g: Graph, ghost o: Offers) returns (ok: bool)
      requires Linked(space, items, offers, n) && Joinable(g, l, i, near) && SameNodes(g, items) && OtherLists(g, items, l)
      requires k < |near| && offers == OfferFirst(o, i, l, near, k)
      modifies this`items, this`offers
      ensures Linked(space, items, offers, n) && SameNodes(g, items) && OtherLists(g, items, l)
      ensures ok ==> offers == OfferFirst(o, i, l, near, k + 1)
      ensures memory ==> ok
    {
      CanJoin(g, items, l, i, near, k);
      ghost var h := items;
      ok := Join(i, near[k].idx, l, n);
      SameNodesAgain(g, h, items);
      OtherListsAgain(g, h, items, l);
    }

    /** Joins node `i` to the best `M` of those found on level `l`. */
    method JoinBest(i: nat, l: nat, near: seq<NodeScore>, ghost n: nat) returns (ok: bool)
      requires Linked(space, items, offers, n) && OnLevel(items, l, i) && Joinable(items, l, i, near)
      modifies this`items, this`offers
      ensures Linked(space, items, offers, n) && SameNodes(old(items), items) && OtherLists(old(items), items, l)
      ensures ok ==> offers == OfferFirst(old(offers), i, l, near, if M < |near| then M else |near|)
      ensures memory ==> ok
    {
      var k := 0;
      while k < |near| && k < M
        invariant k <= |near| && k <= M && Linked(space, items, offers, n) && SameNodes(old(items), items)
        invariant OtherLists(old(items), items, l) && offers == OfferFirst(old(offers), i, l, near, k)
      {
        ok := JoinNext(i, l, near, k, n, old(items), old(offers));
        if !ok {
          return;
        }
        k := k + 1;
      }
      return true;
    }

    /** Connects the new node on one level; the search on the next level starts at the best
        node found here. */
    method Connect(i: nat, from: nat, l: nat) returns (ok: bool, next: nat)
      requires Linked(space, items, offers, i + 1) && OnLevel(items, l, i) && OnLevel(items, l, from) && from != i
      requires Untouched(offers, i, l)
      modifies this`items, this`offers
      ensures Linked(space, items, offers, i + 1) && SameNodes(old(items), items) && OtherLists(old(items), items, l)
      ensures ok ==> Untouched(offers, i, l - 1) && next != i && OnLevel(items, l, next)
      ensures ok ==> OnLevel(items, l, i) && NearestFound(space, old(items), l, i, from, next, Neighbors(items, l, i))
      ensures ok ==> Neighbors(items, l, i) != [] && Offering(old(offers), offers, i, l, SetOf(Neighbors(items, l, i)))
      ensures memory ==> ok
    {
      LinkedLevels(space, items, offers, i + 1, l);
      ghost var g, o := items, offers;
      var near, visited, found := FindNear(i, from, l);
      FoundCanJoin(space, items, offers, i + 1, l, i, from, ScoreTo(space, Records(items), items[i].vec), visited, found, near);
      next := near[0].idx;
      ok := JoinBest(i, l, near, i + 1);
      SameLevels(g, items, l, i);
      SameLevels(g, items, l, next);
      if ok {
        ConnectedTo(space, g, o, items, offers, i, from, l, near, visited, found);
      }
    }

    /** Connects the new node on its levels, from the highest one in use down. */
    method ConnectAll(i: nat, from: nat) returns (ok: bool, ghost starts: map<int, nat>)
      requires Linked(space, items, offers, i + 1) && i < |items| && from < |items| && from != i
      requires 0 <= maxLevel && 0 <= items[i].level && OnLevel(items, Lower(items[i].level, maxLevel), from)
      requires Untouched(offers, i, Lower(items[i].level, maxLevel))
      modifies this`items, this`offers
      ensures Linked(space, items, offers, i + 1) && SameNodes(old(items), items)
      ensures ok ==> Wired(space, old(items), old(offers), items, offers, i, -1, Lower(old(items)[i].level, maxLevel), starts)
      ensures ok ==> Lower(old(items)[i].level, maxLevel) in starts && starts[Lower(old(items)[i].level, maxLevel)] == from
      ensures memory ==> ok
    {
      var top := if items[i].level < maxLevel then items[i].level else maxLevel;
      WiredStarts(space, items, offers, i, top, from);
      ok, starts := ConnectDown(i, from, top, map[top := from], items, offers);
    }

    method ConnectDown(i: nat, from: nat, top: nat, ghost before: map<int, nat>, ghost g: Graph, ghost o: Offers)
      returns (ok: bool, ghost starts: map<int, nat>)
      requires Linked(space, items, offers, i + 1) && Wired(space, g, o, items, offers, i, top, top, before) && before[top] == from
      requires from != i && OnLevel(items, top, i) && OnLevel(items, top, from) && Untouched(offers, i, top)
      modifies this`items, this`offers
      ensures Linked(space, items, offers, i + 1) && SameNodes(g, items)
      ensures ok ==> Wired(space, g, o, items, offers, i, -1, top, starts) && top in starts && starts[top] == from
      ensures memory ==> ok
    {
      var l: int, cur := top, from;
      starts := before;
      ok := true;
      while ok && l >= 0
        invariant Linked(space, items, offers, i + 1) && SameNodes(g, items) && (memory ==> ok)
        invariant ok ==> -1 <= l <= top && Reached(g, o, i, cur, l, top, starts) && top in starts && starts[top] == from
        decreases l, ok
      {
        ok, cur, starts := ConnectNext(i, cur, l, top, starts, g, o);
        l := l - 1;
      }
    }

    /** The new node is connected down to level `l + 1`, and the search on level `l` will start at `cur`. */
    ghost predicate Reached(g: Graph, o: Offers, i: nat, cur: nat, l: int, top: int, starts: map<int, nat>)
      reads this
    {
      && Wired(space, g, o, items, offers, i, l, top, starts) && starts[l] == cur
      && cur != i && Untouched(offers, i, l) && (l >= 0 ==> OnLevel(items, l, i) && OnLevel(items, l, cur))
    }

    method ConnectNext(i: nat, from: nat, l: nat, ghost top: int, ghost before: map<int, nat>, ghost g: Graph, ghost o: Offers)
      returns (ok: bool, next: nat, ghost starts: map<int, nat>)
      requires Linked(space, items, offers, i + 1) && Reached(g, o, i, from, l, top, before)
      modifies this`items, this`offers
      ensures Linked(space, items, offers, i + 1) && SameNodes(g, items)
      ensures ok ==> Reached(g, o, i, next, l - 1, top, starts)
      ensures top in before ==> top in starts && starts[top] == before[top]
      ensures memory ==> ok
    {
      ghost var h, p := items, offers;
      ok, next := Connect(i, from, l);
      SameNodesAgain(g, h, items);
      starts := before[l - 1 := next];
      if ok {
        WiredNext(space, g, o, h, p, items, offers, i, l, top, before, next);
        assert |items[next].neighbors| == items[next].level + 1 && |items[i].neighbors| == items[i].level + 1;
      }
    }

    /** Inserts item `i` on the given level. */
    method Insert(i: nat, level: nat) returns (ok: bool, ghost starts: map<int, nat>)
      requires i < |items| && Linked(space, items, offers, i)
      requires entrySet == (i > 0) && (entrySet ==> EntryOk(items, i, maxLevel, entry))
      modifies this
      ensures Records(items) == Records(old(items)) && Linked(space, items, offers, i + 1)
      ensures ok ==> items[i].level == level && entrySet && EntryOk(items, i + 1, maxLevel, entry)
      ensures ok ==> if i == 0 || level > old(maxLevel) then maxLevel == level && entry == i
                     else maxLevel == old(maxLevel) && entry == old(entry)
      ensures ok ==> SameNodes(Placed(old(items), i, level), items)
      ensures ok && i == 0 ==> offers == old(offers) && items == Placed(old(items), i, level)
      ensures ok && i > 0 ==>
                var top := Lower(level, old(maxLevel));
                && Wired(space, Placed(old(items), i, level), old(offers), items, offers, i, -1, top, starts)
                && top in starts && Approached(space, Placed(old(items), i, level), i, level, old(maxLevel), old(entry), starts[top])
      ensures memory ==> ok
    {
      PlacedLinked(space, items, offers, i, level);
      items := Placed(items, i, level);
      starts := map[];
      if !entrySet {
        entry, maxLevel, entrySet := i, level, true;
        return true, starts;
      }
      var from := Approach(i, level);
      ghost var g := items;
      ok, starts := ConnectAll(i, from);
      EntryKept(g, items, i, maxLevel, entry);
      if ok && level > maxLevel {
        maxLevel, entry := level, i;
      }
    }

    /** Walks from the entry point to a node on the new node's top level. */
    method Approach(i: nat, level: nat) returns (cur: nat)
      requires Linked(space, items, offers, i + 1) && i < |items| && items[i].level == level
      requires EntryOk(items, i, maxLevel, entry)
      ensures cur < |items| && cur != i
      ensures forall l: nat :: l <= level && l <= maxLevel ==> OnLevel(items, l, cur)
      ensures Approached(space, items, i, level, maxLevel, entry, cur)
    {
      forall l: nat
        ensures LevelOk(items, l)
      {
        LinkedLevels(space, items, offers, i + 1, l);
      }
      var dist;
      cur, dist := Descend(items, maxLevel, level, space.metric, ScoreTo(space, Records(items), items[i].vec), entry);
    }

    /** Fisher-Yates with the given draws. */
    method Shuffle(draws: seq<nat>)
      requires Plain(items) && |draws| == |items|
      modifies this`items
      ensures Plain(items) && Records(items) == Shuffled(Records(old(items)), 0, draws)
    {
      ghost var want := Remaining(draws, 0);
      for i := 0 to |items|
        invariant Plain(items) && |items| == |draws| && Remaining(draws, i) == want
      {
        SwapNext(i, draws);
      }
      ShuffleEnds(Records(items), Records(old(items)), draws);
    }

    /** Where the shuffle will end up from place `i` on. */
    ghost function Remaining(draws: seq<nat>, i: nat): seq<Record>
      requires i <= |draws| == |items|
      reads this
    {
      Shuffled(Records(items), i, draws[i..])
    }

    method SwapNext(i: nat, draws: seq<nat>)
      requires Plain(items) && i < |draws| == |items|
      modifies this`items
      ensures Plain(items) && |items| == |old(items)| && Remaining(draws, i + 1) == old(Remaining(draws, i))
    {
      ShuffledItems(items, i, draws);
      items := Swapped(items, i, Place(i, draws[i], |items|));
    }

    /** Shuffles and inserts all items, with the given draws. */
    method Run(draws: seq<nat>, rolls: nat -> nat -> real) returns (ok: bool)
      requires Plain(items) && offers == map[] && !entrySet && items != [] && |draws| == |items|
      modifies this
      ensures Records(items) == Shuffled(Records(old(items)), 0, draws)
      ensures ok ==> entrySet && Built(space, items, offers, maxLevel, entry) && Levelled(items, rolls, |items|)
      ensures memory ==> ok
    {
      Shuffle(draws);
      PlainIsLinked(space, items);
      ghost var recs := Records(items);
      ok := true;
      var i := 0;
      while ok && i < |items|
        invariant i <= |items| && Records(items) == recs && (memory ==> ok)
        invariant ok ==> Linked(space, items, offers, i) && Knit(items, offers, i) && Levelled(items, rolls, i)
        invariant ok ==> entrySet == (i > 0) && (entrySet ==> EntryOk(items, i, maxLevel, entry))
        decreases |recs| - i
      {
        ok := InsertNext(i, rolls);
        i := i + 1;
      }
    }

    method InsertNext(i: nat, rolls: nat -> nat -> real) returns (ok: bool)
      requires i < |items| && Linked(space, items, offers, i) && Knit(items, offers, i) && Levelled(items, rolls, i)
      requires entrySet == (i > 0) && (entrySet ==> EntryOk(items, i, maxLevel, entry))
      modifies this
      ensures Records(items) == Records(old(items))
      ensures ok ==> Linked(space, items, offers, i + 1) && Knit(items, offers, i + 1) && Levelled(items, rolls, i + 1)
      ensures ok ==> entrySet && EntryOk(items, i + 1, maxLevel, entry)
      ensures memory ==> ok
    {
      var level := RandomLevel(rolls(i));
      ghost var g, o, was := items, offers, maxLevel;
      ghost var starts;
      ok, starts := Insert(i, level);
      if ok {
        if i == 0 {
          KnitFirst(g, o, level);
        } else {
          KnitNext(space, g, o, items, offers, i, level, was, starts);
        }
      }
    }
  }
}
