/** The visitor of `libipa.c`: a window becomes a match when its nearest node is close
    enough. Top-level matches are collected in order; among the children of a node only
    the best match of each id is kept.

    `nearest` stands for embedding the text and searching the index for one result.
 */
module IslandScan {
  import opened Wrappers
  import opened ClosedSpans
  import opened Tokens
  import opened Traversal

  datatype Hit = Hit(id: string, score: real)

  datatype Match = Match(id: string, span: string, score: real)

  /** The index as the visitor sees it: nearest entry of a text, threshold, and which
      entries are acceptable (for children: those listed under the scanned parent). */
  datatype Index = Index(nearest: string -> Option<Hit>, threshold: real, accepts: string -> bool)

  function Text(input: string, c: Chunk): string {
    if c.byteStart < c.byteEnd <= |input| then input[c.byteStart..c.byteEnd] else []
  }

  /** The match a window gives, if any. */
  function MatchOf(idx: Index, input: string, c: Chunk): Option<Match> {
    if !(c.byteStart < c.byteEnd <= |input|) then None
    else
      var text := Text(input, c);
      match idx.nearest(text)
      case None => None
      case Some(h) => if h.score < idx.threshold || !idx.accepts(h.id) then None else Some(Match(h.id, text, h.score))
  }

  function Decision(idx: Index, input: string, c: Chunk): int {
    if MatchOf(idx, input, c).Some? then 1 else 0
  }

  function Visiting(idx: Index, input: string): Visitor {
    (h, c) => Decision(idx, input, c)
  }

  /** The visited chunks that give a match, in order. */
  function Matching(idx: Index, input: string, visited: seq<Chunk>): (r: seq<Chunk>)
    ensures forall i :: 0 <= i < |r| ==> r[i] in visited && MatchOf(idx, input, r[i]).Some?
  {
    if |visited| == 0 then []
    else
      var c := visited[|visited| - 1];
      Matching(idx, input, visited[..|visited| - 1]) + if MatchOf(idx, input, c).Some? then [c] else []
  }

  /** The options of a scan: defaults with the schema's window sizes. */
  function ScanOptions(minTokens: int, maxTokens: int): Options {
    DEFAULT_OPTIONS.(minTokens := minTokens, maxTokens := maxTokens)
  }

  // ---------- what a scan reports ----------

  /** The text of a window is close enough to an acceptable entry. */
  ghost predicate Good(idx: Index, input: string, tokens: seq<Token>, q: Span) {
    && 0 <= q.start <= q.end < |tokens| && tokens[q.start].start < tokens[q.end].end <= |input|
    && exists h :: idx.nearest(input[tokens[q.start].start..tokens[q.end].end]) == Some(h) && h.score >= idx.threshold && idx.accepts(h.id)
  }

  /** Match `m` reports the window of chunk `c`: its text, the entry nearest to it and their score. */
  ghost predicate Reports(idx: Index, input: string, c: Chunk, m: Match) {
    && c.byteStart < c.byteEnd <= |input| && m.span == input[c.byteStart..c.byteEnd]
    && idx.nearest(m.span) == Some(Hit(m.id, m.score)) && m.score >= idx.threshold && idx.accepts(m.id)
  }

  /** An allowed window that lies inside no other good window. */
  ghost predicate Uncovered(idx: Index, input: string, o: Options, tokens: seq<Token>, q: Span) {
    && Allowed(o, |tokens|, q)
    && forall w :: w != q && Allowed(o, |tokens|, w) && Good(idx, input, tokens, w) ==> !Inside(q, w)
  }

  /** A good window that lies inside no other good window. */
  ghost predicate Maximal(idx: Index, input: string, o: Options, tokens: seq<Token>, q: Span) {
    Uncovered(idx, input, o, tokens, q) && Good(idx, input, tokens, q)
  }

  lemma GoodIsMatch(idx: Index, input: string, tokens: seq<Token>, separators: string, c: Chunk)
    requires Split(input, separators, tokens, |input|) && Delimits(tokens, c)
    ensures Good(idx, input, tokens, c.span) <==> MatchOf(idx, input, c).Some?
    ensures MatchOf(idx, input, c).Some? ==> Reports(idx, input, c, MatchOf(idx, input, c).value)
  {
    var a, b := tokens[c.span.start], tokens[c.span.end];
    assert a.start < b.end <= |input| by {
      assert c.span.start < c.span.end ==> a.end < b.start;
    }
  }

  /** Exactly the good windows close. */
  ghost predicate GoodCloses(idx: Index, input: string, tokens: seq<Token>, visited: seq<Chunk>) {
    forall i :: 0 <= i < |visited| ==> (Closes(Visiting(idx, input), visited, i) <==> Good(idx, input, tokens, visited[i].span))
  }

  /** The windows visited are the uncovered ones, and those that match are the maximal ones. */
  lemma VisitedAreUncovered(idx: Index, input: string, o: Options, tokens: seq<Token>, visited: seq<Chunk>)
    requires Split(input, o.separators, tokens, |input|) && Traverses(o, tokens, Visiting(idx, input), visited, |visited|)
    ensures forall q :: IsVisited(visited, q) <==> Uncovered(idx, input, o, tokens, q)
    ensures forall q :: IsVisited(Matching(idx, input, visited), q) <==> Maximal(idx, input, o, tokens, q)
  {
    forall k | 0 <= k < |visited|
      ensures Closes(Visiting(idx, input), visited, k) <==> Good(idx, input, tokens, visited[k].span)
      ensures MatchOf(idx, input, visited[k]).Some? <==> Good(idx, input, tokens, visited[k].span)
    {
      GoodIsMatch(idx, input, tokens, o.separators, visited[k]);
    }
    forall q
      ensures IsVisited(visited, q) <==> Uncovered(idx, input, o, tokens, q)
    {
      if IsVisited(visited, q) {
        var k :| 0 <= k < |visited| && visited[k].span == q;
        VisitedIsUncovered(idx, input, o, tokens, visited, k);
      }
    }
    MatchingAre(idx, input, tokens, visited);
  }

  lemma VisitedIsUncovered(idx: Index, input: string, o: Options, tokens: seq<Token>, visited: seq<Chunk>, k: nat)
    requires Traverses(o, tokens, Visiting(idx, input), visited, |visited|) && GoodCloses(idx, input, tokens, visited) && k < |visited|
    ensures Uncovered(idx, input, o, tokens, visited[k].span)
  {
    var q := visited[k].span;
    forall w | w != q && Allowed(o, |tokens|, w) && Good(idx, input, tokens, w)
      ensures !Inside(q, w)
    {
      if IsVisited(visited, w) {
        var j :| 0 <= j < |visited| && visited[j].span == w;
        assert Closes(Visiting(idx, input), visited, j);
      }
    }
  }

  lemma MatchingAre(idx: Index, input: string, tokens: seq<Token>, visited: seq<Chunk>)
    requires forall k :: 0 <= k < |visited| ==> (MatchOf(idx, input, visited[k]).Some? <==> Good(idx, input, tokens, visited[k].span))
    ensures forall q :: IsVisited(Matching(idx, input, visited), q) <==> IsVisited(visited, q) && Good(idx, input, tokens, q)
  {
    var ms := Matching(idx, input, visited);
    MatchingHasAll(idx, input, visited);
    forall q
      ensures IsVisited(ms, q) <==> IsVisited(visited, q) && Good(idx, input, tokens, q)
    {
      if IsVisited(ms, q) {
        var i :| 0 <= i < |ms| && ms[i].span == q;
        var k :| 0 <= k < |visited| && visited[k] == ms[i];
      } else if IsVisited(visited, q) {
        var k :| 0 <= k < |visited| && visited[k].span == q;
      }
    }
  }

  lemma {:induction false} MatchingHasAll(idx: Index, input: string, visited: seq<Chunk>)
    ensures forall i :: 0 <= i < |visited| && MatchOf(idx, input, visited[i]).Some? ==> visited[i] in Matching(idx, input, visited)
  {
    if |visited| > 0 {
      MatchingHasAll(idx, input, visited[..|visited| - 1]);
    }
  }

  ghost predicate InOrder(cs: seq<Chunk>) {
    forall i, j :: 0 <= i < j < |cs| ==> Precedes(cs[i].span, cs[j].span)
  }

  /** Matching chunks keep their order. */
  lemma {:induction false} MatchingInOrder(idx: Index, input: string, visited: seq<Chunk>)
    requires InOrder(visited)
    ensures InOrder(Matching(idx, input, visited))
  {
    if |visited| > 0 {
      var before, last := visited[..|visited| - 1], visited[|visited| - 1];
      MatchingInOrder(idx, input, before);
      var ms := Matching(idx, input, before);
      assert InOrder(ms + [last]) by {
        forall i | 0 <= i < |ms|
          ensures Precedes(ms[i].span, last.span)
        {
          var k :| 0 <= k < |before| && before[k] == ms[i];
          assert visited[k] == ms[i];
        }
      }
    }
  }

  /** Scans a text for top-level matches: one for each visited chunk that has one, in order. `r` is
      the number of chunks visited, or -1 for bad options. */
  method ScanTop(idx: Index, input: string, minTokens: int, maxTokens: int)
    returns (r: int, ms: seq<Match>, from: seq<Chunk>, tokens: seq<Token>, ghost visited: seq<Chunk>)
    ensures var o := Options(maxTokens, minTokens, " \t\r\n");
            if minTokens >= 1 && (maxTokens > 0 ==> minTokens <= maxTokens) then
              && Split(input, o.separators, tokens, |input|)
              && r == |visited| && InOrder(visited) && (forall q :: IsVisited(visited, q) <==> Uncovered(idx, input, o, tokens, q))
              && (forall q :: IsVisited(from, q) <==> Maximal(idx, input, o, tokens, q))
            else r == -1 && from == []
    ensures |ms| == |from| && forall i :: 0 <= i < |ms| ==> Delimits(tokens, from[i]) && Reports(idx, input, from[i], ms[i])
    ensures InOrder(from) && forall i, j :: 0 <= i < |from| && 0 <= j < |from| && i != j ==> !Inside(from[i].span, from[j].span)
  {
    var o := ScanOptions(minTokens, maxTokens);
    var chunks;
    r, chunks, tokens := Execute(input, o, Visiting(idx, input));
    visited := chunks;
    ms, from := Collect(idx, input, chunks);
    if OptionsOk(o) {
      NeverFails(tokens, Windows(|tokens|, LoopMax(o, |tokens|), o.minTokens), idx, input);
      ScanReports(idx, input, o, tokens, chunks, ms, from);
      MatchesDontNest(idx, input, o, tokens, from);
    }
  }

  method Collect(idx: Index, input: string, visited: seq<Chunk>) returns (ms: seq<Match>, from: seq<Chunk>)
    ensures from == Matching(idx, input, visited)
    ensures |ms| == |from| && forall i :: 0 <= i < |ms| ==> MatchOf(idx, input, from[i]) == Some(ms[i])
  {
    ms, from := [], [];
    for k := 0 to |visited|
      invariant from == Matching(idx, input, visited[..k])
      invariant |ms| == |from| && forall i :: 0 <= i < |ms| ==> MatchOf(idx, input, from[i]) == Some(ms[i])
    {
      assert visited[..k + 1][..k] == visited[..k];
      var m := MatchOf(idx, input, visited[k]);
      if m.Some? {
        ms, from := ms + [m.value], from + [visited[k]];
      }
    }
    assert visited[..|visited|] == visited;
  }

  /** What was collected are reports of the maximal good windows, in order. */
  lemma ScanReports(idx: Index, input: string, o: Options, tokens: seq<Token>, visited: seq<Chunk>, ms: seq<Match>, from: seq<Chunk>)
    requires Split(input, o.separators, tokens, |input|) && Traverses(o, tokens, Visiting(idx, input), visited, |visited|)
    requires from == Matching(idx, input, visited)
    requires |ms| == |from| && forall i :: 0 <= i < |ms| ==> MatchOf(idx, input, from[i]) == Some(ms[i])
    ensures forall i :: 0 <= i < |ms| ==> Delimits(tokens, from[i]) && Reports(idx, input, from[i], ms[i])
    ensures InOrder(visited) && InOrder(from)
    ensures forall q :: IsVisited(visited, q) <==> Uncovered(idx, input, o, tokens, q)
    ensures forall i :: 0 <= i < |from| ==> Maximal(idx, input, o, tokens, from[i].span)
    ensures forall q :: IsVisited(from, q) <==> Maximal(idx, input, o, tokens, q)
  {
    VisitedAreUncovered(idx, input, o, tokens, visited);
    MatchingInOrder(idx, input, visited);
    assert forall i :: 0 <= i < |from| ==> IsVisited(from, from[i].span);
    forall i | 0 <= i < |from|
      ensures Delimits(tokens, from[i]) && Reports(idx, input, from[i], ms[i])
    {
      assert from[i] in visited;
      GoodIsMatch(idx, input, tokens, o.separators, from[i]);
    }
  }

  /** This visitor never stops the traversal. */
  lemma {:induction false} NeverFails(tokens: seq<Token>, ws: seq<Span>, idx: Index, input: string)
    requires InText(tokens, ws)
    ensures !Scan(tokens, ws, Visiting(idx, input)).failed
  {
    if |ws| > 0 {
      NeverFails(tokens, ws[..|ws| - 1], idx, input);
    }
  }

  /** Maximal windows do not nest. */
  lemma MatchesDontNest(idx: Index, input: string, o: Options, tokens: seq<Token>, from: seq<Chunk>)
    requires InOrder(from) && forall i :: 0 <= i < |from| ==> Maximal(idx, input, o, tokens, from[i].span)
    ensures forall i, j :: 0 <= i < |from| && 0 <= j < |from| && i != j ==> !Inside(from[i].span, from[j].span)
  {
  }

  // ---------- children ----------

  /** Keeps the better of two matches with the same id, the earlier one when they tie. */
  function Upsert(ms: seq<Match>, m: Match): seq<Match> {
    if |ms| == 0 then [m]
    else if ms[0].id == m.id then [if m.score > ms[0].score then m else ms[0]] + ms[1..]
    else [ms[0]] + Upsert(ms[1..], m)
  }

  method RecordChild(ms: seq<Match>, m: Match) returns (r: seq<Match>)
    ensures r == Upsert(ms, m)
  {
    var k := 0;
    while k < |ms|
      invariant k <= |ms| && Upsert(ms, m) == ms[..k] + Upsert(ms[k..], m)
    {
      if ms[k].id == m.id {
        if m.score > ms[k].score {
          return ms[k := m];
        }
        assert ms[..k] + ([ms[k]] + ms[k..][1..]) == ms;
        return ms;
      }
      assert ms[k..][1..] == ms[k + 1..];
      k := k + 1;
    }
    r := ms + [m];
  }

  function UpsertAll(hits: seq<Match>): seq<Match> {
    if |hits| == 0 then [] else Upsert(UpsertAll(hits[..|hits| - 1]), hits[|hits| - 1])
  }

  ghost predicate DistinctIds(ms: seq<Match>) {
    forall i, j :: 0 <= i < j < |ms| ==> ms[i].id != ms[j].id
  }

  lemma {:induction false} UpsertIs(ms: seq<Match>, m: Match)
    requires DistinctIds(ms)
    ensures DistinctIds(Upsert(ms, m))
    ensures forall x :: x in Upsert(ms, m) ==> x == m || x in ms
    ensures forall x :: x in ms ==> x in Upsert(ms, m) || (x.id == m.id && x.score < m.score && m in Upsert(ms, m))
    ensures exists x :: x in Upsert(ms, m) && x.id == m.id && m.score <= x.score
  {
    if |ms| == 0 {
      assert m in Upsert(ms, m);
    } else if ms[0].id == m.id {
      assert Upsert(ms, m)[0] in Upsert(ms, m);
    } else {
      UpsertIs(ms[1..], m);
      var x :| x in Upsert(ms[1..], m) && x.id == m.id && m.score <= x.score;
      assert x in Upsert(ms, m);
    }
  }

  /** Children end with one match per id: a hit whose score no other hit of that id beats. */
  lemma {:induction false} BestPerId(hits: seq<Match>)
    ensures DistinctIds(UpsertAll(hits))
    ensures forall x :: x in UpsertAll(hits) ==> x in hits
    ensures forall h :: h in hits ==> exists x :: x in UpsertAll(hits) && x.id == h.id && h.score <= x.score
  {
    if |hits| > 0 {
      var n := |hits| - 1;
      BestPerId(hits[..n]);
      UpsertIs(UpsertAll(hits[..n]), hits[n]);
      forall h | h in hits
        ensures exists x :: x in UpsertAll(hits) && x.id == h.id && h.score <= x.score
      {
        if h != hits[n] {
          assert h in hits[..n];
          BetterStays(UpsertAll(hits[..n]), hits[n], h);
        }
      }
    }
  }

  lemma {:induction false} BetterStays(ms: seq<Match>, m: Match, h: Match)
    requires DistinctIds(ms) && exists x :: x in ms && x.id == h.id && h.score <= x.score
    ensures exists x :: x in Upsert(ms, m) && x.id == h.id && h.score <= x.score
  {
    UpsertIs(ms, m);
    var x :| x in ms && x.id == h.id && h.score <= x.score;
    var y := if x in Upsert(ms, m) then x else m;
    assert y in Upsert(ms, m) && y.id == h.id && h.score <= y.score;
  }

  function Ids(ms: seq<Match>): (r: seq<string>)
    ensures |r| == |ms| && forall i :: 0 <= i < |r| ==> r[i] == ms[i].id
  {
    if |ms| == 0 then [] else [ms[0].id] + Ids(ms[1..])
  }

  /** The ids in the order of their first appearance. */
  function FirstIds(hits: seq<Match>): seq<string> {
    if |hits| == 0 then []
    else
      var ids, id := FirstIds(hits[..|hits| - 1]), hits[|hits| - 1].id;
      if id in ids then ids else ids + [id]
  }

  lemma {:induction false} UpsertIds(ms: seq<Match>, m: Match)
    ensures Ids(Upsert(ms, m)) == if m.id in Ids(ms) then Ids(ms) else Ids(ms) + [m.id]
  {
    if |ms| > 0 {
      var up := Upsert(ms, m);
      if ms[0].id != m.id {
        UpsertIds(ms[1..], m);
        assert up[0] == ms[0] && up[1..] == Upsert(ms[1..], m);
      } else {
        assert up[1..] == ms[1..];
      }
    }
  }

  /** Children come in the order in which their ids first matched. */
  lemma {:induction false} ChildrenInOrder(hits: seq<Match>)
    ensures Ids(UpsertAll(hits)) == FirstIds(hits)
  {
    if |hits| > 0 {
      ChildrenInOrder(hits[..|hits| - 1]);
      UpsertIds(UpsertAll(hits[..|hits| - 1]), hits[|hits| - 1]);
    }
  }

  /** `x` was the first to reach its score among the matches of its id. */
  ghost predicate FirstBest(hits: seq<Match>, x: Match) {
    exists k :: 0 <= k < |hits| && hits[k] == x && BeatsEarlier(hits, k)
  }

  ghost predicate BeatsEarlier(hits: seq<Match>, k: nat)
    requires k < |hits|
  {
    forall j :: 0 <= j < k && hits[j].id == hits[k].id ==> hits[j].score < hits[k].score
  }

  lemma {:induction false} ChildrenAreFirst(hits: seq<Match>)
    ensures forall x :: x in UpsertAll(hits) ==> FirstBest(hits, x)
  {
    if |hits| > 0 {
      var n := |hits| - 1;
      ChildrenAreFirst(hits[..n]);
      BestPerId(hits[..n]);
      forall x | x in UpsertAll(hits)
        ensures FirstBest(hits, x)
      {
        UpsertIs(UpsertAll(hits[..n]), hits[n]);
        if x in UpsertAll(hits[..n]) {
          StaysFirst(hits, x);
        } else {
          NewIsFirst(hits, UpsertAll(hits[..n]));
        }
      }
    }
  }

  lemma StaysFirst(hits: seq<Match>, x: Match)
    requires |hits| > 0 && FirstBest(hits[..|hits| - 1], x)
    ensures FirstBest(hits, x)
  {
    var before := hits[..|hits| - 1];
    var k :| 0 <= k < |before| && before[k] == x && BeatsEarlier(before, k);
    assert hits[k] == x && BeatsEarlier(hits, k);
  }

  lemma {:induction false} NewIsFirst(hits: seq<Match>, before: seq<Match>)
    requires |hits| > 0 && DistinctIds(before)
    requires hits[|hits| - 1] in Upsert(before, hits[|hits| - 1]) && hits[|hits| - 1] !in before
    requires forall h :: h in hits[..|hits| - 1] ==> exists x :: x in before && x.id == h.id && h.score <= x.score
    ensures FirstBest(hits, hits[|hits| - 1])
  {
    var n := |hits| - 1;
    NewIsBetter(before, hits[n]);
    assert BeatsEarlier(hits, n) by {
      forall j | 0 <= j < n && hits[j].id == hits[n].id
        ensures hits[j].score < hits[n].score
      {
        assert hits[j] in hits[..n];
      }
    }
  }

  /** A new match displaces only weaker ones. */
  lemma {:induction false} NewIsBetter(ms: seq<Match>, m: Match)
    requires DistinctIds(ms)
    ensures m in Upsert(ms, m) && m !in ms ==> forall y :: y in ms && y.id == m.id ==> y.score < m.score
  {
    if |ms| > 0 && ms[0].id != m.id {
      NewIsBetter(ms[1..], m);
    }
  }

  /** Scans the text of a match for children, from single tokens up to the size of the match: one match for
      each id, the best of the maximal good windows. */
  method ScanChildren(idx: Index, span: string, size: int) returns (kids: seq<Match>, ghost ms: seq<Match>, ghost from: seq<Chunk>, ghost tokens: seq<Token>)
    requires size >= 1
    ensures Split(span, " \t\r\n", tokens, |span|)
    ensures |ms| == |from| && forall i :: 0 <= i < |ms| ==> Delimits(tokens, from[i]) && Reports(idx, span, from[i], ms[i])
    ensures forall q :: IsVisited(from, q) <==> Maximal(idx, span, Options(size, 1, " \t\r\n"), tokens, q)
    ensures DistinctIds(kids) && Ids(kids) == FirstIds(ms) && forall x :: x in kids ==> FirstBest(ms, x)
    ensures forall h :: h in ms ==> exists x :: x in kids && x.id == h.id && h.score <= x.score
  {
    var r, found, chunks, toks, visited := ScanTop(idx, span, 1, size);
    ms, from, tokens := found, chunks, toks;
    kids := [];
    for k := 0 to |found|
      invariant kids == UpsertAll(found[..k])
    {
      assert found[..k + 1][..k] == found[..k];
      kids := RecordChild(kids, found[k]);
    }
    assert found[..|found|] == found;
    BestPerId(found);
    ChildrenInOrder(found);
    ChildrenAreFirst(found);
  }
}
