/** The traversal itself, against a simple specification. */
module Traversal {
  import opened ClosedSpans
  import opened Tokens

  datatype Options = Options(maxTokens: int, minTokens: int, separators: string)

  datatype Chunk = Chunk(byteStart: nat, byteEnd: nat, span: Span, size: int)

  /** A visitor's answer may depend on everything it has seen. */
  type Visitor = (seq<Chunk>, Chunk) -> int

  // ---------- the windows, in order ----------

  /** Windows of `w` tokens starting at `s` or later. */
  function Row(n: int, w: int, s: int): seq<Span>
    decreases n - w - s + 1
  {
    if s > n - w then [] else [Span(s, s + w - 1)] + Row(n, w, s + 1)
  }

  /** All windows of `hi` down to `lo` tokens. */
  function Windows(n: int, hi: int, lo: int): seq<Span>
    decreases hi - lo + 1
  {
    if hi < lo then [] else Row(n, hi, 0) + Windows(n, hi - 1, lo)
  }

  function Size(s: Span): int {
    s.end - s.start + 1
  }

  lemma {:induction false} RowIs(n: int, w: int, s: int)
    requires 0 <= s && 0 < w
    ensures forall i :: 0 <= i < |Row(n, w, s)| ==> Row(n, w, s)[i] == Span(s + i, s + i + w - 1)
    ensures |Row(n, w, s)| == if s > n - w then 0 else n - w - s + 1
    decreases n - w - s + 1
  {
    if s <= n - w {
      RowIs(n, w, s + 1);
    }
  }

  /** Earlier windows are longer, or as long and start before. */
  predicate Precedes(a: Span, b: Span) {
    Size(a) > Size(b) || (Size(a) == Size(b) && a.start < b.start)
  }

  /** The windows are all spans of allowed sizes within the text, in order, each once. */
  lemma {:induction false} WindowsAre(n: int, hi: int, lo: int)
    requires 0 < lo
    ensures forall q :: q in Windows(n, hi, lo) <==> IsWindow(n, hi, lo, q)
    ensures forall i, j :: 0 <= i < j < |Windows(n, hi, lo)| ==> Precedes(Windows(n, hi, lo)[i], Windows(n, hi, lo)[j])
    decreases hi - lo + 1
  {
    if hi >= lo {
      WindowsAre(n, hi - 1, lo);
      RowThen(n, hi, lo, Windows(n, hi - 1, lo));
    }
  }

  /** A window of `lo` to `hi` of the `n` tokens. */
  ghost predicate IsWindow(n: int, hi: int, lo: int, q: Span) {
    lo <= Size(q) <= hi && 0 <= q.start && q.end < n
  }

  /** The widest windows, then the others. */
  lemma {:induction false} RowThen(n: int, hi: int, lo: int, rest: seq<Span>)
    requires 0 < lo <= hi && forall q :: q in rest <==> IsWindow(n, hi - 1, lo, q)
    requires forall i, j :: 0 <= i < j < |rest| ==> Precedes(rest[i], rest[j])
    ensures forall q :: q in Row(n, hi, 0) + rest <==> IsWindow(n, hi, lo, q)
    ensures forall i, j :: 0 <= i < j < |Row(n, hi, 0) + rest| ==> Precedes((Row(n, hi, 0) + rest)[i], (Row(n, hi, 0) + rest)[j])
  {
    var row := Row(n, hi, 0);
    RowIs(n, hi, 0);
    forall q
      ensures q in row + rest <==> IsWindow(n, hi, lo, q)
    {
      if Size(q) == hi && 0 <= q.start && q.end < n {
        assert row[q.start] == q;
      }
    }
    forall i, j | 0 <= i < j < |row + rest|
      ensures Precedes((row + rest)[i], (row + rest)[j])
    {
      if i < |row| <= j {
        assert rest[j - |row|] in rest;
      }
    }
  }

  // ---------- the specification ----------

  /** What has been visited, what was closed, and whether a visit failed. */
  datatype Trace = Trace(visited: seq<Chunk>, closed: set<Span>, failed: bool)

  function ChunkOf(tokens: seq<Token>, q: Span): Chunk
    requires 0 <= q.start <= q.end < |tokens|
  {
    Chunk(tokens[q.start].start, tokens[q.end].end, q, Size(q))
  }

  ghost predicate InText(tokens: seq<Token>, ws: seq<Span>) {
    forall i :: 0 <= i < |ws| ==> 0 <= ws[i].start <= ws[i].end < |tokens|
  }

  ghost function Visit(tokens: seq<Token>, t: Trace, q: Span, visit: Visitor): Trace
    requires 0 <= q.start <= q.end < |tokens|
  {
    var c := ChunkOf(tokens, q);
    var d := visit(t.visited, c);
    if d < 0 then t.(failed := true)
    else Trace(t.visited + [c], if d == 1 then t.closed + {q} else t.closed, false)
  }

  /** Take the windows in order; skip those inside a closed one; stop at a failure. */
  ghost function Scan(tokens: seq<Token>, ws: seq<Span>, visit: Visitor): Trace
    requires InText(tokens, ws)
  {
    if |ws| == 0 then Trace([], {}, false)
    else
      var t, q := Scan(tokens, ws[..|ws| - 1], visit), ws[|ws| - 1];
      if t.failed || Covered(t.closed, q) then t else Visit(tokens, t, q, visit)
  }

  // ---------- what the specification says ----------

  /** Window `i` is visited when its turn comes: no failure, and no closed span around it. */
  ghost predicate Reached(tokens: seq<Token>, ws: seq<Span>, visit: Visitor, i: nat)
    requires InText(tokens, ws) && i < |ws|
  {
    var t := Scan(tokens, ws[..i], visit);
    !t.failed && !Covered(t.closed, ws[i])
  }

  /** What the visitor says to window `i`. */
  ghost function Answer(tokens: seq<Token>, ws: seq<Span>, visit: Visitor, i: nat): int
    requires InText(tokens, ws) && i < |ws|
  {
    visit(Scan(tokens, ws[..i], visit).visited, ChunkOf(tokens, ws[i]))
  }

  /** Window `i` is the window `q` and is visited without failing. */
  ghost predicate VisitedAt(tokens: seq<Token>, ws: seq<Span>, visit: Visitor, i: int, q: Span)
    requires InText(tokens, ws)
  {
    0 <= i < |ws| && ws[i] == q && Reached(tokens, ws, visit, i) && Answer(tokens, ws, visit, i) >= 0
  }

  ghost predicate ClosedAt(tokens: seq<Token>, ws: seq<Span>, visit: Visitor, i: int, q: Span)
    requires InText(tokens, ws)
  {
    0 <= i < |ws| && ws[i] == q && Reached(tokens, ws, visit, i) && Answer(tokens, ws, visit, i) == 1
  }

  lemma PrefixSame(tokens: seq<Token>, ws: seq<Span>, visit: Visitor, i: int, q: Span)
    requires InText(tokens, ws) && |ws| > 0
    ensures VisitedAt(tokens, ws, visit, i, q) <==>
            VisitedAt(tokens, ws[..|ws| - 1], visit, i, q) || (i == |ws| - 1 && VisitedAt(tokens, ws, visit, i, q))
    ensures ClosedAt(tokens, ws, visit, i, q) <==>
            ClosedAt(tokens, ws[..|ws| - 1], visit, i, q) || (i == |ws| - 1 && ClosedAt(tokens, ws, visit, i, q))
  {
    if 0 <= i < |ws| - 1 {
      assert ws[..|ws| - 1][..i] == ws[..i];
    }
  }

  /** The visited chunks are exactly those of the windows that were reached. */
  lemma {:induction false} VisitedAre(tokens: seq<Token>, ws: seq<Span>, visit: Visitor, q: Span)
    requires InText(tokens, ws) && 0 <= q.start <= q.end < |tokens|
    ensures ChunkOf(tokens, q) in Scan(tokens, ws, visit).visited <==> exists i :: VisitedAt(tokens, ws, visit, i, q)
  {
    if |ws| > 0 {
      var n := |ws| - 1;
      VisitedAre(tokens, ws[..n], visit, q);
      forall i
        ensures VisitedAt(tokens, ws, visit, i, q) <==>
                VisitedAt(tokens, ws[..n], visit, i, q) || (i == n && VisitedAt(tokens, ws, visit, i, q))
      {
        PrefixSame(tokens, ws, visit, i, q);
      }
      ScanStep(tokens, ws, visit);
      assert VisitedAt(tokens, ws, visit, n, q) <==>
             q == ws[n] && Reached(tokens, ws, visit, n) && Answer(tokens, ws, visit, n) >= 0;
      if exists i :: VisitedAt(tokens, ws[..n], visit, i, q) {
        var i :| VisitedAt(tokens, ws[..n], visit, i, q);
        assert VisitedAt(tokens, ws, visit, i, q);
      }
    }
  }

  /** The closed spans are exactly the windows that were reached and answered with 1. */
  lemma {:induction false} ClosedAre(tokens: seq<Token>, ws: seq<Span>, visit: Visitor, q: Span)
    requires InText(tokens, ws)
    ensures q in Scan(tokens, ws, visit).closed <==> exists i :: ClosedAt(tokens, ws, visit, i, q)
  {
    if |ws| > 0 {
      var n := |ws| - 1;
      ClosedAre(tokens, ws[..n], visit, q);
      forall i
        ensures ClosedAt(tokens, ws, visit, i, q) <==>
                ClosedAt(tokens, ws[..n], visit, i, q) || (i == n && ClosedAt(tokens, ws, visit, i, q))
      {
        PrefixSame(tokens, ws, visit, i, q);
      }
      ScanStep(tokens, ws, visit);
      assert ClosedAt(tokens, ws, visit, n, q) <==>
             q == ws[n] && Reached(tokens, ws, visit, n) && Answer(tokens, ws, visit, n) == 1;
      if exists i :: ClosedAt(tokens, ws[..n], visit, i, q) {
        var i :| ClosedAt(tokens, ws[..n], visit, i, q);
        assert ClosedAt(tokens, ws, visit, i, q);
      }
    }
  }

  lemma ScanStep(tokens: seq<Token>, ws: seq<Span>, visit: Visitor)
    requires InText(tokens, ws) && |ws| > 0
    ensures var n := |ws| - 1;
            var t, t' := Scan(tokens, ws[..n], visit), Scan(tokens, ws, visit);
            var ok, a := Reached(tokens, ws, visit, n), Answer(tokens, ws, visit, n);
            && t'.visited == t.visited + (if ok && a >= 0 then [ChunkOf(tokens, ws[n])] else [])
            && t'.closed == t.closed + (if ok && a == 1 then {ws[n]} else {})
  {
  }

  lemma {:induction false} ClosedInWindows(tokens: seq<Token>, ws: seq<Span>, visit: Visitor)
    requires InText(tokens, ws)
    ensures forall q :: q in Scan(tokens, ws, visit).closed ==> q in ws
  {
    if |ws| > 0 {
      ClosedInWindows(tokens, ws[..|ws| - 1], visit);
      ScanStep(tokens, ws, visit);
    }
  }

  /** No closed window lies inside another one. */
  lemma {:induction false} NoneNested(tokens: seq<Token>, ws: seq<Span>, visit: Visitor)
    requires InText(tokens, ws) && forall i, j :: 0 <= i < j < |ws| ==> Precedes(ws[i], ws[j])
    ensures forall a, b :: a in Scan(tokens, ws, visit).closed && b in Scan(tokens, ws, visit).closed && a != b ==> !Inside(a, b)
  {
    if |ws| > 0 {
      var n := |ws| - 1;
      var ws', q := ws[..n], ws[n];
      NoneNested(tokens, ws', visit);
      ClosedInWindows(tokens, ws', visit);
      var t := Scan(tokens, ws', visit);
      forall c | c in t.closed
        ensures Precedes(c, q)
      {
        assert c in ws';
        var i :| 0 <= i < n && c == ws'[i];
        assert ws[i] == c;
      }
      ScanStep(tokens, ws, visit);
    }
  }

  // ---------- the traversal ----------

  /** What `kc_ngram_options_default` sets. */
  const DEFAULT_OPTIONS := Options(10, 1, " \t\r\n")

  predicate OptionsOk(o: Options) {
    o.minTokens >= 1 && (o.maxTokens > 0 ==> o.maxTokens >= o.minTokens)
  }

  function LoopMax(o: Options, count: int): int {
    if o.maxTokens == 0 || count < o.maxTokens then count else o.maxTokens
  }

  // ---------- the same in plain words ----------

  /** A window of a text of `n` tokens that the options allow; no largest size when `maxTokens` is 0. */
  ghost predicate Allowed(o: Options, n: int, q: Span) {
    && 0 <= q.start <= q.end < n && o.minTokens <= q.end - q.start + 1
    && (o.maxTokens != 0 ==> q.end - q.start + 1 <= o.maxTokens)
  }

  /** A chunk runs from the start of its first token to the end of its last. */
  ghost predicate Delimits(tokens: seq<Token>, c: Chunk) {
    && 0 <= c.span.start <= c.span.end < |tokens| && c.size == c.span.end - c.span.start + 1
    && c.byteStart == tokens[c.span.start].start && c.byteEnd == tokens[c.span.end].end
  }

  /** The visitor answered 1 to chunk `k`, which closes its window. */
  ghost predicate Closes(visit: Visitor, visited: seq<Chunk>, k: int) {
    0 <= k < |visited| && visit(visited[..k], visited[k]) == 1
  }

  ghost predicate IsVisited(visited: seq<Chunk>, q: Span) {
    exists i :: 0 <= i < |visited| && visited[i].span == q
  }

  ghost predicate InsideClosed(visit: Visitor, visited: seq<Chunk>, q: Span) {
    exists k :: Closes(visit, visited, k) && Inside(q, visited[k].span)
  }

  /** Chunks in the order of their windows, none inside one that was closed before it, none refused. */
  ghost predicate Orderly(tokens: seq<Token>, visit: Visitor, visited: seq<Chunk>) {
    && (forall i :: 0 <= i < |visited| ==> Delimits(tokens, visited[i]) && visit(visited[..i], visited[i]) >= 0)
    && (forall i, j :: 0 <= i < j < |visited| ==> Precedes(visited[i].span, visited[j].span))
    && (forall i, k :: Closes(visit, visited, k) && k < i < |visited| ==> !Inside(visited[i].span, visited[k].span))
  }

  /** Window `q` was next, and the visitor refused it. */
  ghost predicate Refused(tokens: seq<Token>, visit: Visitor, visited: seq<Chunk>, q: Span) {
    exists c :: Delimits(tokens, c) && c.span == q && visit(visited, c) < 0
  }

  /** What a scan of the windows `ws` leaves. */
  ghost predicate Traced(tokens: seq<Token>, ws: seq<Span>, visit: Visitor, t: Trace) {
    && Orderly(tokens, visit, t.visited)
    && (forall i :: 0 <= i < |t.visited| ==> t.visited[i].span in ws)
    && (forall q :: q in t.closed <==> ClosedSpan(visit, t.visited, q))
    && (!t.failed ==> forall q :: q in ws ==> IsVisited(t.visited, q) || InsideClosed(visit, t.visited, q))
    && (t.failed ==> exists q :: q in ws && Refused(tokens, visit, t.visited, q))
  }

  ghost predicate ClosedSpan(visit: Visitor, visited: seq<Chunk>, q: Span) {
    exists k :: Closes(visit, visited, k) && visited[k].span == q
  }

  lemma {:induction false} ScanIsTraced(tokens: seq<Token>, ws: seq<Span>, visit: Visitor)
    requires InText(tokens, ws) && forall i, j :: 0 <= i < j < |ws| ==> Precedes(ws[i], ws[j])
    ensures Traced(tokens, ws, visit, Scan(tokens, ws, visit))
  {
    if |ws| > 0 {
      var n := |ws| - 1;
      var t, q := Scan(tokens, ws[..n], visit), ws[n];
      ScanIsTraced(tokens, ws[..n], visit);
      assert ws == ws[..n] + [q];
      assert forall w :: w in ws[..n] ==> Precedes(w, q);
      if t.failed || Covered(t.closed, q) {
        TracedSkip(tokens, ws[..n], visit, t, q);
      } else {
        TracedVisit(tokens, ws[..n], visit, t, q);
      }
    }
  }

  lemma TracedSkip(tokens: seq<Token>, ws: seq<Span>, visit: Visitor, t: Trace, q: Span)
    requires Traced(tokens, ws, visit, t) && (t.failed || Covered(t.closed, q))
    ensures Traced(tokens, ws + [q], visit, t)
  {
    if t.failed {
      var w :| w in ws && Refused(tokens, visit, t.visited, w);
      assert w in ws + [q];
    } else {
      assert InsideClosed(visit, t.visited, q);
    }
  }

  lemma TracedVisit(tokens: seq<Token>, ws: seq<Span>, visit: Visitor, t: Trace, q: Span)
    requires Traced(tokens, ws, visit, t) && !t.failed && !Covered(t.closed, q)
    requires 0 <= q.start <= q.end < |tokens| && forall w :: w in ws ==> Precedes(w, q)
    ensures Traced(tokens, ws + [q], visit, Visit(tokens, t, q, visit))
  {
    var c := ChunkOf(tokens, q);
    if visit(t.visited, c) < 0 {
      assert Refused(tokens, visit, t.visited, q);
      assert q in ws + [q];
    } else {
      OneMoreOrderly(tokens, visit, t, c);
      OneMoreClosed(visit, t.visited, c);
      OneMoreDone(ws, visit, t.visited, c);
    }
  }

  lemma ClosesSame(visit: Visitor, visited: seq<Chunk>, c: Chunk, k: int)
    ensures Closes(visit, visited + [c], k) <==> Closes(visit, visited, k) || (k == |visited| && visit(visited, c) == 1)
  {
    if 0 <= k <= |visited| {
      assert (visited + [c])[..k] == visited[..k];
      assert visited[..|visited|] == visited;
    }
  }

  lemma OneMoreOrderly(tokens: seq<Token>, visit: Visitor, t: Trace, c: Chunk)
    requires Orderly(tokens, visit, t.visited) && Delimits(tokens, c) && visit(t.visited, c) >= 0
    requires forall q :: q in t.closed <==> ClosedSpan(visit, t.visited, q)
    requires !Covered(t.closed, c.span) && forall i :: 0 <= i < |t.visited| ==> Precedes(t.visited[i].span, c.span)
    ensures Orderly(tokens, visit, t.visited + [c])
  {
    var v, v' := t.visited, t.visited + [c];
    forall i | 0 <= i < |v'|
      ensures visit(v'[..i], v'[i]) >= 0
    {
      assert v'[..i] == v[..i];
      assert v[..|v|] == v;
    }
    forall i, k | Closes(visit, v', k) && k < i < |v'|
      ensures !Inside(v'[i].span, v'[k].span)
    {
      ClosesSame(visit, v, c, k);
      assert ClosedSpan(visit, v, v[k].span);
    }
  }

  lemma OneMoreClosed(visit: Visitor, visited: seq<Chunk>, c: Chunk)
    ensures forall q :: ClosedSpan(visit, visited + [c], q) <==> ClosedSpan(visit, visited, q) || (q == c.span && visit(visited, c) == 1)
  {
    forall q
      ensures ClosedSpan(visit, visited + [c], q) <==> ClosedSpan(visit, visited, q) || (q == c.span && visit(visited, c) == 1)
    {
      forall k
        ensures Closes(visit, visited + [c], k) <==> Closes(visit, visited, k) || (k == |visited| && visit(visited, c) == 1)
      {
        ClosesSame(visit, visited, c, k);
      }
      if ClosedSpan(visit, visited, q) {
        var k :| Closes(visit, visited, k) && visited[k].span == q;
        assert Closes(visit, visited + [c], k);
      }
      if q == c.span && visit(visited, c) == 1 {
        assert Closes(visit, visited + [c], |visited|);
      }
    }
  }

  lemma OneMoreDone(ws: seq<Span>, visit: Visitor, visited: seq<Chunk>, c: Chunk)
    requires forall q :: q in ws ==> IsVisited(visited, q) || InsideClosed(visit, visited, q)
    ensures forall q :: q in ws + [c.span] ==> IsVisited(visited + [c], q) || InsideClosed(visit, visited + [c], q)
  {
    forall q | q in ws + [c.span]
      ensures IsVisited(visited + [c], q) || InsideClosed(visit, visited + [c], q)
    {
      if q == c.span {
        assert (visited + [c])[|visited|].span == q;
      } else if IsVisited(visited, q) {
        var i :| 0 <= i < |visited| && visited[i].span == q;
        assert (visited + [c])[i].span == q;
      } else {
        var k :| Closes(visit, visited, k) && Inside(q, visited[k].span);
        ClosesSame(visit, visited, c, k);
      }
    }
  }

  /** Visited are allowed windows; without a failure every other allowed window lies inside a closed one. */
  ghost predicate Traverses(o: Options, tokens: seq<Token>, visit: Visitor, visited: seq<Chunk>, r: int) {
    && Orderly(tokens, visit, visited)
    && (forall i :: 0 <= i < |visited| ==> Allowed(o, |tokens|, visited[i].span))
    && (r == |visited| || r == -1)
    && (r >= 0 ==> forall q :: Allowed(o, |tokens|, q) ==> IsVisited(visited, q) || InsideClosed(visit, visited, q))
    && (r == -1 ==> exists q :: Allowed(o, |tokens|, q) && Refused(tokens, visit, visited, q))
  }

  lemma ScanTraverses(o: Options, tokens: seq<Token>, visit: Visitor)
    requires OptionsOk(o) && InText(tokens, Windows(|tokens|, LoopMax(o, |tokens|), o.minTokens))
    ensures var t := Scan(tokens, Windows(|tokens|, LoopMax(o, |tokens|), o.minTokens), visit);
            Traverses(o, tokens, visit, t.visited, if t.failed then -1 else |t.visited|)
  {
    var ws := Windows(|tokens|, LoopMax(o, |tokens|), o.minTokens);
    WindowsAre(|tokens|, LoopMax(o, |tokens|), o.minTokens);
    assert forall q :: q in ws <==> Allowed(o, |tokens|, q) by {
      assert forall q :: IsWindow(|tokens|, LoopMax(o, |tokens|), o.minTokens, q) <==> Allowed(o, |tokens|, q);
    }
    ScanIsTraced(tokens, ws, visit);
  }

  /** The list of closed spans and the visited chunks stand for a trace. */
  ghost predicate Tracks(list: SpanList, visited: seq<Chunk>, t: Trace)
    reads list
  {
    list.Valid() && list.closed == t.closed && visited == t.visited
  }

  method VisitWindow(list: SpanList, tokens: seq<Token>, q: Span, visit: Visitor, before: seq<Chunk>, ghost ws: seq<Span>)
    returns (failed: bool, visited: seq<Chunk>)
    requires InText(tokens, ws) && InText(tokens, ws + [q]) && !Scan(tokens, ws, visit).failed
    requires Tracks(list, before, Scan(tokens, ws, visit))
    modifies list
    ensures var t := Scan(tokens, ws + [q], visit); failed == t.failed && visited == t.visited && (!failed ==> Tracks(list, visited, t))
  {
    assert (ws + [q])[..|ws|] == ws;
    assert (ws + [q])[|ws|] == q;
    failed, visited := false, before;
    var closed := list.IsClosed(q);
    if closed {
      return;
    }
    var c := Chunk(tokens[q.start].start, tokens[q.end].end, q, q.end - q.start + 1);
    var decision := visit(before, c);
    if decision < 0 {
      return true, before;
    }
    visited := before + [c];
    if decision == 1 {
      list.Add(q);
    }
  }

  /** Nothing is visited after a failure. */
  lemma {:induction false} FailureStays(tokens: seq<Token>, a: seq<Span>, b: seq<Span>, visit: Visitor)
    requires InText(tokens, a + b) && InText(tokens, a) && Scan(tokens, a, visit).failed
    ensures Scan(tokens, a + b, visit) == Scan(tokens, a, visit)
  {
    if |b| == 0 {
      assert a + b == a;
    } else {
      var b' := b[..|b| - 1];
      assert (a + b)[..|a + b| - 1] == a + b';
      FailureStays(tokens, a, b', visit);
    }
  }

  lemma WindowsInText(tokens: seq<Token>, hi: int, lo: int)
    requires 0 < lo
    ensures InText(tokens, Windows(|tokens|, hi, lo))
  {
    var ws := Windows(|tokens|, hi, lo);
    WindowsAre(|tokens|, hi, lo);
    forall i | 0 <= i < |ws|
      ensures 0 <= ws[i].start <= ws[i].end < |tokens|
    {
      assert ws[i] in ws;
    }
  }

  lemma NoWindows(hi: int, lo: int)
    requires 0 < lo
    ensures Windows(0, hi, lo) == []
  {
    WindowsAre(0, hi, lo);
    assert forall q :: q in Windows(0, hi, lo) ==> false;
  }

  /** All windows of one size. */
  method VisitRow(list: SpanList, tokens: seq<Token>, w: int, visit: Visitor, before: seq<Chunk>, ghost ws: seq<Span>)
    returns (failed: bool, visited: seq<Chunk>)
    requires 0 < w && InText(tokens, ws) && InText(tokens, ws + Row(|tokens|, w, 0))
    requires !Scan(tokens, ws, visit).failed && Tracks(list, before, Scan(tokens, ws, visit))
    modifies list
    ensures var t := Scan(tokens, ws + Row(|tokens|, w, 0), visit);
            failed == t.failed && visited == t.visited && (!failed ==> Tracks(list, visited, t))
  {
    failed, visited := false, before;
    ghost var all, cur := ws + Row(|tokens|, w, 0), ws;
    var start := 0;
    while start <= |tokens| - w
      invariant 0 <= start && InText(tokens, cur) && cur + Row(|tokens|, w, start) == all
      invariant !Scan(tokens, cur, visit).failed && Tracks(list, visited, Scan(tokens, cur, visit))
      decreases |tokens| - w - start + 1
    {
      var q := Span(start, start + w - 1);
      ghost var next := cur + [q];
      assert next + Row(|tokens|, w, start + 1) == all;
      failed, visited := VisitWindow(list, tokens, q, visit, visited, cur);
      if failed {
        FailureStays(tokens, next, Row(|tokens|, w, start + 1), visit);
        return;
      }
      cur := next;
      start := start + 1;
    }
    assert cur == all;
  }

  /** Returns the number of chunks visited, or -1 for bad options or a failed visit. */
  method Execute(input: string, o: Options, visit: Visitor) returns (r: int, visited: seq<Chunk>, tokens: seq<Token>)
    ensures OptionsOk(o) <==> o.minTokens >= 1 && (o.maxTokens > 0 ==> o.minTokens <= o.maxTokens)
    ensures !OptionsOk(o) ==> r == -1 && visited == []
    ensures OptionsOk(o) ==> Split(input, o.separators, tokens, |input|)
    ensures OptionsOk(o) ==>
              var ws := Windows(|tokens|, LoopMax(o, |tokens|), o.minTokens);
              && InText(tokens, ws)
              && visited == Scan(tokens, ws, visit).visited
              && r == if Scan(tokens, ws, visit).failed then -1 else |visited|
    ensures OptionsOk(o) ==> Traverses(o, tokens, visit, visited, r)
  {
    r, visited, tokens := -1, [], [];
    if !OptionsOk(o) {
      return;
    }
    tokens := SplitTokens(input, o.separators);
    WindowsInText(tokens, LoopMax(o, |tokens|), o.minTokens);
    ScanTraverses(o, tokens, visit);
    if |tokens| == 0 {
      NoWindows(LoopMax(o, 0), o.minTokens);
      return 0, visited, tokens;
    }
    var failed;
    failed, visited := VisitAll(tokens, LoopMax(o, |tokens|), o.minTokens, visit);
    r := if failed then -1 else |visited|;
  }

  /** Row after row, from the longest windows to the shortest. */
  method VisitAll(tokens: seq<Token>, hi: int, lo: int, visit: Visitor) returns (failed: bool, visited: seq<Chunk>)
    requires 0 < lo && InText(tokens, Windows(|tokens|, hi, lo))
    ensures var t := Scan(tokens, Windows(|tokens|, hi, lo), visit); failed == t.failed && visited == t.visited
  {
    failed, visited := false, [];
    ghost var all, ws: seq<Span> := Windows(|tokens|, hi, lo), [];
    var list := new SpanList();
    var w := hi;
    while w >= lo
      invariant ws + Windows(|tokens|, w, lo) == all
      invariant InText(tokens, ws) && !Scan(tokens, ws, visit).failed
      invariant Tracks(list, visited, Scan(tokens, ws, visit)) && fresh(list)
      decreases w
    {
      ghost var row, rest := ws + Row(|tokens|, w, 0), Windows(|tokens|, w - 1, lo);
      assert row + rest == all;
      assert InText(tokens, row) by {
        PrefixInText(tokens, row, rest);
      }
      failed, visited := VisitRow(list, tokens, w, visit, visited, ws);
      if failed {
        FailureStays(tokens, row, rest, visit);
        return;
      }
      ws := row;
      w := w - 1;
    }
    assert ws == all;
  }

  lemma PrefixInText(tokens: seq<Token>, a: seq<Span>, b: seq<Span>)
    requires InText(tokens, a + b)
    ensures InText(tokens, a)
  {
    forall i | 0 <= i < |a|
      ensures 0 <= a[i].start <= a[i].end < |tokens|
    {
      assert (a + b)[i] == a[i];
    }
  }

  /** What the traversal promises: closed windows never nest. */
  lemma ExecuteNeverNests(tokens: seq<Token>, o: Options, visit: Visitor)
    requires OptionsOk(o) && InText(tokens, Windows(|tokens|, LoopMax(o, |tokens|), o.minTokens))
    ensures var closed := Scan(tokens, Windows(|tokens|, LoopMax(o, |tokens|), o.minTokens), visit).closed;
            forall a, b :: a in closed && b in closed && a != b ==> !Inside(a, b)
  {
    WindowsAre(|tokens|, LoopMax(o, |tokens|), o.minTokens);
    NoneNested(tokens, Windows(|tokens|, LoopMax(o, |tokens|), o.minTokens), visit);
  }
}
