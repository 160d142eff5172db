/** The descending-window traversal of `libngram.c`.

    Windows are visited from the longest to the shortest. A visit may close its window;
    windows inside a closed one are then skipped. The list of closed spans is kept
    pruned and sorted so that the test is a binary search.
 */
module ClosedSpans {

  /** Tokens `start` to `end`, both included. */
  datatype Span = Span(start: int, end: int)

  predicate Inside(q: Span, s: Span) {
    s.start <= q.start && q.end <= s.end
  }

  /** Starts and ends both strictly increase. */
  ghost predicate Increasing(s: seq<Span>) {
    forall i, j :: 0 <= i < j < |s| ==> s[i].start < s[j].start && s[i].end < s[j].end
  }

  ghost predicate CoveredBySeq(s: seq<Span>, q: Span) {
    exists i :: 0 <= i < |s| && Inside(q, s[i])
  }

  ghost predicate Covered(closed: set<Span>, q: Span) {
    exists c :: c in closed && Inside(q, c)
  }

  /** The list covers exactly what the closed spans cover. */
  ghost predicate Represents(s: seq<Span>, closed: set<Span>) {
    Increasing(s) && forall q :: CoveredBySeq(s, q) <==> Covered(closed, q)
  }

  /** Among the spans that start at or before `q`, the last one reaches furthest. */
  lemma LastStartDecides(s: seq<Span>, index: int, q: Span)
    requires Increasing(s) && -1 <= index < |s|
    requires forall i :: 0 <= i <= index ==> s[i].start <= q.start
    requires forall i :: index < i < |s| ==> q.start < s[i].start
    ensures CoveredBySeq(s, q) <==> 0 <= index && Inside(q, s[index])
  {
    if CoveredBySeq(s, q) {
      var i :| 0 <= i < |s| && Inside(q, s[i]);
      assert i <= index;
      assert i < index ==> s[i].end < s[index].end;
    }
  }

  /** The list after `q` was put at `at` and the spans `at..last` it contains were removed. */
  function Spliced(s: seq<Span>, at: nat, last: nat, q: Span): seq<Span>
    requires at <= last <= |s|
  {
    s[..at] + [q] + s[last..]
  }

  lemma SplicedCovers(s: seq<Span>, at: nat, last: nat, q: Span)
    requires Increasing(s) && at <= last <= |s|
    requires forall i :: at <= i < last ==> Inside(s[i], q)
    ensures forall x :: CoveredBySeq(Spliced(s, at, last, q), x) <==> CoveredBySeq(s, x) || Inside(x, q)
  {
    var s' := Spliced(s, at, last, q);
    forall x
      ensures CoveredBySeq(s', x) <==> CoveredBySeq(s, x) || Inside(x, q)
    {
      if CoveredBySeq(s, x) {
        var i :| 0 <= i < |s| && Inside(x, s[i]);
        var k := if i < at then i else if i < last then at else i - last + at + 1;
        assert Inside(x, s'[k]);
      }
      if Inside(x, q) {
        assert s'[at] == q;
      }
      if CoveredBySeq(s', x) {
        var k :| 0 <= k < |s'| && Inside(x, s'[k]);
        if k != at {
          var i := if k < at then k else k - at - 1 + last;
          assert s'[k] == s[i];
        }
      }
    }
  }

  class SpanList {
    var spans: seq<Span>
    ghost var closed: set<Span>  // every span ever added

    ghost predicate Valid()
      reads this
    {
      Represents(spans, closed)
    }

    constructor ()
      ensures Valid() && closed == {}
    {
      spans := [];
      closed := {};
    }

    /** The first span that does not start before `start`. */
    method InsertIndex(start: int) returns (left: nat)
      requires Valid()
      ensures left <= |spans|
      ensures forall i :: 0 <= i < left ==> spans[i].start < start
      ensures forall i :: left <= i < |spans| ==> start <= spans[i].start
    {
      left := 0;
      var right := |spans|;
      while left < right
        invariant left <= right <= |spans|
        invariant forall i :: 0 <= i < left ==> spans[i].start < start
        invariant forall i :: right <= i < |spans| ==> start <= spans[i].start
      {
        var mid := left + (right - left) / 2;
        if spans[mid].start < start {
          left := mid + 1;
        } else {
          right := mid;
        }
      }
    }

    /** One binary search answers whether any span ever added contains `q`. */
    method IsClosed(q: Span) returns (b: bool)
      requires Valid()
      ensures b <==> Covered(closed, q)
    {
      var left, right := 0, |spans|;
      while left < right
        invariant 0 <= left <= right <= |spans|
        invariant forall i :: 0 <= i < left ==> spans[i].start <= q.start
        invariant forall i :: right <= i < |spans| ==> q.start < spans[i].start
      {
        var mid := left + (right - left) / 2;
        if spans[mid].start <= q.start {
          left := mid + 1;
        } else {
          right := mid;
        }
      }
      var index := left - 1;
      LastStartDecides(spans, index, q);
      assert CoveredBySeq(spans, q) <==> Covered(closed, q);
      b := index >= 0 && q.start >= spans[index].start && q.end <= spans[index].end;
    }

    /** Adds `q`, dropping the spans it contains, unless one contains it. */
    method Add(q: Span)
      requires Valid() && q.start <= q.end
      modifies this
      ensures Valid() && closed == old(closed) + {q}
    {
      var at := InsertIndex(q.start);
      ghost var s := spans;
      closed := closed + {q};
      if at > 0 && q.start >= spans[at - 1].start && q.end <= spans[at - 1].end {
        AlreadyCovered(s, old(closed), q, at - 1);
        return;
      }
      if at < |spans| && spans[at].start == q.start && spans[at].end >= q.end {
        AlreadyCovered(s, old(closed), q, at);
        return;
      }
      var last := at;
      while last < |spans| && spans[last].end <= q.end
        invariant at <= last <= |spans|
        invariant forall i :: at <= i < last ==> Inside(spans[i], q)
      {
        last := last + 1;
      }
      if last > at {
        spans := spans[..at] + spans[last..];
      }
      if at < |spans| {
        var next := spans[at];
        if q.start >= next.start && q.end <= next.end {
          assert false;
        }
      }
      spans := spans[..at] + [q] + spans[at..];
      assert spans == Spliced(s, at, last, q);
      Inserted(s, old(closed), q, at, last);
    }
  }

  lemma AlreadyCovered(s: seq<Span>, closed: set<Span>, q: Span, i: nat)
    requires Represents(s, closed) && i < |s| && Inside(q, s[i])
    ensures Represents(s, closed + {q})
  {
    forall x
      ensures CoveredBySeq(s, x) <==> Covered(closed + {q}, x)
    {
      assert CoveredBySeq(s, x) <==> Covered(closed, x);
      if Covered(closed + {q}, x) && !Covered(closed, x) {
        assert Inside(x, s[i]);
      }
      if Covered(closed, x) {
        var c :| c in closed && Inside(x, c);
        assert c in closed + {q};
      }
    }
  }

  lemma Inserted(s: seq<Span>, closed: set<Span>, q: Span, at: nat, last: nat)
    requires Represents(s, closed) && at <= last <= |s|
    requires forall i :: 0 <= i < at ==> s[i].start < q.start && s[i].end < q.end
    requires forall i :: at <= i < last ==> Inside(s[i], q)
    requires forall i :: last <= i < |s| ==> q.start < s[i].start && q.end < s[i].end
    ensures Represents(Spliced(s, at, last, q), closed + {q})
  {
    var s' := Spliced(s, at, last, q);
    SplicedCovers(s, at, last, q);
    forall x
      ensures CoveredBySeq(s', x) <==> Covered(closed + {q}, x)
    {
      assert CoveredBySeq(s, x) <==> Covered(closed, x);
      if Covered(closed, x) {
        var c :| c in closed && Inside(x, c);
        assert c in closed + {q};
      }
      if Inside(x, q) {
        assert q in closed + {q};
      }
    }
  }
}
