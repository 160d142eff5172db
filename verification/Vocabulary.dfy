/** The vocabulary of `libemb.c` and its hash table. */
module Vocabulary {
  import opened Wrappers
  import opened Probing

  /** A byte of a string; zero ends strings and is not part of them. */
  type Byte = b: int | 0 < b < 256 witness 1

  type Str = seq<Byte>

  function HashFrom(h: nat, s: Str): (r: nat)
    requires h < 0x1_0000_0000
    ensures r < 0x1_0000_0000
    decreases |s|
  {
    if s == [] then h else HashFrom((h * 33 + s[0]) % 0x1_0000_0000, s[1..])
  }

  function Home(s: Str, n: nat): (h: nat)
    requires n > 0
    ensures h < n
  {
    HashFrom(5381, s) % n
  }

  datatype Entry = Entry(str: Str, id: nat)

  type Table = seq<Option<Entry>>

  // ---------- what a lookup means ----------

  /** The smallest index at or after `i` that holds `s`, or -1. */
  function FirstFrom(vocab: seq<Str>, s: Str, i: nat): (r: int)
    requires i <= |vocab|
    ensures -1 <= r < |vocab|
    decreases |vocab| - i
  {
    if i == |vocab| then -1 else if vocab[i] == s then i else FirstFrom(vocab, s, i + 1)
  }

  lemma {:induction false} FirstFromIs(vocab: seq<Str>, s: Str, i: nat)
    requires i <= |vocab|
    ensures var r := FirstFrom(vocab, s, i);
            if r == -1 then forall k :: i <= k < |vocab| ==> vocab[k] != s
            else i <= r && vocab[r] == s && forall k :: i <= k < r ==> vocab[k] != s
    decreases |vocab| - i
  {
    if i < |vocab| && vocab[i] != s {
      FirstFromIs(vocab, s, i + 1);
    }
  }

  /** The number of a word, or -1. */
  function IdOf(vocab: seq<Str>, s: Str): (r: int)
    ensures -1 <= r < |vocab|
  {
    FirstFrom(vocab, s, 0)
  }

  /** The smallest number of a word. */
  ghost predicate IsFirst(vocab: seq<Str>, s: Str, id: int) {
    0 <= id < |vocab| && vocab[id] == s && forall k :: 0 <= k < id ==> vocab[k] != s
  }

  lemma IdIs(vocab: seq<Str>, s: Str, i: nat)
    requires i < |vocab| && vocab[i] == s && forall k :: 0 <= k < i ==> vocab[k] != s
    ensures IdOf(vocab, s) == i
  {
    FirstFromIs(vocab, s, 0);
  }

  lemma NoId(vocab: seq<Str>, s: Str)
    ensures IdOf(vocab, s) == -1 <==> s !in vocab
    ensures IdOf(vocab, s) >= 0 ==> IsFirst(vocab, s, IdOf(vocab, s))
  {
    FirstFromIs(vocab, s, 0);
  }

  // ---------- the table ----------

  /** On the way to entry `e`, `p` steps long, all slots are taken, and the same word has
      smaller numbers there. */
  ghost predicate WayOk(t: Table, e: Entry, p: nat)
    requires |t| > 0 && p <= |t|
  {
    forall q :: 0 <= q < p ==>
      var x := t[Slot(|t|, Home(e.str, |t|), q)];
      x.Some? && (x.value.str == e.str ==> x.value.id < e.id)
  }

  ghost predicate EntryOk(t: Table, vocab: seq<Str>, n: nat, x: nat)
    requires 0 < |t| && n <= |vocab| && x < |t|
  {
    t[x].Some? ==>
      var e := t[x].value;
      e.id < n && e.str == vocab[e.id] && WayOk(t, e, Steps(|t|, Home(e.str, |t|), x))
  }

  /** The table holds the first `n` words. */
  ghost predicate HoldsWords(t: Table, vocab: seq<Str>, n: nat) {
    && 0 < |t| && n <= |vocab| && Taken(t) == n
    && (forall x :: 0 <= x < |t| ==> EntryOk(t, vocab, n, x))
    && (forall i :: 0 <= i < n ==> Some(Entry(vocab[i], i)) in t)
  }

  /** Probing for a word passed `p` taken slots. */
  ghost predicate Passed(t: Table, s: Str, p: nat)
    requires |t| > 0 && p <= |t|
  {
    forall q :: 0 <= q < p ==> t[Slot(|t|, Home(s, |t|), q)].Some?
  }

  ghost predicate PassedOthers(t: Table, s: Str, p: nat)
    requires |t| > 0 && p <= |t|
  {
    forall q :: 0 <= q < p ==> var x := t[Slot(|t|, Home(s, |t|), q)]; x.Some? && x.value.str != s
  }

  /** While a slot is free, probing does not go all the way round. */
  lemma NotAround(t: Table, s: Str)
    requires |t| > 0 && Taken(t) < |t|
    ensures !Passed(t, s, |t|)
  {
    if Passed(t, s, |t|) {
      BusyAround(t, Home(s, |t|));
    }
  }

  lemma InsertWord(t: Table, vocab: seq<Str>, n: nat, p: nat)
    requires HoldsWords(t, vocab, n) && n < |vocab| && p < |t| && Passed(t, vocab[n], p)
    requires t[Slot(|t|, Home(vocab[n], |t|), p)].None?
    ensures HoldsWords(t[Slot(|t|, Home(vocab[n], |t|), p) := Some(Entry(vocab[n], n))], vocab, n + 1)
  {
    var e := Entry(vocab[n], n);
    var y := Slot(|t|, Home(e.str, |t|), p);
    var t' := t[y := Some(e)];
    TakenMore(t, y, e);
    var m := n + 1;
    forall x | 0 <= x < |t|
      ensures EntryOk(t', vocab, m, x)
    {
      assert EntryOk(t, vocab, n, x);
      if x == y {
        NewWay(t, vocab, n, p);
      } else if t[x].Some? {
        WayStays(t, t[x].value, Steps(|t|, Home(t[x].value.str, |t|), x), y, e);
      }
    }
    forall i | 0 <= i < n + 1
      ensures Some(Entry(vocab[i], i)) in t'
    {
      if i < n {
        var x :| 0 <= x < |t| && t[x] == Some(Entry(vocab[i], i));
        assert t'[x] == t[x];
      } else {
        assert t'[y] == Some(e);
      }
    }
  }

  lemma WayStays(t: Table, e: Entry, p: nat, y: nat, f: Entry)
    requires |t| > 0 && p <= |t| && WayOk(t, e, p) && y < |t| && t[y].None?
    ensures WayOk(t[y := Some(f)], e, p)
  {
  }

  lemma NewWay(t: Table, vocab: seq<Str>, n: nat, p: nat)
    requires HoldsWords(t, vocab, n) && n < |vocab| && p < |t| && Passed(t, vocab[n], p)
    requires t[Slot(|t|, Home(vocab[n], |t|), p)].None?
    ensures var y := Slot(|t|, Home(vocab[n], |t|), p); var e := Entry(vocab[n], n);
            WayOk(t[y := Some(e)], e, Steps(|t|, Home(vocab[n], |t|), y))
  {
    var h := Home(vocab[n], |t|);
    var y, e := Slot(|t|, h, p), Entry(vocab[n], n);
    var t' := t[y := Some(e)];
    forall q | 0 <= q < p
      ensures var x := t'[Slot(|t|, h, q)]; x.Some? && x.value.id < n
    {
      SlotsDiffer(|t|, h, p, q);
      assert EntryOk(t, vocab, n, Slot(|t|, h, q));
    }
  }

  /** The first match on a word's way is its smallest number. */
  lemma FirstMatch(t: Table, vocab: seq<Str>, s: Str, p: nat)
    requires HoldsWords(t, vocab, |vocab|) && p < |t| && PassedOthers(t, s, p)
    requires var x := t[Slot(|t|, Home(s, |t|), p)]; x.Some? && x.value.str == s
    ensures t[Slot(|t|, Home(s, |t|), p)].value.id == IdOf(vocab, s)
  {
    var h := Home(s, |t|);
    var e := t[Slot(|t|, h, p)].value;
    assert EntryOk(t, vocab, |vocab|, Slot(|t|, h, p));
    forall k | 0 <= k < e.id
      ensures vocab[k] != s
    {
      var y := WhereIs(t, vocab, k);
      assert EntryOk(t, vocab, |vocab|, y);
      var q := Steps(|t|, Home(vocab[k], |t|), y);
      assert WayOk(t, Entry(vocab[k], k), q);
      assert t[Slot(|t|, Home(vocab[k], |t|), q)] == Some(Entry(vocab[k], k));
    }
    IdIs(vocab, s, e.id);
  }

  lemma WhereIs(t: Table, vocab: seq<Str>, k: nat) returns (y: nat)
    requires HoldsWords(t, vocab, |vocab|) && k < |vocab|
    ensures y < |t| && t[y] == Some(Entry(vocab[k], k))
  {
    y :| 0 <= y < |t| && t[y] == Some(Entry(vocab[k], k));
  }

  /** A free slot on a word's way means that the vocabulary does not have it. */
  lemma NoMatch(t: Table, vocab: seq<Str>, s: Str, p: nat)
    requires HoldsWords(t, vocab, |vocab|) && p < |t| && PassedOthers(t, s, p)
    requires t[Slot(|t|, Home(s, |t|), p)].None?
    ensures IdOf(vocab, s) == -1
  {
    var h := Home(s, |t|);
    forall k | 0 <= k < |vocab|
      ensures vocab[k] != s
    {
      var y := WhereIs(t, vocab, k);
      assert EntryOk(t, vocab, |vocab|, y);
      var q := Steps(|t|, Home(vocab[k], |t|), y);
      assert WayOk(t, Entry(vocab[k], k), q);
      assert t[Slot(|t|, Home(vocab[k], |t|), q)] == Some(Entry(vocab[k], k));
    }
    NoId(vocab, s);
  }

  class Lookup {
    const vocab: seq<Str>
    const table: array<Option<Entry>>

    ghost predicate Valid()
      reads table
    {
      table.Length == 2 * |vocab| + 1 && HoldsWords(table[..], vocab, |vocab|)
    }

    constructor (words: seq<Str>)
      ensures Valid() && fresh(table) && vocab == words
    {
      vocab := words;
      var t := Fill(words);
      table := t;
    }

    static method Fill(words: seq<Str>) returns (t: array<Option<Entry>>)
      ensures fresh(t) && t.Length == 2 * |words| + 1 && HoldsWords(t[..], words, |words|)
    {
      t := new Option<Entry>[|words| * 2 + 1](_ => None);
      TakenNone(t[..]);
      for i := 0 to |words|
        invariant HoldsWords(t[..], words, i)
      {
        Place(t, words, i);
      }
    }

    /** The first free slot on a word's way. */
    static method FirstFree(t: array<Option<Entry>>, s: Str) returns (h: nat, ghost p: nat)
      requires t.Length > 0 && Taken(t[..]) < t.Length
      ensures p < t.Length && h == Slot(t.Length, Home(s, t.Length), p) && t[h].None? && Passed(t[..], s, p)
    {
      var n := t.Length;
      h := HashFrom(5381, s) % n;
      ghost var home := h;
      p := 0;
      NotAround(t[..], s);
      while t[h].Some?
        invariant p < n && h == Slot(n, home, p) && Passed(t[..], s, p)
        decreases n - p
      {
        NextSlot(n, home, p);
        h := (h + 1) % n;
        p := p + 1;
      }
    }

    /** Puts word `i` into the first free slot. */
    static method Place(t: array<Option<Entry>>, words: seq<Str>, i: nat)
      requires i < |words| && t.Length == 2 * |words| + 1 && HoldsWords(t[..], words, i)
      modifies t
      ensures HoldsWords(t[..], words, i + 1)
    {
      var h, p := FirstFree(t, words[i]);
      ghost var s := t[..];
      InsertWord(s, words, i, p);
      t[h] := Some(Entry(words[i], i));
      assert t[..] == s[h := Some(Entry(words[i], i))];
    }

    method FindToken(s: Str) returns (id: int)
      requires Valid()
      ensures id == IdOf(vocab, s)
    {
      var n := table.Length;
      var h := HashFrom(5381, s) % n;
      ghost var home, p: nat := h, 0;
      NotAround(table[..], s);
      while table[h].Some?
        invariant p < n && h == Slot(n, home, p) && PassedOthers(table[..], s, p)
        decreases n - p
      {
        if table[h].value.str == s {
          FirstMatch(table[..], vocab, s, p);
          return table[h].value.id;
        }
        NextSlot(n, home, p);
        h := (h + 1) % n;
        p := p + 1;
        assert p == n ==> Passed(table[..], s, n);
      }
      NoMatch(table[..], vocab, s, p);
      return -1;
    }
  }
}
