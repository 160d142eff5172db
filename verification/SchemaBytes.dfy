/** Numbers and strings in the bytes of a compiled schema. */
module SchemaBytes {

  type Octet = x: int | 0 <= x < 256

  type Word = x: int | 0 <= x < 0x1_0000_0000

  type Bytes = seq<Octet>

  predicate NulFree(s: Bytes) {
    forall i :: 0 <= i < |s| ==> s[i] != 0
  }

  type CString = s: Bytes | NulFree(s)

  /** A conversion to `uint32_t`. */
  function Trunc(x: nat): Word {
    x % 0x1_0000_0000
  }

  // ---------- words ----------

  /** The `n` low bytes of a number, lowest first. */
  function EncBytes(w: nat, n: nat): (b: Bytes)
    ensures |b| == n
  {
    if n == 0 then [] else [w % 256] + EncBytes(w / 256, n - 1)
  }

  function DecBytes(b: Bytes): nat {
    if b == [] then 0
    else
      var low: int := b[0];
      low + 256 * DecBytes(b[1..])
  }

  predicate Fits(w: nat, n: nat) {
    if n == 0 then w == 0 else Fits(w / 256, n - 1)
  }

  lemma {:induction false} DecEnc(w: nat, n: nat)
    requires Fits(w, n)
    ensures DecBytes(EncBytes(w, n)) == w
  {
    if n > 0 {
      DecEnc(w / 256, n - 1);
      assert EncBytes(w, n)[1..] == EncBytes(w / 256, n - 1);
    }
  }

  lemma WordFits(w: Word)
    ensures Fits(w, 4)
  {
    assert Fits(w / 256 / 256 / 256 / 256, 0);
    assert Fits(w / 256 / 256 / 256, 1);
    assert Fits(w / 256 / 256, 2);
    assert Fits(w / 256, 3);
  }

  function Enc(w: Word): (b: Bytes)
    ensures |b| == 4
  {
    EncBytes(w, 4)
  }

  /** The word at byte `p`. */
  function Dec(f: Bytes, p: nat): nat
    requires p + 4 <= |f|
  {
    DecBytes(f[p..p + 4])
  }

  function EncAll(ws: seq<Word>): (b: Bytes)
    ensures |b| == 4 * |ws|
  {
    if ws == [] then [] else EncAll(ws[..|ws| - 1]) + Enc(ws[|ws| - 1])
  }

  /** The bytes of `part` stand at byte `p` of the file. */
  ghost predicate Holds(f: Bytes, p: nat, part: Bytes) {
    p + |part| <= |f| && f[p..p + |part|] == part
  }

  lemma HoldsInner(f: Bytes, p: nat, part: Bytes, q: nat, inner: Bytes)
    requires Holds(f, p, part) && Holds(part, q, inner)
    ensures Holds(f, p + q, inner)
  {
    forall k | 0 <= k < |inner|
      ensures f[p + q + k] == inner[k]
    {
      HoldsByte(part, q, inner, k);
      HoldsByte(f, p, part, q + k);
    }
  }

  lemma HoldsPrefix(a: Bytes, b: Bytes)
    ensures Holds(a + b, 0, a) && Holds(a + b, |a|, b)
  {
  }

  lemma HoldsByte(f: Bytes, p: nat, part: Bytes, k: nat)
    requires Holds(f, p, part) && k < |part|
    ensures f[p + k] == part[k]
  {
    assert f[p..p + |part|][k] == f[p + k];
  }

  lemma HoldsWord(f: Bytes, p: nat, w: Word)
    requires Holds(f, p, Enc(w))
    ensures p + 4 <= |f| && Dec(f, p) == w
  {
    WordFits(w);
    DecEnc(w, 4);
  }

  lemma {:induction false} WordInside(ws: seq<Word>, k: nat)
    requires k < |ws|
    ensures Holds(EncAll(ws), 4 * k, Enc(ws[k]))
  {
    var n := |ws| - 1;
    if k < n {
      WordInside(ws[..n], k);
      HoldsPrefix(EncAll(ws[..n]), Enc(ws[n]));
      HoldsInner(EncAll(ws), 0, EncAll(ws[..n]), 4 * k, Enc(ws[k]));
    } else {
      HoldsPrefix(EncAll(ws[..n]), Enc(ws[n]));
    }
  }

  /** Word `k` of a run of words is read back. */
  lemma {:induction false} ReadWord(f: Bytes, p: nat, ws: seq<Word>, k: nat)
    requires Holds(f, p, EncAll(ws)) && k < |ws|
    ensures WordAt(f, p + 4 * k, ws[k])
  {
    WordInside(ws, k);
    InnerWord(f, p, EncAll(ws), 4 * k, ws[k]);
  }

  ghost predicate WordAt(f: Bytes, p: nat, w: Word) {
    p + 4 <= |f| && Dec(f, p) == w
  }

  lemma InnerWord(f: Bytes, p: nat, part: Bytes, q: nat, w: Word)
    requires Holds(f, p, part) && Holds(part, q, Enc(w))
    ensures WordAt(f, p + q, w)
  {
    HoldsInner(f, p, part, q, Enc(w));
    HoldsWord(f, p + q, w);
  }

  lemma {:induction false} EncAllSum(a: seq<Word>, b: seq<Word>)
    ensures EncAll(a + b) == EncAll(a) + EncAll(b)
  {
    if b == [] {
      assert a + b == a;
    } else {
      var n := |b| - 1;
      EncAllSum(a, b[..n]);
      assert (a + b)[..|a + b| - 1] == a + b[..n];
    }
  }

  // ---------- entries of a fixed number of words ----------

  function Flat(es: seq<seq<Word>>): seq<Word> {
    if es == [] then [] else Flat(es[..|es| - 1]) + es[|es| - 1]
  }

  ghost predicate Uniform(es: seq<seq<Word>>, k: nat) {
    forall i :: 0 <= i < |es| ==> |es[i]| == k
  }

  /** Where entry `i` starts, in words. */
  function Start(i: nat, k: nat): nat {
    if i == 0 then 0 else Start(i - 1, k) + k
  }

  lemma {:induction false} StartIs(i: nat, k: nat)
    ensures Start(i, k) == i * k
  {
    if i > 0 {
      StartIs(i - 1, k);
      assert (i - 1) * k + k == i * k;
    }
  }

  lemma {:induction false} FlatSize(es: seq<seq<Word>>, k: nat)
    requires Uniform(es, k)
    ensures |Flat(es)| == Start(|es|, k)
  {
    if es != [] {
      FlatSize(es[..|es| - 1], k);
    }
  }

  lemma {:induction false} FlatSnoc(es: seq<seq<Word>>, e: seq<Word>)
    ensures Flat(es + [e]) == Flat(es) + e
  {
    assert (es + [e])[..|es|] == es;
  }

  /** Entry `i` of a section is where its number says. */
  lemma {:induction false} EntryInside(es: seq<seq<Word>>, k: nat, i: nat)
    requires Uniform(es, k) && i < |es|
    ensures Holds(EncAll(Flat(es)), 4 * Start(i, k), EncAll(es[i]))
  {
    var n := |es| - 1;
    var front, last := Flat(es[..n]), es[n];
    EncAllSum(front, last);
    HoldsPrefix(EncAll(front), EncAll(last));
    FlatSize(es[..n], k);
    if i < n {
      EntryInside(es[..n], k, i);
      var q := 4 * Start(i, k);
      HoldsInner(EncAll(Flat(es)), 0, EncAll(front), q, EncAll(es[i]));
    }
  }

  lemma {:induction false} EntryAt(f: Bytes, p: nat, es: seq<seq<Word>>, k: nat, i: nat)
    requires Holds(f, p, EncAll(Flat(es))) && Uniform(es, k) && i < |es|
    ensures Holds(f, p + 4 * Start(i, k), EncAll(es[i]))
  {
    EntryInside(es, k, i);
    var q := 4 * Start(i, k);
    HoldsInner(f, p, EncAll(Flat(es)), q, EncAll(es[i]));
  }

  // ---------- strings ----------

  /** The string that starts at byte `p`; a string that runs off the file ends there. */
  function CStr(f: Bytes, p: nat): CString
    decreases |f| - p
  {
    if p >= |f| || f[p] == 0 then [] else [f[p]] + CStr(f, p + 1)
  }

  datatype StrRef = StrRef(off: Word, len: Word)

  /** The string table holds `s`, with its final zero, where `r` says. */
  ghost predicate StrAt(t: Bytes, r: StrRef, s: CString) {
    r.len == |s| && Holds(t, r.off, s + [0])
  }

  lemma StrAtGrows(t: Bytes, u: Bytes, r: StrRef, s: CString)
    requires StrAt(t, r, s)
    ensures StrAt(t + u, r, s)
  {
    HoldsPrefix(t, u);
    HoldsInner(t + u, 0, t, r.off, s + [0]);
  }

  lemma {:induction false} ReadString(f: Bytes, p: nat, s: CString, k: nat)
    requires Holds(f, p, s + [0]) && k <= |s|
    ensures CStr(f, p + k) == s[k..]
    decreases |s| - k
  {
    HoldsByte(f, p, s + [0], k);
    if k < |s| {
      ReadString(f, p, s, k + 1);
      assert s[k..] == [s[k]] + s[k + 1..];
    }
  }

  /** A string of the table is read back from the file. */
  lemma {:induction false} ReadStr(f: Bytes, base: nat, t: Bytes, r: StrRef, s: CString)
    requires Holds(f, base, t) && StrAt(t, r, s)
    ensures CStr(f, base + r.off) == s
  {
    HoldsInner(f, base, t, r.off, s + [0]);
    ReadString(f, base + r.off, s, 0);
  }
}
