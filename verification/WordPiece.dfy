/** Greedy longest-match tokenization in `libemb.c`. */
module WordPiece {
  import opened Vocabulary

  const BUFFER_SIZE: nat := 128

  predicate IsSpace(c: Byte) {
    c == 32 || 9 <= c <= 13
  }

  function ToLower(c: Byte): Byte {
    if 65 <= c <= 90 then c + 32 else c
  }

  function Lower(s: Str): (r: Str)
    ensures |r| == |s|
  {
    seq(|s|, i requires 0 <= i < |s| => ToLower(s[i]))
  }

  /** Marks a word's first piece in the vocabulary. */
  function WordMark(): Str { [0xE2, 0x96, 0x81] }

  /** Marks the other pieces. */
  function InnerMark(): Str { [35, 35] }

  // ---------- the segmentation ----------

  /** Looks a piece up under a mark, if both fit the buffer with the final zero. */
  function Attempt(vocab: seq<Str>, mark: Str, text: Str): (id: int)
    ensures -1 <= id < |vocab|
  {
    if |mark| + |text| < BUFFER_SIZE then IdOf(vocab, mark + Lower(text)) else -1
  }

  lemma AttemptIs(vocab: seq<Str>, mark: Str, text: Str)
    ensures var id := Attempt(vocab, mark, text);
            if id >= 0 then |mark| + |text| < BUFFER_SIZE && IsFirst(vocab, mark + Lower(text), id)
            else |mark| + |text| < BUFFER_SIZE ==> mark + Lower(text) !in vocab
  {
    NoId(vocab, mark + Lower(text));
  }

  /** The token for bytes `start..end` of a word: marked if possible, else bare; -1 if none. */
  function Match(vocab: seq<Str>, word: Str, start: nat, end: nat): (id: int)
    requires start < end <= |word|
    ensures -1 <= id < |vocab|
  {
    var text := word[start..end];
    var marked := Attempt(vocab, if start == 0 then WordMark() else InnerMark(), text);
    if marked >= 0 then marked else Attempt(vocab, [], text)
  }

  /** Where the longest match from `start` ends, at `end` or before; `start` if there is none. */
  function LongestEnd(vocab: seq<Str>, word: Str, start: nat, end: nat): (e: nat)
    requires start <= end <= |word|
    ensures start <= e <= end
    decreases end
  {
    if end == start || Match(vocab, word, start, end) >= 0 then end else LongestEnd(vocab, word, start, end - 1)
  }

  lemma {:induction false} LongestIs(vocab: seq<Str>, word: Str, start: nat, end: nat)
    requires start <= end <= |word|
    ensures var e := LongestEnd(vocab, word, start, end);
            && (e > start ==> Match(vocab, word, start, e) >= 0)
            && (forall k :: e < k <= end ==> Match(vocab, word, start, k) == -1)
    decreases end
  {
    if end > start && Match(vocab, word, start, end) < 0 {
      LongestIs(vocab, word, start, end - 1);
    }
  }

  datatype Piece = Known(id: nat, text: Str) | Unknown(text: Str)

  /** The piece at byte `start` of a word: the longest match, or one unknown byte. */
  function PieceAt(vocab: seq<Str>, word: Str, start: nat): (p: Piece)
    requires start < |word|
    ensures |p.text| > 0 && start + |p.text| <= |word| && p.text == word[start..start + |p.text|]
  {
    var e := LongestEnd(vocab, word, start, |word|);
    if e > start then
      LongestIs(vocab, word, start, |word|);
      Known(Match(vocab, word, start, e), word[start..e])
    else Unknown([word[start]])
  }

  /** A way to cut the next piece off a word. */
  type Cut = (Str, nat) -> Piece

  /** Every piece is a non-empty part of the word, where it was asked for. */
  ghost predicate Proper(cut: Cut, word: Str) {
    forall start :: 0 <= start < |word| ==>
      var p := cut(word, start);
      |p.text| > 0 && start + |p.text| <= |word| && p.text == word[start..start + |p.text|]
  }

  /** Piece after piece. */
  function Chop(cut: Cut, word: Str, start: nat): seq<Piece>
    decreases |word| - start
  {
    if start >= |word| then []
    else
      var p := cut(word, start);
      if |p.text| == 0 then [] else [p] + Chop(cut, word, start + |p.text|)
  }

  function CutBy(vocab: seq<Str>): Cut {
    (word: Str, start: nat) => if start < |word| then PieceAt(vocab, word, start) else Unknown([])
  }

  lemma {:induction false} CutIsProper(vocab: seq<Str>, word: Str)
    ensures Proper(CutBy(vocab), word)
  {
    var cut := CutBy(vocab);
    forall start | 0 <= start < |word|
      ensures var p := cut(word, start); |p.text| > 0 && start + |p.text| <= |word| && p.text == word[start..start + |p.text|]
    {
      assert cut(word, start) == PieceAt(vocab, word, start);
    }
  }

  function WordPieces(vocab: seq<Str>, word: Str, start: nat): seq<Piece> {
    Chop(CutBy(vocab), word, start)
  }

  function SkipSpaces(input: Str, i: nat): (j: nat)
    requires i <= |input|
    ensures i <= j <= |input|
    ensures (forall k :: i <= k < j ==> IsSpace(input[k])) && (j < |input| ==> !IsSpace(input[j]))
    decreases |input| - i
  {
    if i < |input| && IsSpace(input[i]) then SkipSpaces(input, i + 1) else i
  }

  function WordEnd(input: Str, i: nat): (j: nat)
    requires i <= |input|
    ensures i <= j <= |input|
    ensures (forall k :: i <= k < j ==> !IsSpace(input[k])) && (j < |input| ==> IsSpace(input[j]))
    decreases |input| - i
  {
    if i < |input| && !IsSpace(input[i]) then WordEnd(input, i + 1) else i
  }

  /** The pieces of all words from byte `i` on. */
  function Pieces(vocab: seq<Str>, input: Str, i: nat): seq<Piece>
    requires i <= |input|
    decreases |input| - i
  {
    var a := SkipSpaces(input, i);
    if a == |input| then []
    else
      var b := WordEnd(input, a);
      WordPieces(vocab, input[a..b], 0) + Pieces(vocab, input, b)
  }

  function IdIn(p: Piece, unk: int): int {
    if p.Known? then p.id else unk
  }

  function Ids(ps: seq<Piece>, unk: int): (r: seq<int>)
    ensures |r| == |ps|
  {
    seq(|ps|, i requires 0 <= i < |ps| => IdIn(ps[i], unk))
  }

  datatype Model = Model(vocab: seq<Str>, cls: int, sep: int, unk: int, nCtx: nat)

  function Least(a: nat, b: nat): nat {
    if a < b then a else b
  }

  /** The token list: all pieces that fit between the two end marks. */
  function Tokens(m: Model, input: Str): (r: seq<int>)
    requires m.nCtx > 0
  {
    Framed(m, Ids(Pieces(m.vocab, input, 0), m.unk))
  }

  function Framed(m: Model, ids: seq<int>): seq<int>
    requires m.nCtx > 0
  {
    if m.nCtx == 1 then [m.cls] else [m.cls] + ids[..Least(|ids|, m.nCtx - 2)] + [m.sep]
  }

  // ---------- what the segmentation means ----------

  function Joined(ps: seq<Piece>): Str {
    if ps == [] then [] else ps[0].text + Joined(ps[1..])
  }

  function NonSpaces(s: Str): Str {
    if s == [] then [] else (if IsSpace(s[0]) then [] else [s[0]]) + NonSpaces(s[1..])
  }

  lemma {:induction false} JoinedSum(a: seq<Piece>, b: seq<Piece>)
    ensures Joined(a + b) == Joined(a) + Joined(b)
  {
    if a == [] {
      assert a + b == b;
    } else {
      JoinedSum(a[1..], b);
      assert (a + b)[1..] == a[1..] + b;
    }
  }

  lemma {:induction false} NonSpacesSum(a: Str, b: Str)
    ensures NonSpaces(a + b) == NonSpaces(a) + NonSpaces(b)
  {
    if a == [] {
      assert a + b == b;
    } else {
      NonSpacesSum(a[1..], b);
      assert (a + b)[1..] == a[1..] + b && (a + b)[0] == a[0];
      Regroup(if IsSpace(a[0]) then [] else [a[0]], NonSpaces(a[1..]), NonSpaces(b));
    }
  }

  lemma Regroup(x: Str, y: Str, z: Str)
    ensures x + (y + z) == (x + y) + z
  {
  }

  /** The pieces of a word tile it. */
  lemma {:induction false} PiecesTileWord(vocab: seq<Str>, word: Str)
    ensures Joined(WordPieces(vocab, word, 0)) == word
  {
    CutIsProper(vocab, word);
    ChopTiles(CutBy(vocab), word, 0);
    assert word[0..] == word;
  }

  lemma {:induction false} ChopTiles(cut: Cut, word: Str, start: nat)
    requires start <= |word| && Proper(cut, word)
    ensures Joined(Chop(cut, word, start)) == word[start..]
    decreases |word| - start
  {
    if start < |word| {
      var p := cut(word, start);
      ChopTiles(cut, word, start + |p.text|);
      TileStep(p, Chop(cut, word, start + |p.text|), word, start);
    }
  }

  lemma {:induction false} TileStep(p: Piece, rest: seq<Piece>, word: Str, start: nat)
    requires start + |p.text| <= |word| && p.text == word[start..start + |p.text|] && Joined(rest) == word[start + |p.text|..]
    ensures Joined([p] + rest) == word[start..]
  {
    assert ([p] + rest)[1..] == rest;
  }

  lemma {:induction false} AllNonSpaces(s: Str)
    requires forall k :: 0 <= k < |s| ==> !IsSpace(s[k])
    ensures NonSpaces(s) == s
  {
    if s != [] {
      AllNonSpaces(s[1..]);
    }
  }

  lemma {:induction false} AllSpaces(s: Str)
    requires forall k :: 0 <= k < |s| ==> IsSpace(s[k])
    ensures NonSpaces(s) == []
  {
    if s != [] {
      AllSpaces(s[1..]);
    }
  }

  /** Spaces up to `a`, then a word up to `b`. */
  lemma NonSpacesOfWord(input: Str, i: nat, a: nat, b: nat)
    requires i <= a <= b <= |input|
    requires forall k :: i <= k < a ==> IsSpace(input[k])
    requires forall k :: a <= k < b ==> !IsSpace(input[k])
    ensures NonSpaces(input[i..]) == input[a..b] + NonSpaces(input[b..])
  {
    var gap, word, rest := input[i..a], input[a..b], input[b..];
    assert input[i..] == gap + (word + rest);
    NonSpacesSum(gap, word + rest);
    NonSpacesSum(word, rest);
    AllSpaces(gap);
    AllNonSpaces(word);
  }

  /** All pieces together are the input without its spaces. */
  lemma {:induction false} PiecesTileInput(vocab: seq<Str>, input: Str, i: nat)
    requires i <= |input|
    ensures Joined(Pieces(vocab, input, i)) == NonSpaces(input[i..])
    decreases |input| - i
  {
    var a := SkipSpaces(input, i);
    if a == |input| {
      AllSpaces(input[i..]);
    } else {
      var b := WordEnd(input, a);
      var word := input[a..b];
      PiecesTileWord(vocab, word);
      PiecesTileInput(vocab, input, b);
      NonSpacesOfWord(input, i, a, b);
      JoinedSum(WordPieces(vocab, word, 0), Pieces(vocab, input, b));
    }
  }

  /** U+2581 before the first piece of a word, "##" before the others. */
  function Mark(start: nat): Str {
    if start == 0 then [0xE2, 0x96, 0x81] else [35, 35]
  }

  /** `low` is the text with the bytes of A-Z replaced by those of a-z. */
  ghost predicate Folds(text: Str, low: Str) {
    |low| == |text| && forall i :: 0 <= i < |text| ==> low[i] == if 65 <= text[i] <= 90 then text[i] + 32 else text[i]
  }

  /** A string that fits the 128-byte buffer with its final zero and is in the vocabulary. */
  ghost predicate IsToken(vocab: seq<Str>, s: Str) {
    |s| < 128 && s in vocab
  }

  /** Neither form of bytes `start..end` is a token. */
  ghost predicate NoToken(vocab: seq<Str>, word: Str, start: nat, end: nat)
    requires start < end <= |word|
  {
    forall low :: Folds(word[start..end], low) ==> !IsToken(vocab, Mark(start) + low) && !IsToken(vocab, low)
  }

  /** The marked form if that is a token, otherwise the bare form, by its smallest number. */
  ghost predicate Names(vocab: seq<Str>, start: nat, text: Str, id: nat) {
    forall low :: Folds(text, low) ==>
      if IsToken(vocab, Mark(start) + low) then IsFirst(vocab, Mark(start) + low, id) else |low| < 128 && IsFirst(vocab, low, id)
  }

  lemma FoldsOnly(text: Str, low: Str)
    ensures Folds(text, low) <==> low == Lower(text)
  {
  }

  /** A piece is a token, the marked form before the bare one, and nothing longer is one at its place;
      an unknown byte starts no token at all. */
  ghost predicate Greedy(vocab: seq<Str>, word: Str, start: nat, p: Piece)
    requires start < |word|
  {
    && start + |p.text| <= |word| && p.text == word[start..start + |p.text|] && |p.text| > 0
    && (p.Known? ==> Names(vocab, start, p.text, p.id))
    && (p.Unknown? ==> |p.text| == 1)
    && forall end :: start + (if p.Known? then |p.text| else 0) < end <= |word| ==> NoToken(vocab, word, start, end)
  }

  /** Where piece `k` of a word starts. */
  function StartOf(ps: seq<Piece>, k: nat): nat
    requires k <= |ps|
  {
    if k == 0 then 0 else StartOf(ps, k - 1) + |ps[k - 1].text|
  }

  lemma {:induction false} StartShifts(p: Piece, ps: seq<Piece>, k: nat)
    requires k <= |ps|
    ensures StartOf([p] + ps, k + 1) == |p.text| + StartOf(ps, k)
  {
    if k > 0 {
      StartShifts(p, ps, k - 1);
    }
  }

  /** Piece `k` is what the cut gives at its place. */
  ghost predicate IsCutAt(cut: Cut, word: Str, ps: seq<Piece>, k: nat, start: nat)
    requires k < |ps|
  {
    var a := start + StartOf(ps, k);
    a < |word| && ps[k] == cut(word, a)
  }

  lemma {:induction false} PieceIs(cut: Cut, word: Str, start: nat, k: nat)
    requires Proper(cut, word) && k < |Chop(cut, word, start)|
    ensures IsCutAt(cut, word, Chop(cut, word, start), k, start)
    decreases k
  {
    var p := cut(word, start);
    if k > 0 {
      PieceIs(cut, word, start + |p.text|, k - 1);
      LaterPiece(cut, word, p, Chop(cut, word, start + |p.text|), k - 1, start);
    }
  }

  lemma {:induction false} LaterPiece(cut: Cut, word: Str, p: Piece, rest: seq<Piece>, k: nat, start: nat)
    requires k < |rest| && IsCutAt(cut, word, rest, k, start + |p.text|)
    ensures IsCutAt(cut, word, [p] + rest, k + 1, start)
  {
    StartShifts(p, rest, k);
  }

  lemma MatchIs(vocab: seq<Str>, word: Str, start: nat, end: nat)
    requires start < end <= |word|
    ensures var id := Match(vocab, word, start, end);
            if id < 0 then NoToken(vocab, word, start, end) else Names(vocab, start, word[start..end], id)
  {
    var text := word[start..end];
    AttemptIs(vocab, Mark(start), text);
    AttemptIs(vocab, [], text);
    assert [] + Lower(text) == Lower(text);
    forall low | Folds(text, low)
      ensures low == Lower(text)
    {
      FoldsOnly(text, low);
    }
  }

  lemma FirstIsGreedy(vocab: seq<Str>, word: Str, start: nat)
    requires start < |word|
    ensures Greedy(vocab, word, start, PieceAt(vocab, word, start))
  {
    var e := LongestEnd(vocab, word, start, |word|);
    LongestIs(vocab, word, start, |word|);
    forall end | e < end <= |word|
      ensures NoToken(vocab, word, start, end)
    {
      assert Match(vocab, word, start, end) == -1;
      MatchIs(vocab, word, start, end);
    }
    if e > start {
      MatchIs(vocab, word, start, e);
    }
  }

  /** Every piece of a word is a longest match. */
  lemma PiecesAreGreedy(vocab: seq<Str>, word: Str, k: nat)
    requires k < |WordPieces(vocab, word, 0)|
    ensures var ps := WordPieces(vocab, word, 0);
            StartOf(ps, k) < |word| && Greedy(vocab, word, StartOf(ps, k), ps[k])
  {
    CutIsProper(vocab, word);
    PieceIs(CutBy(vocab), word, 0, k);
    FirstIsGreedy(vocab, word, StartOf(WordPieces(vocab, word, 0), k));
  }

  // ---------- the segmentation of a text ----------

  predicate Blank(c: Byte) {
    c in {32, 9, 10, 11, 12, 13}
  }

  ghost predicate Blanks(input: Str, a: nat, b: nat) {
    a <= b <= |input| && forall k :: a <= k < b ==> Blank(input[k])
  }

  /** A maximal run of bytes that are not blank. */
  ghost predicate IsWord(input: Str, a: nat, b: nat) {
    && a < b <= |input| && (forall k :: a <= k < b ==> !Blank(input[k]))
    && (a > 0 ==> Blank(input[a - 1])) && (b < |input| ==> Blank(input[b]))
  }

  /** Piece `p` is the longest match at byte `pos`, in the word around it. */
  ghost predicate CutFrom(vocab: seq<Str>, input: Str, p: Piece, pos: nat) {
    exists a: nat, b: nat :: IsWord(input, a, b) && a <= pos < b && Greedy(vocab, input[a..b], pos - a, p)
  }

  /** Where the piece before piece `k` ends. */
  function Before(ps: seq<Piece>, pos: seq<nat>, from: nat, k: nat): nat
    requires |ps| == |pos| && k <= |ps|
  {
    if k == 0 then from else pos[k - 1] + |ps[k - 1].text|
  }

  /** Bytes `from` up to `to` are the pieces at their places, with blanks between them. */
  ghost predicate Chained(input: Str, ps: seq<Piece>, pos: seq<nat>, from: nat, to: nat) {
    |ps| == |pos| && forall k :: 0 <= k <= |ps| ==> Blanks(input, Before(ps, pos, from, k), if k < |ps| then pos[k] else to)
  }

  /** The pieces of a text, from byte `from` on, and where they start. */
  ghost predicate Segments(vocab: seq<Str>, input: Str, ps: seq<Piece>, pos: seq<nat>, from: nat) {
    Chained(input, ps, pos, from, |input|) && AllCut(vocab, input, ps, pos)
  }

  ghost predicate AllCut(vocab: seq<Str>, input: Str, ps: seq<Piece>, pos: seq<nat>)
    requires |ps| == |pos|
  {
    forall k :: 0 <= k < |ps| ==> CutFrom(vocab, input, ps[k], pos[k])
  }

  ghost function Places(ps: seq<Piece>, a: nat): (pos: seq<nat>)
    ensures |pos| == |ps| && forall k :: 0 <= k < |ps| ==> pos[k] == a + StartOf(ps, k)
  {
    seq(|ps|, k requires 0 <= k < |ps| => a + StartOf(ps, k))
  }

  lemma {:induction false} StartIsLength(ps: seq<Piece>, k: nat)
    requires k <= |ps|
    ensures StartOf(ps, k) == |Joined(ps[..k])|
  {
    if k > 0 {
      StartIsLength(ps, k - 1);
      assert ps[..k] == ps[..k - 1] + [ps[k - 1]];
      JoinedSum(ps[..k - 1], [ps[k - 1]]);
      assert Joined([ps[k - 1]]) == ps[k - 1].text + Joined([]);
    }
  }

  /** The pieces of one word. */
  lemma {:induction false} WordIsSegmented(vocab: seq<Str>, input: Str, a: nat, b: nat)
    requires IsWord(input, a, b)
    ensures var ps := WordPieces(vocab, input[a..b], 0);
            Chained(input, ps, Places(ps, a), a, b) && AllCut(vocab, input, ps, Places(ps, a))
  {
    var ps := WordPieces(vocab, input[a..b], 0);
    WordEndsAt(vocab, input[a..b]);
    forall k | 0 <= k < |ps|
      ensures CutFrom(vocab, input, ps[k], Places(ps, a)[k]) && a + StartOf(ps, k) < b
    {
      PieceIsCut(vocab, input, a, b, k);
    }
    assert Chained(input, ps, Places(ps, a), a, b) by {
      WordIsChained(input, ps, a, b);
    }
  }

  lemma {:induction false} WordEndsAt(vocab: seq<Str>, word: Str)
    ensures var ps := WordPieces(vocab, word, 0); StartOf(ps, |ps|) == |word|
  {
    var ps := WordPieces(vocab, word, 0);
    PiecesTileWord(vocab, word);
    StartIsLength(ps, |ps|);
    assert ps[..|ps|] == ps;
  }

  lemma {:induction false} PieceIsCut(vocab: seq<Str>, input: Str, a: nat, b: nat, k: nat)
    requires IsWord(input, a, b) && k < |WordPieces(vocab, input[a..b], 0)|
    ensures var ps := WordPieces(vocab, input[a..b], 0);
            CutFrom(vocab, input, ps[k], a + StartOf(ps, k)) && a + StartOf(ps, k) < b
  {
    PiecesAreGreedy(vocab, input[a..b], k);
    var pos := a + StartOf(WordPieces(vocab, input[a..b], 0), k);
    assert pos - a == StartOf(WordPieces(vocab, input[a..b], 0), k);
  }

  lemma {:induction false} WordIsChained(input: Str, ps: seq<Piece>, a: nat, b: nat)
    requires b <= |input| && a + StartOf(ps, |ps|) == b
    requires forall k :: 0 <= k < |ps| ==> a + StartOf(ps, k) < b
    ensures Chained(input, ps, Places(ps, a), a, b)
  {
    forall k | 0 <= k <= |ps|
      ensures Blanks(input, Before(ps, Places(ps, a), a, k), if k < |ps| then Places(ps, a)[k] else b)
    {
      assert Before(ps, Places(ps, a), a, k) == a + StartOf(ps, k);
    }
  }

  lemma ChainsJoin(input: Str, ps: seq<Piece>, pos: seq<nat>, qs: seq<Piece>, qpos: seq<nat>, from: nat, mid: nat, to: nat)
    requires Chained(input, ps, pos, from, mid) && Chained(input, qs, qpos, mid, to)
    ensures Chained(input, ps + qs, pos + qpos, from, to)
  {
    var all, places := ps + qs, pos + qpos;
    forall k | 0 <= k <= |all|
      ensures Blanks(input, Before(all, places, from, k), if k < |all| then places[k] else to)
    {
      if k <= |ps| {
        assert Before(all, places, from, k) == Before(ps, pos, from, k);
      }
      if k >= |ps| {
        var l := k - |ps|;
        assert Blanks(input, Before(qs, qpos, mid, l), if l < |qs| then qpos[l] else to);
        assert k < |all| ==> places[k] == qpos[l];
        if k > |ps| {
          assert Before(all, places, from, k) == Before(qs, qpos, mid, l);
        } else {
          assert Blanks(input, Before(ps, pos, from, k), mid);
        }
      }
    }
  }

  /** All pieces of a text are its segmentation. */
  lemma {:induction false} PiecesSegment(vocab: seq<Str>, input: Str, i: nat) returns (pos: seq<nat>)
    requires i <= |input| && (0 < i < |input| ==> Blank(input[i]))
    ensures Segments(vocab, input, Pieces(vocab, input, i), pos, i)
    decreases |input| - i
  {
    var a := SkipSpaces(input, i);
    if a == |input| {
      return [];
    }
    var b := WordEnd(input, a);
    assert IsWord(input, a, b);
    var ps, rest := WordPieces(vocab, input[a..b], 0), Pieces(vocab, input, b);
    var later := PiecesSegment(vocab, input, b);
    WordIsSegmented(vocab, input, a, b);
    SegmentsJoin(vocab, input, ps, Places(ps, a), rest, later, i, a, b);
    pos := Places(ps, a) + later;
  }

  /** Blanks up to `a`, a word up to `b`, then the rest. */
  lemma SegmentsJoin(vocab: seq<Str>, input: Str, ps: seq<Piece>, pos: seq<nat>, qs: seq<Piece>, qpos: seq<nat>, from: nat, a: nat, b: nat)
    requires Blanks(input, from, a) && Chained(input, ps, pos, a, b) && Segments(vocab, input, qs, qpos, b)
    requires AllCut(vocab, input, ps, pos)
    ensures Segments(vocab, input, ps + qs, pos + qpos, from)
  {
    assert Chained(input, ps + qs, pos + qpos, from, |input|) by {
      GapThenChain(input, ps, pos, from, a, b);
      ChainsJoin(input, ps, pos, qs, qpos, from, b, |input|);
    }
    assert AllCut(vocab, input, ps + qs, pos + qpos) by {
      CutsJoin(vocab, input, ps, pos, qs, qpos);
    }
  }

  lemma CutsJoin(vocab: seq<Str>, input: Str, ps: seq<Piece>, pos: seq<nat>, qs: seq<Piece>, qpos: seq<nat>)
    requires |ps| == |pos| && |qs| == |qpos| && AllCut(vocab, input, ps, pos) && AllCut(vocab, input, qs, qpos)
    ensures AllCut(vocab, input, ps + qs, pos + qpos)
  {
    AllJoin((p: Piece, at: nat) => CutFrom(vocab, input, p, at), ps, pos, qs, qpos);
  }

  lemma AllJoin(ok: (Piece, nat) -> bool, ps: seq<Piece>, pos: seq<nat>, qs: seq<Piece>, qpos: seq<nat>)
    requires |ps| == |pos| && |qs| == |qpos|
    requires (forall k :: 0 <= k < |ps| ==> ok(ps[k], pos[k])) && forall k :: 0 <= k < |qs| ==> ok(qs[k], qpos[k])
    ensures forall k :: 0 <= k < |ps + qs| ==> ok((ps + qs)[k], (pos + qpos)[k])
  {
  }

  lemma GapThenChain(input: Str, ps: seq<Piece>, pos: seq<nat>, from: nat, a: nat, b: nat)
    requires Blanks(input, from, a) && Chained(input, ps, pos, a, b)
    ensures Chained(input, ps, pos, from, b)
  {
    forall k | 0 <= k <= |ps|
      ensures Blanks(input, Before(ps, pos, from, k), if k < |ps| then pos[k] else b)
    {
      assert Blanks(input, Before(ps, pos, a, k), if k < |ps| then pos[k] else b);
    }
  }

  /** The tokens of a text: the numbers of the first pieces of its segmentation between the end marks, as
      many as the context holds. */
  ghost predicate Tokenized(m: Model, input: Str, t: seq<int>) {
    exists ps, pos :: Segments(m.vocab, input, ps, pos, 0) && Lists(m, ps, t)
  }

  ghost predicate Lists(m: Model, ps: seq<Piece>, t: seq<int>) {
    && m.nCtx > 0 && |t| == (if m.nCtx == 1 then 1 else if |ps| + 2 <= m.nCtx then |ps| + 2 else m.nCtx)
    && t[0] == m.cls && (m.nCtx > 1 ==> t[|t| - 1] == m.sep)
    && forall k :: 0 <= k < |t| - 2 && k < |ps| ==> t[k + 1] == if ps[k].Known? then ps[k].id else m.unk
  }

  lemma {:induction false} TokensAre(m: Model, input: Str)
    requires m.nCtx > 0
    ensures Tokenized(m, input, Tokens(m, input))
  {
    var ps := Pieces(m.vocab, input, 0);
    var pos := PiecesSegment(m.vocab, input, 0);
    ListsFramed(m, ps);
  }

  lemma ListsFramed(m: Model, ps: seq<Piece>)
    requires m.nCtx > 0
    ensures Lists(m, ps, Framed(m, Ids(ps, m.unk)))
  {
  }

  /** The list fits the context and has both end marks. */
  lemma TokensFit(m: Model, input: Str)
    requires m.nCtx >= 2
    ensures var t := Tokens(m, input);
            2 <= |t| <= m.nCtx && t[0] == m.cls && t[|t| - 1] == m.sep
            && (|Pieces(m.vocab, input, 0)| <= m.nCtx - 2 ==> t == [m.cls] + Ids(Pieces(m.vocab, input, 0), m.unk) + [m.sep])
            && (|Pieces(m.vocab, input, 0)| > m.nCtx - 2 ==> |t| == m.nCtx)
  {
    var ids := Ids(Pieces(m.vocab, input, 0), m.unk);
    assert ids[..|ids|] == ids;
  }

  lemma IdsSum(a: seq<Piece>, b: seq<Piece>, unk: int)
    ensures Ids(a + b, unk) == Ids(a, unk) + Ids(b, unk)
  {
  }

  // ---------- the loops ----------

  /** What is written after the first end mark, with what is still to come, is everything. */
  ghost predicate Progress(t: seq<int>, n: nat, cls: int, rest: seq<int>, all: seq<int>) {
    1 <= n < |t| && t[0] == cls && t[1..n] + rest == all
  }

  lemma ProgressStep(t: seq<int>, n: nat, cls: int, x: int, rest: seq<int>, all: seq<int>)
    requires Progress(t, n, cls, [x] + rest, all) && n + 1 < |t|
    ensures Progress(t[n := x], n + 1, cls, rest, all)
  {
    assert t[n := x][1..n + 1] == t[1..n] + [x];
    assert t[1..n] + [x] + rest == t[1..n] + ([x] + rest);
  }

  lemma {:induction false} ProgressDone(t: seq<int>, n: nat, m: Model, rest: seq<int>, all: seq<int>)
    requires m.nCtx >= 2 && |t| == m.nCtx && Progress(t, n, m.cls, rest, all) && (n < m.nCtx - 1 ==> rest == [])
    ensures t[n := m.sep][..n + 1] == Framed(m, all)
  {
    assert t[1..n] == all[..n - 1];
    assert n - 1 == Least(|all|, m.nCtx - 2);
    assert t[n := m.sep][..n + 1] == [t[0]] + t[1..n] + [m.sep];
  }

  class Tokenizer {
    const m: Model
    const lookup: Lookup
    const tokens: array<int>

    ghost predicate Valid()
      reads this, lookup, lookup.table
    {
      m.nCtx > 0 && tokens.Length == m.nCtx && lookup.vocab == m.vocab && lookup.Valid() && Apart()
    }

    ghost predicate Apart() {
      var a: object, b: object := lookup.table, tokens;
      a != b
    }

    constructor (model: Model)
      requires model.nCtx > 0
      ensures Valid() && m == model && fresh(tokens)
    {
      m := model;
      var l := new Lookup(model.vocab);
      lookup := l;
      tokens := new int[model.nCtx](_ => 0);
    }

    /** Writes mark and text into the buffer, in lower case, and looks them up. */
    method Try(mark: Str, word: Str, start: nat, end: nat) returns (id: int)
      requires Valid() && start <= end <= |word|
      ensures id == Attempt(m.vocab, mark, word[start..end])
    {
      if |mark| + (end - start) >= BUFFER_SIZE {
        return -1;
      }
      var buf := mark;
      for k := start to end
        invariant buf == mark + Lower(word[start..k])
      {
        buf := buf + [ToLower(word[k])];
        assert Lower(word[start..k + 1]) == Lower(word[start..k]) + [ToLower(word[k])];
      }
      id := lookup.FindToken(buf);
    }

    /** The longest match at `start`: its token and length, or -1 for none. */
    method Longest(word: Str, start: nat) returns (id: int, len: nat)
      requires Valid() && start < |word|
      ensures IsPiece(CutBy(m.vocab), m.unk, word, start, if id != -1 then id else m.unk, if id != -1 then start + len else start + 1)
      ensures id == -1 ==> Greedy(m.vocab, word, start, Unknown([word[start]]))
      ensures id != -1 ==> 0 <= id && start + len <= |word| && Greedy(m.vocab, word, start, Known(id, word[start..start + len]))
    {
      FirstIsGreedy(m.vocab, word, start);
      id, len := LongestFrom(word, start);
    }

    /** Tries the ends of the word from the last one down, marked before bare. */
    method LongestFrom(word: Str, start: nat) returns (id: int, len: nat)
      requires Valid() && start < |word|
      ensures -1 <= id && (id != -1 <==> LongestEnd(m.vocab, word, start, |word|) > start)
      ensures id != -1 ==> start + len == LongestEnd(m.vocab, word, start, |word|) && id == Match(m.vocab, word, start, start + len)
      ensures IsPiece(CutBy(m.vocab), m.unk, word, start, if id != -1 then id else m.unk, if id != -1 then start + len else start + 1)
    {
      id, len := -1, 0;
      var end := |word|;
      while end > start
        invariant start <= end <= |word| && id == -1
        invariant LongestEnd(m.vocab, word, start, end) == LongestEnd(m.vocab, word, start, |word|)
      {
        id := Try(if start == 0 then WordMark() else InnerMark(), word, start, end);
        if id < 0 {
          id := Try([], word, start, end);
        }
        if id >= 0 {
          return id, end - start;
        }
        end := end - 1;
      }
    }

    /** Writes the pieces of one word, while there is room. */
    method Word(word: Str, n0: nat, ghost after: seq<int>, ghost all: seq<int>) returns (n: nat, ghost rest: seq<int>)
      requires Valid() && m.nCtx >= 2 && n0 < m.nCtx
      requires Progress(tokens[..], n0, m.cls, Ids(WordPieces(m.vocab, word, 0), m.unk) + after, all)
      modifies tokens
      ensures Valid() && n < m.nCtx && Progress(tokens[..], n, m.cls, rest, all)
      ensures n < m.nCtx - 1 ==> rest == after
    {
      n := n0;
      var start: nat := 0;
      while start < |word| && n < m.nCtx - 1
        invariant Valid() && n < m.nCtx && start <= |word|
        invariant Progress(tokens[..], n, m.cls, Ids(WordPieces(m.vocab, word, start), m.unk) + after, all)
        decreases |word| - start
      {
        var x, next := NextPiece(word, start, after);
        Emit(n, x, Ids(WordPieces(m.vocab, word, next), m.unk) + after, all);
        start, n := next, n + 1;
      }
      rest := Ids(WordPieces(m.vocab, word, start), m.unk) + after;
      assert start == |word| ==> rest == after;
    }

    /** The token of one piece, or the unknown token for one byte, and where the next piece starts. */
    method NextPiece(word: Str, start: nat, ghost after: seq<int>) returns (x: int, next: nat)
      requires Valid() && start < |word|
      ensures start < next <= |word|
      ensures Ids(WordPieces(m.vocab, word, start), m.unk) + after == [x] + (Ids(WordPieces(m.vocab, word, next), m.unk) + after)
    {
      var id, len := Longest(word, start);
      if id != -1 {
        x, next := id, start + len;
      } else {
        x, next := m.unk, start + 1;
      }
      CutIsProper(m.vocab, word);
      PieceIds(CutBy(m.vocab), m.unk, word, start, x, next, after);
    }

    method Emit(n: nat, x: int, ghost rest: seq<int>, ghost all: seq<int>)
      requires Valid() && n + 1 < m.nCtx && Progress(tokens[..], n, m.cls, [x] + rest, all)
      modifies tokens
      ensures Valid() && Progress(tokens[..], n + 1, m.cls, rest, all)
    {
      ProgressStep(tokens[..], n, m.cls, x, rest, all);
      Put(n, x);
    }

    method Put(n: nat, x: int)
      requires Valid() && n < m.nCtx
      modifies tokens
      ensures Valid() && tokens[..] == old(tokens[..])[n := x]
    {
      tokens[n] := x;
    }

    method Spaces(input: Str, i: nat) returns (j: nat)
      requires i <= |input|
      ensures j == SkipSpaces(input, i)
    {
      j := i;
      while j < |input| && IsSpace(input[j])
        invariant i <= j <= |input| && SkipSpaces(input, j) == SkipSpaces(input, i)
      {
        j := j + 1;
      }
    }

    method NonSpaceRun(input: Str, i: nat) returns (j: nat)
      requires i <= |input|
      ensures j == WordEnd(input, i)
    {
      j := i;
      while j < |input| && !IsSpace(input[j])
        invariant i <= j <= |input| && WordEnd(input, j) == WordEnd(input, i)
      {
        j := j + 1;
      }
    }

    /** The next word: skips spaces, then writes the word's pieces. */
    method NextWord(input: Str, i: nat, n0: nat, ghost all: seq<int>) returns (j: nat, n: nat, ghost rest: seq<int>)
      requires Valid() && m.nCtx >= 2 && i < |input| && n0 < m.nCtx
      requires Progress(tokens[..], n0, m.cls, Ids(Pieces(m.vocab, input, i), m.unk), all)
      modifies tokens
      ensures Valid() && i < j <= |input| && n < m.nCtx && Progress(tokens[..], n, m.cls, rest, all)
      ensures n < m.nCtx - 1 ==> rest == Ids(Pieces(m.vocab, input, j), m.unk)
    {
      var a := Spaces(input, i);
      if a == |input| {
        rest := Ids(Pieces(m.vocab, input, i), m.unk);
        return a, n0, rest;
      }
      j := NonSpaceRun(input, a);
      IdsSum(WordPieces(m.vocab, input[a..j], 0), Pieces(m.vocab, input, j), m.unk);
      n, rest := Word(input[a..j], n0, Ids(Pieces(m.vocab, input, j), m.unk), all);
    }

    method Tokenize(input: Str) returns (n: nat)
      requires Valid()
      modifies tokens
      ensures Valid() && n <= m.nCtx && tokens[..n] == Tokens(m, input)
      ensures Tokenized(m, input, tokens[..n])
    {
      TokensAre(m, input);
      tokens[0] := m.cls;
      n := 1;
      if m.nCtx == 1 {
        return;
      }
      n := AllWords(input);
      ghost var t := tokens[..];
      tokens[n] := m.sep;
      assert tokens[..] == t[n := m.sep];
      n := n + 1;
    }

    method AllWords(input: Str) returns (n: nat)
      requires Valid() && m.nCtx >= 2 && tokens[0] == m.cls
      modifies tokens
      ensures Valid() && n < m.nCtx && tokens[..][n := m.sep][..n + 1] == Tokens(m, input)
    {
      n := 1;
      var i: nat := 0;
      ghost var all := Ids(Pieces(m.vocab, input, 0), m.unk);
      ghost var rest := all;
      assert Progress(tokens[..], 1, m.cls, all, all);
      while i < |input| && n < m.nCtx - 1
        invariant Valid() && i <= |input| && n < m.nCtx && Progress(tokens[..], n, m.cls, rest, all)
        invariant n < m.nCtx - 1 ==> rest == Ids(Pieces(m.vocab, input, i), m.unk)
        decreases |input| - i
      {
        i, n, rest := NextWord(input, i, n, all);
      }
      ProgressDone(tokens[..], n, m, rest, all);
    }
  }

  /** The piece at `start` has token `x` and ends at `next`. */
  ghost predicate IsPiece(cut: Cut, unk: int, word: Str, start: nat, x: int, next: nat) {
    var p := cut(word, start);
    x == IdIn(p, unk) && next == start + |p.text|
  }

  lemma {:induction false} PieceIds(cut: Cut, unk: int, word: Str, start: nat, x: int, next: nat, after: seq<int>)
    requires start < |word| && Proper(cut, word) && IsPiece(cut, unk, word, start, x, next)
    ensures start < next <= |word|
    ensures Ids(Chop(cut, word, start), unk) + after == [x] + (Ids(Chop(cut, word, next), unk) + after)
  {
    IdsFirst(cut(word, start), Chop(cut, word, next), unk, after);
  }

  lemma IdsFirst(p: Piece, rest: seq<Piece>, unk: int, after: seq<int>)
    ensures Ids([p] + rest, unk) + after == [IdIn(p, unk)] + (Ids(rest, unk) + after)
  {
    IdsSum([p], rest, unk);
  }
}
