/** Splitting text into tokens: the maximal runs of bytes that are not separators. */
module Tokens {

  /** Bytes `start` up to, not including, `end`. */
  datatype Token = Token(start: nat, end: nat)

  predicate IsSeparator(c: char, separators: string) {
    c in separators
  }

  ghost predicate InToken(tokens: seq<Token>, b: int) {
    exists i :: 0 <= i < |tokens| && tokens[i].start <= b < tokens[i].end
  }

  /** Up to byte `n`: non-empty tokens in order, with a gap between them, that hold exactly
      the bytes that are not separators. */
  ghost predicate Split(input: string, separators: string, tokens: seq<Token>, n: nat)
    requires n <= |input|
  {
    && (forall i :: 0 <= i < |tokens| ==> tokens[i].start < tokens[i].end <= n)
    && (forall i, j :: 0 <= i < j < |tokens| ==> tokens[i].end < tokens[j].start)
    && (forall b :: 0 <= b < n ==> (InToken(tokens, b) <==> input[b] !in separators))
  }

  lemma SplitSkip(input: string, separators: string, tokens: seq<Token>, n: nat)
    requires n < |input| && Split(input, separators, tokens, n) && IsSeparator(input[n], separators)
    ensures Split(input, separators, tokens, n + 1)
  {
  }

  lemma SplitPush(input: string, separators: string, tokens: seq<Token>, start: nat, end: nat)
    requires start < end <= |input| && Split(input, separators, tokens, start)
    requires forall b :: start <= b < end ==> !IsSeparator(input[b], separators)
    requires |tokens| > 0 ==> tokens[|tokens| - 1].end < start
    ensures Split(input, separators, tokens + [Token(start, end)], end)
  {
    var tokens' := tokens + [Token(start, end)];
    forall b | 0 <= b < end
      ensures InToken(tokens', b) <==> !IsSeparator(input[b], separators)
    {
      if b < start {
        if InToken(tokens, b) {
          var i :| 0 <= i < |tokens| && tokens[i].start <= b < tokens[i].end;
          assert tokens'[i] == tokens[i];
        }
      } else {
        assert tokens'[|tokens|].start <= b < tokens'[|tokens|].end;
      }
    }
  }

  method SplitTokens(input: string, separators: string) returns (tokens: seq<Token>)
    ensures Split(input, separators, tokens, |input|)
  {
    tokens := [];
    var cursor := 0;
    while cursor < |input|
      invariant cursor <= |input| && Split(input, separators, tokens, cursor)
      invariant |tokens| > 0 && cursor < |input| ==> tokens[|tokens| - 1].end < cursor || IsSeparator(input[cursor], separators)
    {
      ghost var before := cursor;
      cursor := SkipSeparators(input, separators, tokens, cursor);
      if cursor == |input| {
        break;
      }
      var start := cursor;
      while cursor < |input| && !IsSeparator(input[cursor], separators)
        invariant start <= cursor <= |input|
        invariant forall b :: start <= b < cursor ==> !IsSeparator(input[b], separators)
      {
        cursor := cursor + 1;
      }
      SplitPush(input, separators, tokens, start, cursor);
      tokens := tokens + [Token(start, cursor)];
    }
  }

  method SkipSeparators(input: string, separators: string, ghost tokens: seq<Token>, from: nat) returns (cursor: nat)
    requires from < |input| && Split(input, separators, tokens, from)
    requires |tokens| > 0 ==> tokens[|tokens| - 1].end < from || IsSeparator(input[from], separators)
    ensures from <= cursor <= |input| && Split(input, separators, tokens, cursor)
    ensures cursor < |input| ==> !IsSeparator(input[cursor], separators)
    ensures |tokens| > 0 && cursor < |input| ==> tokens[|tokens| - 1].end < cursor
  {
    cursor := from;
    while cursor < |input| && IsSeparator(input[cursor], separators)
      invariant from <= cursor <= |input| && Split(input, separators, tokens, cursor)
      invariant |tokens| > 0 && cursor > from ==> tokens[|tokens| - 1].end < cursor
    {
      SplitSkip(input, separators, tokens, cursor);
      cursor := cursor + 1;
    }
  }
}
