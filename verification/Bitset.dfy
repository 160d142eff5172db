/** Sets of small numbers, 32 to a word. */
module Bitset {

  /** A bit's place in its word. */
  function Place(i: nat): bv5 {
    (i % 32) as bv5
  }

  lemma PlaceBack(i: nat)
    ensures Place(i) as nat == i % 32
  {
  }

  lemma SamePlace(i: nat, j: nat)
    requires Place(i) == Place(j)
    ensures i % 32 == j % 32
  {
    PlaceBack(i);
    PlaceBack(j);
  }

  lemma OneBit(w: bv32, a: bv5, b: bv5)
    ensures ((w | (1 << a)) & (1 << b)) != 0 <==> a == b || (w & (1 << b)) != 0
  {
  }

  function Words(n: nat): nat {
    (n + 31) / 32
  }

  predicate Test(w: bv32, a: bv5) {
    (w & (1 << a)) != 0
  }

  predicate Get(words: seq<bv32>, i: nat) {
    i / 32 < |words| && Test(words[i / 32], Place(i))
  }

  function Marked(w: bv32, a: bv5): bv32 {
    w | (1 << a)
  }

  function Set(words: seq<bv32>, i: nat): seq<bv32>
    requires i / 32 < |words|
  {
    words[i / 32 := Marked(words[i / 32], Place(i))]
  }

  lemma OtherPlace(i: nat, j: nat)
    ensures Place(i) == Place(j) <==> i % 32 == j % 32
  {
    if Place(i) == Place(j) {
      SamePlace(i, j);
    }
  }

  /** The same with the places as given. */
  lemma SetWord(words: seq<bv32>, i: nat, j: nat, a: bv5, b: bv5)
    requires i / 32 < |words| && (a == b <==> i % 32 == j % 32)
    ensures var w := words[i / 32 := Marked(words[i / 32], a)];
            j / 32 < |words| ==> (Test(w[j / 32], b) <==> j == i || Test(words[j / 32], b))
  {
    if i / 32 == j / 32 {
      OneBit(words[i / 32], a, b);
    }
  }

  /** Setting a bit sets that bit and no other. */
  lemma SetGet(words: seq<bv32>, i: nat, j: nat)
    requires i / 32 < |words|
    ensures Get(Set(words, i), j) <==> j == i || Get(words, j)
  {
    OtherPlace(i, j);
    SetWord(words, i, j, Place(i), Place(j));
  }

  lemma ClearGet(words: seq<bv32>, i: nat)
    requires forall k :: 0 <= k < |words| ==> words[k] == 0
    ensures !Get(words, i)
  {
  }
}
