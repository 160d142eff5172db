/** Bits and powers of two, as the reduction of `ggml-backend-meta.cpp` uses them. */
module Bits {
  import opened Alignment

  /** Bitwise exclusive or. */
  function Xor(a: nat, b: nat): nat
    decreases a + b
  {
    if a == 0 && b == 0 then 0 else 2 * Xor(a / 2, b / 2) + (a + b) % 2
  }

  /** Bitwise and. */
  function And(a: nat, b: nat): nat
    decreases a
  {
    if a == 0 || b == 0 then 0 else 2 * And(a / 2, b / 2) + (if a % 2 == 1 && b % 2 == 1 then 1 else 0)
  }

  function Pow2(k: nat): (p: nat)
    ensures p > 0
  {
    if k == 0 then 1 else 2 * Pow2(k - 1)
  }

  ghost predicate IsPow2(x: nat) {
    exists k: nat :: x == Pow2(k)
  }

  lemma {:induction false} AndSelf(x: nat)
    ensures And(x, x) == x
  {
    if x > 0 {
      AndSelf(x / 2);
    }
  }

  /** The test `x & (x - 1)` of the source: zero exactly for powers of two. */
  lemma {:induction false} PowerTest(x: nat)
    requires x > 0
    ensures And(x, x - 1) == 0 <==> IsPow2(x)
  {
    if x == 1 {
      assert x == Pow2(0);
    } else if x % 2 == 0 {
      PowerTest(x / 2);
      assert (x - 1) / 2 == x / 2 - 1;
      if IsPow2(x / 2) {
        var k: nat :| x / 2 == Pow2(k);
        assert x == Pow2(k + 1);
      }
      if IsPow2(x) {
        var k: nat :| x == Pow2(k);
        assert x / 2 == Pow2(k - 1);
      }
    } else {
      AndSelf(x / 2);
      assert (x - 1) / 2 == x / 2;
      forall k: nat
        ensures x != Pow2(k)
      {
      }
    }
  }

  lemma {:induction false} XorZero(a: nat)
    ensures Xor(a, 0) == a
  {
    if a > 0 {
      XorZero(a / 2);
    }
  }

  /** Remainders of `q * m + r`. */
  lemma Remainder(q: nat, m: nat, r: nat)
    requires r < m
    ensures (q * m + r) % m == r
  {
    RemainderUnique((q * m + r) / m, (q * m + r) % m, q, r, m);
  }

  lemma DoubleMod(i: nat, m: nat, b: nat)
    requires m > 0 && b < 2
    ensures (2 * i + b) % (2 * m) == 2 * (i % m) + b
  {
    var q, r := i / m, i % m;
    assert i == q * m + r;
    assert 2 * i + b == q * (2 * m) + (2 * r + b);
    Remainder(q, 2 * m, 2 * r + b);
  }

  /** Flipping bit `k` moves within a block of twice its weight. */
  lemma {:induction false} XorPow(a: nat, k: nat)
    ensures Xor(a, Pow2(k)) == if a % Pow2(k + 1) < Pow2(k) then a + Pow2(k) else a - Pow2(k)
  {
    if k == 0 {
      XorOne(a);
      assert Pow2(0) == 1 && Pow2(1) == 2;
    } else {
      XorPow(a / 2, k - 1);
      XorHalves(a, k);
      DoubleMod(a / 2, Pow2(k), a % 2);
      Doubled(a, a / 2, Pow2(k - 1), Xor(a / 2, Pow2(k - 1)), (a / 2) % Pow2(k));
    }
  }

  lemma Doubled(a: nat, i: nat, o: nat, x: int, r: nat)
    requires a / 2 == i && x == if r < o then i + o else i - o
    ensures 2 * x + a % 2 == if 2 * r + a % 2 < 2 * o then a + 2 * o else a - 2 * o
  {
  }

  lemma XorOne(a: nat)
    ensures Xor(a, 1) == if a % 2 == 0 then a + 1 else a - 1
  {
    XorZero(a / 2);
  }

  lemma {:induction false} XorHalves(a: nat, k: nat)
    requires k > 0
    ensures Xor(a, Pow2(k)) == 2 * Xor(a / 2, Pow2(k - 1)) + a % 2
  {
    XorEven(a, Pow2(k - 1));
  }

  lemma {:induction false} XorEven(a: nat, x: nat)
    requires x > 0
    ensures Xor(a, 2 * x) == 2 * Xor(a / 2, x) + a % 2
  {
    assert 2 * x / 2 == x && 2 * x % 2 == 0;
  }

  lemma {:induction false} Pow2Product(a: nat, b: nat)
    ensures Pow2(a + b) == Pow2(a) * Pow2(b)
  {
    if a > 0 {
      Pow2Product(a - 1, b);
      assert Pow2(a) * Pow2(b) == 2 * (Pow2(a - 1) * Pow2(b));
    }
  }

  /** Blocks of size `m` tile `0..c*m`, so a number below the end has its whole block below it. */
  lemma BlockBelow(q: nat, m: nat, c: nat, r: nat)
    requires q * m + r < c * m && r < m
    ensures q * m + m <= c * m
  {
    if c <= q {
      ProductGrows(c, q, m);
    } else {
      ProductGrows(q + 1, c, m);
      assert (q + 1) * m == q * m + m;
    }
  }

  lemma ProductGrows(a: nat, b: nat, m: nat)
    requires a <= b
    ensures a * m <= b * m
  {
    assert b * m == a * m + (b - a) * m;
  }

  /** Flipping bit `k` of a number below a multiple of its block pairs it with another one. */
  lemma PartnerBelow(j: nat, k: nat, c: nat)
    requires j < c * Pow2(k + 1)
    ensures Xor(j, Pow2(k)) < c * Pow2(k + 1) && Xor(j, Pow2(k)) != j
  {
    var b, r := Pow2(k + 1), j % Pow2(k + 1);
    BlockNumber(j, b, c);
    var t := (j / b) * b;
    XorPow(j, k);
    assert j == t + r && t + b <= c * b && b == 2 * Pow2(k);
  }

  lemma BlockNumber(j: nat, b: nat, c: nat)
    requires b > 0 && j < c * b
    ensures j == (j / b) * b + j % b && (j / b) * b + b <= c * b
  {
    BlockBelow(j / b, b, c, j % b);
  }

  /** Partners find each other, in opposite halves of their block. */
  lemma PartnerBack(j: nat, k: nat)
    ensures var o, r, x := Pow2(k), j % Pow2(k + 1), Xor(j, Pow2(k));
            Xor(x, o) == j && x % Pow2(k + 1) == if r < o then r + o else r - o
  {
    var o, r := Pow2(k), j % Pow2(k + 1);
    XorPow(j, k);
    var d: int := o;
    if o <= r {
      d := d - 2 * o;
    }
    ModShift(j, Pow2(k + 1), d);
    XorPow(Xor(j, o), k);
  }

  /** Moving within a block moves the remainder along. */
  lemma ModShift(j: nat, b: nat, d: int)
    requires b > 0 && 0 <= j % b + d < b
    ensures 0 <= j + d && (j + d) % b == j % b + d
  {
    assert j == (j / b) * b + j % b;
    Remainder(j / b, b, j % b + d);
  }

  /** Remainders by half a block. */
  lemma HalfMod(j: nat, o: nat)
    requires o > 0
    ensures j % o == if j % (2 * o) < o then j % (2 * o) else j % (2 * o) - o
  {
    var q, r := j / (2 * o), j % (2 * o);
    assert j == q * (2 * o) + r;
    var r' := if r < o then r else r - o;
    var q' := if r < o then 2 * q else 2 * q + 1;
    assert j == q' * o + r';
    Remainder(q', o, r');
  }

  /** The number of halvings that reach one: the reduction steps reserved per device. */
  function CeilLog2(n: nat): nat {
    if n <= 1 then 0 else 1 + CeilLog2((n + 1) / 2)
  }

  lemma {:induction false} CeilLog2Is(n: nat, k: nat)
    requires Pow2(k) < n <= Pow2(k + 1)
    ensures CeilLog2(n) == k + 1
  {
    if k > 0 {
      CeilLog2Is((n + 1) / 2, k - 1);
    }
  }
}
