/** Rounding sizes up to a multiple of the buffer alignment. */
module Alignment {

  /** `size` rounded up to a multiple of `alignment`. */
  function Align(size: nat, alignment: nat): (r: nat)
    requires alignment > 0
    ensures size <= r < size + alignment
    ensures r % alignment == 0
  {
    AlignedUp(size, alignment);
    size + (alignment - size % alignment) % alignment
  }

  lemma AlignedUp(size: nat, a: nat)
    requires a > 0
    ensures (size + (a - size % a) % a) % a == 0
  {
    var q, m := size / a, size % a;
    assert size == q * a + m;
    if m != 0 {
      RemainderUnique(0, a - m, (a - m) / a, (a - m) % a, a);
      assert size + (a - m) == (q + 1) * a;
      MultipleMod(q + 1, a);
    }
  }

  /** A multiple of the alignment is left as it is. */
  lemma AlignAligned(x: nat, a: nat)
    requires a > 0 && x % a == 0
    ensures Align(x, a) == x
  {
  }

  lemma SumAligned(x: nat, y: nat, a: nat)
    requires a > 0 && x % a == 0 && y % a == 0
    ensures (x + y) % a == 0
  {
    assert x + y == (x / a + y / a) * a;
    MultipleMod(x / a + y / a, a);
  }

  lemma DifferenceAligned(x: nat, y: nat, a: nat)
    requires a > 0 && x % a == 0 && y % a == 0 && y <= x
    ensures (x - y) % a == 0
  {
    var k, l := x / a, y / a;
    assert x == k * a && y == l * a;
    assert k >= l by {
      assert (l - k) * a <= 0;
    }
    assert x - y == (k - l) * a;
    MultipleMod(k - l, a);
  }

  /** Rounding up keeps order. */
  lemma AlignMonotone(x: nat, y: nat, a: nat)
    requires a > 0 && x <= y
    ensures Align(x, a) <= Align(y, a)
  {
    var u, v := Align(x, a), Align(y, a);
    if v < u {
      DifferenceAligned(u, v, a);
      RemainderUnique(0, u - v, (u - v) / a, (u - v) % a, a);
    }
  }

  lemma MultipleMod(q: nat, a: nat)
    requires a > 0
    ensures (q * a) % a == 0
  {
    RemainderUnique((q * a) / a, (q * a) % a, q, 0, a);
  }

  lemma RemainderUnique(q: int, r: int, q': int, r': int, a: nat)
    requires a > 0 && q * a + r == q' * a + r' && 0 <= r < a && 0 <= r' < a
    ensures r == r'
  {
    assert (q' - q) * a == r - r';
    OnlyZeroBetween(q' - q, a);
  }

  lemma OnlyZeroBetween(d: int, a: nat)
    requires a > 0 && 0 - a < d * a < a
    ensures d == 0
  {
    if d >= 1 {
      AtLeastOnce(d, a);
    } else if d <= -1 {
      AtLeastOnce(-d, a);
    }
  }

  lemma AtLeastOnce(d: int, a: nat)
    requires a > 0 && d >= 1
    ensures d * a >= a
  {
  }
}
