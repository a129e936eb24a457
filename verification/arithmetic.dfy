/** Multiplication and division by a common factor, in the small steps the solver needs. */
module Arithmetic {
  lemma Multiples(k: int, len: int)
    requires len > 0
    ensures k >= 1 ==> k * len >= len
    ensures k <= -1 ==> k * len <= -len
  {}

  lemma Residue(q: int, r: int, len: int)
    requires 0 <= r < len
    ensures (q * len + r) % len == r
    ensures (q * len + r) / len == q
  {
    var x := q * len + r;
    var q', r' := x / len, x % len;
    assert x == q' * len + r';
    assert (q - q') * len == r' - r;
    Multiples(q - q', len);
  }

  lemma OrderOfMultiples(i: int, j: int, F: int)
    requires F > 0
    ensures i * F < j * F ==> i < j
    ensures i * F <= j * F ==> i <= j
  {
    Multiples(i - j, F);
    assert (i - j) * F == i * F - j * F;
  }

  lemma Spacing(i: nat, j: nat, F: nat)
    requires i < j && F > 0
    ensures i * F + F <= j * F
  {
    Multiples(j - i, F);
    assert (j - i) * F == j * F - i * F;
  }

  lemma ScaleOrder(i: int, j: int, d: int)
    requires i <= j && d > 0
    ensures i * d <= j * d
  {
    Multiples(i - j, d);
    assert (i - j) * d == i * d - j * d;
  }

  lemma SplitMultiple(m: int, k: int, d: int)
    ensures (m + k) * d == m * d + k * d
  {}

  lemma FloorBound(k: int, y: int, d: int)
    requires d > 0 && k * d <= y
    ensures k <= y / d
  {
    var q := y / d;
    assert y == q * d + y % d;
    Multiples(k - q, d);
    assert (k - q) * d == k * d - q * d;
  }

  lemma ShiftedFloor(x: int, k: int, d: int)
    requires d > 0
    ensures (x + k * d) / d == x / d + k
  {
    var q, r := x / d, x % d;
    assert x == q * d + r;
    assert x + k * d == (q + k) * d + r;
    Residue(q + k, r, d);
  }

  lemma FloorBelow(y: int, d: int, k: int)
    requires d > 0 && y < k * d
    ensures y / d < k
  {
    var q := y / d;
    assert y == q * d + y % d;
    Multiples(q - k, d);
    assert (q - k) * d == q * d - k * d;
  }

  lemma QuotientBound(x: int, d: int)
    requires 0 <= x && d > 0
    ensures 0 <= x / d <= x
  {
    Multiples(d, x + 1);
    FloorBelow(x, d, x + 1);
    FloorBound(0, x, d);
  }
}
