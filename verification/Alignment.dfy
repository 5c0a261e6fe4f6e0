// Rounding up to an alignment.

module Alignment {

  /** The least multiple of the alignment that is not below n. */
  function Align(n: nat, alignment: nat): (r: nat)
    requires alignment > 0
    ensures r % alignment == 0 && n <= r < n + alignment
  {
    var offset := n % alignment;
    Rounding(n, alignment);
    if offset != 0 then n - offset + alignment else n
  }

  lemma Rounding(n: nat, a: nat)
    requires a > 0
    ensures n - n % a >= 0 && (n - n % a + a) % a == 0
  {
    var q := n / a;
    assert n - n % a == a * q;
    MultipleOf(q + 1, a);
    assert n - n % a + a == a * (q + 1);
  }

  lemma MultipleOf(q: int, a: nat)
    requires a > 0
    ensures (a * q) % a == 0
  {
    var x := a * q;
    assert x == a * (x / a) + x % a;
    var d := q - x / a;
    assert a * d == x % a;
    OnlyZero(a, d);
  }

  lemma OnlyZero(a: nat, d: int)
    requires -(a as int) < a * d < a
    ensures d == 0
  {
    if d >= 1 {
      LessTimes(1, d, a);
    } else if d <= -1 {
      NegativeTimes(a, d);
    }
  }

  lemma NegativeTimes(a: nat, d: int)
    requires d < 0
    ensures a * d <= -(a as int)
  {
  }

  lemma LessTimes(x: nat, y: nat, a: nat)
    requires x <= y
    ensures a * x <= a * y
  {
  }

  lemma SumOfMultiples(m: int, n: int, a: nat)
    requires a > 0 && m % a == 0 && n % a == 0
    ensures (m + n) % a == 0 && (m - n) % a == 0
  {
    var p, q := m / a, n / a;
    assert m == a * p && n == a * q;
    MultipleOf(p + q, a);
    MultipleOf(p - q, a);
    assert m + n == a * (p + q) && m - n == a * (p - q);
  }

  lemma AlignLeast(n: nat, a: nat, m: nat)
    requires a > 0 && m % a == 0 && n <= m
    ensures Align(n, a) <= m
  {
    if Align(n, a) > m {
      Between(m, Align(n, a), a);
    }
  }

  // Two multiples of a number are not closer than the number.
  lemma Between(m: nat, r: nat, a: nat)
    requires a > 0 && m % a == 0 && r % a == 0 && m < r
    ensures m + a <= r
  {
    SumOfMultiples(r, m, a);
    var d := (r - m) / a;
    assert r - m == a * d;
    if d >= 1 {
      LessTimes(1, d, a);
    }
  }

  predicate PowerUpTo16(a: nat) {
    a == 1 || a == 2 || a == 4 || a == 8 || a == 16
  }

  // What is aligned for the greater of two powers is aligned for the smaller.
  lemma Coarser(x: int, a: nat, b: nat)
    requires PowerUpTo16(a) && PowerUpTo16(b) && a <= b && x % b == 0
    ensures x % a == 0
  {
    hide PowerUpTo16;
    Ratio(a, b);
    var c, k := b / a, x / b;
    assert x == b * k;
    assert (a * c) * k == a * (c * k);
    MultipleOf(c * k, a);
  }

  lemma Ratio(a: nat, b: nat)
    requires PowerUpTo16(a) && PowerUpTo16(b) && a <= b
    ensures 0 < a && 0 < b && b == a * (b / a)
  {
  }
}
