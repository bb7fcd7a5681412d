/** Facts about division by a positive number that the solver does not find by itself. */
module Modular {

  lemma MulOrder(a: int, b: int, m: int)
    requires a < b && m > 0
    ensures a * m + m <= b * m
  {
    assert (b - a - 1) * m >= 0;
    assert b * m == a * m + m + (b - a - 1) * m;
  }

  lemma DivModUnique(a: int, m: int, q: int, r: int)
    requires m > 0 && a == q * m + r && 0 <= r < m
    ensures a / m == q && a % m == r
  {
    if a / m > q {
      MulOrder(q, a / m, m);
    } else if a / m < q {
      MulOrder(a / m, q, m);
    }
  }

  /** Adding a multiple of the modulus changes nothing. */
  lemma ModShift(a: int, k: int, m: int)
    requires m > 0
    ensures (a + k * m) % m == a % m && (a + k * m) / m == a / m + k
  {
    assert a + k * m == (a / m + k) * m + a % m;
    DivModUnique(a + k * m, m, a / m + k, a % m);
  }

  lemma ModAdd(a: int, b: int, m: int)
    requires m > 0
    ensures (a + b) % m == (a % m + b % m) % m
    ensures (a + b) % m == (a % m + b) % m == (a + b % m) % m
  {
    ModShift(a % m + b % m, a / m + b / m, m);
    ModShift(a % m + b, a / m, m);
    ModShift(a + b % m, b / m, m);
    assert a + b == (a % m + b % m) + (a / m + b / m) * m;
    assert a + b == (a % m + b) + (a / m) * m;
    assert a + b == (a + b % m) + (b / m) * m;
  }

  /** Splitting a scaled remainder. */
  lemma ModScale(a: nat, m: nat, s: nat)
    requires m > 0 && s > 0
    ensures m * s > 0 && (a * s) % (m * s) == (a % m) * s
  {
    assert m * s > 0;
    assert a == (a / m) * m + a % m;
    assert a * s == (a / m) * (m * s) + (a % m) * s;
    assert (a % m) * s < m * s;
    DivModUnique(a * s, m * s, a / m, (a % m) * s);
  }

  lemma DivBound(a: nat, m: nat, s: nat)
    requires m > 0 && a < m * s
    ensures a / m < s
  {
  }

  lemma MulNat(a: nat, b: nat)
    ensures a * b >= 0
  {
  }

  lemma DivNat(a: nat, m: nat)
    requires m > 0
    ensures 0 <= a / m <= a
  {
    var q, r := a / m, a % m;
    assert a == q * m + r;
    if q < 0 {
      MulOrder(q, 0, m);
    } else {
      MulNat(q, m - 1);
      assert q * m == q + q * (m - 1);
    }
  }
}
