/** Nonlinear facts used by the other modules. */
module Arithmetic {

  lemma {:induction false} MulAtLeast(d: int, p: int)
    requires d >= 1 && p >= 0
    ensures d * p >= p
  {
    assert d * p == (d - 1) * p + p;
    MulNonNegative(d - 1, p);
  }

  lemma {:induction false} MulNonNegative(a: int, b: int)
    requires a >= 0 && b >= 0
    ensures a * b >= 0
  {
  }

  lemma {:induction false} DivisionUnique(a: int, p: int, q: int, r: int)
    requires 0 <= r < p && a == q * p + r
    ensures a / p == q && a % p == r
  {
    var d := a / p - q;
    assert d * p == (a / p) * p - q * p == r - a % p;
    if d >= 1 {
      MulAtLeast(d, p);
    } else if d <= -1 {
      MulAtLeast(-d, p);
    }
  }

  lemma {:induction false} NextRemainder(a: int, p: int)
    requires p > 0
    ensures (a + 1) % p == if a % p == p - 1 then 0 else a % p + 1
  {
    var q, r := a / p, a % p;
    assert a == q * p + r;
    if r == p - 1 {
      assert a + 1 == (q + 1) * p;
      DivisionUnique(a + 1, p, q + 1, 0);
    } else {
      DivisionUnique(a + 1, p, q, r + 1);
    }
  }

  lemma {:induction false} RemainderBound(a: int, p: int)
    requires a >= 0 && p > 0
    ensures 0 <= a % p <= a
  {
    assert a / p >= 0 && a == (a / p) * p + a % p;
    MulNonNegative(a / p, p);
  }

  /** A ceiling division. */
  function CeilDiv(a: nat, p: nat): nat
    requires p > 0
  {
    (a + p - 1) / p
  }

  lemma {:induction false} CeilDivMeaning(a: nat, p: nat)
    requires p > 0
    ensures CeilDiv(a, p) * p == if a % p == 0 then a else a - a % p + p
  {
    var q, r := a / p, a % p;
    assert a == q * p + r;
    if r == 0 {
      DivisionUnique(a + p - 1, p, q, p - 1);
    } else {
      assert a + p - 1 == (q + 1) * p + (r - 1);
      DivisionUnique(a + p - 1, p, q + 1, r - 1);
    }
  }

  lemma {:induction false} MulAssociates(a: int, b: int, c: int)
    ensures a * (b * c) == a * b * c
  {
  }
}
