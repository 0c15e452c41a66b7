/** The little non-linear arithmetic the proofs need. */
module Arithmetic {

  lemma {:induction false} MulMonotone(x: int, y: int, b: nat)
    requires x <= y
    ensures x * b <= y * b
  {
  }

  /** The quotient is the only number of multiples that leaves a remainder below b. */
  lemma {:induction false} DivIs(a: int, q: int, r: int, b: nat)
    requires 0 <= r < b && a == q * b + r
    ensures a / b == q && a % b == r
  {
    var d := a / b - q;
    assert a == (a / b) * b + a % b;
    assert d * b == (a / b) * b - q * b;
    if d >= 1 {
      MulMonotone(1, d, b);
    } else if d <= -1 {
      MulMonotone(d, -1, b);
    }
  }

  /** n times b, as a sum. */
  function Times(n: nat, b: nat): nat {
    if n == 0 then 0 else b + Times(n - 1, b)
  }

  lemma {:induction false} TimesIsProduct(n: nat, b: nat)
    ensures Times(n, b) == n * b
  {
    if n > 0 {
      TimesIsProduct(n - 1, b);
      assert n * b == (n - 1) * b + b;
    }
  }

  lemma {:induction false} TimesDrops(m: nat, n: nat, b: nat)
    requires m < n
    ensures Times(m, b) + b <= Times(n, b)
  {
    if m < n - 1 {
      TimesDrops(m, n - 1, b);
    }
  }

  function CeilDiv(a: nat, b: nat): nat
    requires b > 0
  {
    (a + b - 1) / b
  }

  lemma {:induction false} CeilDivBounds(a: nat, b: nat)
    requires b > 0
    ensures (CeilDiv(a, b) - 1) * b < a <= CeilDiv(a, b) * b
    ensures a > 0 ==> CeilDiv(a, b) > 0
  {
    var c := CeilDiv(a, b);
    assert a + b - 1 == c * b + (a + b - 1) % b;
    assert (c - 1) * b == c * b - b;
  }
}
