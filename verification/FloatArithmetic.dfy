/**
 What dbconn.h relies on of single-precision arithmetic: an arbitrary rounding that is
 monotone, leaves the integers up to 2^24 alone and has a relative error of at most 2^-24.
 */
module FloatArithmetic {
  import opened Arithmetic

  const TWO_24: int := 0x100_0000

  ghost predicate IsRounding(round: real -> real) {
    && (forall x, y :: x <= y ==> round(x) <= round(y))
    && (forall x :: 0.0 <= x <= 16777216.0 && x.Floor as real == x ==> round(x) == x)
    && (forall x :: x >= 0.0 ==> x - x / 16777216.0 <= round(x) <= x + x / 16777216.0)
  }

  function Ceiling(x: real): int {
    -((-x).Floor)
  }

  lemma {:induction false} CeilingIs(x: real, c: int)
    requires (c - 1) as real < x <= c as real
    ensures Ceiling(x) == c
  {
  }

  lemma {:induction false} RoundPositive(round: real -> real, x: real)
    requires IsRounding(round) && x > 0.0
    ensures round(x) > 0.0
  {
  }

  lemma {:induction false} RoundAtLeast(round: real -> real, x: real, k: nat)
    requires IsRounding(round) && k as real <= x && k <= TWO_24
    ensures k as real <= round(x)
  {
    assert round(k as real) == k as real;
  }

  /** `ceil(tot_sz / nshards)` in floating point. */
  function CeilQuotient(round: real -> real, total: real, n: nat): int
    requires n > 0 && round(n as real) > 0.0
  {
    Ceiling(round(total / round(n as real)))
  }

  lemma {:induction false} DivideReal(x: real, n: real)
    requires n > 0.0
    ensures (x / n) * n == x
    ensures x > 0.0 ==> x / n > 0.0
    ensures x == 0.0 ==> x / n == 0.0
  {
  }

  lemma {:induction false} LessIfTimesLess(x: real, y: real, n: real)
    requires n > 0.0 && x * n < y * n
    ensures x < y
  {
  }

  lemma {:induction false} ProductsOfIntegers(a: int, n: nat)
    ensures (a * n) as real == a as real * n as real
  {
  }

  /** The rounded quotient stays above the integer below it: the error is less than 1 / n. */
  lemma {:induction false} QuotientAbove(q: real, x: real, total: nat, n: nat, c: int)
    requires n > 0 && total < TWO_24 && x * n as real == total as real && x >= 0.0
    requires x - x / 16777216.0 <= q && (c - 1) * n < total
    ensures (c - 1) as real < q
  {
    var m := n as real;
    assert (x - x / 16777216.0) * m == x * m - (x * m) / 16777216.0;
    ProductsOfIntegers(c - 1, n);
    assert (c - 1) as real * m <= total as real - 1.0;
    assert (c - 1) as real * m < (x - x / 16777216.0) * m;
    LessIfTimesLess((c - 1) as real, x - x / 16777216.0, m);
  }

  lemma {:induction false} QuotientBelow(x: real, total: nat, n: nat, c: int)
    requires n > 0 && x * n as real == total as real && total <= c * n
    ensures x <= c as real
  {
    ProductsOfIntegers(c, n);
    if x > c as real {
      LessIfTimesMore(c as real, x, n as real);
    }
  }

  lemma {:induction false} LessIfTimesMore(x: real, y: real, n: real)
    requires n > 0.0 && x < y
    ensures x * n < y * n
  {
  }

  /** For fewer than 2^24 bytes and at most 2^24 mappers the rounded ceiling is the exact one. */
  lemma {:induction false} CeilQuotientExact(round: real -> real, total: nat, n: nat)
    requires IsRounding(round) && 0 < n <= TWO_24 && total < TWO_24
    ensures round(n as real) == n as real && CeilQuotient(round, total as real, n) == CeilDiv(total, n)
  {
    var c, x := CeilDiv(total, n), total as real / n as real;
    assert round(n as real) == n as real;
    DivideReal(total as real, n as real);
    CeilDivBounds(total, n);
    CeilDivAtMost(total, n);
    QuotientBelow(x, total, n, c);
    assert round(x) <= round(c as real) == c as real;
    QuotientAbove(round(x), x, total, n, c);
    CeilingIs(round(x), c);
  }

  lemma {:induction false} CeilDivAtMost(total: nat, n: nat)
    requires n > 0
    ensures 0 <= CeilDiv(total, n) <= total
  {
    CeilDivBounds(total, n);
    var c := CeilDiv(total, n);
    if c > total {
      MulMonotone(total, c - 1, n);
      assert total * n >= total by {
        MulMonotone(1, n, total);
      }
    }
  }

  /** At any size, the rounded quotient is zero for zero bytes only. */
  lemma {:induction false} CeilQuotientZero(round: real -> real, total: real, n: nat)
    requires IsRounding(round) && n > 0 && total >= 0.0
    ensures round(n as real) > 0.0 && CeilQuotient(round, total, n) >= 0
    ensures CeilQuotient(round, total, n) == 0 <==> total == 0.0
  {
    RoundPositive(round, n as real);
    DivideReal(total, round(n as real));
    if total > 0.0 {
      RoundPositive(round, total / round(n as real));
    } else {
      assert round(0 as real) == 0 as real;
    }
  }
}
