/**
 Decimal text for natural numbers: what `std::to_string` prints, what `std::stol` and
 Python's `int` read back, and the zero-padded form ZooKeeper appends to sequential nodes.
 */
module Decimal {
  import opened Arithmetic
  import opened Lexicographic

  function Digit(d: nat): char
    requires d < 10
  {
    ('0' as int + d) as char
  }

  predicate IsDigit(c: char) {
    '0' <= c <= '9'
  }

  function DigitValue(c: char): nat
    requires IsDigit(c)
  {
    c as int - '0' as int
  }

  predicate IsNumber(s: string) {
    s != "" && forall c :: c in s ==> IsDigit(c)
  }

  function ToString(n: nat): (s: string)
    ensures IsNumber(s)
  {
    if n < 10 then [Digit(n)] else ToString(n / 10) + [Digit(n % 10)]
  }

  function Parse(s: string): nat
    requires IsNumber(s)
  {
    var last := DigitValue(s[|s| - 1]);
    if |s| == 1 then last
    else
      assert forall c :: c in s[..|s| - 1] ==> c in s;
      10 * Parse(s[..|s| - 1]) + last
  }

  lemma {:induction false} ParseToString(n: nat)
    ensures Parse(ToString(n)) == n
  {
    if n >= 10 {
      ParseToString(n / 10);
      var s := ToString(n);
      assert s[..|s| - 1] == ToString(n / 10);
    }
  }

  lemma {:induction false} ToStringInjective(m: nat, n: nat)
    requires ToString(m) == ToString(n)
    ensures m == n
  {
    ParseToString(m);
    ParseToString(n);
  }

  // ----- zero-padded numbers -----

  function Pow10(w: nat): (r: nat)
    ensures r > 0
  {
    if w == 0 then 1 else 10 * Pow10(w - 1)
  }

  lemma {:induction false} DivideByTenFirst(n: nat, b: nat)
    requires b > 0
    ensures n / 10 / b == n / (10 * b)
  {
    var q := n / 10;
    var p := q / b;
    assert n == 10 * q + n % 10 && q == p * b + q % b;
    assert p * (10 * b) == 10 * (p * b);
    DivIs(n, p, 10 * (q % b) + n % 10, 10 * b);
  }

  lemma {:induction false} DigitOfText(n: nat, k: nat)
    requires k < |ToString(n)|
    ensures ToString(n)[|ToString(n)| - 1 - k] as int == 48 + n / Pow10(k) % 10
    decreases n
  {
    if n >= 10 && k > 0 {
      DigitOfText(n / 10, k - 1);
      DivideByTenFirst(n, Pow10(k - 1));
    }
  }

  lemma {:induction false} LengthOfText(n: nat)
    ensures n < Pow10(|ToString(n)|) && if n == 0 then |ToString(n)| == 1 else Pow10(|ToString(n)| - 1) <= n
    decreases n
  {
    if n < 10 {
      assert Pow10(1) == 10 * Pow10(0);
    } else {
      var m := |ToString(n / 10)|;
      LengthOfText(n / 10);
      assert Pow10(m + 1) == 10 * Pow10(m) && Pow10(m) == 10 * Pow10(m - 1);
    }
  }

  /** The text of a number has its decimal digits, as characters '0' to '9', and no zero in front. */
  lemma {:induction false} ToStringSpells(n: nat, k: nat)
    ensures var s := ToString(n);
            && (k < |s| ==> s[|s| - 1 - k] as int == 48 + n / Pow10(k) % 10)
            && n < Pow10(|s|) && (if n == 0 then |s| == 1 else Pow10(|s| - 1) <= n)
  {
    LengthOfText(n);
    if k < |ToString(n)| {
      DigitOfText(n, k);
    }
  }

  /** The last `w` decimal digits of n, most significant first. */
  function Pad(n: nat, w: nat): (s: string)
    ensures |s| == w
  {
    if w == 0 then "" else Pad(n / 10, w - 1) + [Digit(n % 10)]
  }

  function Zeros(n: nat): (s: string)
    ensures |s| == n
  {
    if n == 0 then "" else "0" + Zeros(n - 1)
  }

  /** A number that fits is its usual text with zeros in front. */
  lemma {:induction false} PadIs(n: nat, w: nat)
    requires 0 < w && n < Pow10(w)
    ensures |ToString(n)| <= w && Pad(n, w) == Zeros(w - |ToString(n)|) + ToString(n)
  {
    if n < 10 {
      PadZero(w - 1);
      assert Pad(n, w) == Pad(0, w - 1) + [Digit(n)];
    } else {
      assert Pow10(1) == 10 * Pow10(0);
      PadIs(n / 10, w - 1);
    }
  }

  lemma {:induction false} PadZero(w: nat)
    ensures Pad(0, w) == Zeros(w)
  {
    if w > 0 {
      PadZero(w - 1);
      ZerosSnoc(w - 1);
    }
  }

  lemma {:induction false} ZerosSnoc(n: nat)
    ensures Zeros(n) + "0" == Zeros(n + 1)
  {
    if n > 0 {
      ZerosSnoc(n - 1);
      assert Zeros(n) + "0" == "0" + (Zeros(n - 1) + "0");
    }
  }

  /** On numbers that fit, string order is numeric order. */
  lemma {:induction false} PadOrder(m: nat, n: nat, w: nat)
    requires m < Pow10(w) && n < Pow10(w)
    ensures Less(Pad(m, w), Pad(n, w)) <==> m < n
    ensures Pad(m, w) == Pad(n, w) <==> m == n
  {
    if w > 0 {
      PadOrder(m / 10, n / 10, w - 1);
      LessSnoc(Pad(m / 10, w - 1), Digit(m % 10), Pad(n / 10, w - 1), Digit(n % 10));
      assert Pad(m, w)[..w - 1] == Pad(m / 10, w - 1) && Pad(n, w)[..w - 1] == Pad(n / 10, w - 1);
      assert Pad(m, w)[w - 1] == Digit(m % 10) && Pad(n, w)[w - 1] == Digit(n % 10);
      assert m == 10 * (m / 10) + m % 10 && n == 10 * (n / 10) + n % 10;
    }
  }
}
