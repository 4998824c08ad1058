/** C integer arithmetic and the option type shared by the other modules. */
module CArith {

  datatype Option<+T> = None | Some(value: T)

  /** C's integer division: the quotient is truncated toward zero. */
  function TruncDiv(a: int, b: int): int
    requires b > 0
  {
    if a >= 0 then a / b else -((-a) / b)
  }

  lemma DivFacts(n: nat, b: int)
    requires b > 0
    ensures n == (n / b) * b + n % b && 0 <= n % b < b && n / b >= 0
  {
  }

  lemma MulNegated(x: int, b: int)
    ensures (-x) * b == -(x * b)
  {
  }

  /** The remainder has the dividend's sign and is smaller than the divisor. */
  lemma TruncFacts(a: int, b: int)
    requires b > 0
    ensures a >= 0 ==> 0 <= a - TruncDiv(a, b) * b < b && 0 <= TruncDiv(a, b)
    ensures a < 0 ==> -b < a - TruncDiv(a, b) * b <= 0 && TruncDiv(a, b) <= 0
  {
    var n: nat := if a >= 0 then a else -a;
    DivFacts(n, b);
    MulNegated(n / b, b);
  }

  lemma MulMonotone(a: int, b: int, k: int)
    requires a <= b && k >= 0
    ensures a * k <= b * k
  {
    assert (b - a) * k >= 0;
  }

  /** Comparing quotients through a common dividend. */
  lemma QuotientLe(d: int, a: int, b: int, n: int)
    requires d > 0 && a * d <= n < b * d + d
    ensures a <= b
  {
    if a > b {
      MulMonotone(b + 1, a, d);
      Distribute(b, 1, d);
    }
  }

  lemma DivMonotone(a: int, b: int, d: int)
    requires 0 <= a <= b && d > 0
    ensures a / d <= b / d
  {
    DivFacts(a, d);
    DivFacts(b, d);
    QuotientLe(d, a / d, b / d, a);
  }

  lemma Distribute(a: int, b: int, k: int)
    ensures (a + b) * k == a * k + b * k
  {
  }

  lemma Twice(x: int, d: int)
    ensures x * (2 * d) == 2 * (x * d)
  {
  }
}
