/** Python's built-in `round`: to the nearest integer or to two decimals, ties to even. */
module Rounding {

  function RoundHalfEven(x: real): (r: int)
    ensures -0.5 <= r as real - x <= 0.5
    ensures r as real - x == 0.5 || x - r as real == 0.5 ==> r % 2 == 0
  {
    var f := x.Floor;
    var d := x - f as real;
    if d < 0.5 || (d == 0.5 && f % 2 == 0) then f else f + 1
  }

  function Round2(x: real): real {
    RoundHalfEven(x * 100.0) as real / 100.0
  }

  /** x is a whole number of hundredths, as every published score is. */
  predicate IsCents(x: real) {
    (x * 100.0).Floor as real == x * 100.0
  }

  /** The two bounds of RoundHalfEven's contract leave exactly one integer. */
  lemma RoundIsUnique(x: real, n: int)
    requires -0.5 <= n as real - x <= 0.5
    requires n as real - x == 0.5 || x - n as real == 0.5 ==> n % 2 == 0
    ensures n == RoundHalfEven(x)
  {}

  lemma RoundMonotone(x: real, y: real)
    requires x <= y
    ensures RoundHalfEven(x) <= RoundHalfEven(y)
  {}

  lemma RoundInteger(n: int)
    ensures RoundHalfEven(n as real) == n
  {}

  lemma Round2Monotone(x: real, y: real)
    requires x <= y
    ensures Round2(x) <= Round2(y)
  {
    RoundMonotone(x * 100.0, y * 100.0);
  }

  lemma Round2Cents(x: real)
    requires IsCents(x)
    ensures Round2(x) == x
  {
    RoundInteger((x * 100.0).Floor);
  }

  lemma Round2Facts(x: real)
    ensures -0.005 <= Round2(x) - x <= 0.005 && IsCents(Round2(x))
  {
    Round2IsCents(x);
  }

  lemma CentsInteger(n: int)
    ensures IsCents(n as real)
  {
    assert (n as real) * 100.0 == (n * 100) as real;
  }

  lemma CentsSum(x: real, y: real)
    requires IsCents(x) && IsCents(y)
    ensures IsCents(x + y)
  {
    var a, b := (x * 100.0).Floor, (y * 100.0).Floor;
    assert (x + y) * 100.0 == (a + b) as real;
  }

  lemma WholeIsCents(x: real, m: int)
    requires x * 100.0 == m as real
    ensures IsCents(x)
  {}

  /** What is rounded to two decimals has two decimals. */
  lemma Round2IsCents(x: real)
    ensures IsCents(Round2(x))
  {
    WholeIsCents(Round2(x), RoundHalfEven(x * 100.0));
  }

  lemma {:induction false} WholeMultiple(n: nat, k: int)
    ensures n as real * k as real == (n * k) as real
  {
    if n > 0 {
      WholeMultiple(n - 1, k);
      OneMoreTime((n - 1) as real, k as real);
      assert n * k == (n - 1) * k + k;
    }
  }

  lemma OneMoreTime(a: real, x: real)
    ensures (a + 1.0) * x == a * x + x
  {}

  lemma Reassociate(a: real, x: real, c: real)
    ensures (a * x) * c == a * (x * c)
  {}

  lemma CentsMultiple(n: nat, x: real)
    requires IsCents(x)
    ensures IsCents(n as real * x)
  {
    var k := (x * 100.0).Floor;
    Reassociate(n as real, x, 100.0);
    WholeMultiple(n, k);
    WholeIsCents(n as real * x, n * k);
  }

  lemma MulOrder(a: int, b: int, x: real)
    requires x > 0.0 && a as real * x > b as real * x
    ensures a > b
  {
    assert (a - b) as real * x > 0.0;
  }
}
