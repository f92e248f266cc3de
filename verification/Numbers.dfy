/** Exact arithmetic shared by the model: options, clamping, and the decimal
    rounding modes of the bot (`round_ties_even`, `round`, `ceil`). */
module Numbers {

  datatype Option<+T> = None | Some(value: T) {
    function GetOr(default: T): T {
      match this
      case Some(v) => v
      case None => default
    }
  }

  function AbsInt(n: int): nat { if n < 0 then -n else n }

  function Abs(x: real): real { if x < 0.0 then -x else x }

  function Min(x: real, y: real): real { if x <= y then x else y }

  function Max(x: real, y: real): real { if x <= y then y else x }

  function Clamp(x: real, lo: real, hi: real): real
    requires lo <= hi
  {
    if x < lo then lo else if x > hi then hi else x
  }

  function Ceil(x: real): (n: int)
    ensures n as real - 1.0 < x <= n as real
  {
    -((-x).Floor)
  }

  /** `f64::round_ties_even`: the nearest integer, an even one on a tie. */
  function RoundEven(x: real): (n: int)
    ensures x - 0.5 <= n as real <= x + 0.5
    ensures (n as real == x - 0.5 || n as real == x + 0.5) ==> n % 2 == 0
  {
    var f := x.Floor;
    var d := x - f as real;
    if d < 0.5 then f
    else if d > 0.5 then f + 1
    else if f % 2 == 0 then f
    else f + 1
  }

  /** `f64::round`: the nearest integer, away from zero on a tie. */
  function RoundAway(x: real): (n: int)
    ensures x - 0.5 <= n as real <= x + 0.5
    ensures n as real == x - 0.5 ==> x < 0.0
    ensures n as real == x + 0.5 ==> x >= 0.0
  {
    if x >= 0.0 then (x + 0.5).Floor else -((0.5 - x).Floor)
  }

  /** `round_dp` at two and three decimals (`dp` picks the scale). */
  function RoundDp(x: real, threeDecimals: bool): real {
    if threeDecimals then RoundEven(x * 1000.0) as real / 1000.0
    else RoundEven(x * 100.0) as real / 100.0
  }

  function Round4(x: real): real { RoundAway(x * 10000.0) as real / 10000.0 }

  function Round6(x: real): real { RoundAway(x * 1000000.0) as real / 1000000.0 }

  /** A whole number of thousandths. */
  predicate Milli(x: real) { (x * 1000.0).Floor as real == x * 1000.0 }

  /** A whole number of hundredths. */
  predicate WholeCent(x: real) { (x * 100.0).Floor as real == x * 100.0 }

  // --- rounding laws --------------------------------------------------------

  lemma RoundEvenMonotone(x: real, y: real)
    requires x <= y
    ensures RoundEven(x) <= RoundEven(y)
  {
  }

  lemma RoundAwayMonotone(x: real, y: real)
    requires x <= y
    ensures RoundAway(x) <= RoundAway(y)
  {
  }

  /** Rounding is the one nearest integer that is even on a tie. */
  lemma RoundEvenUnique(x: real, n: int)
    requires x - 0.5 <= n as real <= x + 0.5
    requires (n as real == x - 0.5 || n as real == x + 0.5) ==> n % 2 == 0
    ensures RoundEven(x) == n
  {
  }

  /** Ties go to the even neighbour, so reflecting about an even number
      commutes with rounding; about an odd one it would not. */
  lemma RoundEvenReflects(x: real, m: int)
    requires m % 2 == 0
    ensures RoundEven(m as real - x) == m - RoundEven(x)
  {
    hide RoundEven;
    RoundEvenUnique(m as real - x, m - RoundEven(x));
  }

  lemma RoundDpReflects(x: real, three: bool)
    ensures RoundDp(1.0 - x, three) == 1.0 - RoundDp(x, three)
    ensures RoundDp(-x, three) == -RoundDp(x, three)
  {
    hide RoundEven;
    if three {
      RoundEvenReflects(x * 1000.0, 1000);
      RoundEvenReflects(x * 1000.0, 0);
    } else {
      RoundEvenReflects(x * 100.0, 100);
      RoundEvenReflects(x * 100.0, 0);
    }
  }

  lemma RoundDpMonotone(x: real, y: real, three: bool)
    requires x <= y
    ensures RoundDp(x, three) <= RoundDp(y, three)
  {
    RoundEvenMonotone(x * 1000.0, y * 1000.0);
    RoundEvenMonotone(x * 100.0, y * 100.0);
  }

  /** On the four-decimal grid, `round4` changes nothing. */
  lemma Round4Exact(x: real)
    requires Milli(x)
    ensures Round4(x) == x
  {
    var k := (x * 1000.0).Floor;
    assert x * 10000.0 == (10 * k) as real;
    RoundAwayExact(10 * k);
  }

  lemma RoundAwayExact(n: int)
    ensures RoundAway(n as real) == n
  {
  }

  lemma RoundEvenExact(n: int)
    ensures RoundEven(n as real) == n
  {
  }

  lemma MilliOf(n: int)
    ensures Milli(n as real / 1000.0)
  {
  }

  lemma CentOf(n: int)
    ensures WholeCent(n as real / 100.0) && Milli(n as real / 100.0)
  {
    assert n as real / 100.0 * 1000.0 == (10 * n) as real;
  }

  lemma ProductSign(x: real, y: real)
    requires y >= 0.0
    ensures x >= 0.0 ==> x * y >= 0.0
    ensures x <= 0.0 ==> x * y <= 0.0
  {
  }

  lemma SignOfFactor(x: real, y: real)
    requires y > 0.0
    ensures x >= 0.0 <==> x * y >= 0.0
  {
  }

  lemma DivMul(x: real, n: real)
    requires n != 0.0
    ensures x / n * n == x
  {
  }
}
