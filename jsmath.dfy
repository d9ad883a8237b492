/**
 * The pieces of JavaScript arithmetic that the calculator relies on, over exact
 * reals: Math.ceil, Math.pow with a non-negative integer exponent, Math.max, and
 * a number type that can be NaN where the code tests for NaN or produces it.
 */
module JsMath {

  datatype Option<+T> = None | Some(value: T)

  datatype Result<+R, +E> = Success(value: R) | Failure(error: E)

  /** A JavaScript number that may be NaN; every other value is an exact `T`. */
  datatype JsNum<+T> = NaN | Num(val: T)

  /** `x` is a whole number. */
  predicate IsInteger(x: real) {
    x == x.Floor as real
  }

  /** Math.ceil: the least whole number not below `x` (also for negative `x`). */
  function Ceil(x: real): real
  {
    (-((-x).Floor)) as real
  }

  /** Math.ceil gives a whole number at most one above its argument. */
  lemma CeilBounds(x: real)
    ensures IsInteger(Ceil(x))
    ensures x <= Ceil(x) < x + 1.0
  {
  }

  /** Math.ceil leaves whole numbers alone. */
  lemma CeilOfInteger(x: real)
    requires IsInteger(x)
    ensures Ceil(x) == x
  {
    assert (-x).Floor == -(x.Floor);
  }

  /** Math.ceil is monotone. */
  lemma CeilMonotone(x: real, y: real)
    requires x <= y
    ensures Ceil(x) <= Ceil(y)
  {
    assert (-y).Floor <= (-x).Floor;
  }

  /** Math.max for two numbers. */
  function Max(a: real, b: real): (r: real)
    ensures r >= a && r >= b
    ensures r == a || r == b
  {
    if a >= b then a else b
  }

  /** Math.pow(b, n) for a natural exponent (every exponent the calculator uses is an age difference). */
  function Pow(b: real, n: nat): real
  {
    if n == 0 then 1.0 else b * Pow(b, n - 1)
  }

  /** `amount * Math.pow(1 + rate, years)`: an amount grown at `rate` for `years` years. */
  function Compound(amount: real, rate: real, years: nat): real
  {
    amount * Pow(1.0 + rate, years)
  }

  /** A non-negative base gives a non-negative power. */
  lemma {:induction false} PowNonNegative(b: real, n: nat)
    requires b >= 0.0
    ensures Pow(b, n) >= 0.0
  {
    if n > 0 {
      PowNonNegative(b, n - 1);
      MulNonNegative(b, Pow(b, n - 1));
    }
  }

  lemma MulNonNegative(x: real, y: real)
    requires x >= 0.0 && y >= 0.0
    ensures x * y >= 0.0
  {
  }

  /** Multiplying both sides of `x <= y` by a non-negative factor keeps the order. */
  lemma MulMonotone(x: real, y: real, k: real)
    requires x <= y && k >= 0.0
    ensures x * k <= y * k
  {
    MulNonNegative(y - x, k);
    assert (y - x) * k == y * k - x * k;
  }
}
