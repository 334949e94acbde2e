/**
 * The part of the JavaScript `number` type that the evaluator can observe.
 * A number is an exact real or NaN. Rounding, signed zero and the
 * infinities are left out as a modelling choice: JavaScript reaches an
 * infinity from a literal too long for a double or from an overflowing
 * product, and the exact reals have neither.
 */
module JsNumbers {

  datatype JsNumber = Finite(r: real) | NaN

  const Zero := Finite(0.0)

  /** Truncation toward zero, as JavaScript's `%` uses it. */
  function Trunc(q: real): (t: int)
    ensures q >= 0.0 ==> 0 <= t && t as real <= q < t as real + 1.0
    ensures q < 0.0 ==> t <= 0 && t as real - 1.0 < q <= t as real
  {
    if q >= 0.0 then q.Floor else -((-q).Floor)
  }

  /** `x + y`: NaN exactly when an operand is NaN (exact, without rounding). */
  function Add(x: JsNumber, y: JsNumber): (z: JsNumber)
    ensures z.NaN? <==> x.NaN? || y.NaN?
  {
    if x.Finite? && y.Finite? then Finite(x.r + y.r) else NaN
  }

  /** `x - y`: NaN exactly when an operand is NaN (exact, without rounding). */
  function Sub(x: JsNumber, y: JsNumber): (z: JsNumber)
    ensures z.NaN? <==> x.NaN? || y.NaN?
  {
    if x.Finite? && y.Finite? then Finite(x.r - y.r) else NaN
  }

  /** `x * y`: NaN exactly when an operand is NaN (exact, without rounding). */
  function Mul(x: JsNumber, y: JsNumber): (z: JsNumber)
    ensures z.NaN? <==> x.NaN? || y.NaN?
  {
    if x.Finite? && y.Finite? then Finite(x.r * y.r) else NaN
  }

  /** `x / y` for a divisor that is not zero (the only case the evaluator reaches). */
  function Div(x: JsNumber, y: JsNumber): (z: JsNumber)
    requires y != Zero
    ensures z.NaN? <==> x.NaN? || y.NaN?
    ensures z.Finite? ==> z.r * y.r == x.r
  {
    if x.Finite? && y.Finite? then Finite(x.r / y.r) else NaN
  }

  /** `x % y`: the remainder has the sign of the dividend; `x % 0` is NaN. */
  function Rem(x: JsNumber, y: JsNumber): (z: JsNumber)
    ensures z.Finite? <==> x.Finite? && y.Finite? && y.r != 0.0
  {
    if x.Finite? && y.Finite? && y.r != 0.0 then Finite(x.r - y.r * Trunc(x.r / y.r) as real) else NaN
  }

  /** The relational operators of JavaScript on numbers: false whenever NaN is involved. */
  function Less(x: JsNumber, y: JsNumber): (b: bool)
    ensures b ==> x.Finite? && y.Finite? && x != y
  {
    x.Finite? && y.Finite? && x.r < y.r
  }

  function LessEq(x: JsNumber, y: JsNumber): (b: bool)
    ensures b <==> Less(x, y) || (x.Finite? && x == y)
  {
    x.Finite? && y.Finite? && x.r <= y.r
  }

  /** `==` on two numbers: NaN equals nothing, not even itself. */
  function LooseEq(x: JsNumber, y: JsNumber): (b: bool)
    ensures b <==> x == y && !x.NaN?
  {
    x.Finite? && y.Finite? && x.r == y.r
  }
}
