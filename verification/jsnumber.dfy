/**
  JavaScript numbers as the tag-cloud arithmetic sees them: exact reals plus the
  three non-finite values. Finite arithmetic is exact (no binary rounding) and the
  sign of zero is not tracked; everything else follows the IEEE 754 rules that
  JavaScript uses for `+`, `-`, `*`, `/`, `Math.round` and comparisons.
 */
module JsNumber {

  datatype Number = Finite(value: real) | PosInf | NegInf | NaN

  /** An integer-valued number; the non-finite values qualify vacuously. */
  predicate IsIntegral(n: Number) {
    n.Finite? ==> n.value == n.value.Floor as real
  }

  /** Sign of a non-NaN number: -1, 0 or 1. */
  function Sign(n: Number): int
    requires !n.NaN?
  {
    match n
    case Finite(x) => if x < 0.0 then -1 else if x > 0.0 then 1 else 0
    case PosInf => 1
    case NegInf => -1
  }

  function Negate(a: Number): Number {
    match a
    case Finite(x) => Finite(-x)
    case PosInf => NegInf
    case NegInf => PosInf
    case NaN => NaN
  }

  function Add(a: Number, b: Number): Number {
    if a.NaN? || b.NaN? then NaN
    else if a.Finite? && b.Finite? then Finite(a.value + b.value)
    else if (a == PosInf && b == NegInf) || (a == NegInf && b == PosInf) then NaN
    else if a.Finite? then b
    else a
  }

  function Sub(a: Number, b: Number): Number {
    Add(a, Negate(b))
  }

  function Mul(a: Number, b: Number): Number {
    if a.NaN? || b.NaN? then NaN
    else if a.Finite? && b.Finite? then Finite(a.value * b.value)
    else
      var s := Sign(a) * Sign(b);
      if s == 0 then NaN else if s > 0 then PosInf else NegInf
  }

  function Div(a: Number, b: Number): Number {
    if a.NaN? || b.NaN? then NaN
    else if a.Finite? && b.Finite? then
      if b.value != 0.0 then Finite(a.value / b.value)
      else if a.value == 0.0 then NaN
      else if a.value > 0.0 then PosInf
      else NegInf
    else if a.Finite? then Finite(0.0)
    else if b.Finite? then
      (if Sign(a) * (if b.value < 0.0 then -1 else 1) > 0 then PosInf else NegInf)
    else NaN
  }

  /** `Math.round`: the integer nearest to `a`, halves rounded up. */
  function Round(a: Number): Number {
    match a
    case Finite(x) => Finite((x + 0.5).Floor as real)
    case _ => a
  }

  /** `a > c` for a numeric literal `c`; false whenever `a` is NaN. */
  predicate Greater(a: Number, c: real) {
    match a
    case Finite(x) => x > c
    case PosInf => true
    case NegInf => false
    case NaN => false
  }

  /** `a < c` for a numeric literal `c`; false whenever `a` is NaN. */
  predicate Less(a: Number, c: real) {
    match a
    case Finite(x) => x < c
    case PosInf => false
    case NegInf => true
    case NaN => false
  }
}
