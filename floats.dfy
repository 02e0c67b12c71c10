/** Float64 values as the node computes with them.

    A finite value is read as the exact real it approximates (IEEE-754 rounding is
    not modelled); NaN and the two infinities are kept as tags, with the IEEE rules
    for how they propagate through +, -, * and / by a non-zero finite divisor. */
module Floats {

  datatype Float = Fin(r: real) | NaN | PosInf | NegInf {
    predicate IsInf() { PosInf? || NegInf? }
    predicate IsFinite() { Fin? }
  }

  function Abs(r: real): real { if r < 0.0 then -r else r }

  function Neg(a: Float): Float {
    match a
    case Fin(r) => Fin(-r)
    case NaN => NaN
    case PosInf => NegInf
    case NegInf => PosInf
  }

  /** IEEE addition: an infinity absorbs any finite value, opposite infinities give NaN. */
  function Add(a: Float, b: Float): Float {
    if a.NaN? || b.NaN? then NaN
    else if a.Fin? && b.Fin? then Fin(a.r + b.r)
    else if a.Fin? then b
    else if b.Fin? then a
    else if a == b then a
    else NaN
  }

  function Sub(a: Float, b: Float): Float { Add(a, Neg(b)) }

  /** The sign of a non-NaN value: -1, 0 or 1. */
  function Sign(a: Float): int
    requires !a.NaN?
  {
    match a
    case Fin(r) => if r > 0.0 then 1 else if r < 0.0 then -1 else 0
    case PosInf => 1
    case NegInf => -1
  }

  /** IEEE multiplication: an infinity times zero is NaN, otherwise signs multiply. */
  function Mul(a: Float, b: Float): Float {
    if a.NaN? || b.NaN? then NaN
    else if a.Fin? && b.Fin? then Fin(a.r * b.r)
    else if Sign(a) == 0 || Sign(b) == 0 then NaN
    else if Sign(a) == Sign(b) then PosInf
    else NegInf
  }

  /** On finite operands the IEEE operations are the exact ones. */
  lemma MulOfFinite(a: real, b: real)
    ensures Mul(Fin(a), Fin(b)) == Fin(a * b)
  {
  }

  lemma SubOfFinite(a: real, b: real)
    ensures Sub(Fin(a), Fin(b)) == Fin(a - b)
  {
  }

  /** Division by a non-zero finite divisor. */
  function Div(a: Float, d: real): Float
    requires d != 0.0
  {
    match a
    case Fin(r) => Fin(r / d)
    case NaN => NaN
    case _ => if d > 0.0 then a else Neg(a)
  }

  /** Python's int() on a float: truncation toward zero. */
  function Trunc(r: real): (t: int)
    ensures 0.0 <= r ==> 0 <= t && t as real <= r < t as real + 1.0
    ensures r < 0.0 ==> t <= 0 && t as real - 1.0 < r <= t as real
  {
    if r >= 0.0 then r.Floor else -((-r).Floor)
  }

  /** int() of an int is the int itself. */
  lemma TruncOfInt(n: int)
    ensures Trunc(n as real) == n
  {
  }

  /** An anchor coordinate of -0.5 truncates to 0, which passes a lower-bound check of 0. */
  lemma TruncNegativeHalf()
    ensures Trunc(-0.5) == 0 && Trunc(-1.5) == -1 && Trunc(1.5) == 1
  {
  }
}
