/** The part of IEEE-754 double arithmetic that the statistics reach: finite
    values are exact reals, and the special values +Infinity, -Infinity and NaN
    arise from the seeds of Min/Max and from division by a zero count.
    Rounding and signed zeros are not modelled. */
module Doubles {

  datatype Value = Finite(v: real) | PosInf | NegInf | NaN

  /** `a < b` on doubles: every comparison with NaN is false. */
  predicate Less(a: Value, b: Value)
  {
    match (a, b)
    case (NaN, _) => false
    case (_, NaN) => false
    case (Finite(x), Finite(y)) => x < y
    case (NegInf, NegInf) => false
    case (NegInf, _) => true
    case (PosInf, _) => false
    case (Finite(_), PosInf) => true
    case (Finite(_), NegInf) => false
  }

  /** Sign of a non-NaN value: -1, 0 or 1. */
  function Sign(a: Value): int
    requires !a.NaN?
  {
    match a
    case Finite(x) => if x < 0.0 then -1 else if x == 0.0 then 0 else 1
    case PosInf => 1
    case NegInf => -1
  }

  function Infinity(sign: int): Value
  {
    if sign < 0 then NegInf else PosInf
  }

  /** `a - b` on doubles. */
  function Sub(a: Value, b: Value): Value
  {
    match (a, b)
    case (NaN, _) => NaN
    case (_, NaN) => NaN
    case (Finite(x), Finite(y)) => Finite(x - y)
    case (PosInf, PosInf) => NaN
    case (NegInf, NegInf) => NaN
    case (PosInf, _) => PosInf
    case (NegInf, _) => NegInf
    case (Finite(_), PosInf) => NegInf
    case (Finite(_), NegInf) => PosInf
  }

  /** `a * b` on doubles: an infinity times zero is NaN. */
  function Mul(a: Value, b: Value): Value
  {
    if a.NaN? || b.NaN? then NaN
    else if a.Finite? && b.Finite? then Finite(a.v * b.v)
    else if Sign(a) * Sign(b) == 0 then NaN
    else Infinity(Sign(a) * Sign(b))
  }

  /** `a / b` on doubles: 0/0 is NaN, a non-zero finite value over zero is an
      infinity with the dividend's sign (the divisor is a positive zero). */
  function Div(a: Value, b: Value): Value
  {
    if a.NaN? || b.NaN? then NaN
    else if a.Finite? && b.Finite? then
      if b.v != 0.0 then Finite(a.v / b.v)
      else if a.v == 0.0 then NaN
      else Infinity(Sign(a))
    else if !a.Finite? && !b.Finite? then NaN
    else if a.Finite? then Finite(0.0)
    else Infinity(Sign(a) * (if Sign(b) < 0 then -1 else 1))
  }
}
