/** The floating-point readings of the driver, as exact reals extended
    with the IEEE special values the code meets: `np.inf` (the starting
    "last" reading and the default thresholds of the zeroing loop) and
    `np.nan` (a parameter nobody reported, a malformed data word). */
module Floats {

  datatype Float = Num(v: real) | PosInf | NegInf | NaN
  {
    predicate IsNaN() { this == NaN }
    predicate IsInf() { this == PosInf || this == NegInf }
  }

  /** `a - b` */
  function Sub(a: Float, b: Float): (r: Float)
    ensures r.IsNaN() <==> a.IsNaN() || b.IsNaN() || (a.IsInf() && a == b)
    ensures a.Num? && b.Num? ==> r == Num(a.v - b.v)
  {
    match (a, b)
    case (NaN, _) => NaN
    case (_, NaN) => NaN
    case (PosInf, PosInf) => NaN
    case (NegInf, NegInf) => NaN
    case (PosInf, _) => PosInf
    case (NegInf, _) => NegInf
    case (Num(_), PosInf) => NegInf
    case (Num(_), NegInf) => PosInf
    case (Num(x), Num(y)) => Num(x - y)
  }

  /** `abs(a)` */
  function Abs(a: Float): (r: Float)
    ensures r.IsNaN() <==> a.IsNaN()
    ensures r.Num? ==> r.v >= 0.0
    ensures r != NegInf
  {
    match a
    case Num(x) => Num(if x < 0.0 then -x else x)
    case NegInf => PosInf
    case _ => a
  }

  /** `a > b`; every comparison with NaN is false. */
  predicate Gt(a: Float, b: Float)
  {
    match (a, b)
    case (NaN, _) => false
    case (_, NaN) => false
    case (PosInf, PosInf) => false
    case (PosInf, _) => true
    case (_, PosInf) => false
    case (NegInf, _) => false
    case (_, NegInf) => true
    case (Num(x), Num(y)) => x > y
  }
}
