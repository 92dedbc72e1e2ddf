/**
 * The special values of IEEE floating point that the modelled numpy code
 * produces on purpose or by accident (division by zero, log of zero, NaN
 * skipped by nansum), over exact reals: rounding is not modelled.
 */
module Floats {

  datatype Float = Num(v: real) | PosInf | NegInf | NaN

  /** numpy division of two finite numbers: x/0 is +inf, -inf or NaN. */
  function Div(a: real, b: real): (r: Float)
    ensures b != 0.0 ==> r == Num(a / b)
    ensures b == 0.0 ==> (r == PosInf <==> a > 0.0) && (r == NegInf <==> a < 0.0) && (r == NaN <==> a == 0.0)
  {
    if b != 0.0 then Num(a / b)
    else if a > 0.0 then PosInf
    else if a < 0.0 then NegInf
    else NaN
  }

  /** A finite number times a float: 0 * inf is NaN. */
  function Scale(c: real, x: Float): Float {
    match x
    case Num(v) => Num(c * v)
    case PosInf => if c > 0.0 then PosInf else if c < 0.0 then NegInf else NaN
    case NegInf => if c > 0.0 then NegInf else if c < 0.0 then PosInf else NaN
    case NaN => NaN
  }

  /** Float addition: inf + -inf is NaN, NaN absorbs. */
  function Add(x: Float, y: Float): Float {
    match (x, y)
    case (NaN, _) => NaN
    case (_, NaN) => NaN
    case (Num(a), Num(b)) => Num(a + b)
    case (PosInf, NegInf) => NaN
    case (NegInf, PosInf) => NaN
    case (PosInf, _) => PosInf
    case (NegInf, _) => NegInf
    case (Num(_), inf) => inf
  }

  /** `x >= c` for a finite c: false for NaN. */
  predicate AtLeast(x: Float, c: real) {
    match x
    case Num(v) => v >= c
    case PosInf => true
    case NegInf => false
    case NaN => false
  }

  /** `x <= c` for a finite c: false for NaN. */
  predicate AtMost(x: Float, c: real) {
    match x
    case Num(v) => v <= c
    case PosInf => false
    case NegInf => true
    case NaN => false
  }

  /**
   * numpy's natural logarithm, given the logarithm of positive reals
   * (which the model does not define): log 0 is -inf, log of a negative is NaN.
   */
  function Log(ln: real -> real, x: Float): Float {
    match x
    case Num(v) => if v > 0.0 then Num(ln(v)) else if v == 0.0 then NegInf else NaN
    case PosInf => PosInf
    case NegInf => NaN
    case NaN => NaN
  }

  /** np.nansum: NaN terms are treated as zero, the others are added in order. */
  function NanSum(xs: seq<Float>): Float
    decreases |xs|
  {
    if |xs| == 0 then Num(0.0) else Add(NanSum(xs[..|xs| - 1]), NanAsZero(xs[|xs| - 1]))
  }

  function NanAsZero(x: Float): Float {
    if x == NaN then Num(0.0) else x
  }

  lemma AddZero(x: Float)
    ensures Add(x, Num(0.0)) == x
  {
  }

  /** A finite zero count times any float adds nothing to a nansum. */
  lemma ZeroScaleIsNeutral(x: Float)
    ensures Scale(0.0, x) == Num(0.0) || Scale(0.0, x) == NaN
  {
  }

  /**
   * Dropping the terms that are zero or NaN does not change a nansum; here in
   * the form used by the likelihood estimate: two term sequences that agree
   * wherever either term is a proper contribution have the same nansum.
   */
  predicate Neutral(x: Float) {
    x == Num(0.0) || x == NaN
  }

  lemma {:induction false} NanSumIgnoresNeutral(xs: seq<Float>, ys: seq<Float>)
    requires |xs| == |ys|
    requires forall i :: 0 <= i < |xs| ==> xs[i] == ys[i] || (Neutral(xs[i]) && Neutral(ys[i]))
    ensures NanSum(xs) == NanSum(ys)
    decreases |xs|
  {
    if |xs| > 0 {
      var n := |xs| - 1;
      NanSumIgnoresNeutral(xs[..n], ys[..n]);
      assert NanAsZero(xs[n]) == NanAsZero(ys[n]);
    }
  }
}
