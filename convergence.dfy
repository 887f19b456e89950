/** The stop rule of the older driver's field-zeroing loop: it polls
    while any field step or the temperature error is above its
    threshold, and a threshold of +inf switches that test off. */
module Convergence {

  import opened Floats

  /** The three coil field readings and the cell temperature error. */
  datatype Readings = Readings(fieldZ: Float, fieldY: Float, field0: Float, tempError: Float)

  /** `dBz`, `dBy`, `dB0`, `dT`. */
  datatype Thresholds = Thresholds(dBz: Float, dBy: Float, dB0: Float, dT: Float)

  /** The defaults: every threshold `np.inf`. */
  const Disabled := Thresholds(PosInf, PosInf, PosInf, PosInf)

  /** The "last" readings before the first poll: `np.inf` each. */
  const Unseen := Readings(PosInf, PosInf, PosInf, PosInf)

  /** The loop condition. */
  predicate KeepZeroing(last: Readings, now: Readings, thr: Thresholds)
  {
    Gt(Abs(Sub(now.fieldZ, last.fieldZ)), thr.dBz) || Gt(Abs(Sub(now.fieldY, last.fieldY)), thr.dBy) ||
    Gt(Abs(Sub(now.field0, last.field0)), thr.dB0) || Gt(Abs(now.tempError), thr.dT)
  }

  /** `not (isinf(dBz) and isinf(dBy) and isinf(dB0) and isinf(dT))`: the
      guard for switching zeroing off after the loop. */
  predicate AnyFinite(thr: Thresholds)
  {
    !(thr.dBz.IsInf() && thr.dBy.IsInf() && thr.dB0.IsInf() && thr.dT.IsInf())
  }

  /** With the default thresholds the loop body never runs. */
  lemma DisabledNeverLoops(last: Readings, now: Readings)
    ensures !KeepZeroing(last, now, Disabled)
  {
    assert !Gt(Abs(Sub(now.fieldZ, last.fieldZ)), PosInf) && !Gt(Abs(now.tempError), PosInf);
  }

  /** With finite readings and thresholds the loop ends exactly when every
      step and the temperature error are within their thresholds. */
  lemma StopsWhenWithin(last: Readings, now: Readings, thr: Thresholds)
    requires now.fieldZ.Num? && now.fieldY.Num? && now.field0.Num? && now.tempError.Num?
    requires last.fieldZ.Num? && last.fieldY.Num? && last.field0.Num?
    requires thr.dBz.Num? && thr.dBy.Num? && thr.dB0.Num? && thr.dT.Num?
    ensures !KeepZeroing(last, now, thr) <==>
      Dist(now.fieldZ.v, last.fieldZ.v) <= thr.dBz.v && Dist(now.fieldY.v, last.fieldY.v) <= thr.dBy.v &&
      Dist(now.field0.v, last.field0.v) <= thr.dB0.v && Dist(now.tempError.v, 0.0) <= thr.dT.v
  {
  }

  function Dist(a: real, b: real): real
  {
    if a >= b then a - b else b - a
  }

  /** The first test uses +inf as the last reading, so a finite field
      threshold with a numeric reading forces at least one poll. */
  lemma FirstPollRuns(now: Readings, thr: Thresholds)
    requires (thr.dBz.Num? && now.fieldZ.Num?) || (thr.dBy.Num? && now.fieldY.Num?) || (thr.dB0.Num? && now.field0.Num?)
    ensures KeepZeroing(Unseen, now, thr)
  {
  }

  /** A NaN reading never keeps the loop going: its test is false. */
  lemma NaNDoesNotHold(last: Readings, now: Readings, thr: Thresholds)
    requires now.fieldZ.IsNaN() && now.fieldY.IsNaN() && now.field0.IsNaN() && now.tempError.IsNaN()
    ensures !KeepZeroing(last, now, thr)
  {
  }

  /** An infinite threshold is not finite, whatever its sign; any numeric
      threshold makes the post-loop switch-off happen. */
  lemma FiniteGuard(thr: Thresholds)
    ensures thr == Disabled ==> !AnyFinite(thr)
    ensures thr.dBz.Num? || thr.dBy.Num? || thr.dB0.Num? || thr.dT.Num? ==> AnyFinite(thr)
  {
  }
}
