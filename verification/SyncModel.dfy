/**
 The synchronization controller on values: clamped proportional correction of endpoints whose
 clocks keep drifting, and how fast and how far it converges.
 */
module SyncModel {
  import opened Reals

  datatype SynchronizationState = Synchronizing | Synchronized | Degraded | Stopped

  datatype Parameters = Parameters(tolerance: int, maximumCorrection: int, convergenceRate: real, updateInterval: int)
  {
    /** What the controller's constructor insists on. */
    predicate IsValid() {
      && tolerance > 0
      && maximumCorrection > 0
      && 0.0 < convergenceRate <= 1.0
      && updateInterval > 0
    }
  }

  datatype Endpoint = Endpoint(
    initialOffset: int,
    driftPpm: real,
    correction: int,
    appliedCorrection: int,
    maximumApplied: int,
    currentError: int,
    state: SynchronizationState,
    convergenceTime: int)

  /** An endpoint that has not been corrected yet. */
  function NewEndpoint(initialOffset: int, driftPpm: real): Endpoint {
    Endpoint(initialOffset, driftPpm, 0, 0, 0, 0, Synchronizing, 0)
  }

  function IntAbs(x: int): nat {
    if x >= 0 then x else -x
  }

  function IntMax(x: int, y: int): int {
    if x >= y then x else y
  }

  function Clamp(x: int, limit: int): int {
    if x < -limit then -limit else if x > limit then limit else x
  }

  function Drift(e: Endpoint): real {
    e.driftPpm / 1000000.0
  }

  /** The endpoint's exact distance from the reference clock. */
  function ExactError(e: Endpoint, time: int): real {
    e.initialOffset as real + Times(Drift(e), time as real) + e.correction as real
  }

  /** Conversion to whole nanoseconds, held at the ends of the signed 64-bit range. */
  function Saturated(x: real): int {
    if x > INT64_MAX as real then INT64_MAX
    else if x < INT64_MIN as real then INT64_MIN
    else Truncate(x)
  }

  function TimingError(e: Endpoint, time: int): int {
    Saturated(ExactError(e, time))
  }

  function CorrectionFor(p: Parameters, error: int): int
    requires p.IsValid()
  {
    Clamp(Truncate(-Times(error as real, p.convergenceRate)), p.maximumCorrection)
  }

  function ApplyCorrection(e: Endpoint, correction: int): Endpoint {
    var sum := e.correction + correction;
    e.(correction := sum, appliedCorrection := sum, maximumApplied := IntMax(e.maximumApplied, IntAbs(sum)))
  }

  /** One endpoint's share of an update. */
  function Update(p: Parameters, elapsed: int, time: int, e: Endpoint): Endpoint
    requires p.IsValid()
  {
    if e.state.Stopped? then e
    else
      var error := TimingError(e, time);
      var corrected := ApplyCorrection(e, CorrectionFor(p, error));
      var remaining := TimingError(corrected, time);
      var e' := corrected.(currentError := remaining);
      if IntAbs(remaining) <= p.tolerance then
        if e'.state.Synchronized? then e' else e'.(state := Synchronized, convergenceTime := elapsed)
      else e'.(state := if IntAbs(error) > p.tolerance * 8 then Degraded else Synchronizing)
  }

  function Repeat(p: Parameters, elapsed: int, time: int, times: nat, e: Endpoint): Endpoint
    requires p.IsValid()
  {
    if times == 0 then e else Update(p, elapsed, time, Repeat(p, elapsed, time, times - 1, e))
  }

  // ---------------------------------------------------------------- one correction

  /** The level no drift of at most `d` per update can push a corrected error above. */
  function Limit(p: Parameters, d: real): real
    requires p.IsValid()
  {
    (1.0 + p.convergenceRate + d) / p.convergenceRate
  }

  function Excess(x: real, level: real): real {
    Max(Abs(x) - level, 0.0)
  }

  /** `after` is what one correction leaves of the error `x`. */
  ghost predicate Corrected(p: Parameters, x: real, after: real)
    requires p.IsValid()
  {
    && (x >= 0.0 ==> 0.0 <= after <= x)
    && (x <= 0.0 ==> x <= after <= 0.0)
    && Abs(x) - Abs(after) <= p.maximumCorrection as real
    && Abs(x) - Abs(after) <= Times(p.convergenceRate, Abs(x))
    && (|| Abs(after) == Abs(x) - p.maximumCorrection as real
        || Abs(after) <= Abs(x) - Times(p.convergenceRate, Abs(x)) + 1.0 + p.convergenceRate)
    && (Times(p.convergenceRate, Abs(x)) <= p.maximumCorrection as real ==>
          Abs(after) <= Abs(x) - Times(p.convergenceRate, Abs(x)) + 1.0 + p.convergenceRate)
  }

  lemma ShareBounds(rate: real, x: real, error: real)
    requires 0.0 < rate <= 1.0 && 0.0 <= error <= x < error + 1.0
    ensures Times(rate, x) - rate <= Times(error, rate) <= Times(rate, x)
    ensures 0.0 <= Times(error, rate) <= error
  {
    TimesNonNegative(rate, x - error);
    TimesNonNegative(rate, 1.0 - (x - error));
    TimesNonNegative(error, 1.0 - rate);
    TimesNonNegative(error, rate);
    Expand(rate, x, error);
  }

  lemma Expand(rate: real, x: real, error: real)
    ensures Times(rate, x - error) == Times(rate, x) - Times(error, rate)
    ensures Times(rate, 1.0 - (x - error)) == rate - Times(rate, x) + Times(error, rate)
    ensures Times(error, 1.0 - rate) == error - Times(error, rate)
  {
  }

  lemma PositiveCorrected(p: Parameters, x: real)
    requires p.IsValid() && x >= 0.0
    ensures Corrected(p, x, x + CorrectionFor(p, Truncate(x)) as real)
  {
    hide Times, Truncate;
    var error := Truncate(x);
    TruncateBounds(x);
    ShareBounds(p.convergenceRate, x, error as real);
    TruncateBounds(-Times(error as real, p.convergenceRate));
  }

  lemma CorrectionOdd(p: Parameters, error: int)
    requires p.IsValid()
    ensures CorrectionFor(p, -error) == -CorrectionFor(p, error)
  {
    assert Times(-error as real, p.convergenceRate) == -Times(error as real, p.convergenceRate);
  }

  lemma TruncateOdd(x: real)
    ensures Truncate(-x) == -Truncate(x)
  {
  }

  /** A correction never flips the error's sign and never makes it larger. */
  lemma CorrectionShrinks(p: Parameters, x: real)
    requires p.IsValid()
    ensures Corrected(p, x, x + CorrectionFor(p, Truncate(x)) as real)
  {
    hide CorrectionFor, Times, Truncate;
    if x >= 0.0 {
      PositiveCorrected(p, x);
    } else {
      PositiveCorrected(p, -x);
      TruncateOdd(x);
      CorrectionOdd(p, Truncate(x));
    }
  }

  lemma LimitBalances(p: Parameters, d: real)
    requires p.IsValid() && d >= 0.0
    ensures Times(p.convergenceRate, Limit(p, d)) == 1.0 + p.convergenceRate + d
    ensures Limit(p, d) > d
  {
    DivideBack(p.convergenceRate, 1.0 + p.convergenceRate + d);
    TimesOrder(p.convergenceRate, 0.0, d);
    TimesZero(p.convergenceRate);
    Cancel(p.convergenceRate, d, Limit(p, d));
  }

  lemma DivideBack(x: real, y: real)
    requires x > 0.0
    ensures Times(x, y / x) == y
  {
  }

  lemma Cancel(rate: real, x: real, y: real)
    requires rate > 0.0 && Times(rate, x) < Times(rate, y)
    ensures x < y
  {
  }

  lemma TimesOrder(rate: real, x: real, y: real)
    requires 0.0 < rate <= 1.0 && x <= y
    ensures 0.0 <= Times(rate, y) - Times(rate, x) <= y - x
  {
    TimesNonNegative(rate, y - x);
    TimesNonNegative(1.0 - rate, y - x);
    TimesDifference(rate, y, x);
    assert Times(1.0 - rate, y - x) == y - x - Times(rate, y - x);
  }

  /**
   One update and the drift up to the next: the excess over any level from the limit up either
   shrinks by the convergence rate or falls by at least the clamp less the drift.
   */
  lemma ExcessFalls(p: Parameters, d: real, level: real, x: real, after: real, x': real)
    requires p.IsValid() && 0.0 <= d <= p.maximumCorrection as real && level >= Limit(p, d)
    requires Corrected(p, x, after) && -d <= x' - after <= d
    ensures var excess := Excess(x, level);
      || Excess(x', level) <= excess - Times(p.convergenceRate, excess)
      || Excess(x', level) <= Max(excess - (p.maximumCorrection as real - d), 0.0)
    ensures Times(p.convergenceRate, Abs(x)) <= p.maximumCorrection as real ==>
      Excess(x', level) <= Excess(x, level) - Times(p.convergenceRate, Excess(x, level))
  {
    hide Times, Limit;
    LimitBalances(p, d);
    var rate := p.convergenceRate;
    TimesOrder(rate, Limit(p, d), level);
    if Abs(x) <= level {
      TimesOrder(rate, Abs(x), level);
      TimesZero(rate);
    } else {
      TimesDifference(rate, Abs(x), level);
      TimesOrder(rate, 0.0, Abs(x) - level);
      TimesZero(rate);
    }
  }

  lemma TimesZero(rate: real)
    ensures Times(rate, 0.0) == 0.0
  {
  }

  lemma TimesDifference(rate: real, x: real, y: real)
    ensures Times(rate, x - y) == Times(rate, x) - Times(rate, y)
  {
  }
}
