/** Convergence of the synchronization controller over every sequence of updates. */
module SyncRuns {
  import opened Reals
  import opened SyncModel

  /** The endpoint after updates at the given times, the controller's own clock starting at `elapsed`. */
  function After(p: Parameters, elapsed: int, e: Endpoint, times: seq<int>): Endpoint
    requires p.IsValid()
  {
    if times == [] then e
    else
      var k := |times| - 1;
      Update(p, elapsed + k * p.updateInterval, times[k], After(p, elapsed, e, times[..k]))
  }

  /** The exact error the update at `times[k]` finds. */
  function ErrorAt(p: Parameters, elapsed: int, e: Endpoint, times: seq<int>, k: nat): real
    requires p.IsValid() && k < |times|
  {
    ExactError(After(p, elapsed, e, times[..k]), times[k])
  }

  /** Between one update and the next the clocks drift apart by at most `d`, less than the clamp. */
  ghost predicate Steady(p: Parameters, d: real, e: Endpoint, times: seq<int>) {
    && p.IsValid()
    && 0.0 <= d < p.maximumCorrection as real
    && times != []
    && forall k :: 0 <= k < |times| - 1 ==> Abs(Times(Drift(e), (times[k + 1] - times[k]) as real)) <= d
  }

  /** The endpoint plays, and neither its first error nor the limit leaves the signed 64-bit range. */
  ghost predicate Starts(p: Parameters, d: real, e: Endpoint, times: seq<int>)
    requires Steady(p, d, e, times)
  {
    && !e.state.Stopped?
    && Abs(ExactError(e, times[0])) <= INT64_MAX as real
    && Limit(p, d) <= INT64_MAX as real
  }

  lemma ElapsedDrift(e: Endpoint, time: int, time': int)
    ensures ExactError(e, time') == ExactError(e, time) + Times(Drift(e), (time' - time) as real)
  {
  }

  lemma UpdateCorrects(p: Parameters, elapsed: int, time: int, e: Endpoint)
    requires p.IsValid() && !e.state.Stopped?
    ensures var e' := Update(p, elapsed, time, e);
      && !e'.state.Stopped? && Drift(e') == Drift(e)
      && ExactError(e', time) == ExactError(e, time) + CorrectionFor(p, TimingError(e, time)) as real
  {
    hide CorrectionFor, TimingError, Times;
  }

  /** One update: the error only shrinks towards zero, and then drifts by at most `d`. */
  lemma UpdateStep(p: Parameters, d: real, elapsed: int, time: int, time': int, e: Endpoint)
    requires p.IsValid() && !e.state.Stopped? && Abs(ExactError(e, time)) <= INT64_MAX as real
    requires Abs(Times(Drift(e), (time' - time) as real)) <= d
    ensures var e' := Update(p, elapsed, time, e);
      && !e'.state.Stopped? && Drift(e') == Drift(e)
      && Corrected(p, ExactError(e, time), ExactError(e', time))
      && -d <= ExactError(e', time') - ExactError(e', time) <= d
  {
    hide CorrectionFor, Update, Corrected, ExactError, Times, Drift, Truncate;
    UpdateCorrects(p, elapsed, time, e);
    CorrectionShrinks(p, ExactError(e, time));
    ElapsedDrift(Update(p, elapsed, time, e), time, time');
  }

  /** Every error found in the run stays in range, so no reading of it saturates. */
  lemma {:induction false} NeverSaturates(p: Parameters, d: real, elapsed: int, e: Endpoint, times: seq<int>, k: nat)
    requires Steady(p, d, e, times) && Starts(p, d, e, times) && k < |times|
    ensures !After(p, elapsed, e, times[..k]).state.Stopped? && Drift(After(p, elapsed, e, times[..k])) == Drift(e)
    ensures Abs(ErrorAt(p, elapsed, e, times, k)) <= Max(Abs(ErrorAt(p, elapsed, e, times, 0)), Limit(p, d))
    ensures Abs(ErrorAt(p, elapsed, e, times, k)) <= INT64_MAX as real
  {
    if k > 0 {
      hide Update, ExactError, Times, Drift, Limit, Corrected;
      var j := k - 1;
      NeverSaturates(p, d, elapsed, e, times, j);
      var before := After(p, elapsed, e, times[..j]);
      UpdateStep(p, d, elapsed + j * p.updateInterval, times[j], times[k], before);
      assert times[..k][..j] == times[..j];
      var level := Max(Abs(ErrorAt(p, elapsed, e, times, 0)), Limit(p, d));
      ExcessFalls(p, d, level, ErrorAt(p, elapsed, e, times, j),
                  ExactError(After(p, elapsed, e, times[..k]), times[j]), ErrorAt(p, elapsed, e, times, k));
      TimesZero(p.convergenceRate);
    }
  }

  /** What one update of a run does to the error and to its excess over any level from the limit up. */
  lemma RunStep(p: Parameters, d: real, elapsed: int, e: Endpoint, times: seq<int>, k: nat, level: real)
    requires Steady(p, d, e, times) && Starts(p, d, e, times) && k + 1 < |times| && level >= Limit(p, d)
    ensures Corrected(p, ErrorAt(p, elapsed, e, times, k), ExactError(After(p, elapsed, e, times[..k + 1]), times[k]))
    ensures var excess := Excess(ErrorAt(p, elapsed, e, times, k), level);
      var excess' := Excess(ErrorAt(p, elapsed, e, times, k + 1), level);
      && (|| excess' <= excess - Times(p.convergenceRate, excess)
          || excess' <= Max(excess - (p.maximumCorrection as real - d), 0.0))
      && (Times(p.convergenceRate, Abs(ErrorAt(p, elapsed, e, times, k))) <= p.maximumCorrection as real ==>
            excess' <= excess - Times(p.convergenceRate, excess))
  {
    hide Update, ExactError, Times, Drift, Limit, Corrected, Excess;
    NeverSaturates(p, d, elapsed, e, times, k);
    var before := After(p, elapsed, e, times[..k]);
    UpdateStep(p, d, elapsed + k * p.updateInterval, times[k], times[k + 1], before);
    assert times[..k + 1][..k] == times[..k];
    ExcessFalls(p, d, level, ErrorAt(p, elapsed, e, times, k),
                ExactError(After(p, elapsed, e, times[..k + 1]), times[k]), ErrorAt(p, elapsed, e, times, k + 1));
  }

  /** Once the error is within the limit, or any wider level, it stays there. */
  lemma {:induction false} StaysWithin(p: Parameters, d: real, elapsed: int, e: Endpoint, times: seq<int>,
                                       j: nat, k: nat, level: real)
    requires Steady(p, d, e, times) && Starts(p, d, e, times) && j <= k < |times| && level >= Limit(p, d)
    requires Abs(ErrorAt(p, elapsed, e, times, j)) <= level
    ensures Abs(ErrorAt(p, elapsed, e, times, k)) <= level
  {
    hide ErrorAt, Times, Limit, Starts, Corrected;
    if j < k {
      StaysWithin(p, d, elapsed, e, times, j, k - 1, level);
      RunStep(p, d, elapsed, e, times, k - 1, level);
      TimesZero(p.convergenceRate);
    }
  }

  /** The least an update takes off an excess that is still above `epsilon`. */
  function Gain(p: Parameters, d: real, epsilon: real): real {
    var share, step := Times(p.convergenceRate, epsilon), p.maximumCorrection as real - d;
    if share <= step then share else step
  }

  lemma {:induction false} ExcessAfter(p: Parameters, d: real, elapsed: int, e: Endpoint, times: seq<int>, k: nat,
                                       epsilon: real)
    requires Steady(p, d, e, times) && Starts(p, d, e, times) && k < |times| && epsilon > 0.0
    ensures var start := Excess(ErrorAt(p, elapsed, e, times, 0), Limit(p, d));
      var now := Excess(ErrorAt(p, elapsed, e, times, k), Limit(p, d));
      now <= epsilon || now <= start - Times(k as real, Gain(p, d, epsilon))
  {
    hide ErrorAt, Times, Limit, Starts, Corrected, Excess;
    if k == 0 {
      NoGain(Gain(p, d, epsilon));
    } else {
      ExcessAfter(p, d, elapsed, e, times, k - 1, epsilon);
      RunStep(p, d, elapsed, e, times, k - 1, Limit(p, d));
      var excess := Excess(ErrorAt(p, elapsed, e, times, k - 1), Limit(p, d));
      OneMore((k - 1) as real, Gain(p, d, epsilon));
      assert (k - 1) as real + 1.0 == k as real;
      assert excess >= 0.0 by { ExcessNonNegative(ErrorAt(p, elapsed, e, times, k - 1), Limit(p, d)); }
      TimesZero(p.convergenceRate);
      TimesOrder(p.convergenceRate, 0.0, excess);
      if excess > epsilon {
        TimesOrder(p.convergenceRate, epsilon, excess);
      }
    }
  }

  lemma ExcessNonNegative(x: real, level: real)
    ensures Excess(x, level) >= 0.0
  {
  }

  lemma NoGain(x: real)
    ensures Times(0.0, x) == 0.0
  {
  }

  lemma OneMore(n: real, x: real)
    ensures Times(n + 1.0, x) == Times(n, x) + x
  {
  }

  lemma GainNonNegative(p: Parameters, d: real, epsilon: real)
    requires p.IsValid() && d <= p.maximumCorrection as real && epsilon > 0.0
    ensures Gain(p, d, epsilon) >= 0.0
  {
    TimesNonNegative(p.convergenceRate, epsilon);
  }

  /** From any start, enough updates bring the error to within any `epsilon` of the limit, for good. */
  lemma Converges(p: Parameters, d: real, elapsed: int, e: Endpoint, times: seq<int>, n: nat, k: nat, epsilon: real)
    requires Steady(p, d, e, times) && Starts(p, d, e, times) && n <= k < |times| && epsilon > 0.0
    requires Times(n as real, Gain(p, d, epsilon)) >= Abs(ExactError(e, times[0])) - Limit(p, d)
    ensures Abs(ErrorAt(p, elapsed, e, times, k)) <= Limit(p, d) + epsilon
  {
    hide Times, Limit, Gain, ExactError, Starts;
    ExcessAfter(p, d, elapsed, e, times, n, epsilon);
    GainNonNegative(p, d, epsilon);
    TimesNonNegative(n as real, Gain(p, d, epsilon));
    StaysWithin(p, d, elapsed, e, times, n, k, Limit(p, d) + epsilon);
  }

  function Power(x: real, k: nat): real {
    if k == 0 then 1.0 else Times(x, Power(x, k - 1))
  }

  /** From an error whose share is below the clamp the excess shrinks geometrically, at least. */
  lemma ShrinksGeometrically(p: Parameters, d: real, elapsed: int, e: Endpoint, times: seq<int>, k: nat)
    requires Steady(p, d, e, times) && Starts(p, d, e, times) && k < |times|
    requires Times(p.convergenceRate, Abs(ExactError(e, times[0]))) <= p.maximumCorrection as real
    ensures Excess(ErrorAt(p, elapsed, e, times, k), Limit(p, d))
         <= Times(Power(1.0 - p.convergenceRate, k), Excess(ExactError(e, times[0]), Limit(p, d)))
  {
    hide Times, Limit, ExactError, Starts, Power;
    if 1.0 + p.convergenceRate + d <= p.maximumCorrection as real {
      ShrinksBelowClamp(p, d, elapsed, e, times, k);
    } else {
      LimitBalances(p, d);
      Cancel(p.convergenceRate, Abs(ErrorAt(p, elapsed, e, times, 0)), Limit(p, d));
      StaysWithin(p, d, elapsed, e, times, 0, k, Limit(p, d));
      TimesZero(Power(1.0 - p.convergenceRate, k));
    }
  }

  /** A clamp that takes at least the limit's share stays out of reach. */
  lemma {:induction false} ShrinksBelowClamp(p: Parameters, d: real, elapsed: int, e: Endpoint, times: seq<int>, k: nat)
    requires Steady(p, d, e, times) && Starts(p, d, e, times) && k < |times|
    requires Times(p.convergenceRate, Abs(ExactError(e, times[0]))) <= p.maximumCorrection as real
    requires 1.0 + p.convergenceRate + d <= p.maximumCorrection as real
    ensures Excess(ErrorAt(p, elapsed, e, times, k), Limit(p, d))
         <= Times(Power(1.0 - p.convergenceRate, k), Excess(ExactError(e, times[0]), Limit(p, d)))
  {
    hide Times, Limit, ExactError, Starts, Excess, Corrected;
    var start := Excess(ExactError(e, times[0]), Limit(p, d));
    if k == 0 {
      TimesOne(start);
    } else {
      ShrinksBelowClamp(p, d, elapsed, e, times, k - 1);
      NeverSaturates(p, d, elapsed, e, times, k - 1);
      RunStep(p, d, elapsed, e, times, k - 1, Limit(p, d));
      BelowClamp(p, d, ErrorAt(p, elapsed, e, times, 0), ErrorAt(p, elapsed, e, times, k - 1));
      ShrinkStep(p.convergenceRate, Excess(ErrorAt(p, elapsed, e, times, k - 1), Limit(p, d)),
                 Power(1.0 - p.convergenceRate, k - 1), start);
    }
  }

  lemma TimesOne(x: real)
    ensures Times(1.0, x) == x
  {
  }

  lemma BelowClamp(p: Parameters, d: real, first: real, x: real)
    requires p.IsValid() && d >= 0.0 && Times(p.convergenceRate, Abs(first)) <= p.maximumCorrection as real
    requires 1.0 + p.convergenceRate + d <= p.maximumCorrection as real
    requires Abs(x) <= Max(Abs(first), Limit(p, d))
    ensures Times(p.convergenceRate, Abs(x)) <= p.maximumCorrection as real
  {
    hide Times, Limit;
    LimitBalances(p, d);
    TimesOrder(p.convergenceRate, Abs(x), Max(Abs(first), Limit(p, d)));
  }

  lemma ShrinkStep(rate: real, excess: real, power: real, start: real)
    requires 0.0 < rate <= 1.0 && excess <= Times(power, start)
    ensures excess - Times(rate, excess) <= Times(Times(1.0 - rate, power), start)
  {
    TimesNonNegative(1.0 - rate, Times(power, start) - excess);
  }

  // ---------------------------------------------------------------- state and skew

  lemma SaturatedBound(x: real, bound: int)
    requires Abs(x) <= bound as real
    ensures IntAbs(Saturated(x)) <= bound
  {
    TruncateBounds(x);
  }

  lemma UpdateSynchronizes(p: Parameters, elapsed: int, time: int, e: Endpoint)
    requires p.IsValid() && !e.state.Stopped?
    requires Abs(ExactError(Update(p, elapsed, time, e), time)) <= p.tolerance as real
    ensures var e' := Update(p, elapsed, time, e);
      e'.state.Synchronized? && e'.convergenceTime == if e.state.Synchronized? then e.convergenceTime else elapsed
  {
    hide Truncate, CorrectionFor, Times;
    SaturatedBound(ExactError(Update(p, elapsed, time, e), time), p.tolerance);
  }

  /**
   Once the error is within a level from the limit up to the tolerance, every update leaves the
   endpoint synchronized, and its convergence time is never written again.
   */
  lemma {:induction false} SynchronizedForGood(p: Parameters, d: real, elapsed: int, e: Endpoint, times: seq<int>,
                                               j: nat, k: nat, level: real)
    requires Steady(p, d, e, times) && Starts(p, d, e, times) && j < k < |times|
    requires Limit(p, d) <= level <= p.tolerance as real && Abs(ErrorAt(p, elapsed, e, times, j)) <= level
    ensures After(p, elapsed, e, times[..k]).state.Synchronized?
    ensures After(p, elapsed, e, times[..k]).convergenceTime == After(p, elapsed, e, times[..j + 1]).convergenceTime
  {
    hide Times, Limit, ExactError, Drift, Update, Starts;
    StaysWithin(p, d, elapsed, e, times, j, k - 1, level);
    RunStep(p, d, elapsed, e, times, k - 1, level);
    NeverSaturates(p, d, elapsed, e, times, k - 1);
    assert times[..k][..k - 1] == times[..k - 1];
    UpdateSynchronizes(p, elapsed + (k - 1) * p.updateInterval, times[k - 1], After(p, elapsed, e, times[..k - 1]));
    if j < k - 1 {
      SynchronizedForGood(p, d, elapsed, e, times, j, k - 1, level);
    }
  }

  /** `skew` is the width of the smallest interval that holds every endpoint's timing error. */
  ghost predicate IsSkew(endpoints: seq<Endpoint>, time: int, skew: int) {
    if endpoints == [] then skew == 0
    else
      && (exists i, j :: 0 <= i < |endpoints| && 0 <= j < |endpoints|
            && skew == TimingError(endpoints[j], time) - TimingError(endpoints[i], time))
      && (forall i, j :: 0 <= i < |endpoints| && 0 <= j < |endpoints| ==>
            TimingError(endpoints[j], time) - TimingError(endpoints[i], time) <= skew)
  }

  /** Endpoints whose errors are all within one level are at most twice that level apart. */
  lemma SkewBounded(endpoints: seq<Endpoint>, time: int, skew: int, level: real)
    requires IsSkew(endpoints, time, skew) && endpoints != []
    requires forall i :: 0 <= i < |endpoints| ==> Abs(ExactError(endpoints[i], time)) <= level
    ensures skew as real <= 2.0 * level
  {
    hide ExactError;
    forall i | 0 <= i < |endpoints|
      ensures IntAbs(TimingError(endpoints[i], time)) <= level.Floor
    {
      SaturatedFloor(ExactError(endpoints[i], time), level);
    }
  }

  lemma SaturatedFloor(x: real, level: real)
    requires Abs(x) <= level
    ensures IntAbs(Saturated(x)) <= level.Floor
  {
    TruncateBounds(x);
  }

  /** The endpoints that the updates at the given times leave. */
  function AllAfter(p: Parameters, elapsed: int, endpoints: seq<Endpoint>, times: seq<int>): seq<Endpoint>
    requires p.IsValid()
  {
    seq(|endpoints|, i requires 0 <= i < |endpoints| => After(p, elapsed, endpoints[i], times))
  }

  /** After enough updates the skew an update finds is never again above twice the limit plus `epsilon`. */
  lemma SkewConverges(p: Parameters, d: real, elapsed: int, endpoints: seq<Endpoint>, times: seq<int>,
                      n: nat, k: nat, epsilon: real, skew: int)
    requires n <= k < |times| && epsilon > 0.0 && p.IsValid()
    requires forall e :: e in endpoints ==> Steady(p, d, e, times) && Starts(p, d, e, times)
    requires forall e :: e in endpoints ==>
      Times(n as real, Gain(p, d, epsilon)) >= Abs(ExactError(e, times[0])) - Limit(p, d)
    requires IsSkew(AllAfter(p, elapsed, endpoints, times[..k]), times[k], skew)
    ensures endpoints != [] ==> skew as real <= 2.0 * (Limit(p, d) + epsilon)
  {
    hide Times, Limit, Gain, ExactError, Starts, Steady, IsSkew;
    var all := AllAfter(p, elapsed, endpoints, times[..k]);
    forall i | 0 <= i < |all|
      ensures Abs(ExactError(all[i], times[k])) <= Limit(p, d) + epsilon
    {
      assert endpoints[i] in endpoints;
      Converges(p, d, elapsed, endpoints[i], times, n, k, epsilon);
    }
    if endpoints != [] {
      SkewBounded(all, times[k], skew, Limit(p, d) + epsilon);
    }
  }

  /** With a tolerance above the limit, enough updates leave the endpoint synchronized for good. */
  lemma EndsSynchronized(p: Parameters, d: real, elapsed: int, e: Endpoint, times: seq<int>, n: nat, k: nat,
                         epsilon: real)
    requires Steady(p, d, e, times) && Starts(p, d, e, times) && n < k < |times| && epsilon > 0.0
    requires Times(n as real, Gain(p, d, epsilon)) >= Abs(ExactError(e, times[0])) - Limit(p, d)
    requires Limit(p, d) + epsilon <= p.tolerance as real
    ensures After(p, elapsed, e, times[..k]).state.Synchronized?
    ensures After(p, elapsed, e, times[..k]).convergenceTime == After(p, elapsed, e, times[..n + 1]).convergenceTime
  {
    hide Times, Limit, Gain, ExactError, Starts, After;
    Converges(p, d, elapsed, e, times, n, n, epsilon);
    SynchronizedForGood(p, d, elapsed, e, times, n, k, Limit(p, d) + epsilon);
  }

  /** The controller's default parameters, in nanoseconds. */
  const DEFAULTS: Parameters := Parameters(1000000, 2000000, 0.25, 20000000)

  /** With the defaults a clock that is off by up to one percent still ends within the tolerance. */
  lemma DefaultsSuffice(e: Endpoint)
    requires Abs(e.driftPpm) <= 10000.0
    ensures DEFAULTS.IsValid()
    ensures Abs(Times(Drift(e), DEFAULTS.updateInterval as real)) <= 200000.0 < DEFAULTS.maximumCorrection as real
    ensures Limit(DEFAULTS, 200000.0) == 800005.0 < DEFAULTS.tolerance as real
  {
    assert Times(Drift(e), 20000000.0) == e.driftPpm * 20.0;
  }
}
