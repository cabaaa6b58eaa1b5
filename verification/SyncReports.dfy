/**
 What a synchronized endpoint's figures mean: its timing error is the distance of its clock from the
 reference, and its metrics tell what the controller has done to it.
 */
module SyncReports {
  import opened Reals
  import opened SyncModel
  import opened SyncRuns

  /**
   What the endpoint's own clock shows at a reference time if nobody corrects it: it starts off by the
   offset and gains `driftPpm` parts per million.
   */
  function LocalTime(initialOffset: int, driftPpm: real, time: int): real {
    Times(time as real, 1.0 + driftPpm / 1000000.0) + initialOffset as real
  }

  /** The corrections that updates at the given times apply, each from the error it finds. */
  function Corrections(p: Parameters, elapsed: int, e: Endpoint, times: seq<int>): seq<int>
    requires p.IsValid()
  {
    if times == [] then []
    else
      var k := |times| - 1;
      Corrections(p, elapsed, e, times[..k])
      + [CorrectionFor(p, TimingError(After(p, elapsed, e, times[..k]), times[k]))]
  }

  function Sum(xs: seq<int>): int {
    if xs == [] then 0 else Sum(xs[..|xs| - 1]) + xs[|xs| - 1]
  }

  /** The greatest magnitude any partial sum has had. */
  function Peak(xs: seq<int>): int {
    if xs == [] then 0 else IntMax(Peak(xs[..|xs| - 1]), IntAbs(Sum(xs)))
  }

  lemma ClockError(e: Endpoint, time: int)
    ensures ExactError(e, time)
         == LocalTime(e.initialOffset, e.driftPpm, time) + e.correction as real - time as real
  {
  }

  lemma UpdateKeeps(p: Parameters, elapsed: int, time: int, e: Endpoint)
    requires p.IsValid() && !e.state.Stopped?
    ensures var e' := Update(p, elapsed, time, e);
      && e'.initialOffset == e.initialOffset && e'.driftPpm == e.driftPpm && !e'.state.Stopped?
      && e'.correction == e.correction + CorrectionFor(p, TimingError(e, time)) == e'.appliedCorrection
      && e'.maximumApplied == IntMax(e.maximumApplied, IntAbs(e'.correction))
      && e'.currentError == TimingError(e', time)
  {
    hide CorrectionFor, Saturated, Times;
  }

  /** After any updates the metrics of a new endpoint are the sum and the peak of its corrections. */
  lemma {:induction false} MetricsExact(p: Parameters, elapsed: int, offset: int, ppm: real, times: seq<int>)
    requires p.IsValid()
    ensures var e, e' := NewEndpoint(offset, ppm), After(p, elapsed, NewEndpoint(offset, ppm), times);
      var corrections := Corrections(p, elapsed, e, times);
      && e'.initialOffset == offset && e'.driftPpm == ppm && !e'.state.Stopped?
      && e'.correction == e'.appliedCorrection == Sum(corrections)
      && e'.maximumApplied == Peak(corrections)
      && (times != [] ==> e'.currentError == TimingError(e', times[|times| - 1]))
  {
    if times != [] {
      hide Update, TimingError, CorrectionFor;
      var k := |times| - 1;
      MetricsExact(p, elapsed, offset, ppm, times[..k]);
      UpdateKeeps(p, elapsed + k * p.updateInterval, times[k], After(p, elapsed, NewEndpoint(offset, ppm), times[..k]));
      var all := Corrections(p, elapsed, NewEndpoint(offset, ppm), times);
      assert all[..|all| - 1] == Corrections(p, elapsed, NewEndpoint(offset, ppm), times[..k]);
    }
  }

  /**
   After any updates the timing error is what the endpoint's clock shows, its corrections included,
   less the reference time: truncated, and held at the ends of the signed 64-bit range.
   */
  lemma TimingErrorExact(p: Parameters, elapsed: int, offset: int, ppm: real, times: seq<int>, time: int)
    requires p.IsValid()
    ensures var e := NewEndpoint(offset, ppm);
      var shown := LocalTime(offset, ppm, time) + Sum(Corrections(p, elapsed, e, times)) as real;
      var error := TimingError(After(p, elapsed, e, times), time);
      && (INT64_MIN as real <= shown - time as real <= INT64_MAX as real ==> error == Truncate(shown - time as real))
      && (shown - time as real > INT64_MAX as real ==> error == INT64_MAX)
      && (shown - time as real < INT64_MIN as real ==> error == INT64_MIN)
  {
    hide After, Corrections, ExactError, Truncate, LocalTime;
    MetricsExact(p, elapsed, offset, ppm, times);
    ClockError(After(p, elapsed, NewEndpoint(offset, ppm), times), time);
  }

  /** A new endpoint is off by its initial offset. */
  lemma NewEndpointError(offset: int, ppm: real)
    requires INT64_MIN <= offset <= INT64_MAX
    ensures TimingError(NewEndpoint(offset, ppm), 0) == offset
  {
    assert ExactError(NewEndpoint(offset, ppm), 0) == offset as real;
    TruncateWhole(offset);
  }

  /**
   The state an update leaves: synchronized exactly when what remains is within the tolerance,
   otherwise degraded exactly when the error found was above eight times the tolerance. The
   convergence time is written exactly when the endpoint becomes synchronized.
   */
  lemma UpdateReports(p: Parameters, elapsed: int, time: int, e: Endpoint)
    requires p.IsValid() && !e.state.Stopped?
    ensures var e' := Update(p, elapsed, time, e);
      && (e'.state.Synchronized? <==> -p.tolerance <= TimingError(e', time) <= p.tolerance)
      && (e'.state.Degraded? <==>
            && !e'.state.Synchronized?
            && !(-8 * p.tolerance <= TimingError(e, time) <= 8 * p.tolerance))
      && !e'.state.Stopped?
      && e'.convergenceTime ==
           if e'.state.Synchronized? && !e.state.Synchronized? then elapsed else e.convergenceTime
  {
    hide CorrectionFor, Saturated, Times;
    UpdateKeeps(p, elapsed, time, e);
  }

  /** A stopped endpoint is left alone. */
  lemma StoppedUntouched(p: Parameters, elapsed: int, time: int, e: Endpoint)
    requires p.IsValid() && e.state.Stopped?
    ensures Update(p, elapsed, time, e) == e
  {
  }
}
