/** The clock estimator in place: accumulation loops over the retained samples. */
module ClockEstimator {
  import opened ClockModel
  import opened LeastSquares
  import opened Reals
  import opened Words
  import opened Wrappers

  class ClockEstimator {
    const maximumSamples: Positive
    var samples: seq<Sample>
    var remoteOrigin: int
    var localOrigin: int
    var lastRemote: int
    var lastLocal: int
    var hasOrigin: bool
    var estimate: Estimate

    function State(): Clock
      reads this
    {
      Clock(maximumSamples, samples, remoteOrigin, localOrigin, lastRemote, lastLocal, hasOrigin, estimate)
    }

    constructor (maximumSamples: Positive)
      ensures State() == Fresh(maximumSamples)
    {
      this.maximumSamples := maximumSamples;
      samples := [];
      remoteOrigin, localOrigin, lastRemote, lastLocal := 0, 0, 0, 0;
      hasOrigin := false;
      estimate := NO_ESTIMATE;
    }

    method AddSample(remote: int, local: int) returns (accepted: bool)
      modifies this
      ensures (State(), accepted) == ClockModel.AddSample(old(State()), remote, local)
    {
      hide Fit;
      if !hasOrigin {
        remoteOrigin, localOrigin := remote, local;
        lastRemote, lastLocal := remote, local;
        hasOrigin := true;
        samples := samples + [Sample(0.0, 0.0)];
        estimate := NO_ESTIMATE;
        return true;
      }
      if remote < lastRemote || local < lastLocal {
        return false;
      }
      var remoteDelta := remote as real - remoteOrigin as real;
      var localDelta := local as real - localOrigin as real;
      if |samples| == maximumSamples {
        samples := samples[1..];
      }
      samples := samples + [Sample(remoteDelta, localDelta)];
      lastRemote, lastLocal := remote, local;
      Recalculate();
      return true;
    }

    method Recalculate()
      modifies this`estimate
      ensures estimate == Recalculated(old(State()))
    {
      if |samples| < 2 {
        estimate := estimate.(ready := false);
        return;
      }
      var meanRemote, meanLocal := Means();
      var covariance, variance := Deviations(meanRemote, meanLocal);
      if variance <= 0.0 {
        estimate := estimate.(ready := false);
        return;
      }
      var rate := covariance / variance;
      var intercept := meanLocal - rate * meanRemote;
      var offset := localOrigin as real - remoteOrigin as real + intercept;
      estimate := Estimate(true, offset, rate, (rate - 1.0) * 1000000.0);
    }

    method Means() returns (meanRemote: real, meanLocal: real)
      requires samples != []
      ensures meanRemote == MeanRemote(samples) && meanLocal == MeanLocal(samples)
    {
      meanRemote, meanLocal := 0.0, 0.0;
      for i := 0 to |samples|
        invariant meanRemote == SumRemote(samples[..i]) && meanLocal == SumLocal(samples[..i])
      {
        assert samples[..i + 1][..i] == samples[..i];
        meanRemote := meanRemote + samples[i].remote;
        meanLocal := meanLocal + samples[i].local;
      }
      assert samples[..|samples|] == samples;
      meanRemote := meanRemote / |samples| as real;
      meanLocal := meanLocal / |samples| as real;
    }

    method Deviations(meanRemote: real, meanLocal: real) returns (covariance: real, variance: real)
      ensures covariance == Covariance(samples, meanRemote, meanLocal) && variance == Variance(samples, meanRemote)
    {
      hide Times;
      covariance, variance := 0.0, 0.0;
      for i := 0 to |samples|
        invariant covariance == Covariance(samples[..i], meanRemote, meanLocal)
        invariant variance == Variance(samples[..i], meanRemote)
      {
        assert samples[..i + 1][..i] == samples[..i];
        var remote := samples[i].remote - meanRemote;
        var local := samples[i].local - meanLocal;
        covariance := covariance + Times(remote, local);
        variance := variance + Times(remote, remote);
      }
      assert samples[..|samples|] == samples;
    }

    method MapRemoteToLocal(remote: int) returns (local: Option<int>)
      ensures local == ClockModel.MapRemoteToLocal(State(), remote)
    {
      if !estimate.ready || !hasOrigin {
        return None;
      }
      var remoteDelta := remote as real - remoteOrigin as real;
      var localDelta := Times(estimate.rate, remoteDelta)
        + (estimate.offset - (localOrigin as real - remoteOrigin as real));
      var exact := localOrigin as real + localDelta;
      if exact < INT64_MIN as real || exact > INT64_MAX as real {
        return None;
      }
      return Some(Truncate(exact));
    }

    method Reset()
      modifies this
      ensures State() == Fresh(maximumSamples)
    {
      samples := [];
      remoteOrigin, localOrigin, lastRemote, lastLocal := 0, 0, 0, 0;
      hasOrigin := false;
      estimate := NO_ESTIMATE;
    }
  }
}
