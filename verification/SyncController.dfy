/** Playback endpoints corrected in place by the synchronization controller. */
module SyncController {
  import opened Reals
  import opened SyncModel
  import SyncRuns

  class PlaybackEndpoint {
    const initialOffset: int
    const driftPpm: real
    var correction: int
    var appliedCorrection: int
    var maximumApplied: int
    var currentError: int
    var state: SynchronizationState
    var convergenceTime: int

    function State(): Endpoint
      reads this
    {
      Endpoint(initialOffset, driftPpm, correction, appliedCorrection, maximumApplied, currentError, state,
               convergenceTime)
    }

    constructor (initialOffset: int, driftPpm: real)
      ensures State() == NewEndpoint(initialOffset, driftPpm)
    {
      this.initialOffset, this.driftPpm := initialOffset, driftPpm;
      correction, appliedCorrection, maximumApplied, currentError := 0, 0, 0, 0;
      state, convergenceTime := Synchronizing, 0;
    }

    method ApplyCorrection(amount: int)
      modifies this
      ensures State() == SyncModel.ApplyCorrection(old(State()), amount)
    {
      correction := correction + amount;
      appliedCorrection := correction;
      maximumApplied := IntMax(maximumApplied, IntAbs(correction));
    }

    method Stop()
      modifies this`state
      ensures state == Stopped
    {
      state := Stopped;
    }
  }

  /** How often an endpoint occurs in the list. */
  function Count(endpoints: seq<PlaybackEndpoint?>, x: PlaybackEndpoint): nat {
    if endpoints == [] then 0
    else Count(endpoints[..|endpoints| - 1], x) + if endpoints[|endpoints| - 1] == x then 1 else 0
  }

  class SynchronizationController {
    const parameters: Parameters
    var elapsed: int

    constructor (parameters: Parameters)
      requires parameters.IsValid()
      ensures this.parameters == parameters && elapsed == 0
    {
      this.parameters := parameters;
      elapsed := 0;
    }

    /** Missing endpoints are passed over; one listed twice is corrected twice. */
    method Update(endpoints: seq<PlaybackEndpoint?>, time: int)
      requires parameters.IsValid()
      modifies this, set x | x in endpoints && x != null
      ensures elapsed == old(elapsed) + parameters.updateInterval
      ensures forall x: PlaybackEndpoint :: x in endpoints ==>
        x.State() == Repeat(parameters, old(elapsed), time, Count(endpoints, x), old(x.State()))
    {
      for i := 0 to |endpoints|
        invariant elapsed == old(elapsed)
        invariant forall x: PlaybackEndpoint :: x in endpoints ==>
          x.State() == Repeat(parameters, elapsed, time, Count(endpoints[..i], x), old(x.State()))
      {
        assert endpoints[..i + 1][..i] == endpoints[..i];
        var endpoint := endpoints[i];
        if endpoint != null {
          UpdateOne(endpoint, time);
        }
      }
      assert endpoints[..|endpoints|] == endpoints;
      elapsed := elapsed + parameters.updateInterval;
    }

    method UpdateOne(endpoint: PlaybackEndpoint, time: int)
      requires parameters.IsValid()
      modifies endpoint
      ensures endpoint.State() == SyncModel.Update(parameters, elapsed, time, old(endpoint.State()))
    {
      hide Truncate, Times, Drift;
      if endpoint.state.Stopped? {
        return;
      }
      var error := TimingError(endpoint.State(), time);
      endpoint.ApplyCorrection(CorrectionFor(parameters, error));
      var remaining := TimingError(endpoint.State(), time);
      endpoint.currentError := remaining;
      if IntAbs(remaining) <= parameters.tolerance {
        if !endpoint.state.Synchronized? {
          endpoint.state := Synchronized;
          endpoint.convergenceTime := elapsed;
        }
      } else {
        endpoint.state := if IntAbs(error) > parameters.tolerance * 8 then Degraded else Synchronizing;
      }
    }

    method MaximumSkew(endpoints: seq<PlaybackEndpoint>, time: int) returns (skew: int)
      ensures SyncRuns.IsSkew(States(endpoints), time, skew)
    {
      if endpoints == [] {
        return 0;
      }
      hide TimingError;
      var minimum := TimingError(endpoints[0].State(), time);
      var maximum := minimum;
      ghost var low, high := 0, 0;
      for i := 0 to |endpoints|
        invariant 0 <= low < |endpoints| && minimum == TimingError(endpoints[low].State(), time)
        invariant 0 <= high < |endpoints| && maximum == TimingError(endpoints[high].State(), time)
        invariant forall k :: 0 <= k < i ==> minimum <= TimingError(endpoints[k].State(), time) <= maximum
      {
        var error := TimingError(endpoints[i].State(), time);
        if error < minimum {
          minimum, low := error, i;
        }
        if error > maximum {
          maximum, high := error, i;
        }
      }
      skew := maximum - minimum;
      assert forall k :: 0 <= k < |endpoints| ==> States(endpoints)[k] == endpoints[k].State();
      assert skew == TimingError(States(endpoints)[high], time) - TimingError(States(endpoints)[low], time);
    }
  }

  function States(endpoints: seq<PlaybackEndpoint>): seq<Endpoint>
    reads set x | x in endpoints
  {
    seq(|endpoints|, i requires 0 <= i < |endpoints| reads set x | x in endpoints => endpoints[i].State())
  }
}
