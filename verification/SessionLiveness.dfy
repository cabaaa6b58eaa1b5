/** The liveness monitor of a stream: timeouts, bounded retries and recovery. */
module SessionLiveness {
  datatype ResilienceState = Streaming | Interrupted | Recovering | Failed | Stopped

  datatype Config = Config(warningTimeout: int, disconnectTimeout: int, retryInterval: int, maximumAttempts: nat) {
    /** What the monitor's constructor insists on. */
    predicate IsValid() {
      0 < warningTimeout < disconnectTimeout && maximumAttempts != 0
    }
  }

  datatype Monitor = Monitor(
    config: Config, lastValid: int, nextRetry: int, state: ResilienceState, attempts: nat, peerAvailable: bool)

  function Fresh(config: Config): Monitor {
    Monitor(config, 0, 0, Streaming, 0, true)
  }

  function ValidTraffic(m: Monitor, now: int): Monitor {
    if m.state.Recovering? || m.state.Interrupted? then m.(lastValid := now, state := Streaming, attempts := 0)
    else m.(lastValid := now)
  }

  function Updated(m: Monitor, now: int): Monitor {
    if m.state.Stopped? || m.state.Failed? then m
    else if !m.peerAvailable || now - m.lastValid >= m.config.disconnectTimeout then m.(state := Interrupted)
    else if now - m.lastValid >= m.config.warningTimeout then m.(state := Recovering)
    else m
  }

  function PeerAvailable(m: Monitor, available: bool, now: int): Monitor {
    var m' := m.(peerAvailable := available);
    if available then ValidTraffic(m', now) else Updated(m', now)
  }

  function ShouldRetry(m: Monitor, now: int): (Monitor, bool) {
    if !m.state.Interrupted? && !m.state.Recovering? then (m, false)
    else if m.attempts >= m.config.maximumAttempts then (m.(state := Failed), false)
    else if now < m.nextRetry then (m, false)
    else (m.(attempts := m.attempts + 1, nextRetry := now + m.config.retryInterval, state := Recovering), true)
  }

  class SessionLiveness {
    const config: Config
    var lastValid: int
    var nextRetry: int
    var state: ResilienceState
    var attempts: nat
    var peerAvailable: bool

    function Contents(): Monitor
      reads this
    {
      Monitor(config, lastValid, nextRetry, state, attempts, peerAvailable)
    }

    constructor (config: Config)
      requires config.IsValid()
      ensures Contents() == Fresh(config)
    {
      this.config := config;
      lastValid, nextRetry, state, attempts, peerAvailable := 0, 0, Streaming, 0, true;
    }

    method ObserveTraffic(now: int)
      modifies this
      ensures Contents() == ValidTraffic(old(Contents()), now)
    {
      lastValid := now;
      if state.Recovering? || state.Interrupted? {
        state := Streaming;
        attempts := 0;
      }
    }

    method SetPeerAvailable(available: bool, now: int)
      modifies this
      ensures Contents() == PeerAvailable(old(Contents()), available, now)
    {
      peerAvailable := available;
      if available {
        ObserveTraffic(now);
      } else {
        Update(now);
      }
    }

    method Update(now: int)
      modifies this
      ensures Contents() == Updated(old(Contents()), now)
    {
      if state.Stopped? || state.Failed? {
        return;
      }
      if !peerAvailable || now - lastValid >= config.disconnectTimeout {
        state := Interrupted;
      } else if now - lastValid >= config.warningTimeout {
        state := Recovering;
      }
    }

    method Stop()
      modifies this
      ensures Contents() == old(Contents()).(state := Stopped)
    {
      state := Stopped;
    }

    method TryRetry(now: int) returns (granted: bool)
      modifies this
      ensures (Contents(), granted) == ShouldRetry(old(Contents()), now)
    {
      if !state.Interrupted? && !state.Recovering? {
        return false;
      }
      if attempts >= config.maximumAttempts || now < nextRetry {
        if attempts >= config.maximumAttempts {
          state := Failed;
        }
        return false;
      }
      attempts := attempts + 1;
      nextRetry := now + config.retryInterval;
      state := Recovering;
      return true;
    }
  }

  // ---------------------------------------------------------------- runs

  datatype Call = Traffic(now: int) | Peer(available: bool, now: int) | Update(now: int) | Stop | Retry(now: int)

  function Step(m: Monitor, c: Call): Monitor {
    match c
    case Traffic(now) => ValidTraffic(m, now)
    case Peer(available, now) => PeerAvailable(m, available, now)
    case Update(now) => Updated(m, now)
    case Stop => m.(state := Stopped)
    case Retry(now) => ShouldRetry(m, now).0
  }

  function After(config: Config, run: seq<Call>): Monitor {
    if run == [] then Fresh(config) else Step(After(config, run[..|run| - 1]), run[|run| - 1])
  }

  predicate Grants(m: Monitor, c: Call) {
    c.Retry? && ShouldRetry(m, c.now).1
  }

  /** The call brings an interrupted stream back. */
  predicate Recovers(m: Monitor, c: Call) {
    (m.state.Interrupted? || m.state.Recovering?) && (c.Traffic? || (c.Peer? && c.available))
  }

  /** The times of the retries granted, in order. */
  function Granted(config: Config, run: seq<Call>): seq<int> {
    if run == [] then []
    else
      var front, c := run[..|run| - 1], run[|run| - 1];
      Granted(config, front) + if Grants(After(config, front), c) then [c.now] else []
  }

  /** How many retries have been granted since the stream last recovered. */
  function SinceRecovery(config: Config, run: seq<Call>): nat {
    if run == [] then 0
    else
      var front, c := run[..|run| - 1], run[|run| - 1];
      if Recovers(After(config, front), c) then 0
      else SinceRecovery(config, front) + if Grants(After(config, front), c) then 1 else 0
  }

  /** In every run: at most `maximumAttempts` retries between recoveries, and none while streaming. */
  lemma {:induction false} RetriesBounded(config: Config, run: seq<Call>)
    ensures var m := After(config, run);
      && m.config == config
      && m.attempts == SinceRecovery(config, run) <= config.maximumAttempts
      && (m.state.Streaming? ==> m.attempts == 0)
      && (m.state.Failed? ==> m.attempts == config.maximumAttempts)
  {
    if run != [] {
      RetriesBounded(config, run[..|run| - 1]);
    }
  }

  lemma {:induction false} NextRetryHolds(config: Config, run: seq<Call>)
    ensures var granted := Granted(config, run);
      granted != [] ==> After(config, run).nextRetry == granted[|granted| - 1] + config.retryInterval
  {
    if run != [] {
      NextRetryHolds(config, run[..|run| - 1]);
      RetriesBounded(config, run[..|run| - 1]);
    }
  }

  lemma NotBefore(config: Config, front: seq<Call>, c: Call)
    requires Grants(After(config, front), c)
    ensures c.now >= After(config, front).nextRetry
  {
    hide After;
  }

  lemma OneMore(n: int, interval: int)
    ensures (n + 1) * interval == n * interval + interval
  {
  }

  /** In every run, whatever the outages between them, granted retries keep the interval. */
  lemma {:induction false} RetriesSpaced(config: Config, run: seq<Call>, i: nat, j: nat)
    requires i <= j < |Granted(config, run)|
    ensures Granted(config, run)[j] - Granted(config, run)[i] >= (j - i) * config.retryInterval
  {
    hide After, Grants;
    var front, c := run[..|run| - 1], run[|run| - 1];
    if j < |Granted(config, front)| {
      RetriesSpaced(config, front, i, j);
    } else if i < j {
      NextRetryHolds(config, front);
      RetriesSpaced(config, front, i, j - 1);
      NotBefore(config, front, c);
      OneMore(j - 1 - i, config.retryInterval);
    } else {
      OneMore(-1, config.retryInterval);
    }
  }

  /** A stopped monitor stays stopped, and a failed one can only be stopped. */
  lemma {:induction false} NeverRevived(config: Config, run: seq<Call>, n: nat)
    requires n <= |run|
    ensures After(config, run[..n]).state.Stopped? ==> After(config, run).state.Stopped?
    ensures After(config, run[..n]).state.Failed? ==>
      After(config, run).state == if Stop in run[n..] then Stopped else Failed
    decreases |run| - n
  {
    if n == |run| {
      assert run[..n] == run;
    } else {
      assert run[..n + 1][..n] == run[..n];
      assert run[n..] == [run[n]] + run[n + 1..];
      if run[n] == Stop {
        assert After(config, run[..n + 1]).state.Stopped?;
      }
      NeverRevived(config, run, n + 1);
    }
  }

  /** Retries asked for at times at least an interval apart, and not too early. */
  ghost predicate WellTimed(m: Monitor, times: seq<int>) {
    && (times != [] ==> times[0] >= m.nextRetry)
    && forall k :: 0 <= k < |times| - 1 ==> times[k + 1] >= times[k] + m.config.retryInterval
  }

  function AfterRetries(m: Monitor, times: seq<int>): Monitor
    decreases |times|
  {
    if times == [] then m else AfterRetries(ShouldRetry(m, times[0]).0, times[1..])
  }

  lemma TimedTail(m: Monitor, m': Monitor, times: seq<int>)
    requires times != [] && WellTimed(m, times)
    requires m'.config == m.config && m'.nextRetry == times[0] + m.config.retryInterval
    ensures WellTimed(m', times[1..])
  {
    var rest := times[1..];
    assert rest != [] ==> rest[0] == times[0 + 1];
    forall k | 0 <= k < |rest| - 1
      ensures rest[k + 1] >= rest[k] + m.config.retryInterval
    {
      var j := k + 1;
      assert rest[k] == times[j] && rest[k + 1] == times[j + 1];
    }
  }

  /** An outage in which retries are asked for in time fails after exactly the attempts that are left. */
  lemma {:induction false} OutageFails(m: Monitor, times: seq<int>)
    requires m.state.Interrupted? || m.state.Recovering?
    requires m.attempts <= m.config.maximumAttempts && WellTimed(m, times)
    ensures var left := m.config.maximumAttempts - m.attempts;
      AfterRetries(m, times).state.Failed? <==> |times| > left
    ensures var left := m.config.maximumAttempts - m.attempts;
      AfterRetries(m, times).attempts == if |times| <= left then m.attempts + |times| else m.config.maximumAttempts
    decreases |times|
  {
    if times != [] {
      var m', rest := ShouldRetry(m, times[0]).0, times[1..];
      if m.attempts < m.config.maximumAttempts {
        TimedTail(m, m', times);
        OutageFails(m', rest);
      } else {
        FailedIgnoresRetries(m', rest);
      }
    }
  }

  lemma {:induction false} FailedIgnoresRetries(m: Monitor, times: seq<int>)
    requires m.state.Failed?
    ensures AfterRetries(m, times) == m
  {
    if times != [] {
      FailedIgnoresRetries(m, times[1..]);
    }
  }

  // ---------------------------------------------------------------- silence

  predicate IsTraffic(c: Call) {
    c.Traffic? || (c.Peer? && c.available)
  }

  /** When the peer was last heard; the clock starts at 0. */
  function LastHeard(run: seq<Call>): int {
    if run == [] then 0
    else if IsTraffic(run[|run| - 1]) then run[|run| - 1].now
    else LastHeard(run[..|run| - 1])
  }

  /** The last word on the peer is that it is gone. */
  predicate PeerGone(run: seq<Call>) {
    && run != []
    && if run[|run| - 1].Peer? then !run[|run| - 1].available else PeerGone(run[..|run| - 1])
  }

  lemma {:induction false} SilenceExact(config: Config, run: seq<Call>)
    ensures After(config, run).lastValid == LastHeard(run)
    ensures After(config, run).peerAvailable <==> !PeerGone(run)
  {
    if run != [] {
      SilenceExact(config, run[..|run| - 1]);
    }
  }

  /** A check of the clock: by `Update`, or because the peer has gone. */
  predicate Looks(c: Call) {
    c.Update? || (c.Peer? && !c.available)
  }

  /**
   After any run a look at the clock interrupts a live stream whose peer is gone or has been silent
   for the disconnect timeout, puts one silent for the warning timeout into recovery, and otherwise
   leaves the state as it is; a failed or stopped one it leaves alone.
   */
  lemma TimeoutsExact(config: Config, run: seq<Call>, c: Call)
    requires config.IsValid() && Looks(c)
    ensures var before, after := After(config, run).state, After(config, run + [c]).state;
      var silence := c.now - LastHeard(run);
      if before == Failed || before == Stopped then after == before
      else
        && (after == Interrupted <==>
              || PeerGone(run + [c]) || silence >= config.disconnectTimeout
              || (before == Interrupted && silence < config.warningTimeout))
        && (after == Recovering <==>
              && !PeerGone(run + [c]) && silence < config.disconnectTimeout
              && (silence >= config.warningTimeout || before == Recovering))
        && (after == Streaming <==> !PeerGone(run + [c]) && silence < config.warningTimeout && before == Streaming)
  {
    assert (run + [c])[..|run|] == run;
    SilenceExact(config, run);
    SilenceExact(config, run + [c]);
    RetriesBounded(config, run);
  }

  /** After any run traffic brings an interrupted or recovering stream back, with all its retries, and no other. */
  lemma TrafficExact(config: Config, run: seq<Call>, c: Call)
    requires IsTraffic(c)
    ensures var before, after := After(config, run), After(config, run + [c]);
      && after.state == (if before.state == Interrupted || before.state == Recovering then Streaming else before.state)
      && after.attempts == (if before.state == Interrupted || before.state == Recovering then 0 else before.attempts)
  {
    assert (run + [c])[..|run|] == run;
  }

  /**
   After any run a retry is granted exactly to an interrupted or recovering stream with attempts left,
   not before the interval since the last one granted, ever, is over. Asking with no attempt left is
   what makes the stream fail.
   */
  lemma RetryExact(config: Config, run: seq<Call>, now: int)
    ensures var m, granted := After(config, run), Granted(config, run);
      var down := m.state == Interrupted || m.state == Recovering;
      var early := if granted == [] then now < 0 else now < granted[|granted| - 1] + config.retryInterval;
      && (Grants(m, Retry(now)) <==> down && SinceRecovery(config, run) < config.maximumAttempts && !early)
      && After(config, run + [Retry(now)]).state ==
           if down && SinceRecovery(config, run) == config.maximumAttempts then Failed
           else if Grants(m, Retry(now)) then Recovering
           else m.state
  {
    assert (run + [Retry(now)])[..|run|] == run;
    RetriesBounded(config, run);
    NextRetryHolds(config, run);
    FirstRetry(config, run);
  }

  lemma {:induction false} FirstRetry(config: Config, run: seq<Call>)
    ensures Granted(config, run) == [] ==> After(config, run).nextRetry == 0
  {
    if run != [] {
      FirstRetry(config, run[..|run| - 1]);
    }
  }
}
