/**
 The clock estimator on values: the retained window, the mapping of remote times, and the playback
 schedule built on it.
 */
module ClockModel {
  import opened LeastSquares
  import opened Reals
  import opened Words
  import opened Wrappers

  datatype Estimate = Estimate(ready: bool, offset: real, rate: real, drift: real)

  datatype Clock = Clock(
    capacity: Positive,
    samples: seq<Sample>,
    remoteOrigin: int,
    localOrigin: int,
    lastRemote: int,
    lastLocal: int,
    hasOrigin: bool,
    estimate: Estimate)

  const NO_ESTIMATE: Estimate := Estimate(false, 0.0, 1.0, 0.0)

  function Fresh(capacity: Positive): Clock {
    Clock(capacity, [], 0, 0, 0, 0, false, NO_ESTIMATE)
  }

  /** The distance between the two time scales' origins. */
  function OriginGap(c: Clock): real {
    c.localOrigin as real - c.remoteOrigin as real
  }

  /** The estimate after fitting the window; an undetermined fit keeps the old figures, not ready. */
  function Recalculated(c: Clock): Estimate {
    match Fit(c.samples)
    case None => c.estimate.(ready := false)
    case Some(line) => Estimate(true, OriginGap(c) + line.intercept, line.rate, (line.rate - 1.0) * 1000000.0)
  }

  /** The window after one more sample, the oldest making room. */
  function Slide(capacity: Positive, samples: seq<Sample>, sample: Sample): seq<Sample> {
    (if |samples| == capacity then samples[1..] else samples) + [sample]
  }

  function AddSample(c: Clock, remote: int, local: int): (Clock, bool) {
    if !c.hasOrigin then
      (Clock(c.capacity, c.samples + [Sample(0.0, 0.0)], remote, local, remote, local, true, NO_ESTIMATE), true)
    else if remote < c.lastRemote || local < c.lastLocal then
      (c, false)
    else
      var sample := Sample(remote as real - c.remoteOrigin as real, local as real - c.localOrigin as real);
      var c' := c.(samples := Slide(c.capacity, c.samples, sample), lastRemote := remote, lastLocal := local);
      (c'.(estimate := Recalculated(c')), true)
  }

  /** The exact local time the estimate gives to a remote time. */
  function Mapped(c: Clock, remote: int): real {
    c.localOrigin as real
    + (Times(c.estimate.rate, remote as real - c.remoteOrigin as real) + (c.estimate.offset - OriginGap(c)))
  }

  function MapRemoteToLocal(c: Clock, remote: int): Option<int> {
    if !c.estimate.ready || !c.hasOrigin then None
    else
      var local := Mapped(c, remote);
      if local < INT64_MIN as real || local > INT64_MAX as real then None else Some(Truncate(local))
  }

  datatype ScheduledPlayback = ScheduledPlayback(sequence: Word64, playTime: int)

  datatype ScheduleDecision = NotReady | TooEarly | Ready | Late

  function Schedule(c: Clock, playoutDelay: nat, sequence: Word64, timestamp: int): Option<ScheduledPlayback> {
    match MapRemoteToLocal(c, timestamp)
    case None => None
    case Some(local) => Some(ScheduledPlayback(sequence, local + playoutDelay))
  }

  function Decide(scheduled: ScheduledPlayback, now: int): ScheduleDecision {
    if now < scheduled.playTime then TooEarly
    else if now == scheduled.playTime then Ready
    else Late
  }

  // ---------------------------------------------------------------- runs

  /** One pair of clock readings. */
  datatype Reading = Reading(remote: int, local: int)

  datatype Event = Observe(reading: Reading) | Reset

  function Step(c: Clock, e: Event): Clock {
    match e
    case Observe(p) => AddSample(c, p.remote, p.local).0
    case Reset => Fresh(c.capacity)
  }

  function After(capacity: Positive, run: seq<Event>): Clock {
    if run == [] then Fresh(capacity)
    else Step(After(capacity, run[..|run| - 1]), run[|run| - 1])
  }

  /** Since the last reset, the readings that never go back behind one already taken. */
  function Taken(run: seq<Event>): seq<Reading> {
    if run == [] then []
    else
      var taken, e := Taken(run[..|run| - 1]), run[|run| - 1];
      if e.Reset? then []
      else if taken != []
              && (e.reading.remote < taken[|taken| - 1].remote || e.reading.local < taken[|taken| - 1].local) then
        taken
      else taken + [e.reading]
  }

  function Latest(readings: seq<Reading>, capacity: Positive): seq<Reading> {
    if |readings| <= capacity then readings else readings[|readings| - capacity..]
  }

  function Delta(p: Reading, remote: int, local: int): Sample {
    Sample(p.remote as real - remote as real, p.local as real - local as real)
  }

  function Relative(readings: seq<Reading>, remote: int, local: int): (samples: seq<Sample>)
    ensures |samples| == |readings|
    ensures forall i :: 0 <= i < |readings| ==> samples[i] == Delta(readings[i], remote, local)
  {
    if readings == [] then []
    else
      var p := readings[|readings| - 1];
      Relative(readings[..|readings| - 1], remote, local)
      + [Delta(p, remote, local)]
  }

  /** What the estimator's fields say about the readings it has taken. */
  ghost predicate Tracks(c: Clock, taken: seq<Reading>) {
    && c.hasOrigin == (taken != [])
    && (taken != [] ==> c.remoteOrigin == taken[0].remote && c.localOrigin == taken[0].local)
    && (taken != [] ==> c.lastRemote == taken[|taken| - 1].remote && c.lastLocal == taken[|taken| - 1].local)
    && c.samples == Relative(Latest(taken, c.capacity), c.remoteOrigin, c.localOrigin)
  }

  /** The estimate is ready exactly when the window determines a line, and then it is that line. */
  ghost predicate Settled(c: Clock) {
    && c.estimate.ready == Fit(c.samples).Some?
    && (c.estimate.ready ==> Fit(c.samples).value == Line(c.estimate.rate, c.estimate.offset - OriginGap(c)))
    && (c.estimate.ready ==> c.hasOrigin)
  }

  lemma RelativeOf(readings: seq<Reading>, samples: seq<Sample>, remote: int, local: int)
    requires |samples| == |readings|
    requires forall i :: 0 <= i < |readings| ==> samples[i] == Delta(readings[i], remote, local)
    ensures Relative(readings, remote, local) == samples
  {
  }

  lemma SlideTracks(capacity: Positive, taken: seq<Reading>, p: Reading, remote: int, local: int)
    ensures Relative(Latest(taken + [p], capacity), remote, local)
         == Slide(capacity, Relative(Latest(taken, capacity), remote, local), Delta(p, remote, local))
  {
    var window, window' := Latest(taken, capacity), Latest(taken + [p], capacity);
    assert window' == (if |window| == capacity then window[1..] else window) + [p];
    RelativeOf(window', Slide(capacity, Relative(window, remote, local), Delta(p, remote, local)), remote, local);
  }

  lemma FitOfOne(s: seq<Sample>)
    requires |s| < 2
    ensures Fit(s) == None
  {
  }

  lemma StepTracks(c: Clock, taken: seq<Reading>, p: Reading)
    requires Tracks(c, taken) && Settled(c)
    ensures AddSample(c, p.remote, p.local).1
      == !(taken != [] && (p.remote < taken[|taken| - 1].remote || p.local < taken[|taken| - 1].local))
    ensures var (c', accepted) := AddSample(c, p.remote, p.local);
      c'.capacity == c.capacity && Settled(c') && Tracks(c', if accepted then taken + [p] else taken)
  {
    hide Fit;
    SlideTracks(c.capacity, taken, p, c.remoteOrigin, c.localOrigin);
    if !c.hasOrigin {
      FitOfOne(AddSample(c, p.remote, p.local).0.samples);
    }
  }

  /** The window always holds the latest readings taken since the last reset, at most `capacity`. */
  lemma {:induction false} WindowIsLatest(capacity: Positive, run: seq<Event>)
    ensures After(capacity, run).capacity == capacity
    ensures Tracks(After(capacity, run), Taken(run)) && Settled(After(capacity, run))
  {
    hide Fit, AddSample, Tracks, Settled;
    if run == [] {
      FreshTracks(capacity);
    } else {
      var front, e := run[..|run| - 1], run[|run| - 1];
      WindowIsLatest(capacity, front);
      if e.Reset? {
        FreshTracks(capacity);
      } else {
        StepTracks(After(capacity, front), Taken(front), e.reading);
      }
    }
  }

  lemma FreshTracks(capacity: Positive)
    ensures Tracks(Fresh(capacity), []) && Settled(Fresh(capacity))
  {
  }

  // ---------------------------------------------------------------- best mapping

  /** A straight line in absolute times, and how badly it misses a set of readings. */
  function Deviation(p: Reading, line: Line): real {
    p.local as real - Times(line.rate, p.remote as real) - line.intercept
  }

  function SquaredError(readings: seq<Reading>, line: Line): real {
    if readings == [] then 0.0
    else SquaredError(readings[..|readings| - 1], line) + Square(Deviation(readings[|readings| - 1], line))
  }

  /** The line the estimator maps along, in absolute times. */
  function Mapping(c: Clock): Line {
    Line(c.estimate.rate,
         c.localOrigin as real + (c.estimate.offset - OriginGap(c)) - Times(c.estimate.rate, c.remoteOrigin as real))
  }

  function Shifted(line: Line, remote: int, local: int): Line {
    Line(line.rate, line.intercept - local as real + Times(line.rate, remote as real))
  }

  lemma MappedAlong(c: Clock, remote: int)
    ensures Mapped(c, remote) == Times(Mapping(c).rate, remote as real) + Mapping(c).intercept
  {
  }

  lemma DeviationShifted(p: Reading, line: Line, remote: int, local: int)
    ensures Deviation(p, line) == Residual(Delta(p, remote, local), Shifted(line, remote, local))
  {
  }

  lemma {:induction false} ErrorShifted(readings: seq<Reading>, line: Line, remote: int, local: int)
    ensures SquaredError(readings, line) == Misfit(Relative(readings, remote, local), Shifted(line, remote, local))
  {
    if readings != [] {
      hide Deviation, Residual, Shifted, Square;
      var front, p := readings[..|readings| - 1], readings[|readings| - 1];
      var q := Delta(p, remote, local);
      ErrorShifted(front, line, remote, local);
      DeviationShifted(p, line, remote, local);
      assert Relative(readings, remote, local) == Relative(front, remote, local) + [q];
      assert (Relative(front, remote, local) + [q])[..|front|] == Relative(front, remote, local);
    }
  }

  lemma MappingShifted(c: Clock)
    ensures Shifted(Mapping(c), c.remoteOrigin, c.localOrigin)
         == Line(c.estimate.rate, c.estimate.offset - OriginGap(c))
  {
  }

  /** In every run: a ready mapping has the least squared error over the retained readings. */
  lemma MappingIsBest(capacity: Positive, run: seq<Event>, line: Line)
    requires After(capacity, run).estimate.ready
    ensures var window := Latest(Taken(run), capacity);
      SquaredError(window, Mapping(After(capacity, run))) <= SquaredError(window, line)
  {
    hide Fit, Misfit, Shifted, Mapping, SquaredError, OriginGap, After, Taken, Latest;
    var c, window := After(capacity, run), Latest(Taken(run), capacity);
    WindowIsLatest(capacity, run);
    ErrorShifted(window, line, c.remoteOrigin, c.localOrigin);
    ErrorShifted(window, Mapping(c), c.remoteOrigin, c.localOrigin);
    MappingShifted(c);
    FitIsBest(c.samples, Shifted(line, c.remoteOrigin, c.localOrigin));
  }

  lemma OnLineShifted(readings: seq<Reading>, line: Line, remote: int, local: int)
    requires forall i :: 0 <= i < |readings| ==> Deviation(readings[i], line) == 0.0
    ensures OnLine(Relative(readings, remote, local), Shifted(line, remote, local))
  {
    hide Deviation, Residual, Shifted;
    forall i | 0 <= i < |readings|
      ensures Residual(Relative(readings, remote, local)[i], Shifted(line, remote, local)) == 0.0
    {
      DeviationShifted(readings[i], line, remote, local);
    }
  }

  lemma ShiftedInjective(line: Line, line': Line, remote: int, local: int)
    requires Shifted(line, remote, local) == Shifted(line', remote, local)
    ensures line == line'
  {
  }

  /** In every run: retained readings that lie on one line are mapped along that very line. */
  lemma MappingIsExact(capacity: Positive, run: seq<Event>, line: Line)
    requires After(capacity, run).estimate.ready
    requires forall p :: p in Latest(Taken(run), capacity) ==> Deviation(p, line) == 0.0
    ensures Mapping(After(capacity, run)) == line
    ensures forall p :: p in Latest(Taken(run), capacity) && INT64_MIN <= p.local <= INT64_MAX ==>
      MapRemoteToLocal(After(capacity, run), p.remote) == Some(p.local)
  {
    hide Fit, Shifted, Mapping, OriginGap, After, Taken, Latest, OnLine, Deviation, Mapped;
    var c, window := After(capacity, run), Latest(Taken(run), capacity);
    WindowIsLatest(capacity, run);
    OnLineShifted(window, line, c.remoteOrigin, c.localOrigin);
    FitIsExact(c.samples, Shifted(line, c.remoteOrigin, c.localOrigin));
    MappingShifted(c);
    ShiftedInjective(Mapping(c), line, c.remoteOrigin, c.localOrigin);
    forall p | p in window && INT64_MIN <= p.local <= INT64_MAX
      ensures MapRemoteToLocal(c, p.remote) == Some(p.local)
    {
      MappedReading(c, p, line);
      TruncateWhole(p.local);
    }
  }

  lemma MappedReading(c: Clock, p: Reading, line: Line)
    requires Mapping(c) == line && Deviation(p, line) == 0.0
    ensures Mapped(c, p.remote) == p.local as real
  {
    MappedAlong(c, p.remote);
  }

  // ---------------------------------------------------------------- order

  lemma {:induction false} TakenInOrder(run: seq<Event>)
    ensures forall i, j :: 0 <= i < j < |Taken(run)| ==>
      Taken(run)[i].remote <= Taken(run)[j].remote && Taken(run)[i].local <= Taken(run)[j].local
  {
    if run != [] {
      TakenInOrder(run[..|run| - 1]);
    }
  }

  lemma WindowSorted(capacity: Positive, run: seq<Event>)
    ensures Sorted(After(capacity, run).samples)
  {
    hide After, Taken, Fit;
    WindowIsLatest(capacity, run);
    TakenInOrder(run);
  }

  /** In every run the fitted rate is never negative. */
  lemma RateNeverNegative(capacity: Positive, run: seq<Event>)
    requires After(capacity, run).estimate.ready
    ensures After(capacity, run).estimate.rate >= 0.0
  {
    hide Fit, After, Sorted;
    WindowIsLatest(capacity, run);
    WindowSorted(capacity, run);
    RateNonNegative(After(capacity, run).samples);
  }

  lemma TimesMonotone(rate: real, x: real, y: real)
    requires rate >= 0.0 && x <= y
    ensures Times(rate, x) <= Times(rate, y)
  {
  }

  lemma MapMonotone(c: Clock, r1: int, r2: int)
    requires c.estimate.rate >= 0.0 && r1 <= r2
    ensures Mapped(c, r1) <= Mapped(c, r2)
  {
    hide Times;
    TimesMonotone(c.estimate.rate, r1 as real - c.remoteOrigin as real, r2 as real - c.remoteOrigin as real);
  }

  /**
   In every run an earlier remote timestamp never gets a later play time; so at any moment the later
   frame is too early whenever the earlier one is, and the earlier one is late whenever the later one is.
   */
  lemma ScheduleKeepsOrder(capacity: Positive, run: seq<Event>, playoutDelay: nat,
                           n1: Word64, t1: int, n2: Word64, t2: int, now: int)
    requires t1 <= t2
    requires Schedule(After(capacity, run), playoutDelay, n1, t1).Some?
    requires Schedule(After(capacity, run), playoutDelay, n2, t2).Some?
    ensures var c := After(capacity, run);
      var first, second := Schedule(c, playoutDelay, n1, t1).value, Schedule(c, playoutDelay, n2, t2).value;
      && first.playTime <= second.playTime
      && (Decide(first, now) == TooEarly ==> Decide(second, now) == TooEarly)
      && (Decide(second, now) == Late ==> Decide(first, now) == Late)
  {
    hide After, Mapped, Truncate;
    var c := After(capacity, run);
    RateNeverNegative(capacity, run);
    MapMonotone(c, t1, t2);
    TruncateMonotone(Mapped(c, t1), Mapped(c, t2));
  }

  /**
   A schedule exists exactly when the estimate is ready and the exact time fits a signed 64-bit clock.
   It carries the frame's number, and its play time is the playout delay after the exact time, the
   fraction dropped towards zero.
   */
  lemma ScheduledExactly(capacity: Positive, run: seq<Event>, playoutDelay: nat, sequence: Word64, timestamp: int)
    ensures var c := After(capacity, run);
      var scheduled := Schedule(c, playoutDelay, sequence, timestamp);
      && (scheduled.Some?
          <==> Fit(c.samples).Some? && INT64_MIN as real <= Mapped(c, timestamp) <= INT64_MAX as real)
      && (scheduled.Some? ==>
            var x, n := Mapped(c, timestamp), scheduled.value.playTime - playoutDelay;
            && scheduled.value.sequence == sequence
            && (x >= 0.0 ==> n as real <= x < n as real + 1.0)
            && (x <= 0.0 ==> n as real - 1.0 < x <= n as real))
  {
    hide After, Fit, Mapped, Truncate;
    WindowIsLatest(capacity, run);
    TruncateBounds(Mapped(After(capacity, run), timestamp));
  }

  /** The estimate is ready exactly when two retained readings differ in remote time. */
  lemma ReadyExactly(capacity: Positive, run: seq<Event>)
    ensures var window := Latest(Taken(run), capacity);
      After(capacity, run).estimate.ready
      <==> exists i, j :: 0 <= i < j < |window| && window[i].remote != window[j].remote
  {
    hide After, Fit, Taken, Latest;
    WindowIsLatest(capacity, run);
    var c, window := After(capacity, run), Latest(Taken(run), capacity);
    FitExists(c.samples);
    forall i, j | 0 <= i < j < |window|
      ensures window[i].remote != window[j].remote <==> c.samples[i].remote != c.samples[j].remote
    {
    }
  }

  /** In every run the drift is the rate's distance from one in parts per million, ready or not. */
  lemma {:induction false} DriftReported(capacity: Positive, run: seq<Event>)
    ensures var estimate := After(capacity, run).estimate; estimate.rate == 1.0 + estimate.drift / 1000000.0
  {
    hide Fit;
    if run != [] {
      DriftReported(capacity, run[..|run| - 1]);
    }
  }

  /**
   In every run whose retained readings lie on one line, a timestamp that the line takes to the whole
   nanosecond `local` is scheduled, under the frame's own number, `playoutDelay` after it.
   */
  lemma ScheduledOnLine(capacity: Positive, run: seq<Event>, line: Line, playoutDelay: nat, sequence: Word64,
                        timestamp: int, local: int)
    requires After(capacity, run).estimate.ready
    requires forall p :: p in Latest(Taken(run), capacity) ==> Deviation(p, line) == 0.0
    requires Deviation(Reading(timestamp, local), line) == 0.0 && INT64_MIN <= local <= INT64_MAX
    ensures Schedule(After(capacity, run), playoutDelay, sequence, timestamp)
         == Some(ScheduledPlayback(sequence, local + playoutDelay))
  {
    hide Fit, Mapping, After, Taken, Latest, Deviation, Mapped, Truncate;
    WindowIsLatest(capacity, run);
    MappingIsExact(capacity, run, line);
    MappedReading(After(capacity, run), Reading(timestamp, local), line);
    TruncateWhole(local);
  }

  /** A retained reading on the line is scheduled the playout delay after its own local time. */
  lemma ReadingScheduled(capacity: Positive, run: seq<Event>, line: Line, playoutDelay: nat, sequence: Word64,
                         p: Reading)
    requires After(capacity, run).estimate.ready
    requires forall q :: q in Latest(Taken(run), capacity) ==> Deviation(q, line) == 0.0
    requires p in Latest(Taken(run), capacity) && INT64_MIN <= p.local <= INT64_MAX
    ensures var scheduled := Schedule(After(capacity, run), playoutDelay, sequence, p.remote);
      && scheduled == Some(ScheduledPlayback(sequence, p.local + playoutDelay))
      && Decide(scheduled.value, p.local + playoutDelay) == Ready
      && (forall now :: Decide(scheduled.value, now) == TooEarly <==> now < p.local + playoutDelay)
      && (forall now :: Decide(scheduled.value, now) == Late <==> now > p.local + playoutDelay)
  {
    hide After, Taken, Latest, Deviation, Schedule;
    assert Reading(p.remote, p.local) == p;
    ScheduledOnLine(capacity, run, line, playoutDelay, sequence, p.remote, p.local);
  }
}
