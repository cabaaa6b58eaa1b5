/**
 Every answer of the jitter buffer, said in terms of the calls made, the frames accepted and the
 items played so far, without looking into the buffer.
 */
module JitterAnswers {
  import opened AudioFrames
  import opened JitterModel
  import opened JitterRuns
  import opened Words
  import opened Wrappers

  /** How many frames have been accepted and not yet played. */
  function Held(c: Config, run: seq<Call>): int {
    |Accepted(c, EMPTY, run)| - Real(Emitted(c, EMPTY, run))
  }

  /** The number that is to be played next, once there is a stream. */
  function Cursor(c: Config, run: seq<Call>): int {
    Start(c, run) + |Emitted(c, EMPTY, run)|
  }

  /** Closed, and everything accepted has been played. */
  predicate Over(c: Config, run: seq<Call>) {
    Finish in run && Held(c, run) == 0
  }

  /** The buffer waits for nothing but the number at its cursor. */
  predicate Started(c: Config, run: seq<Call>) {
    && Accepted(c, EMPTY, run) != map[] && !Over(c, run)
    && (Finish in run || |Accepted(c, EMPTY, run)| >= c.prebuffer)
  }

  // ---------------------------------------------------------------- the buffer behind the run

  lemma AcceptedGrows(c: Config, front: seq<Call>, call: Call)
    requires c.IsValid() && Legal(c, EMPTY, front)
    requires call.Arrive? ==> Arrives(After(c, EMPTY, front), call.u, call.frame)
    requires Step(c, After(c, EMPTY, front), call).1 == Told(Inserted)
    ensures call.u !in Accepted(c, EMPTY, front)
  {
    hide After, Accepted, Emitted, Start, Legal, Admissible, Store;
    RunFaithful(c, front);
    HeldAhead(c, After(c, EMPTY, front), Accepted(c, EMPTY, front), Emitted(c, EMPTY, front), Start(c, front), call.u);
  }

  /** A number at or past the cursor is accepted exactly when it is held. */
  lemma HeldAhead(c: Config, b: Buffer, accepted: map<int, AudioFrame>, played: seq<PlaybackItem>, start: int, u: int)
    requires Faithful(c, b, accepted, played, start)
    ensures !b.initialized ==> accepted == map[] && played == []
    ensures b.initialized && b.next <= u ==> (u in b.frames <==> u in accepted)
  {
  }

  /** The counter of insertions is the number of accepted frames. */
  lemma {:induction false} InsertedIsAccepted(c: Config, run: seq<Call>)
    requires c.IsValid() && Legal(c, EMPTY, run)
    ensures |Accepted(c, EMPTY, run)| == After(c, EMPTY, run).stats.inserted
  {
    if run != [] {
      var front, call := run[..|run| - 1], run[|run| - 1];
      InsertedIsAccepted(c, front);
      RunKeepsInv(c, EMPTY, front) by { EmptySound(c); }
      InsertionCounts(c, After(c, EMPTY, front), call);
      if Step(c, After(c, EMPTY, front), call).1 == Told(Inserted) {
        AcceptedGrows(c, front, call);
      }
      hide After, Emitted, Start, Step, Inv;
    }
  }

  lemma EmptySound(c: Config)
    requires c.IsValid()
    ensures Inv(c, EMPTY)
  {
  }

  lemma InsertionCounts(c: Config, b: Buffer, call: Call)
    requires Inv(c, b)
    ensures var (b', answer) := Step(c, b, call);
      b'.stats.inserted == b.stats.inserted + if answer == Told(Inserted) then 1 else 0
  {
    hide FrameDuration, Wrap, Conceal;
  }

  /** What the buffer holds, in terms of the run. */
  lemma BufferOf(c: Config, run: seq<Call>)
    requires c.IsValid() && Legal(c, EMPTY, run)
    ensures var b, accepted := After(c, EMPTY, run), Accepted(c, EMPTY, run);
      && Inv(c, b)
      && |b.frames| == Held(c, run)
      && (b.initialized <==> accepted != map[])
      && (b.initialized ==>
            && Start(c, run) in accepted
            && b.next == Cursor(c, run)
            && (forall u :: b.next <= u ==> (u in b.frames <==> u in accepted))
            && (forall u :: u in b.frames ==> b.next <= u && b.frames[u] == accepted[u]))
      && (forall u :: u in accepted ==> OfStream(b, accepted[u]))
      && (b.state.Buffering? ==> Held(c, run) == |accepted|)
  {
    hide After, Accepted, Emitted, Start, Legal, Real;
    RunFaithful(c, run);
    Accounting(c, run);
    InsertedIsAccepted(c, run);
    var b, accepted := After(c, EMPTY, run), Accepted(c, EMPTY, run);
    var played, start := Emitted(c, EMPTY, run), Start(c, run);
    if b.initialized {
      PlaylistAt(c, accepted, start, b.duration.value, b.next - start);
    }
    if b.state.Buffering? {
      NothingPlayed(c, b, accepted, played, start);
    }
  }

  lemma NothingPlayed(c: Config, b: Buffer, accepted: map<int, AudioFrame>, played: seq<PlaybackItem>, start: int)
    requires Faithful(c, b, accepted, played, start) && b.previous.None?
    ensures Real(played) == 0
  {
    hide FrameDuration, Wrap, Conceal;
  }

  lemma StateStep(c: Config, b: Buffer, call: Call)
    requires Inv(c, b) && call != Finish
    ensures var (b', answer) := Step(c, b, call);
      && ((b'.state.Buffering? || b'.state.Ready?) <==> (b.state.Buffering? || b.state.Ready?))
      && (b.state.Ready? ==> b'.state.Ready?)
      && (b.state.Buffering? ==>
            (b'.state.Ready? <==> answer == Told(Inserted) && |b.frames| + 1 >= c.prebuffer))
  {
    hide FrameDuration, Wrap, Conceal;
  }

  /**
   The state after a run: buffering until enough frames have been accepted, ready from then on;
   after a close, draining while something accepted is unplayed, and then stopped.
   */
  lemma {:induction false} StateExact(c: Config, run: seq<Call>)
    requires c.IsValid() && Legal(c, EMPTY, run)
    ensures After(c, EMPTY, run).state ==
      if Finish in run then (if Held(c, run) == 0 then Stopped else Draining)
      else if |Accepted(c, EMPTY, run)| < c.prebuffer then Buffering
      else Ready
  {
    if run == [] {
      EmptySound(c);
    } else {
      hide Step, Accepted, Emitted, Start, Inv, Real;
      var front, call := run[..|run| - 1], run[|run| - 1];
      assert run == front + [call];
      StateExact(c, front);
      BufferOf(c, front);
      BufferOf(c, run);
      AcceptedCount(c, run);
      SoundStates(c, After(c, EMPTY, run));
      if call == Finish {
        ClosedState(c, After(c, EMPTY, front));
      } else {
        SoundStates(c, After(c, EMPTY, front));
        StateStep(c, After(c, EMPTY, front), call);
      }
    }
  }

  lemma AcceptedCount(c: Config, run: seq<Call>)
    requires c.IsValid() && Legal(c, EMPTY, run) && run != []
    ensures var front, answer := run[..|run| - 1], Step(c, After(c, EMPTY, run[..|run| - 1]), run[|run| - 1]).1;
      |Accepted(c, EMPTY, run)| == |Accepted(c, EMPTY, front)| + if answer == Told(Inserted) then 1 else 0
  {
    var front, call := run[..|run| - 1], run[|run| - 1];
    if Step(c, After(c, EMPTY, front), call).1 == Told(Inserted) {
      AcceptedGrows(c, front, call);
    }
    hide Step, After;
  }

  /** In a sound buffer the state shows whether anything is held. */
  lemma SoundStates(c: Config, b: Buffer)
    requires Inv(c, b)
    ensures b.state.Draining? ==> |b.frames| != 0
    ensures b.state.Stopped? ==> |b.frames| == 0
    ensures b.state.Buffering? ==> |b.frames| < c.prebuffer
  {
  }

  lemma ClosedState(c: Config, b: Buffer)
    requires Inv(c, b)
    ensures var state := Step(c, b, Finish).0.state; state.Draining? || state.Stopped?
  {
  }

  // ---------------------------------------------------------------- arrivals

  /** The frame has a duration, and format and duration are those of every frame accepted so far. */
  predicate Fits(accepted: map<int, AudioFrame>, frame: AudioFrame) {
    && FrameDuration(frame).Some? && FrameDuration(frame).value != 0
    && forall v :: v in accepted ==>
         accepted[v].format == frame.format && FrameDuration(accepted[v]) == FrameDuration(frame)
  }

  lemma FitsStream(b: Buffer, accepted: map<int, AudioFrame>, start: int, frame: AudioFrame)
    requires if b.format.Some? then start in accepted else accepted == map[]
    requires forall u :: u in accepted ==> OfStream(b, accepted[u])
    ensures Admissible(b, frame) <==> Fits(accepted, frame)
  {
    hide FrameDuration;
    if b.format.Some? {
      assert OfStream(b, accepted[start]);
    }
  }

  /** What the buffer answers to an arrival after any run, and why. */
  lemma ArrivalExact(c: Config, run: seq<Call>, u: int, frame: AudioFrame)
    requires c.IsValid() && Legal(c, EMPTY, run) && Arrives(After(c, EMPTY, run), u, frame)
    ensures var accepted := Accepted(c, EMPTY, run);
      Insert(c, After(c, EMPTY, run), u, frame).1 ==
        if Over(c, run) then Refused
        else if !Fits(accepted, frame) then Incompatible
        else if accepted != map[] && u < Cursor(c, run) then Late
        else if u in accepted then Duplicate
        else if Held(c, run) >= c.capacity then Overflow
        else Inserted
  {
    hide After, Accepted, Emitted, Start, Legal, Held, Cursor, FrameDuration, Admissible, Fits, Wrap;
    BufferOf(c, run);
    StateExact(c, run);
    FitsStream(After(c, EMPTY, run), Accepted(c, EMPTY, run), Start(c, run), frame);
  }

  // ---------------------------------------------------------------- pulls

  /** When the number at the cursor was first pulled in vain. */
  function FirstMiss(c: Config, run: seq<Call>): Option<int> {
    if run == [] then None
    else
      var front, call := run[..|run| - 1], run[|run| - 1];
      if !call.Pull? || FirstMiss(c, front).Some? then
        if |Emitted(c, EMPTY, run)| > |Emitted(c, EMPTY, front)| then None else FirstMiss(c, front)
      else if Started(c, front) && Cursor(c, front) !in Accepted(c, EMPTY, front) then Some(call.now)
      else None
  }

  lemma WaitAfter(c: Config, b: Buffer, call: Call)
    requires Inv(c, b)
    ensures var (b', answer) := Step(c, b, call);
      b'.wait ==
        if !call.Pull? then b.wait
        else if Played(answer) != [] then None
        else if b.wait.Some? then b.wait
        else if Playing(b) && b.next !in b.frames then Some(call.now + c.missingWait)
        else None
    ensures !call.Pull? ==> Played(Step(c, b, call).1) == []
    ensures call.Pull? && b.wait.None? && Playing(b) && b.next !in b.frames ==> Played(Step(c, b, call).1) == []
  {
    hide FrameDuration, Wrap, Conceal;
  }

  lemma StartedIsPlaying(c: Config, run: seq<Call>)
    requires c.IsValid() && Legal(c, EMPTY, run)
    ensures Playing(After(c, EMPTY, run)) <==> Started(c, run)
    ensures Started(c, run) ==>
      (Cursor(c, run) in Accepted(c, EMPTY, run) <==> After(c, EMPTY, run).next in After(c, EMPTY, run).frames)
  {
    hide After, Accepted, Emitted, Start, Legal, Held, Cursor;
    BufferOf(c, run);
    StateExact(c, run);
  }

  lemma EmittedGrows(c: Config, run: seq<Call>)
    requires run != []
    ensures var front, answer := run[..|run| - 1], Step(c, After(c, EMPTY, run[..|run| - 1]), run[|run| - 1]).1;
      |Emitted(c, EMPTY, run)| == |Emitted(c, EMPTY, front)| + |Played(answer)|
  {
    hide Step;
  }

  function Deadline(c: Config, miss: Option<int>): Option<int> {
    if miss.Some? then Some(miss.value + c.missingWait) else None
  }

  /** One more call, for a deadline and a first miss that agree. */
  lemma MissStep(c: Config, b: Buffer, call: Call, miss: Option<int>, aiming: bool)
    requires Inv(c, b) && b.wait == Deadline(c, miss)
    requires aiming <==> Playing(b) && b.next !in b.frames
    ensures var (b', answer) := Step(c, b, call);
      b'.wait == Deadline(c,
        if !call.Pull? || miss.Some? then (if |Played(answer)| > 0 then None else miss)
        else if aiming then Some(call.now)
        else None)
  {
    hide Step, Inv, Playing, Played;
    WaitAfter(c, b, call);
  }

  /** The deadline the buffer keeps is that of the first pull in vain. */
  lemma {:induction false} WaitExact(c: Config, run: seq<Call>)
    requires c.IsValid() && Legal(c, EMPTY, run)
    ensures After(c, EMPTY, run).wait == Deadline(c, FirstMiss(c, run))
  {
    if run != [] {
      var front, call := run[..|run| - 1], run[|run| - 1];
      WaitExact(c, front);
      hide Step, Inv, Started, Cursor, Accepted, Start, Playing, Emitted, Faithful, Played, Deadline;
      BufferOf(c, front);
      StartedIsPlaying(c, front);
      EmittedGrows(c, run);
      MissStep(c, After(c, EMPTY, front), call, FirstMiss(c, front),
               Started(c, front) && Cursor(c, front) !in Accepted(c, EMPTY, front));
    }
  }

  /**
   What the buffer answers to a pull after any run. A stand-in is handed out exactly when the missing
   wait has passed since the first pull that missed the number at the cursor, never earlier.
   */
  lemma PullExact(c: Config, run: seq<Call>, now: int)
    requires c.IsValid() && Legal(c, EMPTY, run)
    ensures var item, accepted := Pop(c, After(c, EMPTY, run), now).1, Accepted(c, EMPTY, run);
      && item.status == (
           if Over(c, run) then Ended
           else if !Started(c, run) then NotReady
           else if Cursor(c, run) in accepted then Frame
           else if FirstMiss(c, run).Some? && FirstMiss(c, run).value + c.missingWait <= now then Missing
           else NotReady)
      && (item.status.Frame? ==> item.frame == Some(accepted[Cursor(c, run)]))
      && (item.frame.Some? <==> item.status.Frame? || item.status.Missing?)
      && (accepted != map[] ==> item.sequence == Wrap(Cursor(c, run)))
  {
    hide After, Accepted, Emitted, Start, Legal, Held, Cursor, FirstMiss, FrameDuration, Conceal, Wrap;
    BufferOf(c, run);
    StateExact(c, run);
    WaitExact(c, run);
  }

  // ---------------------------------------------------------------- stand-ins

  /** What is heard in place of a frame of the given payload. */
  predicate StandsIn(policy: ConcealmentPolicy, payload: seq<Byte>, original: seq<Byte>) {
    && |payload| == |original|
    && (policy.Silence? ==> forall k :: 0 <= k < |payload| ==> payload[k] == 0)
    && (policy.RepeatPrevious? ==> payload == original)
  }

  /**
   Every stand-in played is made from the nearest accepted frame before it: silence of its length, or
   its payload again, one frame duration after it.
   */
  lemma StandInExact(c: Config, run: seq<Call>, i: nat)
    requires c.IsValid() && Legal(c, EMPTY, run)
    requires i < |Emitted(c, EMPTY, run)| && Emitted(c, EMPTY, run)[i].concealed
    ensures var item, accepted, start := Emitted(c, EMPTY, run)[i], Accepted(c, EMPTY, run), Start(c, run);
      && start in accepted && start < start + i && start + i !in accepted
      && var original := accepted[LastBefore(accepted, start, start + i)];
      && item.status.Missing? && item.sequence == Wrap(start + i)
      && item.frame.Some? && item.frame.value.sequence == Wrap(start + i)
      && item.frame.value.format == original.format
      && StandsIn(c.concealment, item.frame.value.payload, original.payload)
      && FrameDuration(original).Some?
      && item.frame.value.timestamp == original.timestamp + FrameDuration(original).value
  {
    hide After, Accepted, Emitted, Start, Legal, FrameDuration, Wrap, Faithful, Slot, StandsIn, Inv;
    ExactPlayback(c, run);
    RunFaithful(c, run);
    FaithfulStarts(c, After(c, EMPTY, run), Accepted(c, EMPTY, run), Emitted(c, EMPTY, run), Start(c, run));
    SlotStandsIn(c, After(c, EMPTY, run), Accepted(c, EMPTY, run), Emitted(c, EMPTY, run), Start(c, run), i);
  }

  lemma FaithfulStarts(c: Config, b: Buffer, accepted: map<int, AudioFrame>, played: seq<PlaybackItem>, start: int)
    requires Faithful(c, b, accepted, played, start) && played != []
    ensures b.initialized
  {
  }

  lemma SlotStandsIn(c: Config, b: Buffer, accepted: map<int, AudioFrame>, played: seq<PlaybackItem>, start: int,
                     i: nat)
    requires Faithful(c, b, accepted, played, start) && start in accepted && b.duration.Some?
    requires Slot(c, accepted, start, b.duration.value, start + i).concealed && b.initialized
    ensures start < start + i && start + i !in accepted
    ensures var item := Slot(c, accepted, start, b.duration.value, start + i);
      var original := accepted[LastBefore(accepted, start, start + i)];
      && item.status.Missing? && item.sequence == Wrap(start + i)
      && item.frame.Some? && item.frame.value.sequence == Wrap(start + i)
      && item.frame.value.format == original.format
      && StandsIn(c.concealment, item.frame.value.payload, original.payload)
      && FrameDuration(original).Some?
      && item.frame.value.timestamp == original.timestamp + FrameDuration(original).value
  {
    hide FrameDuration, Wrap, Playlist;
    assert InStream(b, LastBefore(accepted, start, start + i), accepted[LastBefore(accepted, start, start + i)]);
  }

  // ---------------------------------------------------------------- counters

  /** How many arrivals were answered in the given way. */
  function Answered(c: Config, run: seq<Call>, result: InsertResult): nat {
    if run == [] then 0
    else
      var front, call := run[..|run| - 1], run[|run| - 1];
      Answered(c, front, result) + if Step(c, After(c, EMPTY, front), call).1 == Told(result) then 1 else 0
  }

  /** How many frames were accepted out of turn: not right behind those held, while some were held. */
  function OutOfTurn(c: Config, run: seq<Call>): nat {
    if run == [] then 0
    else
      var front, call := run[..|run| - 1], run[|run| - 1];
      OutOfTurn(c, front)
      + if Step(c, After(c, EMPTY, front), call).1 == Told(Inserted)
           && Held(c, front) != 0 && call.u != Cursor(c, front) + Held(c, front) then 1 else 0
  }

  /** The most frames ever held. */
  function Deepest(c: Config, run: seq<Call>): int {
    if run == [] then 0
    else
      var before := Deepest(c, run[..|run| - 1]);
      if Held(c, run) > before then Held(c, run) else before
  }

  /** How one call moves the counters. */
  ghost predicate Counts(b: Buffer, b': Buffer, call: Call, answer: Answer) {
    && b'.stats.late == b.stats.late + (if answer == Told(Late) then 1 else 0)
    && b'.stats.duplicates == b.stats.duplicates + (if answer == Told(Duplicate) then 1 else 0)
    && b'.stats.overflow == b.stats.overflow + (if answer == Told(Overflow) then 1 else 0)
    && b'.stats.incompatible == b.stats.incompatible + (if answer == Told(Incompatible) then 1 else 0)
    && b'.stats.reordered == b.stats.reordered
         + (if call.Arrive? && answer == Told(Inserted)
               && |b.frames| != 0 && call.u != b.next + |b.frames| then 1 else 0)
    && b'.stats.maxDepth == Max(b.stats.maxDepth, |b'.frames|)
  }

  lemma ArriveCounts(c: Config, b: Buffer, u: int, frame: AudioFrame)
    requires Inv(c, b)
    ensures var (b', result) := Insert(c, b, u, frame); Counts(b, b', Arrive(u, frame), Told(result))
  {
    hide FrameDuration, Wrap, Admissible, InStream;
  }

  lemma PullCounts(c: Config, b: Buffer, now: int)
    requires Inv(c, b)
    ensures var (b', item) := Pop(c, b, now); Counts(b, b', Pull(now), Handed(item))
  {
    hide FrameDuration, Wrap, Conceal, InStream;
    if b.next in b.frames {
      assert (b.frames - {b.next}).Keys == b.frames.Keys - {b.next};
      assert |(b.frames - {b.next}).Keys| == |b.frames| - 1;
    }
  }

  lemma CountersStep(c: Config, b: Buffer, call: Call)
    requires Inv(c, b)
    ensures var (b', answer) := Step(c, b, call); Counts(b, b', call, answer)
  {
    match call
    case Arrive(u, frame) =>
      hide Inv, Insert, Counts;
      ArriveCounts(c, b, u, frame);
    case Pull(now) =>
      hide Inv, Pop, Counts;
      PullCounts(c, b, now);
    case Finish =>
  }

  /** Every counter is the number of answers it counts. */
  lemma {:induction false} CountersExact(c: Config, run: seq<Call>)
    requires c.IsValid() && Legal(c, EMPTY, run)
    ensures var stats := After(c, EMPTY, run).stats;
      && stats.late == Answered(c, run, Late)
      && stats.duplicates == Answered(c, run, Duplicate)
      && stats.overflow == Answered(c, run, Overflow)
      && stats.incompatible == Answered(c, run, Incompatible)
      && stats.inserted == |Accepted(c, EMPTY, run)|
      && stats.reordered == OutOfTurn(c, run)
      && stats.depth == Held(c, run) && stats.maxDepth == Deepest(c, run)
  {
    InsertedIsAccepted(c, run);
    BufferOf(c, run);
    if run != [] {
      hide Step, Accepted, Emitted, Start, Held, Cursor;
      var front, call := run[..|run| - 1], run[|run| - 1];
      CountersExact(c, front);
      BufferOf(c, front);
      CountersStep(c, After(c, EMPTY, front), call);
    }
  }
}
