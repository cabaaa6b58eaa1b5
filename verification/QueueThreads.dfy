/**
 Any number of threads using the blocking queue, in every interleaving, with spurious wake-ups.

 A thread inside `push` or `pop` is asleep while it is in the wait set of its condition variable,
 and otherwise about to take the lock and test its condition. After storing or taking a frame it
 has given up the lock and still owes a notification.
 */
module QueueThreads {
  import opened AudioFrames
  import opened QueueModel
  import opened Wrappers

  datatype Phase =
    | Outside
    | Pushing(frame: AudioFrame)
    | OwesNotEmpty          // has stored, has not yet notified
    | Popping
    | OwesNotFull           // has taken, has not yet notified
    | ClosingFirst          // has closed, has not yet woken the producers
    | ClosingSecond         // has not yet woken the consumers

  datatype System = System(
    queue: Monitor, threads: map<ThreadId, Phase>, accepted: seq<AudioFrame>, taken: seq<AudioFrame>)

  datatype Event =
    | CallPush(t: ThreadId, frame: AudioFrame)
    | CallPop(t: ThreadId)
    | CallClose(t: ThreadId)
    | CallTryPush(t: ThreadId, frame: AudioFrame, chosen: Option<ThreadId>)
    | CallTryPop(t: ThreadId, chosen: Option<ThreadId>)
    | Proceed(t: ThreadId, chosen: Option<ThreadId>)
    | WakeForNothing(t: ThreadId)

  /** May the event happen? A sleeping thread does nothing until it is woken. */
  predicate Possible(s: System, e: Event) {
    && e.t in s.threads
    && match e
       case CallTryPush(t, _, chosen) =>
         && s.threads[t].Outside?
         && (!s.queue.closed && |s.queue.frames| < s.queue.capacity ==> CanWake(s.queue.notEmpty, chosen))
       case CallTryPop(t, chosen) =>
         && s.threads[t].Outside?
         && (s.queue.frames != [] ==> CanWake(s.queue.notFull, chosen))
       case Proceed(t, chosen) =>
         && !s.threads[t].Outside? && t !in s.queue.notEmpty && t !in s.queue.notFull
         && (s.threads[t].OwesNotEmpty? ==> CanWake(s.queue.notEmpty, chosen))
         && (s.threads[t].OwesNotFull? ==> CanWake(s.queue.notFull, chosen))
       case WakeForNothing(t) => t in s.queue.notEmpty || t in s.queue.notFull
       case _ => s.threads[e.t].Outside?
  }

  function Set(s: System, t: ThreadId, phase: Phase): System {
    s.(threads := s.threads[t := phase])
  }

  function EnterPush(s: System, t: ThreadId, frame: AudioFrame): System {
    var (queue, outcome) := PushSection(s.queue, t, frame);
    if outcome.Stored? then Set(s.(queue := queue, accepted := s.accepted + [frame]), t, OwesNotEmpty)
    else Set(s.(queue := queue), t, if outcome.Asleep? then Pushing(frame) else Outside)
  }

  function EnterPop(s: System, t: ThreadId): System {
    var (queue, outcome) := PopSection(s.queue, t);
    if outcome.Took? then Set(s.(queue := queue, taken := s.taken + [outcome.frame]), t, OwesNotFull)
    else Set(s.(queue := queue), t, if outcome.Asleep? then Popping else Outside)
  }

  function Advance(s: System, t: ThreadId, chosen: Option<ThreadId>): System
    requires t in s.threads
  {
    var q := s.queue;
    match s.threads[t]
    case Outside => s
    case Pushing(frame) => EnterPush(s, t, frame)
    case OwesNotEmpty => Set(s.(queue := q.(notEmpty := Woken(q.notEmpty, chosen))), t, Outside)
    case Popping => EnterPop(s, t)
    case OwesNotFull => Set(s.(queue := q.(notFull := Woken(q.notFull, chosen))), t, Outside)
    case ClosingFirst => Set(s.(queue := q.(notFull := {})), t, ClosingSecond)
    case ClosingSecond => Set(s.(queue := q.(notEmpty := {})), t, Outside)
  }

  function Step(s: System, e: Event): System
    requires Possible(s, e)
  {
    match e
    case CallPush(t, frame) => EnterPush(s, t, frame)
    case CallPop(t) => EnterPop(s, t)
    case CallClose(t) => Set(s.(queue := s.queue.(closed := true)), t, ClosingFirst)
    case CallTryPush(t, frame, chosen) =>
      var (queue, accepted) := TryPush(s.queue, frame, chosen);
      s.(queue := queue, accepted := if accepted then s.accepted + [frame] else s.accepted)
    case CallTryPop(t, chosen) =>
      var (queue, frame) := TryPop(s.queue, chosen);
      s.(queue := queue, taken := if frame.Some? then s.taken + [frame.value] else s.taken)
    case Proceed(t, chosen) => Advance(s, t, chosen)
    case WakeForNothing(t) =>
      s.(queue := s.queue.(notEmpty := s.queue.notEmpty - {t}, notFull := s.queue.notFull - {t}))
  }

  ghost predicate Initial(s: System) {
    && s.queue.capacity > 0
    && s.queue == Monitor(s.queue.capacity, [], false, {}, {})
    && s.accepted == [] && s.taken == []
    && forall t :: t in s.threads ==> s.threads[t].Outside?
  }

  ghost predicate LegalRun(s: System, run: seq<Event>)
    decreases |run|, 0
  {
    run != [] ==> LegalRun(s, run[..|run| - 1]) && Possible(After(s, run[..|run| - 1]), run[|run| - 1])
  }

  ghost function After(s: System, run: seq<Event>): System
    requires LegalRun(s, run)
    decreases |run|, 1
  {
    if run == [] then s else Step(After(s, run[..|run| - 1]), run[|run| - 1])
  }

  // ---------------------------------------------------------------- who owes whom

  function Storers(threads: map<ThreadId, Phase>): set<ThreadId> {
    set t | t in threads && threads[t].OwesNotEmpty?
  }

  function Takers(threads: map<ThreadId, Phase>): set<ThreadId> {
    set t | t in threads && threads[t].OwesNotFull?
  }

  function Consumers(threads: map<ThreadId, Phase>): set<ThreadId> {
    set t | t in threads && threads[t].Popping?
  }

  function Producers(threads: map<ThreadId, Phase>): set<ThreadId> {
    set t | t in threads && threads[t].Pushing?
  }

  /** Consumers that are awake and about to look at the queue. */
  function AwakeConsumers(s: System): set<ThreadId> {
    Consumers(s.threads) - s.queue.notEmpty
  }

  function AwakeProducers(s: System): set<ThreadId> {
    Producers(s.threads) - s.queue.notFull
  }

  /** Some thread is still going to wake every consumer because the queue was closed. */
  ghost predicate WillWakeConsumers(s: System) {
    exists t :: t in s.threads && (s.threads[t].ClosingFirst? || s.threads[t].ClosingSecond?)
  }

  ghost predicate WillWakeProducers(s: System) {
    exists t :: t in s.threads && s.threads[t].ClosingFirst?
  }

  /** While consumers sleep on an open queue, as many wake-ups are on their way as there are frames. */
  ghost predicate ConsumersServed(s: System) {
    if s.queue.closed then s.queue.notEmpty != {} ==> WillWakeConsumers(s)
    else s.queue.notEmpty != {} ==> |s.queue.frames| <= |Storers(s.threads)| + |AwakeConsumers(s)|
  }

  /** While producers sleep on an open queue, as many wake-ups are on their way as there is room. */
  ghost predicate ProducersServed(s: System) {
    if s.queue.closed then s.queue.notFull != {} ==> WillWakeProducers(s)
    else s.queue.notFull != {} ==>
           s.queue.capacity - |s.queue.frames| <= |Takers(s.threads)| + |AwakeProducers(s)|
  }

  ghost predicate Bounded(s: System) {
    && s.queue.capacity > 0
    && |s.queue.frames| <= s.queue.capacity
    && s.accepted == s.taken + s.queue.frames
    && s.queue.notEmpty <= Consumers(s.threads)
    && s.queue.notFull <= Producers(s.threads)
  }

  ghost predicate Inv(s: System) {
    Bounded(s) && ConsumersServed(s) && ProducersServed(s)
  }

  lemma InitialInv(s: System)
    requires Initial(s)
    ensures Inv(s)
  {
  }

  lemma PhaseSets(threads: map<ThreadId, Phase>, t: ThreadId, phase: Phase)
    ensures Storers(threads[t := phase])
         == if phase.OwesNotEmpty? then Storers(threads) + {t} else Storers(threads) - {t}
    ensures Takers(threads[t := phase])
         == if phase.OwesNotFull? then Takers(threads) + {t} else Takers(threads) - {t}
    ensures Consumers(threads[t := phase])
         == if phase.Popping? then Consumers(threads) + {t} else Consumers(threads) - {t}
    ensures Producers(threads[t := phase])
         == if phase.Pushing? then Producers(threads) + {t} else Producers(threads) - {t}
  {
  }

  lemma Membership(threads: map<ThreadId, Phase>, t: ThreadId)
    requires t in threads
    ensures t in Consumers(threads) <==> threads[t].Popping?
    ensures t in Producers(threads) <==> threads[t].Pushing?
  {
  }

  lemma Toggle(group: set<ThreadId>, t: ThreadId, present: bool)
    ensures |if present then group + {t} else group - {t}|
         == |group| - (if t in group then 1 else 0) + if present then 1 else 0
  {
    if t in group {
      assert group + {t} == group;
    } else {
      assert group - {t} == group;
    }
  }

  /** How the counts change when thread `t` enters `phase`. */
  lemma PhaseCounts(threads: map<ThreadId, Phase>, t: ThreadId, phase: Phase)
    requires t in threads
    ensures |Storers(threads[t := phase])|
         == |Storers(threads)| - (if threads[t].OwesNotEmpty? then 1 else 0) + if phase.OwesNotEmpty? then 1 else 0
    ensures |Takers(threads[t := phase])|
         == |Takers(threads)| - (if threads[t].OwesNotFull? then 1 else 0) + if phase.OwesNotFull? then 1 else 0
  {
    PhaseSets(threads, t, phase);
    Toggle(Storers(threads), t, phase.OwesNotEmpty?);
    Toggle(Takers(threads), t, phase.OwesNotFull?);
  }

  /** Of a group some are asleep; `t`, who is awake, joins or leaves it, or falls asleep. */
  lemma AwakeCount(group: set<ThreadId>, asleep: set<ThreadId>, t: ThreadId, joins: bool, asleep': set<ThreadId>)
    requires t !in asleep && (asleep' == asleep || asleep' == asleep + {t})
    ensures |(if joins then group + {t} else group - {t}) - asleep'|
         == |group - asleep| - (if t in group then 1 else 0) + if joins && t !in asleep' then 1 else 0
  {
    var present := joins && t !in asleep';
    Toggle(group - asleep, t, present);
    if present {
      assert (group + {t}) - asleep' == (group - asleep) + {t};
    } else if joins {
      assert (group + {t}) - asleep' == (group - asleep) - {t};
    } else {
      assert (group - {t}) - asleep' == (group - asleep) - {t};
    }
  }

  /** A thread that is awake enters `phase`, asleep on a wait set or not. */
  lemma AwakeConsumerCounts(s: System, s': System, t: ThreadId, phase: Phase)
    requires t in s.threads && s'.threads == s.threads[t := phase] && t !in s.queue.notEmpty
    requires s'.queue.notEmpty == s.queue.notEmpty || s'.queue.notEmpty == s.queue.notEmpty + {t}
    ensures |AwakeConsumers(s')| == |AwakeConsumers(s)| - (if s.threads[t].Popping? then 1 else 0)
                                  + if phase.Popping? && t !in s'.queue.notEmpty then 1 else 0
  {
    hide Storers, Takers, Consumers, Producers;
    PhaseSets(s.threads, t, phase);
    Membership(s.threads, t);
    AwakeCount(Consumers(s.threads), s.queue.notEmpty, t, phase.Popping?, s'.queue.notEmpty);
  }

  lemma AwakeProducerCounts(s: System, s': System, t: ThreadId, phase: Phase)
    requires t in s.threads && s'.threads == s.threads[t := phase] && t !in s.queue.notFull
    requires s'.queue.notFull == s.queue.notFull || s'.queue.notFull == s.queue.notFull + {t}
    ensures |AwakeProducers(s')| == |AwakeProducers(s)| - (if s.threads[t].Pushing? then 1 else 0)
                                  + if phase.Pushing? && t !in s'.queue.notFull then 1 else 0
  {
    hide Storers, Takers, Consumers, Producers;
    PhaseSets(s.threads, t, phase);
    Membership(s.threads, t);
    AwakeCount(Producers(s.threads), s.queue.notFull, t, phase.Pushing?, s'.queue.notFull);
  }

  lemma ClosersStay(s: System, s': System, t: ThreadId, phase: Phase)
    requires t in s.threads && s'.threads == s.threads[t := phase]
    requires !s.threads[t].ClosingFirst? && !s.threads[t].ClosingSecond?
    ensures WillWakeConsumers(s) ==> WillWakeConsumers(s')
    ensures WillWakeProducers(s) ==> WillWakeProducers(s')
  {
    if WillWakeConsumers(s) {
      var u :| u in s.threads && (s.threads[u].ClosingFirst? || s.threads[u].ClosingSecond?);
      assert u in s'.threads && s'.threads[u] == s.threads[u];
    }
    if WillWakeProducers(s) {
      var u :| u in s.threads && s.threads[u].ClosingFirst?;
      assert u in s'.threads && s'.threads[u] == s.threads[u];
    }
  }

  /** Everything that changes when an awake thread runs a stretch under the lock. */
  lemma SectionCounts(s: System, s': System, t: ThreadId)
    requires t in s.threads && t !in s.queue.notEmpty && t !in s.queue.notFull
    requires !s.threads[t].ClosingFirst? && !s.threads[t].ClosingSecond?
    requires t in s'.threads && s'.threads == s.threads[t := s'.threads[t]]
    requires s'.queue.notEmpty == s.queue.notEmpty || s'.queue.notEmpty == s.queue.notEmpty + {t}
    requires s'.queue.notFull == s.queue.notFull || s'.queue.notFull == s.queue.notFull + {t}
    ensures var left, entered := s.threads[t], s'.threads[t];
      && |Storers(s'.threads)|
         == |Storers(s.threads)| - (if left.OwesNotEmpty? then 1 else 0) + (if entered.OwesNotEmpty? then 1 else 0)
      && |Takers(s'.threads)|
         == |Takers(s.threads)| - (if left.OwesNotFull? then 1 else 0) + (if entered.OwesNotFull? then 1 else 0)
      && |AwakeConsumers(s')| == |AwakeConsumers(s)| - (if left.Popping? then 1 else 0)
                                + (if entered.Popping? && t !in s'.queue.notEmpty then 1 else 0)
      && |AwakeProducers(s')| == |AwakeProducers(s)| - (if left.Pushing? then 1 else 0)
                                + (if entered.Pushing? && t !in s'.queue.notFull then 1 else 0)
      && (WillWakeConsumers(s) ==> WillWakeConsumers(s'))
      && (WillWakeProducers(s) ==> WillWakeProducers(s'))
      && Consumers(s'.threads) == (if entered.Popping? then Consumers(s.threads) + {t} else Consumers(s.threads) - {t})
      && Producers(s'.threads) == (if entered.Pushing? then Producers(s.threads) + {t} else Producers(s.threads) - {t})
  {
    PhaseSets(s.threads, t, s'.threads[t]);
    PhaseCounts(s.threads, t, s'.threads[t]);
    AwakeConsumerCounts(s, s', t, s'.threads[t]);
    AwakeProducerCounts(s, s', t, s'.threads[t]);
    ClosersStay(s, s', t, s'.threads[t]);
  }

  lemma EnterPushInv(s: System, t: ThreadId, frame: AudioFrame)
    requires Inv(s) && t in s.threads && t !in s.queue.notEmpty && t !in s.queue.notFull
    requires s.threads[t].Outside? || s.threads[t] == Pushing(frame)
    ensures Inv(EnterPush(s, t, frame))
  {
    hide Storers, Takers, AwakeConsumers, AwakeProducers, Consumers, Producers, WillWakeConsumers, WillWakeProducers;
    SectionCounts(s, EnterPush(s, t, frame), t);
  }

  lemma EnterPopInv(s: System, t: ThreadId)
    requires Inv(s) && t in s.threads && t !in s.queue.notEmpty && t !in s.queue.notFull
    requires s.threads[t].Outside? || s.threads[t].Popping?
    ensures Inv(EnterPop(s, t))
  {
    hide Storers, Takers, AwakeConsumers, AwakeProducers, Consumers, Producers, WillWakeConsumers, WillWakeProducers;
    SectionCounts(s, EnterPop(s, t), t);
  }

  /** Waking a sleeping consumer makes one more consumer awake. */
  lemma WakeConsumerCounts(s: System, s': System, t: ThreadId)
    requires s'.threads == s.threads && t in s.queue.notEmpty && s.queue.notEmpty <= Consumers(s.threads)
    requires s'.queue.notEmpty == s.queue.notEmpty - {t}
    ensures |AwakeConsumers(s')| == |AwakeConsumers(s)| + 1
  {
    assert AwakeConsumers(s') == AwakeConsumers(s) + {t};
  }

  lemma WakeProducerCounts(s: System, s': System, t: ThreadId)
    requires s'.threads == s.threads && t in s.queue.notFull && s.queue.notFull <= Producers(s.threads)
    requires s'.queue.notFull == s.queue.notFull - {t}
    ensures |AwakeProducers(s')| == |AwakeProducers(s)| + 1
  {
    assert AwakeProducers(s') == AwakeProducers(s) + {t};
  }

  /** A store that is notified under the lock. */
  lemma TryPushInv(s: System, e: Event)
    requires Inv(s) && Possible(s, e) && e.CallTryPush?
    ensures Inv(Step(s, e))
  {
    var s' := Step(s, e);
    if s'.queue.notEmpty != s.queue.notEmpty {
      WakeConsumerCounts(s, s', e.chosen.value);
    }
    hide Storers, Takers, Consumers, Producers;
  }

  lemma TryPopInv(s: System, e: Event)
    requires Inv(s) && Possible(s, e) && e.CallTryPop?
    ensures Inv(Step(s, e))
  {
    var s' := Step(s, e);
    if s'.queue.notFull != s.queue.notFull {
      WakeProducerCounts(s, s', e.chosen.value);
    }
    hide Storers, Takers, Consumers, Producers;
  }

  /** Waking sleepers, for whatever reason, never breaks the promise to those still asleep. */
  lemma WakeInv(s: System, t: ThreadId)
    requires Inv(s)
    ensures Inv(s.(queue := s.queue.(notEmpty := s.queue.notEmpty - {t})))
    ensures t in s.queue.notEmpty ==>
      |AwakeConsumers(s.(queue := s.queue.(notEmpty := s.queue.notEmpty - {t})))| == |AwakeConsumers(s)| + 1
  {
    var s' := s.(queue := s.queue.(notEmpty := s.queue.notEmpty - {t}));
    if t in s.queue.notEmpty {
      WakeConsumerCounts(s, s', t);
    } else {
      assert s'.queue.notEmpty == s.queue.notEmpty;
    }
    assert AwakeProducers(s') == AwakeProducers(s);
  }

  lemma WakeProducerInv(s: System, t: ThreadId)
    requires Inv(s)
    ensures Inv(s.(queue := s.queue.(notFull := s.queue.notFull - {t})))
    ensures t in s.queue.notFull ==>
      |AwakeProducers(s.(queue := s.queue.(notFull := s.queue.notFull - {t})))| == |AwakeProducers(s)| + 1
  {
    var s' := s.(queue := s.queue.(notFull := s.queue.notFull - {t}));
    if t in s.queue.notFull {
      WakeProducerCounts(s, s', t);
    } else {
      assert s'.queue.notFull == s.queue.notFull;
    }
    assert AwakeConsumers(s') == AwakeConsumers(s);
  }

  lemma SpuriousInv(s: System, e: Event)
    requires Inv(s) && Possible(s, e) && e.WakeForNothing?
    ensures Inv(Step(s, e))
  {
    hide Inv;
    WakeInv(s, e.t);
    WakeProducerInv(s.(queue := s.queue.(notEmpty := s.queue.notEmpty - {e.t})), e.t);
  }

  lemma NotifyNotEmptyInv(s: System, t: ThreadId, chosen: Option<ThreadId>)
    requires Inv(s) && Possible(s, Proceed(t, chosen)) && s.threads[t].OwesNotEmpty?
    ensures Inv(Advance(s, t, chosen))
  {
    hide Storers, Takers, AwakeConsumers, AwakeProducers, Consumers, Producers, WillWakeConsumers, WillWakeProducers;
    var s' := Advance(s, t, chosen);
    if chosen.Some? {
      var s1 := s.(queue := s.queue.(notEmpty := s.queue.notEmpty - {chosen.value}));
      WakeInv(s, chosen.value);
      SectionCounts(s1, s', t);
    } else {
      SectionCounts(s, s', t);
    }
  }

  lemma NotifyNotFullInv(s: System, t: ThreadId, chosen: Option<ThreadId>)
    requires Inv(s) && Possible(s, Proceed(t, chosen)) && s.threads[t].OwesNotFull?
    ensures Inv(Advance(s, t, chosen))
  {
    hide Storers, Takers, AwakeConsumers, AwakeProducers, Consumers, Producers, WillWakeConsumers, WillWakeProducers;
    var s' := Advance(s, t, chosen);
    if chosen.Some? {
      var s1 := s.(queue := s.queue.(notFull := s.queue.notFull - {chosen.value}));
      WakeProducerInv(s, chosen.value);
      SectionCounts(s1, s', t);
    } else {
      SectionCounts(s, s', t);
    }
  }

  lemma CloseFirstInv(s: System, t: ThreadId)
    requires Inv(s) && Possible(s, Proceed(t, None)) && s.threads[t].ClosingFirst?
    ensures Inv(Advance(s, t, None))
  {
    var s' := Advance(s, t, None);
    PhaseSets(s.threads, t, ClosingSecond);
    PhaseCounts(s.threads, t, ClosingSecond);
    AwakeConsumerCounts(s, s', t, ClosingSecond);
    assert t in s'.threads && s'.threads[t].ClosingSecond?;
  }

  lemma CloseSecondInv(s: System, t: ThreadId)
    requires Inv(s) && Possible(s, Proceed(t, None)) && s.threads[t].ClosingSecond?
    ensures Inv(Advance(s, t, None))
  {
    hide Storers, Takers, AwakeConsumers, AwakeProducers, Consumers, Producers;
    var s' := Advance(s, t, None);
    PhaseSets(s.threads, t, Outside);
    PhaseCounts(s.threads, t, Outside);
    AwakeProducerCounts(s, s', t, Outside);
    assert t !in s.queue.notFull;
    if WillWakeProducers(s) {
      var u :| u in s.threads && s.threads[u].ClosingFirst?;
      assert u in s'.threads && s'.threads[u].ClosingFirst?;
    }
  }

  lemma CloseInv(s: System, t: ThreadId)
    requires Inv(s) && Possible(s, CallClose(t))
    ensures Inv(Step(s, CallClose(t)))
  {
    var s' := Step(s, CallClose(t));
    PhaseSets(s.threads, t, ClosingFirst);
    assert t in s'.threads && s'.threads[t].ClosingFirst?;
    assert t !in Consumers(s.threads) && t !in Producers(s.threads);
  }

  lemma StepInv(s: System, e: Event)
    requires Inv(s) && Possible(s, e)
    ensures Inv(Step(s, e))
  {
    OutsideAwake(s, e.t);
    hide Inv, EnterPush, EnterPop;
    match e
    case CallPush(t, frame) => EnterPushInv(s, t, frame);
    case CallPop(t) => EnterPopInv(s, t);
    case CallClose(t) => CloseInv(s, t);
    case CallTryPush(_, _, _) => TryPushInv(s, e);
    case CallTryPop(_, _) => TryPopInv(s, e);
    case WakeForNothing(_) => SpuriousInv(s, e);
    case Proceed(t, chosen) =>
      match s.threads[t]
      case Pushing(frame) => EnterPushInv(s, t, frame);
      case Popping => EnterPopInv(s, t);
      case OwesNotEmpty => NotifyNotEmptyInv(s, t, chosen);
      case OwesNotFull => NotifyNotFullInv(s, t, chosen);
      case ClosingFirst => CloseFirstInv(s, t);
      case ClosingSecond => CloseSecondInv(s, t);
  }

  lemma OutsideAwake(s: System, t: ThreadId)
    requires Inv(s) && t in s.threads
    ensures s.threads[t].Outside? ==> t !in s.queue.notEmpty && t !in s.queue.notFull
  {
    assert t in Consumers(s.threads) ==> s.threads[t].Popping?;
    assert t in Producers(s.threads) ==> s.threads[t].Pushing?;
  }

  // ---------------------------------------------------------------- whole runs

  lemma {:induction false} RunInv(s: System, run: seq<Event>)
    requires Initial(s) && LegalRun(s, run)
    ensures Inv(After(s, run))
    decreases |run|
  {
    if run == [] {
      InitialInv(s);
    } else {
      hide Inv, Step, Possible;
      RunInv(s, run[..|run| - 1]);
      StepInv(After(s, run[..|run| - 1]), run[|run| - 1]);
    }
  }

  /** In every run each frame accepted is taken once, in order, or still queued; the bound holds. */
  lemma FirstInFirstOut(s: System, run: seq<Event>)
    requires Initial(s) && LegalRun(s, run)
    ensures var s' := After(s, run);
      s'.accepted == s'.taken + s'.queue.frames && |s'.queue.frames| <= s'.queue.capacity
  {
    RunInv(s, run);
  }

  /** Thread `t` has something to do that no other thread need allow: it is inside and awake. */
  ghost predicate Busy(s: System, t: ThreadId) {
    t in s.threads && !s.threads[t].Outside? && t !in s.queue.notEmpty && t !in s.queue.notFull
  }

  ghost predicate AnyBusy(s: System) {
    exists t :: Busy(s, t)
  }

  /**
   Thread `t` will wake a consumer or take a frame: it owes a consumer a notification, is awake
   inside `pop`, or has closed the queue and is about to wake all consumers.
   */
  ghost predicate HelpsConsumers(s: System, t: ThreadId) {
    && Busy(s, t)
    && (if s.queue.closed then s.threads[t].ClosingFirst? || s.threads[t].ClosingSecond?
        else s.threads[t].OwesNotEmpty? || s.threads[t].Popping?)
  }

  /** Thread `t` will wake a producer or use the room. */
  ghost predicate HelpsProducers(s: System, t: ThreadId) {
    && Busy(s, t)
    && (if s.queue.closed then s.threads[t].ClosingFirst?
        else s.threads[t].OwesNotFull? || s.threads[t].Pushing?)
  }

  /**
   No sleeper is stranded: in every run, if a consumer sleeps although there is a frame or the queue
   is closed, an awake thread owes consumers a wake-up or is about to take the frame; likewise for a
   producer that sleeps although there is room or the queue is closed.
   */
  lemma NoneStranded(s: System, run: seq<Event>)
    requires Initial(s) && LegalRun(s, run)
    ensures var s' := After(s, run);
      && (s'.queue.notEmpty != {} && (s'.queue.frames != [] || s'.queue.closed) ==>
            exists t :: HelpsConsumers(s', t))
      && (s'.queue.notFull != {} && (|s'.queue.frames| < s'.queue.capacity || s'.queue.closed) ==>
            exists t :: HelpsProducers(s', t))
  {
    RunInv(s, run);
    HelpIsNear(After(s, run));
  }

  lemma SomeMember(group: set<ThreadId>) returns (t: ThreadId)
    requires |group| > 0
    ensures t in group
  {
    t :| t in group;
  }

  lemma HelpIsNear(s: System)
    requires Inv(s)
    ensures s.queue.notEmpty != {} && (s.queue.frames != [] || s.queue.closed) ==> exists t :: HelpsConsumers(s, t)
    ensures s.queue.notFull != {} && (|s.queue.frames| < s.queue.capacity || s.queue.closed) ==>
      exists t :: HelpsProducers(s, t)
  {
    if s.queue.notEmpty != {} && s.queue.closed {
      var t :| t in s.threads && (s.threads[t].ClosingFirst? || s.threads[t].ClosingSecond?);
      assert HelpsConsumers(s, t);
    } else if s.queue.notEmpty != {} && s.queue.frames != [] {
      if |Storers(s.threads)| > 0 {
        var t := SomeMember(Storers(s.threads));
        assert HelpsConsumers(s, t);
      } else {
        var t := SomeMember(AwakeConsumers(s));
        assert HelpsConsumers(s, t);
      }
    }
    if s.queue.notFull != {} && s.queue.closed {
      var t :| t in s.threads && s.threads[t].ClosingFirst?;
      assert HelpsProducers(s, t);
    } else if s.queue.notFull != {} && |s.queue.frames| < s.queue.capacity {
      if |Takers(s.threads)| > 0 {
        var t := SomeMember(Takers(s.threads));
        assert HelpsProducers(s, t);
      } else {
        var t := SomeMember(AwakeProducers(s));
        assert HelpsProducers(s, t);
      }
    }
  }

  /**
   What such a thread does next: it wakes a sleeping consumer or takes the first frame; after a
   close it wakes every consumer, at the latest with its second step.
   */
  lemma ConsumersHelped(s: System, t: ThreadId, chosen: Option<ThreadId>)
    requires Possible(s, Proceed(t, chosen)) && HelpsConsumers(s, t)
    requires s.queue.notEmpty != {} && (s.queue.frames != [] || s.queue.closed)
    ensures var s' := Step(s, Proceed(t, chosen));
      if s.queue.closed then s'.queue.notEmpty == {} || (HelpsConsumers(s', t) && s'.threads[t].ClosingSecond?)
      else
        || (chosen.Some? && chosen.value in s.queue.notEmpty && s'.queue.notEmpty == s.queue.notEmpty - {chosen.value})
        || (s.queue.frames != [] && s'.taken == s.taken + [s.queue.frames[0]])
  {
  }

  lemma ProducersHelped(s: System, t: ThreadId, chosen: Option<ThreadId>)
    requires Possible(s, Proceed(t, chosen)) && HelpsProducers(s, t)
    requires s.queue.notFull != {} && (|s.queue.frames| < s.queue.capacity || s.queue.closed)
    ensures var s' := Step(s, Proceed(t, chosen));
      if s.queue.closed then s'.queue.notFull == {}
      else
        || (chosen.Some? && chosen.value in s.queue.notFull && s'.queue.notFull == s.queue.notFull - {chosen.value})
        || |s'.accepted| == |s.accepted| + 1
  {
  }

  /**
   No deadlock: when every thread inside the queue is asleep, the queue is open and the sleepers
   are all consumers of an empty queue or all producers of a full one. Once the queue is closed
   nobody stays asleep.
   */
  lemma QuietMeansBlocked(s: System, run: seq<Event>)
    requires Initial(s) && LegalRun(s, run) && !AnyBusy(After(s, run))
    ensures var s' := After(s, run);
      && (s'.queue.notEmpty != {} ==> !s'.queue.closed && s'.queue.frames == [] && s'.queue.notFull == {})
      && (s'.queue.notFull != {} ==> !s'.queue.closed && |s'.queue.frames| == s'.queue.capacity)
  {
    RunInv(s, run);
    HelpIsNear(After(s, run));
    assert forall t :: !Busy(After(s, run), t);
  }

  /** A blocking `pop` comes back empty-handed only when every accepted frame has been taken. */
  lemma EmptyHanded(s: System, t: ThreadId)
    requires Inv(s) && PopSection(s.queue, t).1.Refused?
    ensures s.queue.closed && s.accepted == s.taken
  {
  }

  /** Once closed, a queue stays closed and accepts nothing more. */
  lemma {:induction false} ClosedForGood(s: System, run: seq<Event>)
    requires LegalRun(s, run) && s.queue.closed
    ensures After(s, run).queue.closed && After(s, run).accepted == s.accepted
    decreases |run|
  {
    if run != [] {
      ClosedForGood(s, run[..|run| - 1]);
    }
  }

  // ---------------------------------------------------------------- what each call answers

  /** How many accepted frames have not been taken. */
  function Waiting(s: System): int {
    |s.accepted| - |s.taken|
  }

  /** `try_push` accepts exactly when the queue is open and not full, and otherwise changes nothing. */
  lemma TryPushExact(s: System, run: seq<Event>, t: ThreadId, frame: AudioFrame, chosen: Option<ThreadId>)
    requires Initial(s) && LegalRun(s, run) && Possible(After(s, run), CallTryPush(t, frame, chosen))
    ensures var s' := After(s, run);
      var s'' := Step(s', CallTryPush(t, frame, chosen));
      && (TryPush(s'.queue, frame, chosen).1 <==> !s'.queue.closed && Waiting(s') < s'.queue.capacity)
      && (if !s'.queue.closed && Waiting(s') < s'.queue.capacity
          then s''.accepted == s'.accepted + [frame] && s''.taken == s'.taken && s''.threads == s'.threads
          else s'' == s')
  {
    RunInv(s, run);
  }

  /** `try_pop` takes the oldest accepted frame whenever there is one, open or closed. */
  lemma TryPopExact(s: System, run: seq<Event>, t: ThreadId, chosen: Option<ThreadId>)
    requires Initial(s) && LegalRun(s, run) && Possible(After(s, run), CallTryPop(t, chosen))
    ensures var s' := After(s, run);
      var s'' := Step(s', CallTryPop(t, chosen));
      if 0 < Waiting(s')
      then
        && TryPop(s'.queue, chosen).1 == Some(s'.accepted[|s'.taken|])
        && s''.taken == s'.taken + [s'.accepted[|s'.taken|]] && s''.accepted == s'.accepted
      else TryPop(s'.queue, chosen).1 == None && s'' == s'
  {
    RunInv(s, run);
  }

  /** `push` is refused only by a closed queue, sleeps only on a full open one, and otherwise stores. */
  lemma PushExact(s: System, run: seq<Event>, t: ThreadId, frame: AudioFrame)
    requires Initial(s) && LegalRun(s, run)
    ensures var s' := After(s, run);
      var outcome := PushSection(s'.queue, t, frame).1;
      && outcome == (if s'.queue.closed then Refused else if Waiting(s') < s'.queue.capacity then Stored else Asleep)
      && EnterPush(s', t, frame).accepted == s'.accepted + (if outcome.Stored? then [frame] else [])
  {
    RunInv(s, run);
    assert After(s, run).accepted + [] == After(s, run).accepted;
  }

  /** `pop` takes the oldest accepted frame; without one it is refused by a closed queue and sleeps on an open one. */
  lemma PopExact(s: System, run: seq<Event>, t: ThreadId)
    requires Initial(s) && LegalRun(s, run)
    ensures var s' := After(s, run);
      var outcome := PopSection(s'.queue, t).1;
      && outcome == (if 0 < Waiting(s') then Took(s'.accepted[|s'.taken|])
                     else if s'.queue.closed then Refused else Asleep)
      && EnterPop(s', t).taken == s'.taken + (if outcome.Took? then [outcome.frame] else [])
  {
    RunInv(s, run);
    assert After(s, run).taken + [] == After(s, run).taken;
  }

  /** One thread offers the frames one after the other. */
  function OfferAll(t: ThreadId, frames: seq<AudioFrame>): seq<Event> {
    if frames == [] then []
    else OfferAll(t, frames[..|frames| - 1]) + [CallTryPush(t, frames[|frames| - 1], None)]
  }

  /** A new queue accepts as many frames in a row as its capacity, and refuses the next. */
  lemma {:induction false} FillsToCapacity(s: System, t: ThreadId, frames: seq<AudioFrame>, next: AudioFrame)
    requires Initial(s) && t in s.threads && |frames| <= s.queue.capacity
    ensures LegalRun(s, OfferAll(t, frames))
    ensures After(s, OfferAll(t, frames)) == s.(accepted := frames, queue := s.queue.(frames := frames))
    ensures TryPush(After(s, OfferAll(t, frames)).queue, next, None).1 <==> |frames| < s.queue.capacity
    decreases |frames|
  {
    if frames != [] {
      var front := frames[..|frames| - 1];
      FillsToCapacity(s, t, front, next);
      assert OfferAll(t, frames)[..|OfferAll(t, frames)| - 1] == OfferAll(t, front);
      assert front + [frames[|frames| - 1]] == frames;
    } else {
      assert s.(accepted := [], queue := s.queue.(frames := [])) == s;
    }
  }
}
