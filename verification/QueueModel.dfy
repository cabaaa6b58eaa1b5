/**
 The blocking frame queue as a monitor: what each stretch of code under the lock, and each
 notification, does to the queue and to the threads asleep on its two condition variables.
 */
module QueueModel {
  import opened AudioFrames
  import opened Wrappers

  datatype ThreadId = Thread(number: nat)

  datatype Monitor = Monitor(
    capacity: nat,
    frames: seq<AudioFrame>,
    closed: bool,
    notEmpty: set<ThreadId>,  // asleep until there is a frame
    notFull: set<ThreadId>)   // asleep until there is room

  /** How a stretch under the lock ends. */
  datatype Outcome = Asleep | Refused | Stored | Took(frame: AudioFrame)

  /** The test and body of `push`, on entry and again after every wake-up. */
  function PushSection(m: Monitor, t: ThreadId, frame: AudioFrame): (Monitor, Outcome) {
    if m.closed then (m, Refused)
    else if |m.frames| < m.capacity then (m.(frames := m.frames + [frame]), Stored)
    else (m.(notFull := m.notFull + {t}), Asleep)
  }

  /** The test and body of `pop`. */
  function PopSection(m: Monitor, t: ThreadId): (Monitor, Outcome) {
    if m.frames != [] then (m.(frames := m.frames[1..]), Took(m.frames[0]))
    else if m.closed then (m, Refused)
    else (m.(notEmpty := m.notEmpty + {t}), Asleep)
  }

  /** `notify_one` wakes one sleeper, any one, if there is one. */
  predicate CanWake(sleepers: set<ThreadId>, chosen: Option<ThreadId>) {
    if sleepers == {} then chosen.None? else chosen.Some? && chosen.value in sleepers
  }

  function Woken(sleepers: set<ThreadId>, chosen: Option<ThreadId>): set<ThreadId> {
    if chosen.Some? then sleepers - {chosen.value} else sleepers
  }

  /** `try_push` notifies before it gives up the lock. */
  function TryPush(m: Monitor, frame: AudioFrame, chosen: Option<ThreadId>): (Monitor, bool) {
    if m.closed || |m.frames| >= m.capacity then (m, false)
    else (m.(frames := m.frames + [frame], notEmpty := Woken(m.notEmpty, chosen)), true)
  }

  function TryPop(m: Monitor, chosen: Option<ThreadId>): (Monitor, Option<AudioFrame>) {
    if m.frames == [] then (m, None)
    else (m.(frames := m.frames[1..], notFull := Woken(m.notFull, chosen)), Some(m.frames[0]))
  }
}
