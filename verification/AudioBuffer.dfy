/** The bounded frame queue, one method for each stretch that runs undisturbed. */
module AudioBuffer {
  import opened AudioFrames
  import opened QueueModel
  import opened Wrappers

  class AudioBuffer {
    const capacity: nat
    var frames: seq<AudioFrame>
    var closed: bool
    var notEmpty: set<ThreadId>
    var notFull: set<ThreadId>

    function State(): Monitor
      reads this
    {
      Monitor(capacity, frames, closed, notEmpty, notFull)
    }

    constructor (capacity: nat)
      requires capacity > 0
      ensures State() == Monitor(capacity, [], false, {}, {})
    {
      this.capacity := capacity;
      frames, closed := [], false;
      notEmpty, notFull := {}, {};
    }

    method Push(t: ThreadId, frame: AudioFrame) returns (outcome: Outcome)
      modifies this
      ensures (State(), outcome) == PushSection(old(State()), t, frame)
    {
      if !closed && |frames| >= capacity {
        notFull := notFull + {t};
        return Asleep;
      }
      if closed {
        return Refused;
      }
      frames := frames + [frame];
      return Stored;
    }

    method Pop(t: ThreadId) returns (outcome: Outcome)
      modifies this
      ensures (State(), outcome) == PopSection(old(State()), t)
    {
      if !closed && |frames| == 0 {
        notEmpty := notEmpty + {t};
        return Asleep;
      }
      if |frames| == 0 {
        return Refused;
      }
      var frame := frames[0];
      frames := frames[1..];
      return Took(frame);
    }

    method NotifyNotEmpty() returns (chosen: Option<ThreadId>)
      modifies this`notEmpty
      ensures CanWake(old(notEmpty), chosen) && notEmpty == Woken(old(notEmpty), chosen)
    {
      if notEmpty == {} {
        return None;
      }
      var t :| t in notEmpty;
      notEmpty := notEmpty - {t};
      return Some(t);
    }

    method NotifyNotFull() returns (chosen: Option<ThreadId>)
      modifies this`notFull
      ensures CanWake(old(notFull), chosen) && notFull == Woken(old(notFull), chosen)
    {
      if notFull == {} {
        return None;
      }
      var t :| t in notFull;
      notFull := notFull - {t};
      return Some(t);
    }

    method OfferFrame(frame: AudioFrame) returns (accepted: bool, chosen: Option<ThreadId>)
      modifies this
      ensures accepted ==> CanWake(old(notEmpty), chosen)
      ensures (State(), accepted) == TryPush(old(State()), frame, chosen)
    {
      if closed || |frames| >= capacity {
        return false, None;
      }
      frames := frames + [frame];
      chosen := NotifyNotEmpty();
      return true, chosen;
    }

    method TakeFrame() returns (frame: Option<AudioFrame>, chosen: Option<ThreadId>)
      modifies this
      ensures frame.Some? ==> CanWake(old(notFull), chosen)
      ensures (State(), frame) == TryPop(old(State()), chosen)
    {
      if |frames| == 0 {
        return None, None;
      }
      frame := Some(frames[0]);
      frames := frames[1..];
      chosen := NotifyNotFull();
    }

    method MarkClosed()
      modifies this`closed
      ensures closed
    {
      closed := true;
    }

    method WakeProducers()
      modifies this`notFull
      ensures notFull == {}
    {
      notFull := {};
    }

    method WakeConsumers()
      modifies this`notEmpty
      ensures notEmpty == {}
    {
      notEmpty := {};
    }
  }
}
