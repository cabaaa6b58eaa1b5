/** The session manager with its table updated in place. */
module SessionManager {
  import opened AudioFrames
  import opened Bytes
  import opened Devices
  import opened SessionModel
  import opened Words
  import opened Wrappers

  class AudioSessionManager {
    const localDevice: DeviceInfo
    const negotiationTimeout: int
    var nextId: Word64
    var sessions: map<Id, SessionInfo>

    function State(): Manager
      reads this
    {
      Manager(localDevice, negotiationTimeout, nextId, sessions)
    }

    constructor (localDevice: DeviceInfo, negotiationTimeout: int)
      requires ValidId(localDevice.id) && negotiationTimeout > 0
      ensures State() == Manager(localDevice, negotiationTimeout, 1, map[])
    {
      this.localDevice := localDevice;
      this.negotiationTimeout := negotiationTimeout;
      nextId := 1;
      sessions := map[];
    }

    method NextSessionId() returns (id: Id)
      modifies this`nextId
      ensures id == SessionIdFrom(old(nextId)) && nextId == Wrap(old(nextId) + 1)
    {
      id := SessionIdFrom(nextId);
      nextId := Wrap(nextId + 1);
    }

    method Choose(remote: DeviceInfo) returns (configuration: Option<Configuration>)
      ensures configuration == ChooseConfiguration(localDevice, remote)
    {
      var common := FindCompatibility(localDevice, remote);
      if !common.Compatible() {
        return None;
      }
      var chosen := Configuration(
        AudioFormat(common.sampleRate.value, common.channels.value, common.bitsPerSample.value),
        CHOSEN_SAMPLES_PER_FRAME, localDevice.id, remote.id, localDevice.audioPort, remote.audioPort);
      return if chosen.IsValid() then Some(chosen) else None;
    }

    method MakeOffer(remote: DeviceInfo, now: int) returns (message: Option<Message>)
      modifies this
      ensures (State(), message) == CreateOffer(old(State()), remote, now)
    {
      var configuration := Choose(remote);
      if configuration.None? {
        return None;
      }
      var id := NextSessionId();
      var info := SessionInfo(id, localDevice.id, remote.id, configuration.value, Negotiating, now, now, NoReason);
      if id !in sessions {
        sessions := sessions[id := info];
      }
      return Some(Message(Offer, id, localDevice.id, remote.id, configuration, NoReason));
    }

    /** Moves the session if the move is allowed, and says whether it was. */
    method Transition(id: Id, next: SessionState) returns (valid: bool)
      requires id in sessions
      modifies this`sessions
      ensures valid == CanMove(old(sessions[id].state), next)
      ensures sessions == old(sessions)[id := Moved(old(sessions[id]), next)]
    {
      var current := sessions[id].state;
      valid := (current == Negotiating && (next == Established || next == Failed))
        || (current == Established && (next == Streaming || next == Stopping || next == Failed))
        || (current == Streaming && (next == Stopping || next == Failed))
        || (current == Stopping && next == Closed)
        || (current == Closed && next == Closed)
        || (current == Failed && next == Failed);
      if valid {
        sessions := sessions[id := sessions[id].(state := next)];
      }
    }

    method Receive(message: Message, now: int) returns (reply: Option<Message>)
      modifies this
      ensures (State(), reply) == Handle(old(State()), message, now)
    {
      hide ValidId;
      if message.destination != localDevice.id || !ValidId(message.session) {
        return None;
      }
      if message.kind == Offer {
        if message.configuration.None? || message.source == localDevice.id
           || !Supported(localDevice, message.configuration.value.format)
           || !message.configuration.value.IsValid() {
          return Some(Message(Reject, message.session, localDevice.id, message.source, None, IncompatibleFormat));
        }
        if message.session in sessions {
          var state := sessions[message.session].state;
          if state == Established || state == Streaming {
            return Some(Message(Accept, message.session, localDevice.id, message.source,
                                Some(sessions[message.session].configuration), NoReason));
          }
          return None;
        }
        var info := SessionInfo(message.session, localDevice.id, message.source, message.configuration.value,
                                Established, now, now, NoReason);
        sessions := sessions[message.session := info];
        return Some(Message(Accept, message.session, localDevice.id, message.source, message.configuration, NoReason));
      }
      if message.session !in sessions {
        return None;
      }
      var id := message.session;
      sessions := sessions[id := sessions[id].(lastActivity := now)];
      var acknowledged := Answer(id, message);
      assert sessions == Handle(old(State()), message, now).0.sessions;
      if acknowledged {
        return Some(Message(Ack, sessions[id].id, localDevice.id, sessions[id].remoteDevice, None, NoReason));
      }
      return None;
    }

    /** The part of `Receive` that moves an existing session. */
    method Answer(id: Id, message: Message) returns (acknowledged: bool)
      requires id in sessions && message.kind != Offer
      modifies this`sessions
      ensures sessions == old(sessions)[id := React(old(sessions[id]), message).0]
      ensures acknowledged == React(old(sessions[id]), message).1
    {
      var state := sessions[id].state;
      if message.kind == Accept && state == Negotiating && message.configuration == Some(sessions[id].configuration) {
        var _ := Transition(id, Established);
        return false;
      }
      if message.kind == Reject && state == Negotiating {
        sessions := sessions[id := sessions[id].(failureReason := message.reason)];
        var _ := Transition(id, Failed);
        return false;
      }
      if message.kind == Start && (state == Established || state == Streaming) {
        var _ := Transition(id, Streaming);
        return true;
      }
      if message.kind == Stop && (state == Streaming || state == Established || state == Stopping) {
        if state == Streaming || state == Established {
          var _ := Transition(id, Stopping);
        }
        var _ := Transition(id, Closed);
        return true;
      }
      if message.kind == Ack && state == Stopping {
        var _ := Transition(id, Closed);
        return false;
      }
      assert sessions[id := sessions[id]] == sessions;
      return false;
    }

    method StartStream(id: Id, now: int) returns (message: Option<Message>)
      modifies this
      ensures (State(), message) == StartSession(old(State()), id, now)
    {
      if id !in sessions {
        return None;
      }
      var valid := Transition(id, Streaming);
      if !valid {
        assert sessions == old(sessions);
        return None;
      }
      sessions := sessions[id := sessions[id].(lastActivity := now)];
      assert sessions == old(sessions)[id := sessions[id]];
      return Some(Message(Start, id, localDevice.id, sessions[id].remoteDevice, None, NoReason));
    }

    method StopStream(id: Id, now: int) returns (message: Option<Message>)
      modifies this
      ensures (State(), message) == StopSession(old(State()), id, now)
    {
      if id !in sessions || (sessions[id].state != Streaming && sessions[id].state != Established) {
        return None;
      }
      var _ := Transition(id, Stopping);
      sessions := sessions[id := sessions[id].(lastActivity := now)];
      assert sessions == old(sessions)[id := sessions[id]];
      return Some(Message(Stop, id, localDevice.id, sessions[id].remoteDevice, None, NoReason));
    }

    /** What `ExpireSessions` does with one session. */
    method ExpireSession(id: Id, now: int) returns (late: bool)
      requires id in sessions
      modifies this`sessions
      ensures late == Expires(negotiationTimeout, old(sessions[id]), now)
      ensures sessions == old(sessions)[id := ExpireEntry(negotiationTimeout, old(sessions[id]), now)]
    {
      if sessions[id].state == Negotiating && now - sessions[id].lastActivity >= negotiationTimeout {
        sessions := sessions[id := sessions[id].(failureReason := TimedOut)];
        var _ := Transition(id, Failed);
        return true;
      }
      assert sessions[id := sessions[id]] == sessions;
      return false;
    }

    method ExpireSessions(now: int) returns (expired: nat)
      modifies this
      ensures (State(), expired) == Expire(old(State()), now)
    {
      hide ExpiredAmong, ExpireEntry, Expires, Partly;
      expired := 0;
      ghost var m := State();
      ghost var target := Expire(m, now).0.sessions;
      NoneExpired(m, now);
      PartlyEnds(m.sessions, target);
      var rest := sessions.Keys;
      while rest != {}
        invariant rest <= m.sessions.Keys == target.Keys && nextId == m.nextId
        invariant sessions == Partly(m.sessions, target, rest)
        invariant expired == |ExpiredAmong(m, m.sessions.Keys - rest, now)|
        decreases |rest|
      {
        var id :| id in rest;
        ExpiredGrows(m, m.sessions.Keys - rest, id, now);
        PartlyStep(m.sessions, target, rest, id);
        assert m.sessions.Keys - (rest - {id}) == m.sessions.Keys - rest + {id};
        rest := rest - {id};
        var late := ExpireSession(id, now);
        if late {
          expired := expired + 1;
        }
      }
      assert m.sessions.Keys - rest == m.sessions.Keys;
    }

    /** What `RemoteLost` does with one session. */
    method LoseSession(id: Id, device: Id, now: int)
      requires id in sessions
      modifies this`sessions
      ensures sessions == old(sessions)[id := LoseEntry(old(sessions[id]), device, now)]
    {
      if sessions[id].remoteDevice == device && sessions[id].state != Closed {
        sessions := sessions[id := sessions[id].(failureReason := RemoteUnavailable, lastActivity := now)];
        var _ := Transition(id, Failed);
      } else {
        assert sessions[id := sessions[id]] == sessions;
      }
    }

    method RemoteLost(device: Id, now: int)
      modifies this
      ensures State() == DeviceUnavailable(old(State()), device, now)
    {
      hide LoseEntry, Partly;
      ghost var m := State();
      ghost var target := DeviceUnavailable(m, device, now).sessions;
      PartlyEnds(m.sessions, target);
      var rest := sessions.Keys;
      while rest != {}
        invariant rest <= m.sessions.Keys == target.Keys && nextId == m.nextId
        invariant sessions == Partly(m.sessions, target, rest)
        decreases |rest|
      {
        var id :| id in rest;
        PartlyStep(m.sessions, target, rest, id);
        rest := rest - {id};
        LoseSession(id, device, now);
      }
    }
  }
}
