/**
 What every event does to the session it is about, in every reachable world: the whole table of
 messages and states, commands, expiry and lost devices.
 */
module SessionEffects {
  import opened AudioFrames
  import opened Bytes
  import opened Devices
  import opened Negotiation
  import opened SessionModel
  import opened SessionProtocol
  import opened Words
  import opened Wrappers

  /** What a session becomes, why it failed if it did, and whether the sender is told. */
  datatype Effect = Effect(state: SessionState, failure: Option<Reason>, acknowledged: bool)

  /** The protocol's table for messages other than offers; whatever is not listed has no effect. */
  function Table(info: SessionInfo, message: Message): Effect {
    var none := Effect(info.state, None, false);
    match info.state
    case Negotiating =>
      if message.kind == Accept && message.configuration == Some(info.configuration) then none.(state := Established)
      else if message.kind == Reject then Effect(Failed, Some(message.reason), false)
      else none
    case Established =>
      if message.kind == Start then Effect(Streaming, None, true)
      else if message.kind == Stop then Effect(Closed, None, true)
      else none
    case Streaming =>
      if message.kind == Start then Effect(Streaming, None, true)
      else if message.kind == Stop then Effect(Closed, None, true)
      else none
    case Stopping =>
      if message.kind == Stop then Effect(Closed, None, true)
      else if message.kind == Ack then none.(state := Closed)
      else none
    case Closed => none
    case Failed => none
  }

  /** Everything but the manager of `d` is as before, and that manager differs only in session `s`. */
  ghost predicate OnlySession(w: World, w': World, d: Id, s: Id) {
    && d in w.managers && w'.managers.Keys == w.managers.Keys
    && (forall x :: x in w.managers && x != d ==> w'.managers[x] == w.managers[x])
    && s in w.managers[d].sessions && s in w'.managers[d].sessions
    && w'.managers[d] == w.managers[d].(sessions := w.managers[d].sessions[s := w'.managers[d].sessions[s]])
  }

  /** A message for another device, without a valid id, or for an unknown session and no offer, does nothing. */
  lemma Ignored(m: Manager, message: Message, now: int)
    requires message.destination != m.local.id || !ValidId(message.session)
             || (!message.kind.Offer? && message.session !in m.sessions)
    ensures Handle(m, message, now) == (m, None)
  {
    hide ValidId;
  }

  lemma HandleExactly(m: Manager, message: Message, now: int)
    requires message.destination == m.local.id && !message.kind.Offer?
    requires ValidId(message.session) && message.session in m.sessions
    ensures var info, (m', reply) := m.sessions[message.session], Handle(m, message, now);
      var effect := Table(info, message);
      && m' == m.(sessions := m.sessions[message.session := info.(
           state := effect.state, lastActivity := now,
           failureReason := if effect.failure.Some? then effect.failure.value else info.failureReason)])
      && reply == (if effect.acknowledged
                   then Some(Message(Ack, info.id, m.local.id, info.remoteDevice, None, NoReason))
                   else None)
  {
    hide ValidId;
  }

  /** After any run: what the arrival of a message that is not an offer does, and everything it does. */
  lemma Delivered(w: World, run: seq<Event>, d: Id, message: Message, now: int)
    requires Initial(w) && LegalRun(w, run) && Possible(After(w, run), Receives(d, message, now))
    requires message.destination == d && !message.kind.Offer?
    requires message.session in After(w, run).managers[d].sessions
    ensures var w', s := After(w, run), message.session;
      var w'' := Step(w', Receives(d, message, now));
      var info := w'.managers[d].sessions[s];
      var effect := Table(info, message);
      && OnlySession(w', w'', d, s)
      && w''.managers[d].sessions[s] == info.(
           state := effect.state, lastActivity := now,
           failureReason := if effect.failure.Some? then effect.failure.value else info.failureReason)
      && w''.network == w'.network - multiset{message}
           + (if effect.acknowledged
              then multiset{Message(Ack, s, d, info.remoteDevice, None, NoReason)} else multiset{})
  {
    hide Handle, ValidId, Sound, IdsValid, Table, After;
    RunSound(w, run);
    RunIdsValid(w, run);
    SessionIdValid(After(w, run), d, message.session);
    KnowsItself(After(w, run), d);
    KnowsSession(After(w, run), d, message.session);
    HandleExactly(After(w, run).managers[d], message, now);
  }

  lemma KnowsItself(w: World, d: Id)
    requires Sound(w) && d in w.managers
    ensures w.managers[d].local.id == d
  {
  }

  lemma KnowsSession(w: World, d: Id, s: Id)
    requires Sound(w) && d in w.managers && s in w.managers[d].sessions
    ensures w.managers[d].sessions[s].id == s
  {
    assert OwnEnd(d, s, w.managers[d].sessions[s]);
  }

  /** After any run a stop that arrives closes an established, streaming or stopping session and is acknowledged. */
  lemma StopCloses(w: World, run: seq<Event>, d: Id, message: Message, now: int)
    requires Initial(w) && LegalRun(w, run) && Possible(After(w, run), Receives(d, message, now))
    requires message.destination == d && message.kind.Stop?
    requires message.session in After(w, run).managers[d].sessions
    requires var state := After(w, run).managers[d].sessions[message.session].state;
      state.Established? || state.Streaming? || state.Stopping?
    ensures var w'' := Step(After(w, run), Receives(d, message, now));
      && d in w''.managers && message.session in w''.managers[d].sessions
      && w''.managers[d].sessions[message.session].state.Closed?
      && Message(Ack, message.session, d, w''.managers[d].sessions[message.session].remoteDevice, None, NoReason)
           in w''.network
  {
    hide After, Step, Possible;
    Delivered(w, run, d, message, now);
  }

  // ---------------------------------------------------------------- offers

  /** Each end of a new configuration carries the audio port of the device at that end. */
  function PortOf(c: Configuration, device: Id): Word16 {
    if c.sender == device then c.senderPort else c.receiverPort
  }

  /** An offer opens a negotiation under the next id, unless the id is taken, and says the same as its entry. */
  lemma OfferMade(m: Manager, remote: DeviceInfo, now: int)
    requires CreateOffer(m, remote, now).1.Some?
    ensures var (m', sent) := CreateOffer(m, remote, now);
      var id := SessionIdFrom(m.nextId);
      && sent.value.kind == Offer && sent.value.session == id
      && sent.value.source == m.local.id && sent.value.destination == remote.id
      && sent.value.configuration.Some?
      && var c := sent.value.configuration.value;
         && c.sender == m.local.id && c.receiver == remote.id && c.samplesPerFrame == 240
         && FirstCommon(m.local.sampleRates, remote.sampleRates) == Some(c.format.sampleRate)
         && FirstCommon(m.local.channelCounts, remote.channelCounts) == Some(c.format.channelCount)
         && FirstCommon(m.local.bitsPerSample, remote.bitsPerSample) == Some(c.format.bitsPerSample)
         && PortOf(c, m.local.id) == m.local.audioPort
         && (remote.id != m.local.id ==> PortOf(c, remote.id) == remote.audioPort)
         && m'.nextId == Wrap(m.nextId + 1) && m'.local == m.local
         && (if id in m.sessions then m'.sessions == m.sessions
             else m'.sessions == m.sessions[
               id := SessionInfo(id, m.local.id, remote.id, c, Negotiating, now, now, NoReason)])
  {
    hide ValidId, FirstCommon;
  }

  /** The fields of a configuration a device can play, one by one. */
  predicate Playable(device: DeviceInfo, c: Configuration) {
    && c.format.sampleRate in device.sampleRates && c.format.sampleRate > 0
    && c.format.channelCount in device.channelCounts && c.format.channelCount > 0
    && 16 in device.bitsPerSample && c.format.bitsPerSample == 16
    && 1 <= c.samplesPerFrame <= 4096
    && ValidId(c.sender) && ValidId(c.receiver)
    && 1 <= c.senderPort && 1 <= c.receiverPort
  }

  /** What a manager does with an offer that reaches it. */
  lemma OfferHandled(m: Manager, message: Message, now: int)
    requires message.kind.Offer? && message.destination == m.local.id && ValidId(message.session)
    ensures var (m', reply) := Handle(m, message, now);
      if message.configuration.None? || message.source == m.local.id || !Playable(m.local, message.configuration.value)
      then
        m' == m && reply.Some? && reply.value.kind == Reject
      else if message.session !in m.sessions then
        && reply == Some(Message(Accept, message.session, m.local.id, message.source, message.configuration, NoReason))
        && m' == m.(sessions := m.sessions[message.session := SessionInfo(
             message.session, m.local.id, message.source, message.configuration.value,
             Established, now, now, NoReason)])
      else
        var info := m.sessions[message.session];
        && m' == m
        && reply == (if info.state == Established || info.state == Streaming
                     then Some(Message(Accept, message.session, m.local.id, message.source,
                                       Some(info.configuration), NoReason))
                     else None)
  {
    hide ValidId;
  }

  lemma NewPlayable(m: Manager, e: Event, s: Id)
    requires !e.Loses? && !e.Copies? && s !in m.sessions && s in Act(m, e).0.sessions
    ensures Playable(m.local, Act(m, e).0.sessions[s].configuration)
  {
    hide ValidId, SessionIdFrom;
    if e.Offers? && ChooseConfiguration(m.local, e.remote).Some? {
      ChosenIsSupported(m.local, e.remote);
    }
  }

  /** The manager of `d` holds only configurations its device can play. */
  ghost predicate AllPlayable(m: Manager) {
    forall s :: s in m.sessions ==> Playable(m.local, m.sessions[s].configuration)
  }

  lemma ActPlayable(m: Manager, e: Event)
    requires !e.Loses? && !e.Copies? && AllPlayable(m)
    ensures AllPlayable(Act(m, e).0)
  {
    hide Act, Playable;
    ActExtends(m, e);
    var m' := Act(m, e).0;
    forall s | s in m'.sessions ensures Playable(m'.local, m'.sessions[s].configuration) {
      if s !in m.sessions {
        NewPlayable(m, e, s);
      } else {
        assert Evolves(m.sessions[s], m'.sessions[s]);
      }
    }
  }

  /** In every run every session has a valid configuration that the device holding it supports. */
  lemma {:induction false} SessionsPlayable(w: World, run: seq<Event>)
    requires Initial(w) && LegalRun(w, run)
    ensures forall d :: d in After(w, run).managers ==> AllPlayable(After(w, run).managers[d])
    decreases |run|
  {
    if run != [] {
      hide Act, AllPlayable;
      var front, e := run[..|run| - 1], run[|run| - 1];
      SessionsPlayable(w, front);
      if !e.Loses? && !e.Copies? {
        ActPlayable(After(w, front).managers[e.who], e);
      }
    }
  }

  // ---------------------------------------------------------------- commands

  /** A start is carried out exactly on an established session. */
  lemma StartExactly(m: Manager, s: Id, now: int)
    ensures var (m', sent) := StartSession(m, s, now);
      if s in m.sessions && m.sessions[s].state == Established then
        && m' == m.(sessions := m.sessions[s := m.sessions[s].(state := Streaming, lastActivity := now)])
        && sent == Some(Message(Start, s, m.local.id, m.sessions[s].remoteDevice, None, NoReason))
      else m' == m && sent == None
  {
  }

  /** A stop is carried out exactly on an established or streaming session. */
  lemma StopExactly(m: Manager, s: Id, now: int)
    ensures var (m', sent) := StopSession(m, s, now);
      if s in m.sessions && (m.sessions[s].state == Established || m.sessions[s].state == Streaming) then
        && m' == m.(sessions := m.sessions[s := m.sessions[s].(state := Stopping, lastActivity := now)])
        && sent == Some(Message(Stop, s, m.local.id, m.sessions[s].remoteDevice, None, NoReason))
      else m' == m && sent == None
  {
  }

  // ---------------------------------------------------------------- expiry and loss

  /** The event concerns session `s` of device `d`: it opens it, or delivers a message for it that is no offer. */
  ghost predicate Touches(w: World, e: Event, d: Id, s: Id)
    requires Possible(w, e) && d in w.managers
  {
    && !e.Loses? && !e.Copies? && e.who == d
    && if s in w.managers[d].sessions
       then e.Receives? && e.message.session == s && e.message.destination == d && !e.message.kind.Offer?
       else s in Step(w, e).managers[d].sessions
  }

  /** When session `s` of device `d` was last touched. */
  ghost function LastTouch(w: World, run: seq<Event>, d: Id, s: Id): int
    requires LegalRun(w, run) && d in w.managers
    decreases |run|
  {
    if run == [] then 0
    else
      var front, e := run[..|run| - 1], run[|run| - 1];
      SessionsOnlyAdvance(w, front);
      if Touches(After(w, front), e, d, s) then e.now else LastTouch(w, front, d, s)
  }

  lemma NegotiatingTime(m: Manager, e: Event, s: Id)
    requires !e.Loses? && !e.Copies? && ValidId(s)
    requires s in Act(m, e).0.sessions && Act(m, e).0.sessions[s].state.Negotiating?
    ensures var info := Act(m, e).0.sessions[s];
      if s !in m.sessions then info.lastActivity == e.now
      else
        && m.sessions[s].state.Negotiating?
        && info.lastActivity ==
             if e.Receives? && e.message.session == s && e.message.destination == m.local.id && !e.message.kind.Offer?
             then e.now else m.sessions[s].lastActivity
  {
    hide ValidId, Acceptable;
  }

  /** A negotiation's last activity is the last event that concerned it. */
  lemma {:induction false} ActivityExact(w: World, run: seq<Event>, d: Id, s: Id)
    requires Initial(w) && LegalRun(w, run) && d in w.managers
    requires d in After(w, run).managers && s in After(w, run).managers[d].sessions
    requires After(w, run).managers[d].sessions[s].state.Negotiating?
    ensures After(w, run).managers[d].sessions[s].lastActivity == LastTouch(w, run, d, s)
    decreases |run|
  {
    if run != [] {
      hide Act, ValidId, IdsValid, Sound, Extends;
      var front, e := run[..|run| - 1], run[|run| - 1];
      SessionsOnlyAdvance(w, front);
      RunIdsValid(w, run);
      SessionIdValid(After(w, run), d, s);
      RunSound(w, front);
      KnowsItself(After(w, front), d);
      if !e.Loses? && !e.Copies? && e.who == d {
        NegotiatingTime(After(w, front).managers[d], e, s);
      }
      if s in After(w, front).managers[d].sessions {
        ActivityExact(w, front, d, s);
      }
    }
  }

  /** Device `d` negotiates session `s`, and nothing has concerned it for the whole timeout. */
  ghost predicate Overdue(w: World, run: seq<Event>, d: Id, s: Id, now: int)
    requires LegalRun(w, run) && d in w.managers && d in After(w, run).managers
  {
    && s in After(w, run).managers[d].sessions
    && After(w, run).managers[d].sessions[s].state == Negotiating
    && now - LastTouch(w, run, d, s) >= After(w, run).managers[d].timeout
  }

  /** After any run expiry fails exactly the overdue negotiations, changes nothing else, and counts them. */
  lemma ExpiryExact(w: World, run: seq<Event>, d: Id, now: int)
    requires Initial(w) && LegalRun(w, run) && d in w.managers && d in After(w, run).managers
    ensures var m := After(w, run).managers[d];
      var (m', expired) := Expire(m, now);
      && m'.sessions.Keys == m.sessions.Keys
      && (forall s :: s in m.sessions ==>
            m'.sessions[s] == if Overdue(w, run, d, s, now)
                              then m.sessions[s].(state := Failed, failureReason := TimedOut)
                              else m.sessions[s])
      && expired == |set s | s in m.sessions && Overdue(w, run, d, s, now)|
  {
    hide After;
    var m := After(w, run).managers[d];
    forall s | s in m.sessions
      ensures Overdue(w, run, d, s, now) <==> Expires(m.timeout, m.sessions[s], now)
    {
      if m.sessions[s].state == Negotiating {
        ActivityExact(w, run, d, s);
      }
    }
    assert (set s | s in m.sessions && Overdue(w, run, d, s, now)) == ExpiredAmong(m, m.sessions.Keys, now);
  }

  /** What a lost device does to the sessions with it, and that others stay as they are. */
  lemma LossExact(m: Manager, device: Id, now: int)
    ensures var m' := DeviceUnavailable(m, device, now);
      && m'.sessions.Keys == m.sessions.Keys && m'.nextId == m.nextId
      && forall s :: s in m.sessions ==>
           var info := m.sessions[s];
           m'.sessions[s] ==
             if info.remoteDevice != device || info.state == Closed then info
             else info.(failureReason := RemoteUnavailable, lastActivity := now,
                        state := if info.state == Stopping then Stopping else Failed)
  {
  }
}
