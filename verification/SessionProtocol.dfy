/**
 Any number of session managers on a network that loses, copies, delays and reorders messages.

 The managers are kept by device identity, so identities are distinct. A message can reach any
 manager at any time while it is in the network, and stays there only as long as a copy is left.
 */
module SessionProtocol {
  import opened Bytes
  import opened Devices
  import opened SessionModel
  import opened Wrappers

  datatype World = World(managers: map<Id, Manager>, network: multiset<Message>)

  datatype Event =
    | Offers(who: Id, remote: DeviceInfo, now: int)
    | Receives(who: Id, message: Message, now: int)
    | Starts(who: Id, session: Id, now: int)
    | Stops(who: Id, session: Id, now: int)
    | TimesOut(who: Id, now: int)
    | Misses(who: Id, device: Id, now: int)
    | Loses(message: Message)
    | Copies(message: Message)

  predicate Possible(w: World, e: Event) {
    match e
    case Receives(who, message, _) => who in w.managers && message in w.network
    case Loses(message) => message in w.network
    case Copies(message) => message in w.network
    case _ => e.who in w.managers
  }

  /** What the manager that takes part in the event does. */
  function Act(m: Manager, e: Event): (Manager, Option<Message>)
    requires !e.Loses? && !e.Copies?
  {
    match e
    case Offers(_, remote, now) => CreateOffer(m, remote, now)
    case Receives(_, message, now) => Handle(m, message, now)
    case Starts(_, session, now) => StartSession(m, session, now)
    case Stops(_, session, now) => StopSession(m, session, now)
    case TimesOut(_, now) => (Expire(m, now).0, None)
    case Misses(_, device, now) => (DeviceUnavailable(m, device, now), None)
  }

  function Posted(message: Option<Message>): multiset<Message> {
    if message.Some? then multiset{message.value} else multiset{}
  }

  function Step(w: World, e: Event): World
    requires Possible(w, e)
  {
    if e.Loses? then
      w.(network := w.network - multiset{e.message})
    else if e.Copies? then
      w.(network := w.network + multiset{e.message})
    else
      var (m, message) := Act(w.managers[e.who], e);
      var taken := if e.Receives? then multiset{e.message} else multiset{};
      World(w.managers[e.who := m], w.network - taken + Posted(message))
  }

  /** All managers new, nothing sent. */
  ghost predicate Initial(w: World) {
    && w.network == multiset{}
    && forall d :: d in w.managers ==>
         w.managers[d].local.id == d && w.managers[d].nextId == 1 && w.managers[d].sessions == map[]
  }

  ghost predicate LegalRun(w: World, run: seq<Event>)
    decreases |run|, 0
  {
    run != [] ==> LegalRun(w, run[..|run| - 1]) && Possible(After(w, run[..|run| - 1]), run[|run| - 1])
  }

  ghost function After(w: World, run: seq<Event>): World
    requires LegalRun(w, run)
    decreases |run|, 1
  {
    if run == [] then w else Step(After(w, run[..|run| - 1]), run[|run| - 1])
  }

  /** Once the handshake is over and unless it failed. */
  predicate Live(state: SessionState) {
    state.Established? || state.Streaming? || state.Stopping? || state.Closed?
  }

  /** Device `d` has this session with this configuration. */
  ghost predicate Holds(w: World, d: Id, session: Id, configuration: Configuration) {
    && d in w.managers && session in w.managers[d].sessions
    && w.managers[d].sessions[session].configuration == configuration
  }

  /** A device is one end of every session it knows, and knows which end. */
  predicate OwnEnd(d: Id, session: Id, info: SessionInfo) {
    && info.id == session && info.localDevice == d
    && (|| (info.configuration.sender == d && info.configuration.receiver == info.remoteDevice)
        || (&& info.configuration.receiver == d
            && info.configuration.sender == info.remoteDevice && info.remoteDevice != d))
  }

  /** What the sender of an offer or an accept vouches for. */
  ghost predicate Honest(w: World, message: Message) {
    && (message.kind.Offer? ==>
          && message.configuration.Some?
          && message.configuration.value.sender == message.source
          && message.configuration.value.receiver == message.destination)
    && (message.kind.Accept? ==>
          && message.configuration.Some? && message.source != message.destination
          && Holds(w, message.source, message.session, message.configuration.value))
  }

  /** If the sending end of a session is live, the receiving end has the very same session. */
  ghost predicate Agreed(w: World, info: SessionInfo) {
    info.configuration.sender == info.localDevice && Live(info.state) ==>
      && info.configuration.receiver != info.localDevice
      && Holds(w, info.configuration.receiver, info.id, info.configuration)
  }

  ghost predicate Sound(w: World) {
    && (forall d :: d in w.managers ==> w.managers[d].local.id == d)
    && (forall d, s :: d in w.managers && s in w.managers[d].sessions ==> OwnEnd(d, s, w.managers[d].sessions[s]))
    && (forall d, s :: d in w.managers && s in w.managers[d].sessions ==> Agreed(w, w.managers[d].sessions[s]))
    && (forall message :: message in w.network ==> Honest(w, message))
  }

  // ---------------------------------------------------------------- one manager

  lemma ActExtends(m: Manager, e: Event)
    requires !e.Loses? && !e.Copies?
    ensures Extends(m, Act(m, e).0)
  {
    hide Extends, Handle, CreateOffer, StartSession, StopSession, Expire, DeviceUnavailable;
    match e
    case Offers(_, remote, now) => OfferExtends(m, remote, now);
    case Receives(_, message, now) => HandleExtends(m, message, now);
    case Starts(_, session, now) => StartStopExtend(m, session, now);
    case Stops(_, session, now) => StartStopExtend(m, session, now);
    case TimesOut(_, now) => ExpireExtends(m, now);
    case Misses(_, device, now) => UnavailableExtends(m, device, now);
  }

  /** A session a manager did not have before is its own offer, or an offer it was sent. */
  lemma NewSession(m: Manager, e: Event, s: Id)
    requires !e.Loses? && !e.Copies?
    requires s !in m.sessions && s in Act(m, e).0.sessions
    ensures var info := Act(m, e).0.sessions[s];
      && info.id == s && info.localDevice == m.local.id
      && (|| (&& e.Offers? && info.state.Negotiating?
              && info.configuration.sender == m.local.id && info.configuration.receiver == info.remoteDevice)
          || (&& e.Receives? && e.message.kind.Offer? && e.message.destination == m.local.id
              && e.message.configuration == Some(info.configuration)
              && info.remoteDevice == e.message.source != m.local.id && info.state.Established?))
  {
    hide ValidId;
  }

  /** A known session comes alive only through an accept of its own configuration. */
  lemma ComesAlive(m: Manager, e: Event, s: Id)
    requires !e.Loses? && !e.Copies?
    requires s in m.sessions && s in Act(m, e).0.sessions
    requires Live(Act(m, e).0.sessions[s].state) && !Live(m.sessions[s].state)
    ensures && e.Receives? && e.message.kind.Accept? && e.message.destination == m.local.id
            && e.message.session == s && e.message.configuration == Some(m.sessions[s].configuration)
  {
    hide ValidId, Acceptable;
  }

  /** What a manager sends it can vouch for. */
  lemma SendsHonestly(m: Manager, e: Event)
    requires !e.Loses? && !e.Copies?
    ensures var (m', sent) := Act(m, e);
      sent.Some? ==>
        && sent.value.source == m.local.id
        && (sent.value.kind.Offer? ==>
              && sent.value.configuration.Some?
              && sent.value.configuration.value.sender == m.local.id
              && sent.value.configuration.value.receiver == sent.value.destination)
        && (sent.value.kind.Accept? ==>
              && sent.value.destination != m.local.id && sent.value.session in m'.sessions
              && sent.value.configuration == Some(m'.sessions[sent.value.session].configuration))
  {
    hide ValidId;
  }

  // ---------------------------------------------------------------- one step

  /** `w'` comes from `w` by one manager moving its sessions on. */
  ghost predicate Grows(w: World, w': World) {
    && w'.managers.Keys == w.managers.Keys
    && forall d :: d in w.managers ==> Extends(w.managers[d], w'.managers[d])
  }

  lemma HoldsGrows(w: World, w': World, d: Id, session: Id, configuration: Configuration)
    requires Grows(w, w') && Holds(w, d, session, configuration)
    ensures Holds(w', d, session, configuration)
  {
    assert Extends(w.managers[d], w'.managers[d]);
  }

  lemma StepGrows(w: World, e: Event)
    requires Possible(w, e)
    ensures Grows(w, Step(w, e))
  {
    if !e.Loses? && !e.Copies? {
      hide Act;
      ActExtends(w.managers[e.who], e);
    }
  }

  lemma NewlySent(w: World, e: Event, message: Message)
    requires Possible(w, e) && !e.Loses? && !e.Copies?
    requires message in Step(w, e).network && message !in w.network
    ensures Act(w.managers[e.who], e).1 == Some(message)
  {
    hide Act;
  }

  lemma OwnEndKept(w: World, e: Event, s: Id)
    requires Sound(w) && Possible(w, e) && !e.Loses? && !e.Copies?
    requires s in Act(w.managers[e.who], e).0.sessions
    ensures OwnEnd(e.who, s, Act(w.managers[e.who], e).0.sessions[s])
  {
    hide Act, Agreed;
    var m := w.managers[e.who];
    if s in m.sessions {
      ActExtends(m, e);
      assert OwnEnd(e.who, s, m.sessions[s]);
    } else {
      NewSession(m, e, s);
      if e.Receives? {
        assert Honest(w, e.message);
      }
    }
  }

  lemma AgreedKept(w: World, e: Event, s: Id)
    requires Sound(w) && Possible(w, e) && !e.Loses? && !e.Copies?
    requires s in Act(w.managers[e.who], e).0.sessions
    ensures Agreed(Step(w, e), Act(w.managers[e.who], e).0.sessions[s])
  {
    hide Act, Extends, Honest;
    var m, w' := w.managers[e.who], Step(w, e);
    var info := Act(m, e).0.sessions[s];
    StepGrows(w, e);
    if info.configuration.sender == info.localDevice && Live(info.state) {
      if s !in m.sessions {
        NewSession(m, e, s);
        assert Honest(w, e.message);
        assert false by {
          HonestOffer(w, e.message);
        }
      } else {
        SessionKept(m, e, s);
        if Live(m.sessions[s].state) {
          assert Agreed(w, m.sessions[s]);
          HoldsGrows(w, w', info.configuration.receiver, info.id, info.configuration);
        } else {
          ComesAlive(m, e, s);
          AcceptHolds(w, e.message, s);
          assert OwnEnd(e.who, s, m.sessions[s]);
          HoldsGrows(w, w', info.configuration.receiver, info.id, info.configuration);
        }
      }
    }
  }

  lemma SessionKept(m: Manager, e: Event, s: Id)
    requires !e.Loses? && !e.Copies? && s in m.sessions
    ensures s in Act(m, e).0.sessions && Evolves(m.sessions[s], Act(m, e).0.sessions[s])
  {
    ActExtends(m, e);
    hide Act;
  }

  lemma HonestOffer(w: World, message: Message)
    requires Honest(w, message) && message.kind.Offer?
    ensures message.configuration.Some? && message.configuration.value.sender == message.source
    ensures message.configuration.value.receiver == message.destination
  {
  }

  /** An accept in the network for a configuration sent by its destination comes from the receiver. */
  lemma AcceptHolds(w: World, message: Message, s: Id)
    requires Sound(w) && message in w.network && message.kind.Accept? && message.session == s
    ensures message.configuration.Some? && message.source != message.destination
    ensures Holds(w, message.source, s, message.configuration.value)
    ensures message.configuration.value.sender == message.destination ==>
              message.configuration.value.receiver == message.source
  {
    assert Honest(w, message);
    assert OwnEnd(message.source, s, w.managers[message.source].sessions[s]);
  }

  lemma HonestKept(w: World, e: Event, message: Message)
    requires Sound(w) && Possible(w, e) && message in Step(w, e).network
    ensures Honest(Step(w, e), message)
  {
    hide Act, OwnEnd, Agreed, Extends;
    StepGrows(w, e);
    var w' := Step(w, e);
    if message in w.network {
      assert Honest(w, message);
      if message.kind.Accept? {
        HoldsGrows(w, w', message.source, message.session, message.configuration.value);
      }
    } else {
      SendsHonestly(w.managers[e.who], e);
    }
  }

  lemma StepSound(w: World, e: Event)
    requires Sound(w) && Possible(w, e)
    ensures Sound(Step(w, e))
  {
    var w' := Step(w, e);
    StepGrows(w, e);
    forall message | message in w'.network ensures Honest(w', message) {
      HonestKept(w, e, message);
    }
    forall d | d in w'.managers ensures w'.managers[d].local.id == d {
      assert Extends(w.managers[d], w'.managers[d]);
    }
    forall d, s | d in w'.managers && s in w'.managers[d].sessions
      ensures OwnEnd(d, s, w'.managers[d].sessions[s]) && Agreed(w', w'.managers[d].sessions[s])
    {
      hide Act, Extends;
      if !e.Loses? && !e.Copies? && d == e.who {
        OwnEndKept(w, e, s);
        AgreedKept(w, e, s);
      } else {
        var info := w.managers[d].sessions[s];
        assert OwnEnd(d, s, info) && Agreed(w, info);
        if info.configuration.sender == info.localDevice && Live(info.state) {
          HoldsGrows(w, w', info.configuration.receiver, info.id, info.configuration);
        }
      }
    }
  }

  // ---------------------------------------------------------------- whole runs

  lemma {:induction false} RunSound(w: World, run: seq<Event>)
    requires Initial(w) && LegalRun(w, run)
    ensures Sound(After(w, run))
    decreases |run|
  {
    if run != [] {
      hide Sound, Step;
      RunSound(w, run[..|run| - 1]);
      StepSound(After(w, run[..|run| - 1]), run[|run| - 1]);
    }
  }

  /**
   Agreement: in every run, while the sending end of a session is established, streaming, stopping
   or closed, the receiving end is another device that holds a session with the same identity and
   the same configuration. Identities are counted from 1 by every manager and may collide.
   */
  lemma Agreement(w: World, run: seq<Event>, d: Id, s: Id)
    requires Initial(w) && LegalRun(w, run)
    requires var w' := After(w, run);
      && d in w'.managers && s in w'.managers[d].sessions
      && w'.managers[d].sessions[s].configuration.sender == d
      && Live(w'.managers[d].sessions[s].state)
    ensures var w' := After(w, run);
      var configuration := w'.managers[d].sessions[s].configuration;
      configuration.receiver != d && Holds(w', configuration.receiver, s, configuration)
  {
    RunSound(w, run);
    var info := After(w, run).managers[d].sessions[s];
    assert OwnEnd(d, s, info) && Agreed(After(w, run), info);
  }

  lemma GrowsTrans(w: World, w': World, w'': World)
    requires Grows(w, w') && Grows(w', w'')
    ensures Grows(w, w'')
  {
    forall d | d in w.managers ensures Extends(w.managers[d], w''.managers[d]) {
      ExtendsTrans(w.managers[d], w'.managers[d], w''.managers[d]);
    }
  }

  /** Over any run no session is forgotten, none changes its ends or its configuration, none goes back. */
  lemma {:induction false} SessionsOnlyAdvance(w: World, run: seq<Event>)
    requires LegalRun(w, run)
    ensures Grows(w, After(w, run))
    decreases |run|
  {
    if run != [] {
      hide Extends, Step;
      SessionsOnlyAdvance(w, run[..|run| - 1]);
      StepGrows(After(w, run[..|run| - 1]), run[|run| - 1]);
      GrowsTrans(w, After(w, run[..|run| - 1]), After(w, run));
    } else {
      forall d | d in w.managers ensures Extends(w.managers[d], w.managers[d]) { }
    }
  }

  lemma RejectsFor(m: Manager, e: Event)
    requires !e.Loses? && !e.Copies?
    ensures var sent := Act(m, e).1; sent.Some? && sent.value.kind.Reject? ==> sent.value.reason == IncompatibleFormat
  {
    if e.Receives? {
      RejectsExactly(m, e.message, e.now);
    }
    hide Handle;
  }

  /** In every run no rejection carries any other reason, whatever the offer lacked. */
  lemma {:induction false} OneReasonOnly(w: World, run: seq<Event>, message: Message)
    requires Initial(w) && LegalRun(w, run)
    requires message in After(w, run).network && message.kind.Reject?
    ensures message.reason == IncompatibleFormat
    decreases |run|
  {
    hide Act;
    var front, e := run[..|run| - 1], run[|run| - 1];
    if message in After(w, front).network {
      OneReasonOnly(w, front, message);
    } else {
      NewlySent(After(w, front), e, message);
      RejectsFor(After(w, front).managers[e.who], e);
    }
  }

  /** One more event. */
  lemma RunThen(w: World, run: seq<Event>, e: Event)
    requires LegalRun(w, run) && Possible(After(w, run), e)
    ensures LegalRun(w, run + [e]) && After(w, run + [e]) == Step(After(w, run), e)
  {
    hide Step;
    assert (run + [e])[..|run|] == run;
  }

  // ---------------------------------------------------------------- identities

  ghost predicate IdsValid(w: World) {
    forall d, s :: d in w.managers && s in w.managers[d].sessions ==> ValidId(s)
  }

  lemma NewIdValid(m: Manager, e: Event, s: Id)
    requires !e.Loses? && !e.Copies? && s !in m.sessions && s in Act(m, e).0.sessions
    ensures ValidId(s)
  {
    hide ValidId;
  }

  lemma {:induction false} RunIdsValid(w: World, run: seq<Event>)
    requires Initial(w) && LegalRun(w, run)
    ensures IdsValid(After(w, run))
    decreases |run|
  {
    hide ValidId, Act;
    if run != [] {
      var front, e := run[..|run| - 1], run[|run| - 1];
      RunIdsValid(w, front);
      if !e.Loses? && !e.Copies? {
        var m := After(w, front).managers[e.who];
        forall s | s in Act(m, e).0.sessions ensures ValidId(s) {
          if s !in m.sessions {
            NewIdValid(m, e, s);
          }
        }
      }
    }
  }

  lemma SessionIdValid(w: World, d: Id, s: Id)
    requires IdsValid(w) && d in w.managers && s in w.managers[d].sessions
    ensures ValidId(s)
  {
    hide ValidId;
  }
}
