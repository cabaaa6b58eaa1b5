/**
 One initiator and one responder: only the initiator offers, starts and stops sessions. The
 responder is then never ahead of the initiator, whatever the network loses, copies or delays.
 */
module ResponderOrder {
  import opened Bytes
  import opened SessionModel
  import opened SessionProtocol

  /** Only `a` gives commands. */
  ghost predicate CommandedBy(run: seq<Event>, a: Id) {
    forall i :: 0 <= i < |run| ==> Commands(run[i], a)
  }

  predicate Commands(e: Event, a: Id) {
    e.Offers? || e.Starts? || e.Stops? ==> e.who == a
  }

  /** The initiator has started the session. */
  predicate Begun(state: SessionState) {
    state.Streaming? || state.Stopping? || state.Closed? || state.Failed?
  }

  /** The initiator has stopped the session. */
  predicate Ended(state: SessionState) {
    state.Stopping? || state.Closed?
  }

  /** The responder has acted on a start or a stop. */
  predicate Served(state: SessionState) {
    state.Streaming? || state.Closed? || state.Failed?
  }

  predicate Settled(state: SessionState) {
    !state.Negotiating? && !state.Stopping?
  }

  ghost predicate Truthful(a: Id, known: map<Id, SessionInfo>, served: map<Id, SessionInfo>, message: Message) {
    && (message.kind.Offer? ==> message.source == a)
    && (message.kind.Start? ==>
          && message.destination != a && message.session in known && Begun(known[message.session].state))
    && (message.kind.Stop? ==>
          && message.destination != a && message.session in known && Ended(known[message.session].state))
    && (message.kind.Ack? ==> message.session in served && Served(served[message.session].state))
  }

  /** The two ends of session `s` are in step. */
  ghost predicate InStep(known: map<Id, SessionInfo>, served: map<Id, SessionInfo>, s: Id) {
    && (s in served ==>
          && Settled(served[s].state)
          && (served[s].state.Streaming? ==> s in known && Begun(known[s].state))
          && (served[s].state.Closed? ==> s in known && Ended(known[s].state)))
    && (s in known ==>
          (known[s].state.Closed? ==> s in served && Served(served[s].state)))
  }

  ghost predicate Ordered(w: World, a: Id, b: Id) {
    && a != b && w.managers.Keys == {a, b}
    && var known, served := w.managers[a].sessions, w.managers[b].sessions;
    && (forall s :: s in known ==> known[s].configuration.sender == a)
    && (forall s :: InStep(known, served, s))
    && (forall message :: message in w.network ==> Truthful(a, known, served, message))
  }

  // ---------------------------------------------------------------- the responder

  predicate Obeys(e: Event) {
    !e.Loses? && !e.Copies? && !e.Offers? && !e.Starts? && !e.Stops?
  }

  lemma ResponderMoves(m: Manager, e: Event, s: Id)
    requires Obeys(e) && (s in m.sessions ==> Settled(m.sessions[s].state))
    requires s in Act(m, e).0.sessions
    ensures var state := Act(m, e).0.sessions[s].state;
      var before := if s in m.sessions then m.sessions[s].state else Established;
      && Settled(state)
      && (state == before || state.Failed?
          || (e.Receives? && e.message.session == s
              && ((state.Streaming? && e.message.kind.Start?) || (state.Closed? && e.message.kind.Stop?))))
      && Reaches(before, state)
  {
    hide ValidId, Acceptable;
  }

  lemma ResponderSends(m: Manager, e: Event)
    requires Obeys(e) && Act(m, e).1.Some?
    requires forall s :: s in m.sessions ==> m.sessions[s].id == s
    ensures var (m', sent) := Act(m, e);
      && (sent.value.kind.Ack? || sent.value.kind.Accept? || sent.value.kind.Reject?)
      && (sent.value.kind.Ack? ==>
            && sent.value.session in m'.sessions
            && (m'.sessions[sent.value.session].state.Streaming? || m'.sessions[sent.value.session].state.Closed?))
  {
    hide ValidId, Acceptable;
  }

  // ---------------------------------------------------------------- the initiator

  /** What reaches the initiator: no start, no stop, and no offer but its own. */
  predicate ToInitiator(e: Event, a: Id) {
    && !e.Loses? && !e.Copies?
    && (e.Receives? && e.message.destination == a ==>
          !e.message.kind.Start? && !e.message.kind.Stop? && (e.message.kind.Offer? ==> e.message.source == a))
  }

  lemma InitiatorMoves(m: Manager, e: Event, s: Id)
    requires ToInitiator(e, m.local.id)
    requires s in Act(m, e).0.sessions
    ensures var info := Act(m, e).0.sessions[s];
      && (s !in m.sessions ==> info.state.Negotiating? && info.configuration.sender == m.local.id)
      && (info.state.Closed? && !(s in m.sessions && m.sessions[s].state.Closed?) ==>
            e.Receives? && e.message.kind.Ack? && e.message.session == s)
  {
    hide ValidId;
  }

  lemma InitiatorSends(m: Manager, e: Event)
    requires ToInitiator(e, m.local.id) && Act(m, e).1.Some?
    ensures var (m', sent) := Act(m, e);
      var s := sent.value.session;
      && sent.value.source == m.local.id
      && !sent.value.kind.Ack?
      && (sent.value.kind.Start? || sent.value.kind.Stop? ==>
            && s in m'.sessions && Live(m'.sessions[s].state)
            && sent.value.destination == m'.sessions[s].remoteDevice)
      && (sent.value.kind.Start? ==> Begun(m'.sessions[s].state))
      && (sent.value.kind.Stop? ==> Ended(m'.sessions[s].state))
  {
    hide ValidId;
  }

  // ---------------------------------------------------------------- one step

  lemma TruthStays(a: Id, known: map<Id, SessionInfo>, served: map<Id, SessionInfo>,
                   known': map<Id, SessionInfo>, served': map<Id, SessionInfo>, message: Message)
    requires Truthful(a, known, served, message)
    requires forall s :: s in known ==> s in known' && Evolves(known[s], known'[s])
    requires forall s :: s in served ==> s in served' && Evolves(served[s], served'[s])
    requires forall s :: s in served' ==> Settled(served'[s].state)
    ensures Truthful(a, known', served', message)
  {
  }

  lemma ResponderInStep(w: World, a: Id, b: Id, e: Event, s: Id)
    requires Ordered(w, a, b) && Possible(w, e) && Obeys(e) && e.who == b
    ensures var served' := Step(w, e).managers[b].sessions;
      && InStep(w.managers[a].sessions, served', s)
      && (s in served' ==> Settled(served'[s].state))
  {
    hide Act, CanMove, Posted;
    var known, served := w.managers[a].sessions, w.managers[b].sessions;
    assert InStep(known, served, s);
    assert e.Receives? ==> Truthful(a, known, served, e.message);
    ActExtends(w.managers[b], e);
    if s in Step(w, e).managers[b].sessions {
      ResponderMoves(w.managers[b], e, s);
    }
  }

  lemma ResponderTruth(w: World, a: Id, b: Id, e: Event, message: Message)
    requires Sound(w) && Ordered(w, a, b) && Possible(w, e) && Obeys(e) && e.who == b
    requires message in Step(w, e).network
    requires var served' := Step(w, e).managers[b].sessions; forall s :: s in served' ==> Settled(served'[s].state)
    ensures Truthful(a, w.managers[a].sessions, Step(w, e).managers[b].sessions, message)
  {
    hide Act, Sound, InStep, CanMove, Posted;
    var known, served := w.managers[a].sessions, w.managers[b].sessions;
    ActExtends(w.managers[b], e);
    if message in w.network {
      TruthStays(a, known, served, known, Step(w, e).managers[b].sessions, message);
    } else {
      NewlySent(w, e, message);
      IdsMatch(w, b);
      ResponderSends(w.managers[b], e);
    }
  }

  lemma ResponderStep(w: World, a: Id, b: Id, e: Event)
    requires Sound(w) && Ordered(w, a, b) && Possible(w, e) && Obeys(e) && e.who == b
    ensures Ordered(Step(w, e), a, b)
  {
    hide Act, Sound, Truthful, InStep, Settled;
    var w' := Step(w, e);
    var known, served' := w.managers[a].sessions, w'.managers[b].sessions;
    forall s
      ensures InStep(known, served', s) && (s in served' ==> Settled(served'[s].state))
    {
      ResponderInStep(w, a, b, e, s);
    }
    forall message | message in w'.network ensures Truthful(a, known, served', message) {
      ResponderTruth(w, a, b, e, message);
    }
  }

  lemma IdsMatch(w: World, d: Id)
    requires Sound(w) && d in w.managers
    ensures forall s :: s in w.managers[d].sessions ==> w.managers[d].sessions[s].id == s
  {
    forall s | s in w.managers[d].sessions ensures w.managers[d].sessions[s].id == s {
      assert OwnEnd(d, s, w.managers[d].sessions[s]);
    }
  }

  /** A live session of the initiator has another device at its far end. */
  lemma FarEnd(w: World, a: Id, s: Id)
    requires Sound(w) && a in w.managers && s in w.managers[a].sessions
    requires w.managers[a].sessions[s].configuration.sender == a && Live(w.managers[a].sessions[s].state)
    ensures w.managers[a].sessions[s].remoteDevice != a
  {
    var info := w.managers[a].sessions[s];
    assert OwnEnd(a, s, info) && Agreed(w, info);
  }

  /** The initiator acts, and nothing it should not get has reached it. */
  ghost predicate InitiatorActs(w: World, a: Id, b: Id, e: Event) {
    && Ordered(w, a, b) && Possible(w, e) && !e.Loses? && !e.Copies? && e.who == a
    && w.managers[a].local.id == a && ToInitiator(e, a)
  }

  lemma InitiatorInStep(w: World, a: Id, b: Id, e: Event, s: Id)
    requires InitiatorActs(w, a, b, e)
    ensures var known := Step(w, e).managers[a].sessions;
      && (s in known ==> known[s].configuration.sender == a)
      && InStep(known, w.managers[b].sessions, s)
  {
    hide Act, CanMove, Posted;
    var known, served := w.managers[a].sessions, w.managers[b].sessions;
    assert InStep(known, served, s);
    assert e.Receives? ==> Truthful(a, known, served, e.message);
    ActExtends(w.managers[a], e);
    if s in Step(w, e).managers[a].sessions {
      InitiatorMoves(w.managers[a], e, s);
    }
  }

  lemma InitiatorTruth(w: World, a: Id, b: Id, e: Event, message: Message)
    requires InitiatorActs(w, a, b, e) && Sound(Step(w, e)) && message in Step(w, e).network
    requires forall s :: s in Step(w, e).managers[a].sessions ==>
      Step(w, e).managers[a].sessions[s].configuration.sender == a
    ensures Truthful(a, Step(w, e).managers[a].sessions, w.managers[b].sessions, message)
  {
    hide Act, CanMove, Posted, OwnEnd, Agreed, Honest;
    var known, known', served := w.managers[a].sessions, Step(w, e).managers[a].sessions, w.managers[b].sessions;
    ActExtends(w.managers[a], e);
    if message in w.network {
      forall s | s in served ensures Settled(served[s].state) {
        assert InStep(known, served, s);
      }
      TruthStays(a, known, served, known', served, message);
    } else {
      NewlySent(w, e, message);
      InitiatorSends(w.managers[a], e);
      if message.kind.Start? || message.kind.Stop? {
        FarEnd(Step(w, e), a, message.session);
      }
    }
  }

  lemma InitiatorStep(w: World, a: Id, b: Id, e: Event)
    requires Sound(w) && Ordered(w, a, b) && Possible(w, e) && !e.Loses? && !e.Copies? && e.who == a
    ensures Ordered(Step(w, e), a, b)
  {
    hide Act, OwnEnd, Agreed, Honest;
    var w' := Step(w, e);
    assert e.Receives? ==> Truthful(a, w.managers[a].sessions, w.managers[b].sessions, e.message);
    assert InitiatorActs(w, a, b, e);
    StepSound(w, e);
    forall s
      ensures s in w'.managers[a].sessions ==> w'.managers[a].sessions[s].configuration.sender == a
      ensures InStep(w'.managers[a].sessions, w'.managers[b].sessions, s)
    {
      InitiatorInStep(w, a, b, e, s);
    }
    forall message | message in w'.network
      ensures Truthful(a, w'.managers[a].sessions, w'.managers[b].sessions, message)
    {
      InitiatorTruth(w, a, b, e, message);
    }
  }

  lemma StepOrdered(w: World, a: Id, b: Id, e: Event)
    requires Sound(w) && Ordered(w, a, b) && Possible(w, e) && Commands(e, a)
    ensures Ordered(Step(w, e), a, b)
  {
    if !e.Loses? && !e.Copies? {
      if e.who == a {
        InitiatorStep(w, a, b, e);
      } else {
        ResponderStep(w, a, b, e);
      }
    } else {
      hide Truthful, InStep;
    }
  }

  // ---------------------------------------------------------------- whole runs

  lemma {:induction false} RunOrdered(w: World, a: Id, b: Id, run: seq<Event>)
    requires Initial(w) && a != b && w.managers.Keys == {a, b}
    requires LegalRun(w, run) && CommandedBy(run, a)
    ensures Ordered(After(w, run), a, b)
    decreases |run|
  {
    if run != [] {
      hide Sound, Ordered, Step;
      var front := run[..|run| - 1];
      RunOrdered(w, a, b, front);
      RunSound(w, front);
      StepOrdered(After(w, front), a, b, run[|run| - 1]);
    }
  }

  /**
   In every run: a streaming responder has an initiator that started the session; a closed
   responder has an initiator that stopped it; a closed initiator has a responder that acted on a
   start or a stop.
   */
  lemma ResponderNeverAhead(w: World, a: Id, b: Id, run: seq<Event>, s: Id)
    requires Initial(w) && a != b && w.managers.Keys == {a, b}
    requires LegalRun(w, run) && CommandedBy(run, a)
    ensures var w' := After(w, run);
      w'.managers.Keys == {a, b} &&
      var known, served := w'.managers[a].sessions, w'.managers[b].sessions;
      && (s in served && served[s].state.Streaming? ==> s in known && Begun(known[s].state))
      && (s in served && served[s].state.Closed? ==> s in known && Ended(known[s].state))
      && (s in known && known[s].state.Closed? ==> s in served && Served(served[s].state))
  {
    RunOrdered(w, a, b, run);
    var w' := After(w, run);
    assert InStep(w'.managers[a].sessions, w'.managers[b].sessions, s);
  }
}
