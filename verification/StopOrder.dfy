/**
 When a closed initiator has a closed responder: always, as long as the session was never started.
 A session that was started can be stopped into the other case.
 */
module StopOrder {
  import opened Bytes
  import opened ResponderOrder
  import opened SessionModel
  import opened SessionProtocol
  import opened Wrappers

  /** The initiator is never told to start session `s`. */
  ghost predicate NeverStarts(run: seq<Event>, s: Id) {
    forall i :: 0 <= i < |run| ==> !StartsSession(run[i], s)
  }

  predicate StartsSession(e: Event, s: Id) {
    e.Starts? && e.session == s
  }

  predicate IsClosed(sessions: map<Id, SessionInfo>, s: Id) {
    s in sessions && sessions[s].state.Closed?
  }

  predicate IsStreaming(sessions: map<Id, SessionInfo>, s: Id) {
    s in sessions && sessions[s].state.Streaming?
  }

  /** No start is in flight, and an acknowledgement in flight is that of a stop. */
  ghost predicate QuietMessage(served: map<Id, SessionInfo>, s: Id, message: Message) {
    message.session == s ==> !message.kind.Start? && (message.kind.Ack? ==> IsClosed(served, s))
  }

  ghost predicate Unstarted(w: World, a: Id, b: Id, s: Id) {
    && w.managers.Keys == {a, b}
    && var known, served := w.managers[a].sessions, w.managers[b].sessions;
    && !IsStreaming(known, s) && !IsStreaming(served, s)
    && (IsClosed(known, s) ==> IsClosed(served, s))
    && (forall message :: message in w.network ==> QuietMessage(served, s, message))
  }

  /** Only a start lets the initiator stream a session, or sends a START for it. */
  lemma StartsOnly(m: Manager, e: Event, s: Id)
    requires ToInitiator(e, m.local.id) && !StartsSession(e, s)
    ensures var (m', sent) := Act(m, e);
      && (IsStreaming(m'.sessions, s) ==> IsStreaming(m.sessions, s))
      && (sent.Some? && sent.value.kind.Start? ==> sent.value.session != s)
  {
    hide ValidId;
  }

  lemma ClosedStays(m: Manager, m': Manager, s: Id)
    requires Extends(m, m') && IsClosed(m.sessions, s)
    ensures IsClosed(m'.sessions, s)
  {
  }

  lemma InitiatorQuiet(w: World, a: Id, b: Id, e: Event, s: Id)
    requires a != b && InitiatorActs(w, a, b, e) && Unstarted(w, a, b, s) && !StartsSession(e, s)
    ensures Unstarted(Step(w, e), a, b, s)
  {
    hide Act, Ordered, Extends;
    var m, w' := w.managers[a], Step(w, e);
    var known', served := w'.managers[a].sessions, w.managers[b].sessions;
    StartsOnly(m, e, s);
    if IsClosed(known', s) {
      InitiatorMoves(m, e, s);
      assert e.Receives? ==> QuietMessage(served, s, e.message);
    }
    forall message | message in w'.network ensures QuietMessage(served, s, message) {
      if message !in w.network {
        NewlySent(w, e, message);
        InitiatorSends(m, e);
      }
    }
  }

  /** The responder acts, and every session it holds is one a responder can hold. */
  ghost predicate ResponderActs(w: World, b: Id, e: Event) {
    && Possible(w, e) && Obeys(e) && e.who == b && b in w.managers
    && forall s :: s in w.managers[b].sessions ==>
         Settled(w.managers[b].sessions[s].state) && w.managers[b].sessions[s].id == s
  }

  lemma ResponderQuiet(w: World, a: Id, b: Id, e: Event, s: Id)
    requires a != b && ResponderActs(w, b, e) && Unstarted(w, a, b, s)
    ensures Unstarted(Step(w, e), a, b, s)
  {
    hide Act, Extends;
    var m, w' := w.managers[b], Step(w, e);
    var served, served' := m.sessions, w'.managers[b].sessions;
    ActExtends(m, e);
    if IsClosed(served, s) {
      ClosedStays(m, w'.managers[b], s);
    }
    if s in served' {
      ResponderMoves(m, e, s);
      assert e.Receives? ==> QuietMessage(served, s, e.message);
    }
    forall message | message in w'.network ensures QuietMessage(served', s, message) {
      if message in w.network {
        assert QuietMessage(served, s, message);
      } else {
        NewlySent(w, e, message);
        ResponderSends(m, e);
      }
    }
  }

  lemma OrderedActs(w: World, a: Id, b: Id, e: Event)
    requires Sound(w) && Ordered(w, a, b) && Possible(w, e) && Commands(e, a) && !e.Loses? && !e.Copies?
    ensures e.who == a ==> InitiatorActs(w, a, b, e)
    ensures e.who != a ==> ResponderActs(w, b, e)
  {
    hide Act, OwnEnd, Agreed, Honest;
    var known, served := w.managers[a].sessions, w.managers[b].sessions;
    if e.who == a {
      assert e.Receives? ==> Truthful(a, known, served, e.message);
    } else {
      IdsMatch(w, b);
      forall s | s in served ensures Settled(served[s].state) {
        assert InStep(known, served, s);
      }
    }
  }

  lemma StepUnstarted(w: World, a: Id, b: Id, e: Event, s: Id)
    requires Sound(w) && Ordered(w, a, b) && Possible(w, e) && Commands(e, a) && !StartsSession(e, s)
    requires Unstarted(w, a, b, s)
    ensures Unstarted(Step(w, e), a, b, s)
  {
    hide Sound, ResponderActs, InitiatorActs, QuietMessage, IsClosed, IsStreaming, Act;
    if !e.Loses? && !e.Copies? {
      OrderedActs(w, a, b, e);
      if e.who == a {
        InitiatorQuiet(w, a, b, e, s);
      } else {
        ResponderQuiet(w, a, b, e, s);
      }
    }
  }

  lemma {:induction false} RunUnstarted(w: World, a: Id, b: Id, run: seq<Event>, s: Id)
    requires Initial(w) && a != b && w.managers.Keys == {a, b}
    requires LegalRun(w, run) && CommandedBy(run, a) && NeverStarts(run, s)
    ensures Unstarted(After(w, run), a, b, s)
    decreases |run|
  {
    if run != [] {
      hide Sound, Ordered, Step, Unstarted;
      var front := run[..|run| - 1];
      RunUnstarted(w, a, b, front, s);
      RunOrdered(w, a, b, front);
      RunSound(w, front);
      StepUnstarted(After(w, front), a, b, run[|run| - 1], s);
    }
  }

  /**
   In every run in which the initiator never starts session `s`, an initiator that has closed it has
   a responder that has closed it.
   */
  lemma ClosedTogether(w: World, a: Id, b: Id, run: seq<Event>, s: Id)
    requires Initial(w) && a != b && w.managers.Keys == {a, b}
    requires LegalRun(w, run) && CommandedBy(run, a) && NeverStarts(run, s)
    ensures var w' := After(w, run);
      w'.managers.Keys == {a, b} && (IsClosed(w'.managers[a].sessions, s) ==> IsClosed(w'.managers[b].sessions, s))
  {
    RunUnstarted(w, a, b, run, s);
  }

  // ---------------------------------------------------------------- once it is started

  /** Session `s` is in state `state` at `d`, and `other` is its far end there. */
  ghost predicate At(w: World, d: Id, s: Id, state: SessionState, other: Id) {
    && d in w.managers && w.managers[d].local.id == d && s in w.managers[d].sessions
    && var info := w.managers[d].sessions[s];
       info.id == s && info.state == state && info.remoteDevice == other
  }

  /** Two established ends of a session name each other. */
  lemma EndsFace(w: World, a: Id, b: Id, s: Id)
    requires Sound(w) && Ordered(w, a, b)
    requires s in w.managers[a].sessions && w.managers[a].sessions[s].state.Established?
    requires s in w.managers[b].sessions && w.managers[b].sessions[s].state.Established?
    ensures At(w, a, s, Established, b) && At(w, b, s, Established, a)
  {
    hide InStep, Truthful, Honest;
    var mine, theirs := w.managers[a].sessions[s], w.managers[b].sessions[s];
    assert OwnEnd(a, s, mine) && Agreed(w, mine);
    assert OwnEnd(b, s, theirs);
  }

  /** What the initiator sends to start a session, and what the responder answers. */
  function StartOf(s: Id, a: Id, b: Id): Message {
    Message(Start, s, a, b, None, NoReason)
  }

  function AckOf(s: Id, a: Id, b: Id): Message {
    Message(Ack, s, b, a, None, NoReason)
  }

  /** Start, its arrival, stop, and only then the acknowledgement of the start. */
  function LateAcknowledgement(s: Id, a: Id, b: Id, now: int): seq<Event> {
    [Starts(a, s, now), Receives(b, StartOf(s, a, b), now), Stops(a, s, now), Receives(a, AckOf(s, a, b), now)]
  }

  lemma StartStep(w: World, a: Id, b: Id, s: Id, now: int)
    requires a != b && At(w, a, s, Established, b) && At(w, b, s, Established, a)
    ensures var e := Starts(a, s, now);
      && Possible(w, e)
      && var w' := Step(w, e);
         At(w', a, s, Streaming, b) && At(w', b, s, Established, a) && StartOf(s, a, b) in w'.network
  {
  }

  lemma StartedStep(w: World, a: Id, b: Id, s: Id, now: int)
    requires a != b && ValidId(s) && At(w, a, s, Streaming, b) && At(w, b, s, Established, a)
    requires StartOf(s, a, b) in w.network
    ensures var e := Receives(b, StartOf(s, a, b), now);
      && Possible(w, e)
      && var w' := Step(w, e);
         At(w', a, s, Streaming, b) && At(w', b, s, Streaming, a) && AckOf(s, a, b) in w'.network
  {
    hide ValidId;
  }

  lemma StopStep(w: World, a: Id, b: Id, s: Id, now: int)
    requires a != b && At(w, a, s, Streaming, b) && At(w, b, s, Streaming, a) && AckOf(s, a, b) in w.network
    ensures var e := Stops(a, s, now);
      && Possible(w, e)
      && var w' := Step(w, e);
         At(w', a, s, Stopping, b) && At(w', b, s, Streaming, a) && AckOf(s, a, b) in w'.network
  {
  }

  lemma AcknowledgedStep(w: World, a: Id, b: Id, s: Id, now: int)
    requires a != b && ValidId(s) && At(w, a, s, Stopping, b) && At(w, b, s, Streaming, a)
    requires AckOf(s, a, b) in w.network
    ensures var e := Receives(a, AckOf(s, a, b), now);
      && Possible(w, e)
      && var w' := Step(w, e); At(w', a, s, Closed, b) && At(w', b, s, Streaming, a)
  {
    hide ValidId;
  }

  lemma RunThenMore(w: World, run: seq<Event>, done: seq<Event>, e: Event)
    requires LegalRun(w, run + done) && Possible(After(w, run + done), e)
    ensures LegalRun(w, run + (done + [e]))
    ensures After(w, run + (done + [e])) == Step(After(w, run + done), e)
  {
    hide Step, Possible, After, LegalRun;
    RunThen(w, run + done, e);
    assert run + done + [e] == run + (done + [e]);
  }

  /**
   Every run that leaves session `s` established at both ends goes on, by a start, to one in which
   the initiator has closed the session and the responder is streaming it.
   */
  lemma StartedMayPart(w: World, a: Id, b: Id, run: seq<Event>, s: Id, now: int)
    requires Initial(w) && a != b && w.managers.Keys == {a, b}
    requires LegalRun(w, run) && CommandedBy(run, a)
    requires After(w, run).managers.Keys == {a, b}
    requires var known := After(w, run).managers[a].sessions; s in known && known[s].state.Established?
    requires var served := After(w, run).managers[b].sessions; s in served && served[s].state.Established?
    ensures var longer := run + LateAcknowledgement(s, a, b, now);
      && LegalRun(w, longer) && CommandedBy(longer, a)
      && var w' := After(w, longer);
         w'.managers.Keys == {a, b} && IsClosed(w'.managers[a].sessions, s) && IsStreaming(w'.managers[b].sessions, s)
  {
    hide Step, Possible, After, LegalRun, Sound, Ordered, IdsValid, ValidId, At, CommandedBy;
    var more := LateAcknowledgement(s, a, b, now);
    RunSound(w, run);
    RunOrdered(w, a, b, run);
    RunIdsValid(w, run);
    SessionIdValid(After(w, run), a, s);
    EndsFace(After(w, run), a, b, s);
    assert run + [] == run;
    assert [] + [more[0]] == [more[0]];
    assert [more[0]] + [more[1]] == [more[0], more[1]];
    assert [more[0], more[1]] + [more[2]] == [more[0], more[1], more[2]];
    assert [more[0], more[1], more[2]] + [more[3]] == more;
    StartStep(After(w, run), a, b, s, now);
    RunThenMore(w, run, [], more[0]);
    StartedStep(After(w, run + [more[0]]), a, b, s, now);
    RunThenMore(w, run, [more[0]], more[1]);
    StopStep(After(w, run + [more[0], more[1]]), a, b, s, now);
    RunThenMore(w, run, [more[0], more[1]], more[2]);
    AcknowledgedStep(After(w, run + [more[0], more[1], more[2]]), a, b, s, now);
    RunThenMore(w, run, [more[0], more[1], more[2]], more[3]);
    StillCommanded(run, a, b, s, now);
    RunOrdered(w, a, b, run + more);
    EndsIn(After(w, run + more), a, b, s);
  }

  lemma StillCommanded(run: seq<Event>, a: Id, b: Id, s: Id, now: int)
    requires CommandedBy(run, a)
    ensures CommandedBy(run + LateAcknowledgement(s, a, b, now), a)
  {
  }

  lemma EndsIn(w: World, a: Id, b: Id, s: Id)
    requires Ordered(w, a, b) && At(w, a, s, Closed, b) && At(w, b, s, Streaming, a)
    ensures w.managers.Keys == {a, b} && IsClosed(w.managers[a].sessions, s) && IsStreaming(w.managers[b].sessions, s)
  {
  }

  // ---------------------------------------------------------------- orderly

  function StopOf(s: Id, a: Id, b: Id): Message {
    Message(Stop, s, a, b, None, NoReason)
  }

  /** Start and stop, each handled and acknowledged before the next command. */
  function Teardown(s: Id, a: Id, b: Id, now: int): seq<Event> {
    [Starts(a, s, now), Receives(b, StartOf(s, a, b), now), Receives(a, AckOf(s, a, b), now),
     Stops(a, s, now), Receives(b, StopOf(s, a, b), now), Receives(a, AckOf(s, a, b), now)]
  }

  lemma StartAcknowledgedStep(w: World, a: Id, b: Id, s: Id, now: int)
    requires a != b && ValidId(s) && At(w, a, s, Streaming, b) && At(w, b, s, Streaming, a)
    requires AckOf(s, a, b) in w.network
    ensures var e := Receives(a, AckOf(s, a, b), now);
      && Possible(w, e)
      && var w' := Step(w, e); At(w', a, s, Streaming, b) && At(w', b, s, Streaming, a)
  {
    hide ValidId;
  }

  lemma OrderedStopStep(w: World, a: Id, b: Id, s: Id, now: int)
    requires a != b && At(w, a, s, Streaming, b) && At(w, b, s, Streaming, a)
    ensures var e := Stops(a, s, now);
      && Possible(w, e)
      && var w' := Step(w, e);
         At(w', a, s, Stopping, b) && At(w', b, s, Streaming, a) && StopOf(s, a, b) in w'.network
  {
  }

  lemma StoppedStep(w: World, a: Id, b: Id, s: Id, now: int)
    requires a != b && ValidId(s) && At(w, a, s, Stopping, b) && At(w, b, s, Streaming, a)
    requires StopOf(s, a, b) in w.network
    ensures var e := Receives(b, StopOf(s, a, b), now);
      && Possible(w, e)
      && var w' := Step(w, e);
         At(w', a, s, Stopping, b) && At(w', b, s, Closed, a) && AckOf(s, a, b) in w'.network
  {
    hide ValidId;
  }

  lemma StopAcknowledgedStep(w: World, a: Id, b: Id, s: Id, now: int)
    requires a != b && ValidId(s) && At(w, a, s, Stopping, b) && At(w, b, s, Closed, a)
    requires AckOf(s, a, b) in w.network
    ensures var e := Receives(a, AckOf(s, a, b), now);
      && Possible(w, e)
      && var w' := Step(w, e); At(w', a, s, Closed, b) && At(w', b, s, Closed, a)
  {
    hide ValidId;
  }

  lemma TeardownParts(s: Id, a: Id, b: Id, now: int)
    ensures var t := Teardown(s, a, b, now);
      && t[..0] == [] && t[..6] == t
      && forall i :: 0 <= i < 6 ==> t[..i] + [t[i]] == t[..i + 1]
  {
  }

  /**
   Every run that leaves session `s` established at both ends goes on, by start and stop with each
   message delivered in turn, to one in which both ends have closed it.
   */
  lemma OrderlyTeardown(w: World, a: Id, b: Id, run: seq<Event>, s: Id, now: int)
    requires Initial(w) && a != b && w.managers.Keys == {a, b}
    requires LegalRun(w, run) && CommandedBy(run, a)
    requires After(w, run).managers.Keys == {a, b}
    requires var known := After(w, run).managers[a].sessions; s in known && known[s].state.Established?
    requires var served := After(w, run).managers[b].sessions; s in served && served[s].state.Established?
    ensures var longer := run + Teardown(s, a, b, now);
      && LegalRun(w, longer) && CommandedBy(longer, a)
      && At(After(w, longer), a, s, Closed, b) && At(After(w, longer), b, s, Closed, a)
  {
    hide Step, Possible, After, LegalRun, Sound, Ordered, IdsValid, ValidId, At, CommandedBy;
    var t := Teardown(s, a, b, now);
    RunSound(w, run);
    RunOrdered(w, a, b, run);
    RunIdsValid(w, run);
    SessionIdValid(After(w, run), a, s);
    EndsFace(After(w, run), a, b, s);
    TeardownParts(s, a, b, now);
    assert run + t[..0] == run;
    StartStep(After(w, run), a, b, s, now);
    RunThenMore(w, run, t[..0], t[0]);
    StartedStep(After(w, run + t[..1]), a, b, s, now);
    RunThenMore(w, run, t[..1], t[1]);
    StartAcknowledgedStep(After(w, run + t[..2]), a, b, s, now);
    RunThenMore(w, run, t[..2], t[2]);
    OrderedStopStep(After(w, run + t[..3]), a, b, s, now);
    RunThenMore(w, run, t[..3], t[3]);
    StoppedStep(After(w, run + t[..4]), a, b, s, now);
    RunThenMore(w, run, t[..4], t[4]);
    StopAcknowledgedStep(After(w, run + t[..5]), a, b, s, now);
    RunThenMore(w, run, t[..5], t[5]);
    TeardownCommanded(run, a, b, s, now);
  }

  lemma TeardownCommanded(run: seq<Event>, a: Id, b: Id, s: Id, now: int)
    requires CommandedBy(run, a)
    ensures CommandedBy(run + Teardown(s, a, b, now), a)
  {
  }
}
