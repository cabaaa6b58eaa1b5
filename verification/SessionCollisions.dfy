/**
 The other direction of agreement. A receiver's session is known to its sender under the same
 identity; the two configurations agree unless the sender had already accepted somebody else's
 session under that identity. Fewer than 2^64 - 1 offers by each manager keep the 64-bit counters
 from wrapping.
 */
module SessionCollisions {
  import opened AudioFrames
  import opened Bytes
  import opened Devices
  import opened SessionModel
  import opened SessionProtocol
  import opened Words
  import opened Wrappers

  /** Device `d` knows the session; if it is one it offered, this is its configuration. */
  ghost predicate Vouched(w: World, d: Id, s: Id, configuration: Configuration) {
    && d in w.managers && s in w.managers[d].sessions
    && var own := w.managers[d].sessions[s].configuration;
       own.sender == d ==> own == configuration
  }

  /** The identity was handed out by a counter that is now past it. */
  ghost predicate Issued(s: Id, nextId: Word64) {
    exists k: Word64 :: k < nextId && s == SessionIdFrom(k)
  }

  ghost predicate OwnIssued(w: World, d: Id, s: Id, info: SessionInfo)
    requires d in w.managers
  {
    if info.configuration.sender == d then Issued(s, w.managers[d].nextId)
    else Vouched(w, info.configuration.sender, s, info.configuration)
  }

  ghost predicate OfferIssued(w: World, message: Message) {
    message.kind.Offer? ==>
      && message.configuration.Some?
      && Vouched(w, message.source, message.session, message.configuration.value)
      && Issued(message.session, w.managers[message.source].nextId)
  }

  ghost predicate Counted(w: World) {
    && (forall d, s :: d in w.managers && s in w.managers[d].sessions ==>
          OwnIssued(w, d, s, w.managers[d].sessions[s]))
    && (forall message :: message in w.network ==> OfferIssued(w, message))
  }

  /** The event does not make a counter wrap. */
  predicate HasRoom(w: World, e: Event) {
    e.Offers? && e.who in w.managers ==> w.managers[e.who].nextId < TWO_64 - 1
  }

  /** The counter of `d` moves only when `d` makes an offer, and then by one. */
  lemma CounterMoves(m: Manager, e: Event)
    requires !e.Loses? && !e.Copies?
    ensures var (m', sent) := Act(m, e);
      && (m'.nextId == m.nextId || (e.Offers? && m'.nextId == Wrap(m.nextId + 1)))
      && (sent.Some? && sent.value.kind.Offer? ==>
            && e.Offers? && sent.value.source == m.local.id
            && sent.value.session == SessionIdFrom(m.nextId) && m'.nextId == Wrap(m.nextId + 1)
            && sent.value.session in m'.sessions
            && sent.value.configuration.Some?
            && (sent.value.session !in m.sessions ==>
                  m'.sessions[sent.value.session].configuration == sent.value.configuration.value))
      && (e.Offers? ==> forall s :: s in m'.sessions && s !in m.sessions ==>
            s == SessionIdFrom(m.nextId) && m'.nextId == Wrap(m.nextId + 1))
  {
    hide ValidId, Acceptable;
  }

  lemma IssuedStays(s: Id, nextId: Word64, nextId': Word64)
    requires Issued(s, nextId) && nextId <= nextId'
    ensures Issued(s, nextId')
  {
    var k: Word64 :| k < nextId && s == SessionIdFrom(k);
    assert k < nextId' && s == SessionIdFrom(k);
  }

  /** An own session cannot sit under an identity that is only now handed out. */
  lemma NotYetIssued(nextId: Word64)
    ensures !Issued(SessionIdFrom(nextId), nextId)
  {
    if Issued(SessionIdFrom(nextId), nextId) {
      var k: Word64 :| k < nextId && SessionIdFrom(nextId) == SessionIdFrom(k);
      SessionIdsDiffer(nextId, k);
    }
  }

  lemma VouchedStays(w: World, w': World, d: Id, s: Id, configuration: Configuration)
    requires Vouched(w, d, s, configuration) && Grows(w, w')
    ensures Vouched(w', d, s, configuration)
  {
    assert Extends(w.managers[d], w'.managers[d]);
  }

  /** `w'` is what the event makes of `w`, and no counter has gone back. */
  ghost predicate Counting(w: World, e: Event, w': World) {
    && Possible(w, e) && w' == Step(w, e) && Grows(w, w') && HasRoom(w, e)
    && forall d :: d in w.managers ==> w.managers[d].nextId <= w'.managers[d].nextId
  }

  lemma StepCounts(w: World, e: Event)
    requires Possible(w, e) && HasRoom(w, e)
    ensures Counting(w, e, Step(w, e))
  {
    hide Act, SessionIdFrom, Extends;
    StepGrows(w, e);
    if !e.Loses? && !e.Copies? {
      CounterAdvances(w, e);
    }
  }

  /** Only an offer moves the counter of the manager that makes it. */
  lemma CounterAdvances(w: World, e: Event)
    requires Possible(w, e) && !e.Loses? && !e.Copies? && HasRoom(w, e)
    ensures var n, n' := w.managers[e.who].nextId, Act(w.managers[e.who], e).0.nextId;
      n' == n || (e.Offers? && n' == n + 1)
  {
    hide Act, SessionIdFrom;
    CounterMoves(w.managers[e.who], e);
    if e.Offers? {
      WrapSmall(w.managers[e.who].nextId + 1);
    }
  }

  lemma OfferKept(w: World, e: Event, w': World, message: Message)
    requires Sound(w) && Counted(w) && Counting(w, e, w') && message in w'.network
    ensures OfferIssued(w', message)
  {
    hide Act, Step, SessionIdFrom, Extends, OwnEnd, Agreed, Honest, Vouched, Issued, OwnIssued;
    if message.kind.Offer? {
      if message in w.network {
        assert OfferIssued(w, message);
        VouchedStays(w, w', message.source, message.session, message.configuration.value);
        VouchedKnown(w, message.source, message.session, message.configuration.value);
        IssuedStays(message.session, w.managers[message.source].nextId, w'.managers[message.source].nextId);
      } else {
        NewOffer(w, e, message);
      }
    }
  }

  lemma VouchedKnown(w: World, d: Id, s: Id, configuration: Configuration)
    requires Vouched(w, d, s, configuration)
    ensures d in w.managers
  {
  }

  lemma NewOffer(w: World, e: Event, message: Message)
    requires Sound(w) && Counted(w) && Possible(w, e) && Counting(w, e, Step(w, e))
    requires message in Step(w, e).network && message !in w.network && message.kind.Offer?
    ensures OfferIssued(Step(w, e), message)
  {
    hide Act, SessionIdFrom, OwnEnd, Agreed, Honest, Evolves, Wrap, Extends;
    var w' := Step(w, e);
    var m, m' := w.managers[e.who], w'.managers[e.who];
    NewlySent(w, e, message);
    CounterMoves(m, e);
    CounterAdvances(w, e);
    assert message.source == e.who && e.Offers?;
    WrapSmall(m.nextId + 1);
    assert m.nextId < m'.nextId && message.session == SessionIdFrom(m.nextId);
    assert Issued(message.session, m'.nextId);
    if message.session in m.sessions {
      SessionKept(m, e, message.session);
      NotOwn(w, e.who, message.session);
      SameConfiguration(m.sessions[message.session], m'.sessions[message.session]);
    }
  }

  lemma SameConfiguration(info: SessionInfo, info': SessionInfo)
    requires Evolves(info, info')
    ensures info'.configuration == info.configuration
  {
  }

  lemma NotOwn(w: World, d: Id, s: Id)
    requires d in w.managers && s == SessionIdFrom(w.managers[d].nextId)
    requires s in w.managers[d].sessions && OwnIssued(w, d, s, w.managers[d].sessions[s])
    ensures w.managers[d].sessions[s].configuration.sender != d
  {
    NotYetIssued(w.managers[d].nextId);
  }

  /** A session that was there before the event. */
  lemma KnownCounted(w: World, e: Event, w': World, d: Id, s: Id)
    requires Counting(w, e, w') && d in w.managers && s in w.managers[d].sessions
    requires OwnIssued(w, d, s, w.managers[d].sessions[s])
    ensures s in w'.managers[d].sessions && OwnIssued(w', d, s, w'.managers[d].sessions[s])
  {
    hide Step, SessionIdFrom, Vouched, Issued;
    assert Extends(w.managers[d], w'.managers[d]);
    var info := w.managers[d].sessions[s];
    if info.configuration.sender == d {
      IssuedStays(s, w.managers[d].nextId, w'.managers[d].nextId);
    } else {
      VouchedStays(w, w', info.configuration.sender, s, info.configuration);
    }
  }

  /** A session the event's manager has just offered. */
  lemma OfferedCounted(w: World, e: Event, s: Id)
    requires Sound(w) && Possible(w, e) && Counting(w, e, Step(w, e)) && e.Offers?
    requires s !in w.managers[e.who].sessions && s in Step(w, e).managers[e.who].sessions
    ensures OwnIssued(Step(w, e), e.who, s, Step(w, e).managers[e.who].sessions[s])
  {
    hide Act, SessionIdFrom, OwnEnd, Agreed, Honest, Extends;
    var m, m' := w.managers[e.who], Step(w, e).managers[e.who];
    NewSession(m, e, s);
    CounterMoves(m, e);
    CounterAdvances(w, e);
    assert m.nextId < m'.nextId && s == SessionIdFrom(m.nextId);
    assert Issued(s, m'.nextId);
  }

  /** A session the event's manager has just accepted. */
  lemma AcceptedCounted(w: World, e: Event, s: Id)
    requires Sound(w) && Possible(w, e) && Counting(w, e, Step(w, e)) && e.Receives? && OfferIssued(w, e.message)
    requires s !in w.managers[e.who].sessions && s in Step(w, e).managers[e.who].sessions
    ensures OwnIssued(Step(w, e), e.who, s, Step(w, e).managers[e.who].sessions[s])
  {
    hide Act, SessionIdFrom, OwnEnd, Agreed, Extends, Vouched, Issued;
    NewSession(w.managers[e.who], e, s);
    assert Honest(w, e.message);
    HonestOffer(w, e.message);
    ReceivedIdentity(w, e, s);
    VouchedStays(w, Step(w, e), e.message.source, s, e.message.configuration.value);
  }

  lemma ReceivedIdentity(w: World, e: Event, s: Id)
    requires Possible(w, e) && e.Receives?
    requires s !in w.managers[e.who].sessions && s in Step(w, e).managers[e.who].sessions
    ensures e.message.session == s
  {
    hide ValidId, Acceptable;
  }

  /** A manager that takes no part in the event has no new session, nor one that neither offers nor receives. */
  lemma NewSessionEvent(w: World, e: Event, d: Id, s: Id)
    requires Possible(w, e) && d in w.managers && s !in w.managers[d].sessions
    requires s in Step(w, e).managers[d].sessions
    ensures !e.Loses? && !e.Copies? && d == e.who && (e.Offers? || e.Receives?)
  {
    if !e.Loses? && !e.Copies? && d == e.who {
      NewSession(w.managers[d], e, s);
    }
    hide Act;
  }

  lemma SessionCounted(w: World, e: Event, w': World, d: Id, s: Id)
    requires Sound(w) && Counted(w) && Counting(w, e, w')
    requires d in w.managers && s in w'.managers[d].sessions
    ensures OwnIssued(w', d, s, w'.managers[d].sessions[s])
  {
    hide Step, Sound, OwnIssued, OfferIssued, Grows;
    if s in w.managers[d].sessions {
      KnownCounted(w, e, w', d, s);
    } else {
      NewSessionEvent(w, e, d, s);
      if e.Offers? {
        OfferedCounted(w, e, s);
      } else {
        AcceptedCounted(w, e, s);
      }
    }
  }

  lemma StepCounted(w: World, e: Event)
    requires Sound(w) && Possible(w, e) && Counted(w) && HasRoom(w, e)
    ensures Counted(Step(w, e))
  {
    hide Step, Sound, OwnIssued, OfferIssued, HasRoom;
    var w' := Step(w, e);
    StepCounts(w, e);
    SameManagers(w, e, w');
    forall d, s | d in w'.managers && s in w'.managers[d].sessions
      ensures OwnIssued(w', d, s, w'.managers[d].sessions[s])
    {
      SessionCounted(w, e, w', d, s);
    }
    forall message | message in w'.network ensures OfferIssued(w', message) {
      OfferKept(w, e, w', message);
    }
  }

  lemma SameManagers(w: World, e: Event, w': World)
    requires Counting(w, e, w')
    ensures w'.managers.Keys == w.managers.Keys
  {
    hide Step;
  }

  /** How many offers `d` is asked to make. */
  function OfferCount(run: seq<Event>, d: Id): nat {
    if run == [] then 0
    else
      var e := run[|run| - 1];
      OfferCount(run[..|run| - 1], d) + if e.Offers? && e.who == d then 1 else 0
  }

  /** No manager makes as many offers as would make its counter wrap. */
  ghost predicate FewOffers(w: World, run: seq<Event>) {
    forall d :: d in w.managers ==> OfferCount(run, d) < TWO_64 - 1
  }

  lemma StepCounters(w: World, e: Event)
    requires Possible(w, e) && HasRoom(w, e)
    ensures Step(w, e).managers.Keys == w.managers.Keys
    ensures forall d :: d in w.managers ==>
      Step(w, e).managers[d].nextId <= w.managers[d].nextId + if e.Offers? && e.who == d then 1 else 0
  {
    hide Act;
    if !e.Loses? && !e.Copies? {
      CounterAdvances(w, e);
    }
  }

  /** The run's managers are those it began with, and each counter shows at most its own offers. */
  lemma {:induction false} CountersBounded(w: World, run: seq<Event>)
    requires Initial(w) && LegalRun(w, run) && FewOffers(w, run)
    ensures After(w, run).managers.Keys == w.managers.Keys
    ensures forall d :: d in w.managers ==> After(w, run).managers[d].nextId <= 1 + OfferCount(run, d)
    decreases |run|
  {
    if run != [] {
      hide Step, Possible, FewOffers, Initial, OfferCount;
      var front, e := run[..|run| - 1], run[|run| - 1];
      OfferCounts(run);
      FewerOffers(w, run);
      CountersBounded(w, front);
      assert HasRoom(After(w, front), e);
      StepCounters(After(w, front), e);
    }
  }

  lemma OfferCounts(run: seq<Event>)
    requires run != []
    ensures var e := run[|run| - 1];
      forall d :: OfferCount(run, d) == OfferCount(run[..|run| - 1], d) + if e.Offers? && e.who == d then 1 else 0
  {
  }

  lemma FewerOffers(w: World, run: seq<Event>)
    requires run != [] && FewOffers(w, run)
    ensures FewOffers(w, run[..|run| - 1])
    ensures var e := run[|run| - 1];
      e.Offers? && e.who in w.managers ==> OfferCount(run[..|run| - 1], e.who) < TWO_64 - 2
  {
    assert forall d :: OfferCount(run[..|run| - 1], d) <= OfferCount(run, d);
  }

  lemma {:induction false} RunCounted(w: World, run: seq<Event>)
    requires Initial(w) && LegalRun(w, run) && FewOffers(w, run)
    ensures Counted(After(w, run))
    decreases |run|
  {
    if run != [] {
      hide Sound, Step, Counted, FewOffers;
      var front := run[..|run| - 1];
      FewerOffers(w, run);
      RunCounted(w, front);
      RunSound(w, front);
      CountersBounded(w, front);
      StepCounted(After(w, front), run[|run| - 1]);
    }
  }

  /** A session accepted from another device, seen from both ends. */
  lemma ReceiverAgreement(w: World, run: seq<Event>, r: Id, s: Id)
    requires Initial(w) && LegalRun(w, run) && FewOffers(w, run)
    requires var w' := After(w, run);
      r in w'.managers && s in w'.managers[r].sessions && w'.managers[r].sessions[s].configuration.sender != r
    ensures var w' := After(w, run);
      var configuration := w'.managers[r].sessions[s].configuration;
      && configuration.receiver == r
      && configuration.sender in w'.managers && s in w'.managers[configuration.sender].sessions
      && (w'.managers[configuration.sender].sessions[s].configuration == configuration
          <==> w'.managers[configuration.sender].sessions[s].configuration.sender == configuration.sender)
  {
    RunSound(w, run);
    RunCounted(w, run);
    var w' := After(w, run);
    var info := w'.managers[r].sessions[s];
    assert OwnEnd(r, s, info) && OwnIssued(w', r, s, info);
  }

  // ---------------------------------------------------------------- a collision

  /** A plain device: 48 kHz stereo in 16 bits. */
  function Plain(id: Id): DeviceInfo {
    DeviceInfo(id, [1], 1, [], [48000], [2], [16], 5000, 5001)
  }

  function Proposal(from: Id, to: Id): Configuration {
    Configuration(AudioFormat(48000, 2, 16), CHOSEN_SAMPLES_PER_FRAME, from, to, 5000, 5000)
  }

  lemma PlainOffers(m: Manager, remote: Id)
    requires ValidId(m.local.id) && ValidId(remote) && m.local == Plain(m.local.id)
    ensures var id := SessionIdFrom(m.nextId);
      CreateOffer(m, Plain(remote), 0) ==
        (m.(nextId := Wrap(m.nextId + 1),
            sessions := Enter(m.sessions, id, SessionInfo(id, m.local.id, remote, Proposal(m.local.id, remote),
                                                          Negotiating, 0, 0, NoReason))),
         Some(OfferOf(id, m.local.id, remote)))
  {
    hide ValidId, SessionIdFrom, Wrap;
  }

  lemma PlainAccepts(m: Manager, from: Id, session: Id)
    requires ValidId(m.local.id) && ValidId(from) && ValidId(session) && from != m.local.id
    requires m.local == Plain(m.local.id) && session !in m.sessions
    ensures var m' := Handle(m, OfferOf(session, from, m.local.id), 0).0;
      && session in m'.sessions && m'.sessions[session].configuration == Proposal(from, m.local.id)
      && m'.local == m.local && m'.nextId == m.nextId
  {
    hide ValidId;
  }

  function OfferOf(session: Id, from: Id, to: Id): Message {
    Message(Offer, session, from, to, Some(Proposal(from, to)), NoReason)
  }

  /**
   Two offers under one identity. `b` offers to `a`, which accepts; the first offer `a` makes itself,
   to `c`, is under the same identity and enters nothing; `c` accepts it. Then `c` holds a session
   that names `a` as its sender, and the entry of `a` is another session altogether.
   */
  function CollidingRun(a: Id, b: Id, c: Id): seq<Event> {
    var s := SessionIdFrom(1);
    [Offers(b, Plain(a), 0),
     Receives(a, OfferOf(s, b, a), 0),
     Offers(a, Plain(c), 0),
     Receives(c, OfferOf(s, a, c), 0)]
  }

  function NewManager(id: Id): Manager {
    Manager(Plain(id), 1, 1, map[])
  }

  function NewWorld(a: Id, b: Id, c: Id): World {
    World(map[a := NewManager(a), b := NewManager(b), c := NewManager(c)], multiset{})
  }

  lemma NewWorldInitial(a: Id, b: Id, c: Id)
    requires a != b && b != c && a != c
    ensures var w := NewWorld(a, b, c);
      && Initial(w)
      && a in w.managers && w.managers[a] == NewManager(a)
      && b in w.managers && w.managers[b] == NewManager(b)
      && c in w.managers && w.managers[c] == NewManager(c)
  {
  }

  lemma IdentitiesCollide(a: Id, b: Id, c: Id)
    requires ValidId(a) && ValidId(b) && ValidId(c) && a != b && b != c && a != c
    ensures var w := NewWorld(a, b, c);
      var run, s := CollidingRun(a, b, c), SessionIdFrom(1);
      && Initial(w) && LegalRun(w, run) && FewOffers(w, run)
      && var w' := After(w, run);
         && c in w'.managers && s in w'.managers[c].sessions && a in w'.managers && s in w'.managers[a].sessions
         && w'.managers[c].sessions[s].configuration == Proposal(a, c)
         && w'.managers[a].sessions[s].configuration == Proposal(b, a)
         && Proposal(a, c) != Proposal(b, a)
  {
    hide ValidId, Step, SessionIdFrom, Possible, After, LegalRun, NewWorld, Initial, FewOffers;
    var w := NewWorld(a, b, c);
    var run, s := CollidingRun(a, b, c), SessionIdFrom(1);
    assert [] + [run[0]] == [run[0]];
    assert [run[0]] + [run[1]] == [run[0], run[1]];
    assert [run[0], run[1]] + [run[2]] == [run[0], run[1], run[2]];
    assert [run[0], run[1], run[2]] + [run[3]] == run;
    NewWorldInitial(a, b, c);
    NothingYet(w);
    OfferStep(w, b, a);
    RunThen(w, [], run[0]);
    var w1 := Step(w, run[0]);
    AcceptStep(w1, a, b, s);
    RunThen(w, [run[0]], run[1]);
    var w2 := Step(w1, run[1]);
    OfferStep(w2, a, c);
    RunThen(w, [run[0], run[1]], run[2]);
    var w3 := Step(w2, run[2]);
    AcceptStep(w3, c, a, s);
    RunThen(w, [run[0], run[1], run[2]], run[3]);
    FewEvents(w, run);
  }

  /** `d` offers to `r`: the offer is in the network, and neither its own sessions nor other managers change. */
  lemma OfferStep(w: World, d: Id, r: Id)
    requires d in w.managers && ValidId(d) && ValidId(r) && w.managers[d].local == Plain(d)
    ensures var e := Offers(d, Plain(r), 0);
      && Possible(w, e)
      && var w' := Step(w, e);
         && d in w'.managers
         && OfferOf(SessionIdFrom(w.managers[d].nextId), d, r) in w'.network
         && (forall x :: x in w.managers && x != d ==> x in w'.managers && w'.managers[x] == w.managers[x])
         && (forall s :: s in w.managers[d].sessions ==>
               s in w'.managers[d].sessions && w'.managers[d].sessions[s] == w.managers[d].sessions[s])
  {
    hide ValidId, CreateOffer, SessionIdFrom, Wrap;
    PlainOffers(w.managers[d], r);
  }

  lemma AcceptStep(w: World, d: Id, from: Id, s: Id)
    requires d in w.managers && ValidId(d) && ValidId(from) && ValidId(s) && from != d
    requires w.managers[d].local == Plain(d) && s !in w.managers[d].sessions && OfferOf(s, from, d) in w.network
    ensures var e := Receives(d, OfferOf(s, from, d), 0);
      && Possible(w, e)
      && var w' := Step(w, e);
         && d in w'.managers && s in w'.managers[d].sessions
         && w'.managers[d].sessions[s].configuration == Proposal(from, d)
         && w'.managers[d].local == w.managers[d].local && w'.managers[d].nextId == w.managers[d].nextId
         && (forall x :: x in w.managers && x != d ==> x in w'.managers && w'.managers[x] == w.managers[x])
  {
    hide ValidId, Handle;
    PlainAccepts(w.managers[d], from, s);
  }

  lemma NothingYet(w: World)
    ensures LegalRun(w, []) && After(w, []) == w
  {
  }

  lemma {:induction false} OffersAreEvents(run: seq<Event>, d: Id)
    ensures OfferCount(run, d) <= |run|
  {
    if run != [] {
      OffersAreEvents(run[..|run| - 1], d);
    }
  }

  lemma FewEvents(w: World, run: seq<Event>)
    requires |run| < TWO_64 - 1
    ensures FewOffers(w, run)
  {
    forall d | d in w.managers ensures OfferCount(run, d) < TWO_64 - 1 {
      OffersAreEvents(run, d);
    }
  }
}
