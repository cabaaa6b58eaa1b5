/** An offer between compatible devices always leads both managers to the same established session. */
module Negotiation {
  import opened AudioFrames
  import opened Bytes
  import opened Devices
  import opened SessionModel
  import opened Words
  import opened Wrappers
  import SessionCodec

  /** The devices can talk, and neither manager has used the next session's id. */
  ghost predicate CanNegotiate(a: Manager, b: Manager) {
    && a.local.id != b.local.id
    && ChooseConfiguration(a.local, b.local).Some?
    && SessionIdFrom(a.nextId) !in a.sessions && SessionIdFrom(a.nextId) !in b.sessions
  }

  /** The session `id` is in the table, in the given state, with the given configuration. */
  ghost predicate Holds(m: Manager, id: Id, state: SessionState, configuration: Configuration) {
    id in m.sessions && m.sessions[id].state == state && m.sessions[id].configuration == configuration
  }

  lemma ChosenIsSupported(local: DeviceInfo, remote: DeviceInfo)
    requires ChooseConfiguration(local, remote).Some?
    ensures var c := ChooseConfiguration(local, remote).value;
      && c.IsValid() && Supported(remote, c.format) && Supported(local, c.format)
      && c.sender == local.id && c.receiver == remote.id
  {
    hide ValidId;
  }

  /** The offer is made, understood after its way over the network, and always accepted. */
  lemma OfferIsAccepted(a: Manager, b: Manager, sent: int, received: int)
    requires CanNegotiate(a, b)
    ensures var id, c := SessionIdFrom(a.nextId), ChooseConfiguration(a.local, b.local).value;
      var (a', offer) := CreateOffer(a, b.local, sent);
      && offer.Some? && Holds(a', id, Negotiating, c)
      && Survives(offer.value)
      && var (b', reply) := Handle(b, offer.value, received);
         && reply == Some(Message(Accept, id, b.local.id, a.local.id, Some(c), NoReason))
         && Holds(b', id, Established, c)
         && Survives(reply.value)
  {
    hide ValidId, ChooseConfiguration, Supported, SessionCodec.Serialize, SessionCodec.Parse, SessionIdFrom;
    var id, c := SessionIdFrom(a.nextId), ChooseConfiguration(a.local, b.local).value;
    ChosenIsSupported(a.local, b.local);
    SoundSurvives(Message(Offer, id, a.local.id, b.local.id, Some(c), NoReason));
    SoundSurvives(Message(Accept, id, b.local.id, a.local.id, Some(c), NoReason));
  }

  /** The message can be sent, and what is sent is read back as the same message. */
  ghost predicate Survives(m: Message) {
    && SessionCodec.Serialize(m).Some?
    && SessionCodec.Parse(SessionCodec.Serialize(m).value) == SessionCodec.Parsed(m)
  }

  lemma SoundSurvives(m: Message)
    requires SessionCodec.WellFormed(m) && !m.kind.Reject?
    ensures Survives(m)
  {
    hide SessionCodec.WellFormed, SessionCodec.Serialize, SessionCodec.Parse;
    SessionCodec.SerializesExactly(m);
    SessionCodec.RoundTrip(SessionCodec.Serialize(m).value, m);
  }

  /**
   Whatever the initiator has done in between, the acceptance that reaches it while it is still
   negotiating establishes the session with the responder's configuration.
   */
  lemma AcceptanceEstablishes(a: Manager, b: Manager, a'': Manager, sent: int, received: int, answered: int)
    requires CanNegotiate(a, b)
    requires Extends(CreateOffer(a, b.local, sent).0, a'')
    requires SessionIdFrom(a.nextId) in a''.sessions && a''.sessions[SessionIdFrom(a.nextId)].state.Negotiating?
    ensures var id := SessionIdFrom(a.nextId);
      var offer := CreateOffer(a, b.local, sent).1;
      && offer.Some?
      && var (b', reply) := Handle(b, offer.value, received);
         && reply.Some? && id in b'.sessions
         && Holds(Handle(a'', reply.value, answered).0, id, Established, b'.sessions[id].configuration)
         && b'.sessions[id].state.Established?
  {
    hide ValidId, ChooseConfiguration, Survives, HandleOffer, SessionIdFrom;
    OfferIsAccepted(a, b, sent, received);
    IdIsValid(a.nextId);
  }

  lemma IdIsValid(value: Word64)
    ensures ValidId(SessionIdFrom(value))
  {
  }

  /**
   An offer is made exactly when the first common rate and channel count are positive, the first
   common width is 16 bits, and both devices have an identity and an audio port.
   */
  lemma OffersExactly(m: Manager, remote: DeviceInfo, now: int)
    ensures CreateOffer(m, remote, now).1.Some? <==>
      && ValidId(m.local.id) && ValidId(remote.id) && m.local.audioPort != 0 && remote.audioPort != 0
      && (exists rate :: FirstCommon(m.local.sampleRates, remote.sampleRates) == Some(rate) && rate > 0)
      && (exists channels :: FirstCommon(m.local.channelCounts, remote.channelCounts) == Some(channels) && channels > 0)
      && FirstCommon(m.local.bitsPerSample, remote.bitsPerSample) == Some(16)
  {
    hide ValidId, FirstCommon, SessionIdFrom;
  }

  /** Two devices that both support 16-bit samples are kept apart by a wider common format listed first. */
  lemma SixteenBitsOverlooked(id: Id, id': Id)
    requires ValidId(id) && ValidId(id')
    ensures var device := DeviceInfo(id, [1], 1, [], [48000], [2], [24, 16], 5000, 5001);
      var remote := device.(id := id');
      && Supported(device, AudioFormat(48000, 2, 16)) && Supported(remote, AudioFormat(48000, 2, 16))
      && CreateOffer(Manager(device, 1, 1, map[]), remote, 0).1.None?
  {
    hide ValidId;
    var device := DeviceInfo(id, [1], 1, [], [48000], [2], [24, 16], 5000, 5001);
    var remote := device.(id := id');
    assert device.bitsPerSample[1] == 16;
    assert device.bitsPerSample[0] == 24;
    OffersExactly(Manager(device, 1, 1, map[]), remote, 0);
    assert FirstCommon(device.bitsPerSample, remote.bitsPerSample) == Some(24);
  }
}
