/**
 One session manager as a value: what each call makes of the table of sessions, and which control
 message it answers with. The class `SessionManager.AudioSessionManager` is proved to do the same.
 */
module SessionModel {
  import opened AudioFrames
  import opened Bytes
  import opened Devices
  import opened Words
  import opened Wrappers

  const MAX_SAMPLES_PER_FRAME := 4096
  const CHOSEN_SAMPLES_PER_FRAME := 240

  datatype Configuration = Configuration(
    format: AudioFormat, samplesPerFrame: Word32, sender: Id, receiver: Id,
    senderPort: Word16, receiverPort: Word16)
  {
    predicate IsValid() {
      && format.IsValid() && format.bitsPerSample == 16
      && 0 < samplesPerFrame <= MAX_SAMPLES_PER_FRAME
      && ValidId(sender) && ValidId(receiver)
      && senderPort != 0 && receiverPort != 0
    }
  }

  datatype SessionState = Negotiating | Established | Streaming | Stopping | Closed | Failed

  datatype MessageKind = Offer | Accept | Reject | Start | Stop | Ack

  datatype Reason =
    | NoReason | IncompatibleFormat | UnsupportedSampleRate | UnsupportedChannels | InvalidConfiguration
    | UnknownDevice | Busy | ProtocolError | TimedOut | RemoteUnavailable

  datatype Message = Message(
    kind: MessageKind, session: Id, source: Id, destination: Id,
    configuration: Option<Configuration>, reason: Reason)

  datatype SessionInfo = SessionInfo(
    id: Id, localDevice: Id, remoteDevice: Id, configuration: Configuration, state: SessionState,
    createdAt: int, lastActivity: int, failureReason: Reason)

  datatype Manager =
    Manager(local: DeviceInfo, timeout: int, nextId: Word64, sessions: map<Id, SessionInfo>)

  /** The moves between states that are allowed. */
  predicate CanMove(current: SessionState, next: SessionState) {
    match current
    case Negotiating => next.Established? || next.Failed?
    case Established => next.Streaming? || next.Stopping? || next.Failed?
    case Streaming => next.Stopping? || next.Failed?
    case Stopping => next.Closed?
    case Closed => next.Closed?
    case Failed => next.Failed?
  }

  function Moved(info: SessionInfo, next: SessionState): SessionInfo {
    if CanMove(info.state, next) then info.(state := next) else info
  }

  predicate Supported(device: DeviceInfo, format: AudioFormat) {
    && format.sampleRate in device.sampleRates
    && format.channelCount in device.channelCounts
    && format.bitsPerSample in device.bitsPerSample
  }

  /** The configuration `local` proposes to `remote`. */
  function ChooseConfiguration(local: DeviceInfo, remote: DeviceInfo): Option<Configuration> {
    var common := CheckCompatibility(local, remote);
    if !common.Compatible() then None
    else
      var configuration := Configuration(
        AudioFormat(common.sampleRate.value, common.channels.value, common.bitsPerSample.value),
        CHOSEN_SAMPLES_PER_FRAME, local.id, remote.id, local.audioPort, remote.audioPort);
      if configuration.IsValid() then Some(configuration) else None
  }

  /** A new entry never replaces one that is there. */
  function Enter(sessions: map<Id, SessionInfo>, id: Id, info: SessionInfo): map<Id, SessionInfo> {
    if id in sessions then sessions else sessions[id := info]
  }

  function CreateOffer(m: Manager, remote: DeviceInfo, now: int): (Manager, Option<Message>) {
    var configuration := ChooseConfiguration(m.local, remote);
    if configuration.None? then (m, None)
    else
      var id := SessionIdFrom(m.nextId);
      var info := SessionInfo(id, m.local.id, remote.id, configuration.value, Negotiating, now, now, NoReason);
      (m.(nextId := Wrap(m.nextId + 1), sessions := Enter(m.sessions, id, info)),
       Some(Message(Offer, id, m.local.id, remote.id, configuration, NoReason)))
  }

  predicate Acceptable(m: Manager, message: Message) {
    && message.configuration.Some?
    && message.source != m.local.id
    && Supported(m.local, message.configuration.value.format)
    && message.configuration.value.IsValid()
  }

  function HandleOffer(m: Manager, message: Message, now: int): (Manager, Option<Message>) {
    var reply := Message(Accept, message.session, m.local.id, message.source, message.configuration, NoReason);
    if !Acceptable(m, message) then
      (m, Some(reply.(kind := Reject, configuration := None, reason := IncompatibleFormat)))
    else if message.session in m.sessions then
      var info := m.sessions[message.session];
      if info.state.Established? || info.state.Streaming? then
        (m, Some(reply.(configuration := Some(info.configuration))))
      else
        (m, None)
    else
      var info := SessionInfo(message.session, m.local.id, message.source, message.configuration.value,
                              Established, now, now, NoReason);
      (m.(sessions := m.sessions[message.session := info]), Some(reply))
  }

  /** What a message other than an offer makes of its session, and whether it is acknowledged. */
  function React(info: SessionInfo, message: Message): (SessionInfo, bool) {
    match message.kind
    case Accept =>
      if info.state.Negotiating? && message.configuration == Some(info.configuration)
      then (Moved(info, Established), false) else (info, false)
    case Reject =>
      if info.state.Negotiating?
      then (Moved(info.(failureReason := message.reason), Failed), false) else (info, false)
    case Start =>
      if info.state.Established? || info.state.Streaming?
      then (Moved(info, Streaming), true) else (info, false)
    case Stop =>
      if info.state.Streaming? || info.state.Established?
      then (Moved(Moved(info, Stopping), Closed), true)
      else if info.state.Stopping? then (Moved(info, Closed), true) else (info, false)
    case Ack =>
      if info.state.Stopping? then (Moved(info, Closed), false) else (info, false)
    case Offer => (info, false)
  }

  function Handle(m: Manager, message: Message, now: int): (Manager, Option<Message>) {
    if message.destination != m.local.id || !ValidId(message.session) then (m, None)
    else if message.kind.Offer? then HandleOffer(m, message, now)
    else if message.session !in m.sessions then (m, None)
    else
      var (info, acknowledged) := React(m.sessions[message.session].(lastActivity := now), message);
      (m.(sessions := m.sessions[message.session := info]),
       if acknowledged
       then Some(Message(Ack, info.id, m.local.id, info.remoteDevice, None, NoReason))
       else None)
  }

  function StartSession(m: Manager, id: Id, now: int): (Manager, Option<Message>) {
    if id !in m.sessions || !CanMove(m.sessions[id].state, Streaming) then (m, None)
    else
      var info := m.sessions[id].(state := Streaming, lastActivity := now);
      (m.(sessions := m.sessions[id := info]),
       Some(Message(Start, id, m.local.id, info.remoteDevice, None, NoReason)))
  }

  function StopSession(m: Manager, id: Id, now: int): (Manager, Option<Message>) {
    if id !in m.sessions || !(m.sessions[id].state.Streaming? || m.sessions[id].state.Established?) then (m, None)
    else
      var info := m.sessions[id].(state := Stopping, lastActivity := now);
      (m.(sessions := m.sessions[id := info]),
       Some(Message(Stop, id, m.local.id, info.remoteDevice, None, NoReason)))
  }

  predicate Expires(timeout: int, info: SessionInfo, now: int) {
    info.state.Negotiating? && now - info.lastActivity >= timeout
  }

  function ExpireEntry(timeout: int, info: SessionInfo, now: int): SessionInfo {
    if Expires(timeout, info, now) then info.(state := Failed, failureReason := TimedOut) else info
  }

  /** Negotiations nobody answered in time fail; the result says how many. */
  function Expire(m: Manager, now: int): (Manager, nat) {
    (m.(sessions := map id | id in m.sessions :: ExpireEntry(m.timeout, m.sessions[id], now)),
     |ExpiredAmong(m, m.sessions.Keys, now)|)
  }

  function ExpiredAmong(m: Manager, ids: set<Id>, now: int): set<Id> {
    set id | id in ids && id in m.sessions && Expires(m.timeout, m.sessions[id], now)
  }

  lemma NoneExpired(m: Manager, now: int)
    ensures |ExpiredAmong(m, m.sessions.Keys - m.sessions.Keys, now)| == 0
  {
    assert ExpiredAmong(m, m.sessions.Keys - m.sessions.Keys, now) == {};
  }

  lemma ExpiredGrows(m: Manager, ids: set<Id>, id: Id, now: int)
    requires id !in ids && id in m.sessions
    ensures |ExpiredAmong(m, ids + {id}, now)|
         == |ExpiredAmong(m, ids, now)| + if Expires(m.timeout, m.sessions[id], now) then 1 else 0
  {
    var before, after := ExpiredAmong(m, ids, now), ExpiredAmong(m, ids + {id}, now);
    if Expires(m.timeout, m.sessions[id], now) {
      assert after == before + {id};
    } else {
      assert after == before;
    }
  }

  function LoseEntry(info: SessionInfo, device: Id, now: int): SessionInfo {
    if info.remoteDevice == device && !info.state.Closed?
    then Moved(info.(failureReason := RemoteUnavailable, lastActivity := now), Failed)
    else info
  }

  function DeviceUnavailable(m: Manager, device: Id, now: int): Manager {
    m.(sessions := map id | id in m.sessions :: LoseEntry(m.sessions[id], device, now))
  }

  /** A table on its way from `before` to `after`, the entries in `rest` still to be visited. */
  function Partly(before: map<Id, SessionInfo>, after: map<Id, SessionInfo>, rest: set<Id>): map<Id, SessionInfo>
    requires before.Keys == after.Keys
  {
    map id | id in before :: if id in rest then before[id] else after[id]
  }

  lemma PartlyEnds(before: map<Id, SessionInfo>, after: map<Id, SessionInfo>)
    requires before.Keys == after.Keys
    ensures Partly(before, after, before.Keys) == before
    ensures Partly(before, after, {}) == after
  {
  }

  lemma PartlyStep(before: map<Id, SessionInfo>, after: map<Id, SessionInfo>, rest: set<Id>, id: Id)
    requires before.Keys == after.Keys && id in rest && rest <= before.Keys
    ensures id in Partly(before, after, rest) && Partly(before, after, rest)[id] == before[id]
    ensures Partly(before, after, rest - {id}) == Partly(before, after, rest)[id := after[id]]
  {
  }

  // ---------------------------------------------------------------- what every call keeps

  /** A later state of a session can be reached from an earlier one. */
  predicate Reaches(earlier: SessionState, later: SessionState) {
    || earlier == later
    || match earlier
       case Negotiating => true
       case Established => !later.Negotiating?
       case Streaming => later.Stopping? || later.Closed? || later.Failed?
       case Stopping => later.Closed?
       case Closed => false
       case Failed => false
  }

  /** The same session, perhaps further on. */
  predicate Evolves(earlier: SessionInfo, later: SessionInfo) {
    && later.id == earlier.id
    && later.localDevice == earlier.localDevice
    && later.remoteDevice == earlier.remoteDevice
    && later.configuration == earlier.configuration
    && later.createdAt == earlier.createdAt
    && Reaches(earlier.state, later.state)
  }

  /** No session is forgotten or rewritten; each only moves forwards. */
  ghost predicate Extends(m: Manager, m': Manager) {
    && m'.local == m.local && m'.timeout == m.timeout
    && forall id :: id in m.sessions ==> id in m'.sessions && Evolves(m.sessions[id], m'.sessions[id])
  }

  lemma ExtendsTrans(m: Manager, m': Manager, m'': Manager)
    requires Extends(m, m') && Extends(m', m'')
    ensures Extends(m, m'')
  {
  }

  lemma OfferExtends(m: Manager, remote: DeviceInfo, now: int)
    ensures Extends(m, CreateOffer(m, remote, now).0)
  {
  }

  lemma HandleExtends(m: Manager, message: Message, now: int)
    ensures Extends(m, Handle(m, message, now).0)
  {
    hide ValidId, Acceptable;
    if message.session in m.sessions {
      var info := m.sessions[message.session].(lastActivity := now);
      assert Evolves(m.sessions[message.session], React(info, message).0);
    }
  }

  lemma StartStopExtend(m: Manager, id: Id, now: int)
    ensures Extends(m, StartSession(m, id, now).0)
    ensures Extends(m, StopSession(m, id, now).0)
  {
  }

  lemma ExpireExtends(m: Manager, now: int)
    ensures Extends(m, Expire(m, now).0)
  {
  }

  lemma UnavailableExtends(m: Manager, device: Id, now: int)
    ensures Extends(m, DeviceUnavailable(m, device, now))
  {
  }

  // ---------------------------------------------------------------- rejections

  /** Exactly the offers that reach their device and cannot be accepted are rejected, all for one reason. */
  lemma RejectsExactly(m: Manager, message: Message, now: int)
    ensures var reply := Handle(m, message, now).1;
      && (reply.Some? && reply.value.kind.Reject? <==>
            && message.kind.Offer? && message.destination == m.local.id && ValidId(message.session)
            && !Acceptable(m, message))
      && (reply.Some? && reply.value.kind.Reject? ==>
            reply.value == Message(Reject, message.session, m.local.id, message.source, None, IncompatibleFormat))
  {
    hide ValidId, Acceptable, Moved;
  }

  /** An offer in which nothing but the sample rate is unsupported is not told so. */
  lemma RateReportedAsFormat(m: Manager, session: Id, source: Id, now: int)
    requires ValidId(session) && ValidId(source) && ValidId(m.local.id) && source != m.local.id
    requires m.local.sampleRates == [48000] && m.local.channelCounts == [2] && m.local.bitsPerSample == [16]
    ensures var c := Configuration(AudioFormat(44100, 2, 16), 240, source, m.local.id, 5000, 5001);
      var reply := Handle(m, Message(Offer, session, source, m.local.id, Some(c), NoReason), now).1;
      && c.IsValid() && Supported(m.local, c.format.(sampleRate := 48000)) && !Supported(m.local, c.format)
      && reply.Some? && reply.value.kind.Reject? && reply.value.reason == IncompatibleFormat
  {
    hide ValidId;
    assert 48000 in [48000] && 2 in [2] && 16 in [16];
  }
}
