/** Session control messages on the wire. */
module SessionCodec {
  import opened AudioFrames
  import opened Bytes
  import opened ControlHeaders
  import opened Packets
  import opened SessionModel
  import opened Words
  import opened Wrappers

  const MAGIC := 0x5345_5331
  const VERSION := 1
  const MAX_PACKET_SIZE := 256
  const IDENTITIES_SIZE := 50
  const CONFIGURATION_SIZE := 48

  datatype ParseError =
    | Truncated | InvalidMagic | UnsupportedVersion | InvalidType | InvalidLength | InvalidSessionId
    | InvalidReason | InvalidConfiguration | ExcessivePacket

  datatype ParseResult = Parsed(message: Message) | Rejected(error: ParseError)

  function KindCode(kind: MessageKind): (code: Byte)
    ensures 1 <= code <= 6 && KindFrom(code) == kind
  {
    match kind
    case Offer => 1
    case Accept => 2
    case Reject => 3
    case Start => 4
    case Stop => 5
    case Ack => 6
  }

  function KindFrom(code: nat): MessageKind
    requires 1 <= code <= 6
  {
    if code == 1 then Offer
    else if code == 2 then Accept
    else if code == 3 then Reject
    else if code == 4 then Start
    else if code == 5 then Stop
    else Ack
  }

  function ReasonCode(reason: Reason): (code: Byte)
    ensures code <= 9 && ReasonFrom(code) == reason
  {
    match reason
    case NoReason => 0
    case IncompatibleFormat => 1
    case UnsupportedSampleRate => 2
    case UnsupportedChannels => 3
    case InvalidConfiguration => 4
    case UnknownDevice => 5
    case Busy => 6
    case ProtocolError => 7
    case TimedOut => 8
    case RemoteUnavailable => 9
  }

  function ReasonFrom(code: nat): Reason
    requires code <= 9
  {
    if code == 0 then NoReason
    else if code == 1 then IncompatibleFormat
    else if code == 2 then UnsupportedSampleRate
    else if code == 3 then UnsupportedChannels
    else if code == 4 then Reason.InvalidConfiguration
    else if code == 5 then UnknownDevice
    else if code == 6 then Busy
    else if code == 7 then ProtocolError
    else if code == 8 then TimedOut
    else RemoteUnavailable
  }

  // ---------------------------------------------------------------- the format

  function ConfigurationBytes(c: Configuration): (bytes: seq<Byte>)
    ensures |bytes| == CONFIGURATION_SIZE
  {
    c.sender + (c.receiver
      + Put(c.format.sampleRate, 4, Put(c.format.channelCount, 2, Put(c.format.bitsPerSample, 2,
        Put(c.samplesPerFrame, 4, Put(c.senderPort, 2, Put(c.receiverPort, 2, [])))))))
  }

  function Extension(configuration: Option<Configuration>): seq<Byte> {
    match configuration
    case None => []
    case Some(c) => ConfigurationBytes(c)
  }

  function Payload(m: Message): (bytes: seq<Byte>)
    ensures |bytes| == IDENTITIES_SIZE + |Extension(m.configuration)|
  {
    m.session + (m.source + (m.destination
      + Put(ReasonCode(m.reason), 1, Put(if m.configuration.Some? then 1 else 0, 1, Extension(m.configuration)))))
  }

  function Packet(m: Message): seq<Byte> {
    WithHeader(Header(MAGIC, VERSION, KindCode(m.kind), 0, |Payload(m)|), Payload(m))
  }

  /** What a packet must say for the parser to accept it. */
  predicate WellFormed(m: Message) {
    && ValidId(m.session) && ValidId(m.source) && ValidId(m.destination)
    && ((m.kind.Offer? || m.kind.Accept?) == m.configuration.Some?)
    && (m.configuration.Some? ==> m.configuration.value.IsValid())
  }

  // ---------------------------------------------------------------- parsing

  function ConfigurationOf(bytes: seq<Byte>): Configuration
    requires |bytes| == CONFIGURATION_SIZE
  {
    Powers();
    var afterSender := bytes[16..];
    var afterReceiver := afterSender[16..];
    var afterRate := afterReceiver[4..];
    var afterChannels := afterRate[2..];
    var afterBits := afterChannels[2..];
    var afterSamples := afterBits[4..];
    var afterPort := afterSamples[2..];
    Configuration(AudioFormat(Head(afterReceiver, 4), Head(afterRate, 2), Head(afterChannels, 2)),
                  Head(afterBits, 4), bytes[..16], afterSender[..16], Head(afterSamples, 2), Head(afterPort, 2))
  }

  function ParsePayload(kind: MessageKind, payload: seq<Byte>): ParseResult
    requires |payload| >= IDENTITIES_SIZE
  {
    var session, afterSession := payload[..16], payload[16..];
    var source, afterSource := afterSession[..16], afterSession[16..];
    var destination, afterDestination := afterSource[..16], afterSource[16..];
    var reason, afterReason := Head(afterDestination, 1), afterDestination[1..];
    var extended, extension := Head(afterReason, 1), afterReason[1..];
    if !ValidId(session) || !ValidId(source) || !ValidId(destination) then Rejected(InvalidSessionId)
    else if reason > 9 then Rejected(InvalidReason)
    else if extended > 1 then Rejected(InvalidLength)
    else if (kind.Offer? || kind.Accept?) != (extended != 0) then Rejected(ParseError.InvalidConfiguration)
    else if extended != 0 then
      if |extension| != CONFIGURATION_SIZE then Rejected(ParseError.InvalidConfiguration)
      else
        var configuration := ConfigurationOf(extension);
        if !configuration.IsValid() then Rejected(ParseError.InvalidConfiguration)
        else Parsed(Message(kind, session, source, destination, Some(configuration), ReasonFrom(reason)))
    else if extension != [] then Rejected(InvalidLength)
    else Parsed(Message(kind, session, source, destination, None, ReasonFrom(reason)))
  }

  function Parse(packet: seq<Byte>): ParseResult {
    if |packet| < CONTROL_HEADER_SIZE then Rejected(Truncated)
    else if |packet| > MAX_PACKET_SIZE then Rejected(ExcessivePacket)
    else
      var h := HeaderOf(packet);
      if h.magic != MAGIC then Rejected(InvalidMagic)
      else if h.version != VERSION then Rejected(UnsupportedVersion)
      else if h.reserved != 0 || h.kind < 1 || h.kind > 6 then Rejected(InvalidType)
      else if h.length != |packet| - CONTROL_HEADER_SIZE then Rejected(InvalidLength)
      else if h.length < IDENTITIES_SIZE then Rejected(Truncated)
      else ParsePayload(KindFrom(h.kind), packet[CONTROL_HEADER_SIZE..])
  }

  // ---------------------------------------------------------------- round trips

  lemma ConfigurationWritten(c: Configuration)
    ensures ConfigurationOf(ConfigurationBytes(c)) == c
  {
    hide Put, Head, Pow256;
    Powers();
    var port := Put(c.receiverPort, 2, []);
    var ports := Put(c.senderPort, 2, port);
    var samples := Put(c.samplesPerFrame, 4, ports);
    var bits := Put(c.format.bitsPerSample, 2, samples);
    var channels := Put(c.format.channelCount, 2, bits);
    var rate := Put(c.format.sampleRate, 4, channels);
    FirstOf(c.sender, c.receiver + rate);
    FirstOf(c.receiver, rate);
    HeadOfPut(c.format.sampleRate, 4, channels);
    HeadOfPut(c.format.channelCount, 2, bits);
    HeadOfPut(c.format.bitsPerSample, 2, samples);
    HeadOfPut(c.samplesPerFrame, 4, ports);
    HeadOfPut(c.senderPort, 2, port);
    HeadOfPut(c.receiverPort, 2, []);
  }

  lemma ConfigurationRead(bytes: seq<Byte>)
    requires |bytes| == CONFIGURATION_SIZE
    ensures ConfigurationBytes(ConfigurationOf(bytes)) == bytes
  {
    hide Put, Head, Pow256;
    var rate := bytes[16..][16..];
    var channels := rate[4..];
    var bits := channels[2..];
    var samples := bits[2..];
    var ports := samples[4..];
    var port := ports[2..];
    PutOfHead(rate, 4);
    PutOfHead(channels, 2);
    PutOfHead(bits, 2);
    PutOfHead(samples, 4);
    PutOfHead(ports, 2);
    PutOfHead(port, 2);
    assert port[2..] == [];
    assert bytes[16..][..16] + rate == bytes[16..];
  }

  lemma PayloadWritten(m: Message)
    requires WellFormed(m)
    ensures ParsePayload(m.kind, Payload(m)) == Parsed(m)
  {
    hide Put, Head, Pow256, ValidId, ConfigurationBytes, ConfigurationOf, ReasonFrom, ReasonCode;
    Powers();
    var extension := Extension(m.configuration);
    var flag := if m.configuration.Some? then 1 else 0;
    var flags := Put(flag, 1, extension);
    var reason := Put(ReasonCode(m.reason), 1, flags);
    FirstOf(m.session, m.source + (m.destination + reason));
    FirstOf(m.source, m.destination + reason);
    FirstOf(m.destination, reason);
    HeadOfPut(ReasonCode(m.reason), 1, flags);
    HeadOfPut(flag, 1, extension);
    if m.configuration.Some? {
      ConfigurationWritten(m.configuration.value);
    }
  }

  lemma ReasonBack(code: nat)
    requires code <= 9
    ensures ReasonCode(ReasonFrom(code)) == code
  {
  }

  lemma KindBack(code: nat)
    requires 1 <= code <= 6
    ensures KindCode(KindFrom(code)) == code
  {
  }

  lemma PayloadRead(kind: MessageKind, payload: seq<Byte>)
    requires |payload| >= IDENTITIES_SIZE && ParsePayload(kind, payload).Parsed?
    ensures var m := ParsePayload(kind, payload).message; m.kind == kind && WellFormed(m) && Payload(m) == payload
  {
    hide Put, Head, Pow256, ValidId, ConfigurationBytes, ConfigurationOf, ReasonFrom, ReasonCode;
    var afterSession := payload[16..];
    var afterSource := afterSession[16..];
    var afterDestination := afterSource[16..];
    var afterReason := afterDestination[1..];
    var extension := afterReason[1..];
    assert payload == payload[..16] + afterSession;
    assert afterSession == afterSession[..16] + afterSource;
    assert afterSource == afterSource[..16] + afterDestination;
    PutOfHead(afterDestination, 1);
    PutOfHead(afterReason, 1);
    ReasonBack(Head(afterDestination, 1));
    if |extension| == CONFIGURATION_SIZE {
      ConfigurationRead(extension);
    }
  }

  /** The parser accepts exactly the packets of well-formed messages, and reads the message back. */
  lemma ParsesExactly(packet: seq<Byte>, m: Message)
    ensures Parse(packet) == Parsed(m) <==> WellFormed(m) && packet == Packet(m)
  {
    hide HeaderOf, WithHeader, ParsePayload, Payload, WellFormed, KindFrom;
    if WellFormed(m) && packet == Packet(m) {
      PayloadWritten(m);
      PayloadSize(m);
      HeaderWritten(Header(MAGIC, VERSION, KindCode(m.kind), 0, |Payload(m)|), Payload(m));
    }
    if Parse(packet) == Parsed(m) {
      var h := HeaderOf(packet);
      HeaderRead(packet);
      KindBack(h.kind);
      PayloadRead(KindFrom(h.kind), packet[CONTROL_HEADER_SIZE..]);
    }
  }

  lemma PayloadSize(m: Message)
    ensures IDENTITIES_SIZE <= |Payload(m)| <= IDENTITIES_SIZE + CONFIGURATION_SIZE
  {
  }

  function Serialize(m: Message): Option<seq<Byte>> {
    if !WellFormed(m) || (m.kind.Reject? && m.reason.NoReason?) then None
    else if |Payload(m)| + CONTROL_HEADER_SIZE > MAX_PACKET_SIZE then None
    else Some(Packet(m))
  }

  /** No message is too large to be sent. */
  lemma SerializesExactly(m: Message)
    ensures Serialize(m).Some? <==> WellFormed(m) && !(m.kind.Reject? && m.reason.NoReason?)
  {
    hide Payload, Packet, WellFormed;
    PayloadSize(m);
  }

  /** A packet is read as `m` exactly when `m` is written as it, a rejection without a reason apart. */
  lemma RoundTrip(packet: seq<Byte>, m: Message)
    ensures Serialize(m) == Some(packet) <==> Parse(packet) == Parsed(m) && !(m.kind.Reject? && m.reason.NoReason?)
  {
    hide Payload, Packet, WellFormed, Parse;
    PayloadSize(m);
    ParsesExactly(packet, m);
  }

  /** A rejection without a reason is understood but cannot be sent. */
  lemma ReasonlessRejection(session: Id, source: Id, destination: Id)
    requires ValidId(session) && ValidId(source) && ValidId(destination)
    ensures var m := Message(Reject, session, source, destination, None, NoReason);
      Parse(Packet(m)) == Parsed(m) && Serialize(m) == None
  {
    hide Payload, Packet, Parse;
    var m := Message(Reject, session, source, destination, None, NoReason);
    ParsesExactly(Packet(m), m);
  }

  // ---------------------------------------------------------------- in place

  method SerializeMessage(m: Message) returns (result: Option<seq<Byte>>)
    ensures result == Serialize(m)
  {
    hide Put, ValidId, ReasonCode, KindCode, WithHeader;
    var extended := m.configuration.Some?;
    if !ValidId(m.session) || !ValidId(m.source) || !ValidId(m.destination) {
      return None;
    }
    if (m.kind.Offer? || m.kind.Accept?) != extended {
      return None;
    }
    if m.kind.Reject? && m.reason.NoReason? {
      return None;
    }
    ghost var extension := Extension(m.configuration);
    ghost var flags := Put(if extended then 1 else 0, 1, extension);
    ghost var reason := Put(ReasonCode(m.reason), 1, flags);
    var payload := m.session + m.source + m.destination;
    assert payload + reason == m.session + (m.source + (m.destination + reason));
    payload := AppendNumber(payload, ReasonCode(m.reason), 1, flags);
    payload := AppendNumber(payload, if extended then 1 else 0, 1, extension);
    if extended {
      if !m.configuration.value.IsValid() {
        return None;
      }
      payload := AppendConfiguration(payload, m.configuration.value);
    }
    assert payload == Payload(m);
    if |payload| + CONTROL_HEADER_SIZE > MAX_PACKET_SIZE {
      return None;
    }
    var packet := AppendHeader(Header(MAGIC, VERSION, KindCode(m.kind), 0, |payload|), payload);
    return Some(packet + payload);
  }

  method AppendConfiguration(output: seq<Byte>, c: Configuration) returns (result: seq<Byte>)
    ensures result == output + ConfigurationBytes(c)
  {
    hide Put;
    ghost var port := Put(c.receiverPort, 2, []);
    ghost var ports := Put(c.senderPort, 2, port);
    ghost var samples := Put(c.samplesPerFrame, 4, ports);
    ghost var bits := Put(c.format.bitsPerSample, 2, samples);
    ghost var channels := Put(c.format.channelCount, 2, bits);
    ghost var rate := Put(c.format.sampleRate, 4, channels);
    result := output + c.sender + c.receiver;
    assert result + rate == output + ConfigurationBytes(c);
    result := AppendNumber(result, c.format.sampleRate, 4, channels);
    result := AppendNumber(result, c.format.channelCount, 2, bits);
    result := AppendNumber(result, c.format.bitsPerSample, 2, samples);
    result := AppendNumber(result, c.samplesPerFrame, 4, ports);
    result := AppendNumber(result, c.senderPort, 2, port);
    result := AppendNumber(result, c.receiverPort, 2, []);
    assert result + [] == result;
  }

  method DeserializeMessage(packet: seq<Byte>) returns (result: ParseResult)
    ensures result == Parse(packet)
  {
    hide HeaderOf, ParsePayload, KindFrom;
    if |packet| < CONTROL_HEADER_SIZE {
      return Rejected(Truncated);
    }
    if |packet| > MAX_PACKET_SIZE {
      return Rejected(ExcessivePacket);
    }
    var h, offset := ReadHeader(packet);
    if h.magic != MAGIC {
      return Rejected(InvalidMagic);
    }
    if h.version != VERSION {
      return Rejected(UnsupportedVersion);
    }
    if h.reserved != 0 || h.kind < 1 || h.kind > 6 {
      return Rejected(InvalidType);
    }
    if h.length != |packet| - CONTROL_HEADER_SIZE {
      return Rejected(InvalidLength);
    }
    if h.length < IDENTITIES_SIZE {
      return Rejected(Truncated);
    }
    result := DeserializePayload(KindFrom(h.kind), packet, offset);
  }

  method ReadId(packet: seq<Byte>, offset: nat) returns (id: Id, next: nat)
    requires offset + 16 <= |packet|
    ensures next == offset + 16
    ensures id == packet[offset..][..16] && packet[next..] == packet[offset..][16..]
  {
    return packet[offset..offset + 16], offset + 16;
  }

  method DeserializePayload(kind: MessageKind, packet: seq<Byte>, start: nat) returns (result: ParseResult)
    requires start + IDENTITIES_SIZE <= |packet|
    ensures result == ParsePayload(kind, packet[start..])
  {
    hide Head, ValidId, ConfigurationOf, ReasonFrom;
    var offset := start;
    var session, source, destination, reason, extended;
    session, offset := ReadId(packet, offset);
    source, offset := ReadId(packet, offset);
    destination, offset := ReadId(packet, offset);
    reason, offset := ReadNumber(packet, offset, 1);
    extended, offset := ReadNumber(packet, offset, 1);
    if !ValidId(session) || !ValidId(source) || !ValidId(destination) {
      return Rejected(InvalidSessionId);
    }
    if reason > 9 {
      return Rejected(InvalidReason);
    }
    if extended > 1 {
      return Rejected(InvalidLength);
    }
    if (kind.Offer? || kind.Accept?) != (extended != 0) {
      return Rejected(ParseError.InvalidConfiguration);
    }
    if extended != 0 {
      if |packet| - offset != CONFIGURATION_SIZE {
        return Rejected(ParseError.InvalidConfiguration);
      }
      var configuration := ReadConfiguration(packet, offset);
      if !configuration.IsValid() {
        return Rejected(ParseError.InvalidConfiguration);
      }
      return Parsed(Message(kind, session, source, destination, Some(configuration), ReasonFrom(reason)));
    }
    if |packet| != offset {
      return Rejected(InvalidLength);
    }
    return Parsed(Message(kind, session, source, destination, None, ReasonFrom(reason)));
  }

  method ReadConfiguration(packet: seq<Byte>, start: nat) returns (configuration: Configuration)
    requires start + CONFIGURATION_SIZE == |packet|
    ensures configuration == ConfigurationOf(packet[start..])
  {
    hide Head, Pow256;
    Powers();
    var offset := start;
    var sender, receiver, rate, channels, bits, samples, senderPort, receiverPort;
    sender, offset := ReadId(packet, offset);
    receiver, offset := ReadId(packet, offset);
    rate, offset := ReadNumber(packet, offset, 4);
    channels, offset := ReadNumber(packet, offset, 2);
    bits, offset := ReadNumber(packet, offset, 2);
    samples, offset := ReadNumber(packet, offset, 4);
    senderPort, offset := ReadNumber(packet, offset, 2);
    receiverPort, offset := ReadNumber(packet, offset, 2);
    configuration := Configuration(AudioFormat(rate, channels, bits), samples, sender, receiver,
                                   senderPort, receiverPort);
  }
}
