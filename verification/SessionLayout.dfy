/** Session control packets byte by byte: what is where, and which complaint comes first. */
module SessionLayout {
  import opened AudioFrames
  import opened Bytes
  import opened Checks
  import opened ControlHeaders
  import opened Packets
  import opened SessionCodec
  import opened SessionModel
  import opened Words
  import opened Wrappers

  /** Kinds count from 1, reasons from 0. */
  const KINDS: seq<MessageKind> := [Offer, Accept, Reject, Start, Stop, Ack]

  const REASONS: seq<Reason> :=
    [NoReason, IncompatibleFormat, UnsupportedSampleRate, UnsupportedChannels, Reason.InvalidConfiguration,
     UnknownDevice, Busy, ProtocolError, TimedOut, RemoteUnavailable]

  lemma HeaderLayout(m: Message)
    ensures var packet := Packet(m);
      && |packet| == 62 + |Extension(m.configuration)|
      && packet[..4] == [0x53, 0x45, 0x53, 0x31] && packet[4] == 1
      && 1 <= packet[5] <= 6 && KINDS[packet[5] - 1] == m.kind
      && packet[6] == packet[7] == 0
      && Field(packet, 8, 4) == |packet| - 12
      && packet[12..] == Payload(m)
  {
    hide HeaderOf, WithHeader, Field, Payload;
    var packet := Packet(m);
    PayloadSize(m);
    HeaderWritten(Header(MAGIC, VERSION, KindCode(m.kind), 0, |Payload(m)|), Payload(m));
    HeaderAt(packet);
    FourBytes(packet, 0);
    OneByte(packet, 4);
    OneByte(packet, 5);
    TwoBytes(packet, 6);
  }

  /** What every byte of a message says, up to the configuration. The packet opens with "SES1" in ASCII. */
  lemma Layout(m: Message)
    ensures var packet := Packet(m);
      && |packet| == (if m.configuration.Some? then 110 else 62)
      && packet[..4] == [0x53, 0x45, 0x53, 0x31] && packet[4] == 1
      && 1 <= packet[5] <= 6 && KINDS[packet[5] - 1] == m.kind
      && packet[6] == packet[7] == 0
      && Field(packet, 8, 4) == |packet| - 12
      && packet[12..28] == m.session && packet[28..44] == m.source && packet[44..60] == m.destination
      && packet[60] <= 9 && REASONS[packet[60]] == m.reason
      && packet[61] == (if m.configuration.Some? then 1 else 0)
      && packet[62..] == Extension(m.configuration)
  {
    hide Put, Pow256, Field, Packet, ConfigurationBytes;
    Powers();
    HeaderLayout(m);
    var packet := Packet(m);
    var flag := if m.configuration.Some? then 1 else 0;
    var flags := Put(flag, 1, Extension(m.configuration));
    var reason := Put(ReasonCode(m.reason), 1, flags);
    BytesAt(packet, 12, m.session, m.source + (m.destination + reason));
    BytesAt(packet, 28, m.source, m.destination + reason);
    BytesAt(packet, 44, m.destination, reason);
    FieldAt(packet, 60, ReasonCode(m.reason), 1, flags);
    FieldAt(packet, 61, flag, 1, Extension(m.configuration));
    OneByte(packet, 60);
    OneByte(packet, 61);
  }

  /** What every byte of a configuration says. */
  lemma ConfigurationLayout(m: Message)
    requires m.configuration.Some?
    ensures var packet, c := Packet(m), m.configuration.value;
      && |packet| == 110
      && packet[62..78] == c.sender && packet[78..94] == c.receiver
      && Field(packet, 94, 4) == c.format.sampleRate
      && Field(packet, 98, 2) == c.format.channelCount
      && Field(packet, 100, 2) == c.format.bitsPerSample
      && Field(packet, 102, 4) == c.samplesPerFrame
      && Field(packet, 106, 2) == c.senderPort && Field(packet, 108, 2) == c.receiverPort
  {
    hide Put, Pow256, Field, Packet;
    Powers();
    Layout(m);
    var packet, c := Packet(m), m.configuration.value;
    var port := Put(c.receiverPort, 2, []);
    var ports := Put(c.senderPort, 2, port);
    var samples := Put(c.samplesPerFrame, 4, ports);
    var bits := Put(c.format.bitsPerSample, 2, samples);
    var channels := Put(c.format.channelCount, 2, bits);
    var rate := Put(c.format.sampleRate, 4, channels);
    BytesAt(packet, 62, c.sender, c.receiver + rate);
    BytesAt(packet, 78, c.receiver, rate);
    FieldAt(packet, 94, c.format.sampleRate, 4, channels);
    FieldAt(packet, 98, c.format.channelCount, 2, bits);
    FieldAt(packet, 100, c.format.bitsPerSample, 2, samples);
    FieldAt(packet, 102, c.samplesPerFrame, 4, ports);
    FieldAt(packet, 106, c.senderPort, 2, port);
    FieldAt(packet, 108, c.receiverPort, 2, []);
  }

  // ---------------------------------------------------------------- complaints

  /** The configuration at the end of a packet can be played. */
  predicate Sensible(packet: seq<Byte>)
    requires |packet| == 110
  {
    && ValidId(packet[62..78]) && ValidId(packet[78..94])
    && Field(packet, 94, 4) > 0 && Field(packet, 98, 2) > 0 && Field(packet, 100, 2) == 16
    && 1 <= Field(packet, 102, 4) <= 4096
    && Field(packet, 106, 2) > 0 && Field(packet, 108, 2) > 0
  }

  /** What is checked of a packet's header. */
  function HeaderDemands(packet: seq<Byte>): seq<Check<ParseError>>
    requires |packet| >= 12
  {
    [Check(packet[..4] == [0x53, 0x45, 0x53, 0x31], InvalidMagic),
     Check(packet[4] == 1, UnsupportedVersion),
     Check(packet[6] == packet[7] == 0 && 1 <= packet[5] <= 6, InvalidType),
     Check(Field(packet, 8, 4) == |packet| - 12, InvalidLength),
     Check(|packet| >= 62, Truncated)]
  }

  /** What is checked of the payload behind a sound header. Only kinds 1 and 2 carry a configuration. */
  function PayloadDemands(packet: seq<Byte>): seq<Check<ParseError>>
    requires |packet| >= 62
  {
    [Check(ValidId(packet[12..28]) && ValidId(packet[28..44]) && ValidId(packet[44..60]), InvalidSessionId),
     Check(packet[60] <= 9, InvalidReason),
     Check(packet[61] <= 1, InvalidLength),
     Check(packet[61] == 1 <==> packet[5] <= 2, ParseError.InvalidConfiguration),
     Check(packet[61] == 1 ==> |packet| == 110 && Sensible(packet), ParseError.InvalidConfiguration),
     Check(packet[61] == 0 ==> |packet| == 62, InvalidLength)]
  }

  lemma ConfigurationAt(packet: seq<Byte>)
    requires |packet| == 110
    ensures ConfigurationOf(packet[62..]).IsValid() <==> Sensible(packet)
  {
    hide Head, Field, ValidId;
    HeadAt(packet, 62, 16);
    HeadAt(packet, 78, 16);
    HeadAt(packet, 94, 4);
    HeadAt(packet, 98, 2);
    HeadAt(packet, 100, 2);
    HeadAt(packet, 102, 4);
    HeadAt(packet, 106, 2);
    HeadAt(packet, 108, 2);
  }

  lemma PartsAt(packet: seq<Byte>)
    requires |packet| >= 62
    ensures var payload := packet[12..];
      && payload[..16] == packet[12..28]
      && payload[16..][..16] == packet[28..44]
      && payload[16..][16..][..16] == packet[44..60]
      && Head(payload[16..][16..][16..], 1) == packet[60]
      && Head(payload[16..][16..][16..][1..], 1) == packet[61]
      && payload[16..][16..][16..][1..][1..] == packet[62..]
  {
    hide Head, Field;
    HeadAt(packet, 12, 16);
    HeadAt(packet, 28, 16);
    HeadAt(packet, 44, 16);
    HeadAt(packet, 60, 1);
    HeadAt(packet, 61, 1);
    OneByte(packet, 60);
    OneByte(packet, 61);
  }

  lemma PayloadRefused(kind: MessageKind, packet: seq<Byte>)
    requires |packet| >= 62 && 1 <= packet[5] <= 6 && kind == KindFrom(packet[5])
    ensures var complaint := FirstFailed(PayloadDemands(packet), 0);
      if complaint.Some? then ParsePayload(kind, packet[12..]) == Rejected(complaint.value)
      else ParsePayload(kind, packet[12..]).Parsed?
  {
    hide Head, Field, ValidId, ConfigurationOf, Sensible, ReasonFrom;
    PartsAt(packet);
    if |packet| == 110 {
      ConfigurationAt(packet);
    }
    Unrolled(PayloadDemands(packet), 0);
    assert FirstFailed(PayloadDemands(packet), 6) == None;
  }

  /** A packet is refused with the first complaint there is against it, and accepted if there is none. */
  lemma RefusedExactly(packet: seq<Byte>)
    ensures |packet| < 12 ==> Parse(packet) == Rejected(Truncated)
    ensures |packet| > 256 ==> Parse(packet) == Rejected(ExcessivePacket)
    ensures 12 <= |packet| <= 256 ==>
      var complaint := FirstFailed(HeaderDemands(packet), 0);
      if complaint.Some? then Parse(packet) == Rejected(complaint.value)
      else
        && |packet| >= 62
        && var complaint' := FirstFailed(PayloadDemands(packet), 0);
           if complaint'.Some? then Parse(packet) == Rejected(complaint'.value) else Parse(packet).Parsed?
  {
    hide HeaderOf, ParsePayload, PayloadDemands, FirstFailed, Field, KindFrom;
    if 12 <= |packet| <= 256 {
      HeaderAt(packet);
      FourBytes(packet, 0);
      OneByte(packet, 4);
      OneByte(packet, 5);
      TwoBytes(packet, 6);
      Unrolled(HeaderDemands(packet), 0);
      NoneLeft(HeaderDemands(packet));
      if |packet| >= 62 && 1 <= packet[5] <= 6 {
        PayloadRefused(KindFrom(packet[5]), packet);
      }
    }
  }
}
