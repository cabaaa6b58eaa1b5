/** Audio frames on the wire, alone and in the envelope of a session. */
module MediaCodec {
  import opened AudioFrames
  import opened Bytes
  import opened Packets
  import opened Words
  import opened Wrappers

  const MAGIC := 0x4441_5331
  const VERSION := 1
  const HEADER_SIZE := 40
  const MAX_CHANNELS := 8
  const MAX_SAMPLE_RATE := 384_000
  const MAX_SAMPLES_PER_CHANNEL := 4096
  const MAX_PAYLOAD_SIZE := 1200
  const MAX_PACKET_SIZE := HEADER_SIZE + MAX_PAYLOAD_SIZE
  const PCM_S16_LE := 1
  const MAX_SIZE: nat := 0xFFFF_FFFF_FFFF_FFFF

  datatype ParseError =
    | TruncatedHeader | InvalidMagic | UnsupportedVersion | InvalidFlags | InvalidSampleRate | InvalidChannels
    | UnsupportedSampleFormat | InvalidSampleCount | InvalidPayloadSize | TruncatedPayload
    | ExcessivePacketSize | InvalidAudioFrame

  datatype ParseResult = Parsed(frame: AudioFrame) | Rejected(error: ParseError)

  /** A timestamp that a signed 64-bit count of nanoseconds can hold. */
  predicate Representable(timestamp: int) {
    -TWO_63 <= timestamp < TWO_63
  }

  function TimestampFrom(bits: Word64): (timestamp: int)
    ensures Representable(timestamp) && Wrap(timestamp) == bits
  {
    if bits < TWO_63 then bits else bits - TWO_64
  }

  lemma TimestampExact(timestamp: int)
    requires Representable(timestamp)
    ensures TimestampFrom(Wrap(timestamp)) == timestamp
  {
    WrapInjective(timestamp, TimestampFrom(Wrap(timestamp)));
  }

  // ---------------------------------------------------------------- the format

  datatype Header = Header(
    magic: nat, version: nat, flags: nat, reserved: nat, sequence: nat, timestamp: nat, sampleRate: nat,
    channels: nat, sampleFormat: nat, sampleReserved: nat, samples: nat, payloadSize: nat)
  {
    predicate Fits() {
      && magic < 0x1_0000_0000 && version < 0x100 && flags < 0x100 && reserved < 0x1_0000
      && sequence < TWO_64 && timestamp < TWO_64 && sampleRate < 0x1_0000_0000
      && channels < 0x1_0000 && sampleFormat < 0x100 && sampleReserved < 0x100
      && samples < 0x1_0000_0000 && payloadSize < 0x1_0000_0000
    }
  }

  function FormatFields(h: Header, payload: seq<Byte>): (bytes: seq<Byte>)
    ensures |bytes| == 16 + |payload|
  {
    Put(h.sampleRate, 4, Put(h.channels, 2, Put(h.sampleFormat, 1, Put(h.sampleReserved, 1,
      Put(h.samples, 4, Put(h.payloadSize, 4, payload))))))
  }

  function WithHeader(h: Header, payload: seq<Byte>): (packet: seq<Byte>)
    ensures |packet| == HEADER_SIZE + |payload|
  {
    Put(h.magic, 4, Put(h.version, 1, Put(h.flags, 1, Put(h.reserved, 2,
      Put(h.sequence, 8, Put(h.timestamp, 8, FormatFields(h, payload)))))))
  }

  function HeaderOf(packet: seq<Byte>): Header
    requires |packet| >= HEADER_SIZE
  {
    var afterMagic := packet[4..];
    var afterVersion := afterMagic[1..];
    var afterFlags := afterVersion[1..];
    var afterReserved := afterFlags[2..];
    var afterSequence := afterReserved[8..];
    var afterTimestamp := afterSequence[8..];
    var afterRate := afterTimestamp[4..];
    var afterChannels := afterRate[2..];
    var afterFormat := afterChannels[1..];
    var afterFormatReserved := afterFormat[1..];
    var afterSamples := afterFormatReserved[4..];
    Header(Head(packet, 4), Head(afterMagic, 1), Head(afterVersion, 1), Head(afterFlags, 2),
           Head(afterReserved, 8), Head(afterSequence, 8),
           Head(afterTimestamp, 4), Head(afterRate, 2), Head(afterChannels, 1), Head(afterFormat, 1),
           Head(afterFormatReserved, 4), Head(afterSamples, 4))
  }

  function HeaderFor(frame: AudioFrame): Header
    requires frame.format.BytesPerFrame() != 0
  {
    Header(MAGIC, VERSION, 0, 0, frame.sequence, Wrap(frame.timestamp), frame.format.sampleRate,
           frame.format.channelCount, PCM_S16_LE, 0, |frame.payload| / frame.format.BytesPerFrame(), |frame.payload|)
  }

  /** What the serializer insists on. */
  predicate Sendable(frame: AudioFrame) {
    && frame.format.IsValid() && frame.format.bitsPerSample == 16
    && frame.format.channelCount <= MAX_CHANNELS && frame.format.sampleRate <= MAX_SAMPLE_RATE
    && |frame.payload| % (2 * frame.format.channelCount) == 0
    && |frame.payload| / (2 * frame.format.channelCount) <= MAX_SAMPLES_PER_CHANNEL
    && |frame.payload| <= MAX_PAYLOAD_SIZE
  }

  function Packet(frame: AudioFrame): seq<Byte>
    requires frame.format.BytesPerFrame() != 0
  {
    WithHeader(HeaderFor(frame), frame.payload)
  }

  function Serialize(frame: AudioFrame): Option<seq<Byte>> {
    if Sendable(frame) then Some(Packet(frame)) else None
  }

  // ---------------------------------------------------------------- parsing

  /** The first objection to a header, in the order they are raised, for a packet of the given size. */
  function Objection(h: Header, packetSize: nat): Option<ParseError> {
    if h.magic != MAGIC then Some(InvalidMagic)
    else if h.version != VERSION then Some(UnsupportedVersion)
    else if h.flags != 0 || h.reserved != 0 || h.sampleReserved != 0 then Some(InvalidFlags)
    else if h.sampleRate == 0 || h.sampleRate > MAX_SAMPLE_RATE then Some(InvalidSampleRate)
    else if h.channels == 0 || h.channels > MAX_CHANNELS then Some(InvalidChannels)
    else if h.sampleFormat != PCM_S16_LE then Some(UnsupportedSampleFormat)
    else if h.samples == 0 || h.samples > MAX_SAMPLES_PER_CHANNEL then Some(InvalidSampleCount)
    else if h.samples > MAX_SIZE / h.channels / 2 then Some(InvalidPayloadSize)
    else if h.payloadSize != h.samples * h.channels * 2 || h.payloadSize > MAX_PAYLOAD_SIZE then
      Some(InvalidPayloadSize)
    else if packetSize < HEADER_SIZE + h.payloadSize then Some(TruncatedPayload)
    else if packetSize != HEADER_SIZE + h.payloadSize then Some(InvalidPayloadSize)
    else None
  }

  function FrameFrom(h: Header, payload: seq<Byte>): AudioFrame
    requires h.Fits()
  {
    AudioFrame(AudioFormat(h.sampleRate, h.channels, 16), h.sequence, TimestampFrom(h.timestamp), payload)
  }

  function Parse(packet: seq<Byte>): ParseResult {
    if |packet| < HEADER_SIZE then Rejected(TruncatedHeader)
    else if |packet| > MAX_PACKET_SIZE then Rejected(ExcessivePacketSize)
    else
      HeaderRead(packet);
      var objection := Objection(HeaderOf(packet), |packet|);
      if objection.Some? then Rejected(objection.value)
      else
        var frame := FrameFrom(HeaderOf(packet), packet[HEADER_SIZE..]);
        if frame.WellFormed() then Parsed(frame) else Rejected(InvalidAudioFrame)
  }

  // ---------------------------------------------------------------- round trips

  lemma Drops(packet: seq<Byte>)
    requires |packet| >= HEADER_SIZE
    ensures packet[4..][1..][1..][2..][8..][8..] == packet[24..]
    ensures packet[24..][4..][2..][1..][1..][4..][4..] == packet[HEADER_SIZE..]
  {
  }

  lemma FormatWritten(h: Header, payload: seq<Byte>)
    requires h.Fits()
    ensures var bytes := FormatFields(h, payload);
      && Head(bytes, 4) == h.sampleRate && Head(bytes[4..], 2) == h.channels
      && Head(bytes[4..][2..], 1) == h.sampleFormat && Head(bytes[4..][2..][1..], 1) == h.sampleReserved
      && Head(bytes[4..][2..][1..][1..], 4) == h.samples && Head(bytes[4..][2..][1..][1..][4..], 4) == h.payloadSize
      && bytes[4..][2..][1..][1..][4..][4..] == payload
  {
    hide Put, Head, Pow256;
    Powers();
    var size := Put(h.payloadSize, 4, payload);
    var samples := Put(h.samples, 4, size);
    var reserved := Put(h.sampleReserved, 1, samples);
    var format := Put(h.sampleFormat, 1, reserved);
    var channels := Put(h.channels, 2, format);
    HeadOfPut(h.sampleRate, 4, channels);
    HeadOfPut(h.channels, 2, format);
    HeadOfPut(h.sampleFormat, 1, reserved);
    HeadOfPut(h.sampleReserved, 1, samples);
    HeadOfPut(h.samples, 4, size);
    HeadOfPut(h.payloadSize, 4, payload);
  }

  lemma HeaderWritten(h: Header, payload: seq<Byte>)
    requires h.Fits()
    ensures HeaderOf(WithHeader(h, payload)) == h
    ensures WithHeader(h, payload)[HEADER_SIZE..] == payload
  {
    hide Put, Head, Pow256, FormatFields;
    Powers();
    FormatWritten(h, payload);
    var timestamp := Put(h.timestamp, 8, FormatFields(h, payload));
    var sequence := Put(h.sequence, 8, timestamp);
    var reserved := Put(h.reserved, 2, sequence);
    var flags := Put(h.flags, 1, reserved);
    var version := Put(h.version, 1, flags);
    HeadOfPut(h.magic, 4, version);
    HeadOfPut(h.version, 1, flags);
    HeadOfPut(h.flags, 1, reserved);
    HeadOfPut(h.reserved, 2, sequence);
    HeadOfPut(h.sequence, 8, timestamp);
    HeadOfPut(h.timestamp, 8, FormatFields(h, payload));
    Drops(WithHeader(h, payload));
  }

  lemma FormatRead(bytes: seq<Byte>)
    requires |bytes| >= 16
    ensures bytes == Put(Head(bytes, 4), 4, Put(Head(bytes[4..], 2), 2, Put(Head(bytes[4..][2..], 1), 1,
      Put(Head(bytes[4..][2..][1..], 1), 1, Put(Head(bytes[4..][2..][1..][1..], 4), 4,
        Put(Head(bytes[4..][2..][1..][1..][4..], 4), 4, bytes[4..][2..][1..][1..][4..][4..]))))))
  {
    hide Put, Head;
    PutOfHead(bytes, 4);
    PutOfHead(bytes[4..], 2);
    PutOfHead(bytes[4..][2..], 1);
    PutOfHead(bytes[4..][2..][1..], 1);
    PutOfHead(bytes[4..][2..][1..][1..], 4);
    PutOfHead(bytes[4..][2..][1..][1..][4..], 4);
  }

  lemma HeaderRead(packet: seq<Byte>)
    requires |packet| >= HEADER_SIZE
    ensures HeaderOf(packet).Fits()
    ensures WithHeader(HeaderOf(packet), packet[HEADER_SIZE..]) == packet
  {
    hide Put, Head, Pow256;
    Powers();
    var afterMagic := packet[4..];
    var afterVersion := afterMagic[1..];
    var afterFlags := afterVersion[1..];
    var afterReserved := afterFlags[2..];
    var afterSequence := afterReserved[8..];
    PutOfHead(packet, 4);
    PutOfHead(afterMagic, 1);
    PutOfHead(afterVersion, 1);
    PutOfHead(afterFlags, 2);
    PutOfHead(afterReserved, 8);
    PutOfHead(afterSequence, 8);
    FormatRead(afterSequence[8..]);
    Drops(packet);
  }

  /** How the two size fields of a header determine each other. */
  lemma SizesAgree(payload: nat, channels: nat, samples: nat)
    requires channels > 0
    ensures payload == samples * channels * 2
       <==> payload % (2 * channels) == 0 && payload / (2 * channels) == samples
  {
    if payload == samples * channels * 2 {
      assert payload == (2 * channels) * samples;
      QuotientOf(payload, 2 * channels, samples);
    }
  }

  lemma SendableHeader(frame: AudioFrame)
    requires Sendable(frame) && frame.payload != [] && Representable(frame.timestamp)
    ensures HeaderFor(frame).Fits()
    ensures Objection(HeaderFor(frame), HEADER_SIZE + |frame.payload|) == None
    ensures FrameFrom(HeaderFor(frame), frame.payload) == frame && frame.WellFormed()
  {
    hide Wrap, TimestampFrom;
    TimestampExact(frame.timestamp);
    var samples := |frame.payload| / (2 * frame.format.channelCount);
    SizesAgree(|frame.payload|, frame.format.channelCount, samples);
    NoOverflow(samples, frame.format.channelCount);
  }

  lemma NoOverflow(samples: nat, channels: nat)
    requires samples <= MAX_SAMPLES_PER_CHANNEL && 0 < channels <= MAX_CHANNELS
    ensures samples <= MAX_SIZE / channels / 2
  {
    assert MAX_SIZE / 8 <= MAX_SIZE / channels;
  }

  /** Every accepted packet is the packet of the frame it yields. */
  lemma AcceptedHeader(h: Header, payload: seq<Byte>)
    requires h.Fits() && Objection(h, HEADER_SIZE + |payload|) == None
    ensures var frame := FrameFrom(h, payload);
      Sendable(frame) && frame.WellFormed() && HeaderFor(frame) == h && payload != []
  {
    hide Wrap, TimestampFrom;
    SizesAgree(|payload|, h.channels, h.samples);
  }

  /** A frame is written and read back exactly; only an empty one cannot be read back. */
  lemma RoundTrip(packet: seq<Byte>, frame: AudioFrame)
    requires Representable(frame.timestamp)
    ensures Parse(packet) == Parsed(frame) <==> Serialize(frame) == Some(packet) && frame.payload != []
  {
    hide WithHeader, HeaderOf, Objection, HeaderFor, Sendable, Wrap, TimestampFrom;
    if Serialize(frame) == Some(packet) && frame.payload != [] {
      SendableHeader(frame);
      SendableSize(frame);
      HeaderWritten(HeaderFor(frame), frame.payload);
    }
    if Parse(packet) == Parsed(frame) {
      HeaderRead(packet);
      AcceptedHeader(HeaderOf(packet), packet[HEADER_SIZE..]);
    }
  }

  lemma SendableSize(frame: AudioFrame)
    requires Sendable(frame)
    ensures |frame.payload| <= MAX_PAYLOAD_SIZE && frame.format.BytesPerFrame() != 0
  {
  }

  /** A frame without samples is sent but refused for its sample count. */
  lemma EmptyIsRefused(frame: AudioFrame)
    requires Sendable(frame) && frame.payload == []
    ensures Parse(Packet(frame)) == Rejected(InvalidSampleCount)
  {
    hide WithHeader, HeaderOf, Wrap;
    HeaderWritten(HeaderFor(frame), frame.payload);
  }

  /** A header that raises no objection always makes a well-formed frame. */
  lemma NeverIllFormed(packet: seq<Byte>)
    ensures Parse(packet) != Rejected(InvalidAudioFrame)
  {
    hide HeaderOf, WithHeader, Sendable, TimestampFrom;
    if HEADER_SIZE <= |packet| <= MAX_PACKET_SIZE {
      HeaderRead(packet);
      if Objection(HeaderOf(packet), |packet|) == None {
        AcceptedHeader(HeaderOf(packet), packet[HEADER_SIZE..]);
      }
    }
  }

  // ---------------------------------------------------------------- the envelope

  function Seal(session: Id, frame: AudioFrame): Option<seq<Byte>> {
    if !ValidId(session) || Serialize(frame).None? then None else Some(session + Serialize(frame).value)
  }

  function Open(expected: Id, packet: seq<Byte>): Option<AudioFrame> {
    if !ValidId(expected) || |packet| <= 16 || packet[..16] != expected then None
    else
      match Parse(packet[16..])
      case Parsed(frame) => Some(frame)
      case Rejected(_) => None
  }

  /** An envelope opens, to the frame sealed in it, exactly for the session it was sealed for. */
  lemma OpensForItsSession(session: Id, frame: AudioFrame, expected: Id)
    requires Seal(session, frame).Some? && Representable(frame.timestamp)
    ensures Open(expected, Seal(session, frame).value)
         == if expected == session && frame.payload != [] then Some(frame) else None
  {
    hide Parse, Packet, Sendable, ValidId;
    var packet := Serialize(frame).value;
    FirstOf(session, packet);
    RoundTrip(packet, frame);
    if frame.payload == [] {
      EmptyIsRefused(frame);
    } else {
      NotEmpty(frame);
    }
  }

  lemma NotEmpty(frame: AudioFrame)
    requires Serialize(frame).Some?
    ensures |Serialize(frame).value| >= HEADER_SIZE
  {
  }

  /** Whatever opens for a session was sealed for it. */
  lemma OpenedWasSealed(expected: Id, packet: seq<Byte>)
    requires Open(expected, packet).Some?
    ensures Representable(Open(expected, packet).value.timestamp)
    ensures Seal(expected, Open(expected, packet).value) == Some(packet)
  {
    hide Packet, Sendable, ValidId, HeaderOf, Objection;
    var frame := Open(expected, packet).value;
    assert packet == packet[..16] + packet[16..];
    RoundTrip(packet[16..], frame);
  }

  // ---------------------------------------------------------------- in place

  method SerializeFrame(frame: AudioFrame) returns (result: Option<seq<Byte>>)
    ensures result == Serialize(frame)
  {
    hide Put, Wrap;
    if !frame.format.IsValid() || frame.format.bitsPerSample != 16
       || frame.format.channelCount > MAX_CHANNELS || frame.format.sampleRate > MAX_SAMPLE_RATE {
      return None;
    }
    var bytesPerFrame := 2 * frame.format.channelCount;
    assert bytesPerFrame == frame.format.BytesPerFrame();
    if |frame.payload| % bytesPerFrame != 0 {
      return None;
    }
    var samples := |frame.payload| / bytesPerFrame;
    if samples > MAX_SAMPLES_PER_CHANNEL || |frame.payload| > MAX_PAYLOAD_SIZE {
      return None;
    }
    var packet := AppendHeader(Header(MAGIC, VERSION, 0, 0, frame.sequence, Wrap(frame.timestamp),
      frame.format.sampleRate, frame.format.channelCount, PCM_S16_LE, 0, samples, |frame.payload|), frame.payload);
    return Some(packet + frame.payload);
  }

  method AppendHeader(h: Header, ghost payload: seq<Byte>) returns (packet: seq<Byte>)
    ensures packet + payload == WithHeader(h, payload)
  {
    hide Put;
    ghost var size := Put(h.payloadSize, 4, payload);
    ghost var samples := Put(h.samples, 4, size);
    ghost var formatReserved := Put(h.sampleReserved, 1, samples);
    ghost var format := Put(h.sampleFormat, 1, formatReserved);
    ghost var channels := Put(h.channels, 2, format);
    ghost var rate := FormatFields(h, payload);
    ghost var timestamp := Put(h.timestamp, 8, rate);
    ghost var sequence := Put(h.sequence, 8, timestamp);
    ghost var reserved := Put(h.reserved, 2, sequence);
    ghost var flags := Put(h.flags, 1, reserved);
    packet := AppendNumber([], h.magic, 4, Put(h.version, 1, flags));
    packet := AppendNumber(packet, h.version, 1, flags);
    packet := AppendNumber(packet, h.flags, 1, reserved);
    packet := AppendNumber(packet, h.reserved, 2, sequence);
    packet := AppendNumber(packet, h.sequence, 8, timestamp);
    packet := AppendNumber(packet, h.timestamp, 8, rate);
    packet := AppendNumber(packet, h.sampleRate, 4, channels);
    packet := AppendNumber(packet, h.channels, 2, format);
    packet := AppendNumber(packet, h.sampleFormat, 1, formatReserved);
    packet := AppendNumber(packet, h.sampleReserved, 1, samples);
    packet := AppendNumber(packet, h.samples, 4, size);
    packet := AppendNumber(packet, h.payloadSize, 4, payload);
  }

  method ReadHeader(packet: seq<Byte>) returns (h: Header)
    requires |packet| >= HEADER_SIZE
    ensures h == HeaderOf(packet)
  {
    hide Head;
    assert packet[0..] == packet;
    var magic, version, flags, reserved, sequence, timestamp;
    var rate, channels, format, formatReserved, samples, size;
    var offset := 0;
    magic, offset := ReadNumber(packet, offset, 4);
    version, offset := ReadNumber(packet, offset, 1);
    flags, offset := ReadNumber(packet, offset, 1);
    reserved, offset := ReadNumber(packet, offset, 2);
    sequence, offset := ReadNumber(packet, offset, 8);
    timestamp, offset := ReadNumber(packet, offset, 8);
    rate, offset := ReadNumber(packet, offset, 4);
    channels, offset := ReadNumber(packet, offset, 2);
    format, offset := ReadNumber(packet, offset, 1);
    formatReserved, offset := ReadNumber(packet, offset, 1);
    samples, offset := ReadNumber(packet, offset, 4);
    size, offset := ReadNumber(packet, offset, 4);
    h := Header(magic, version, flags, reserved, sequence, timestamp, rate, channels, format, formatReserved,
                samples, size);
  }

  method DeserializeFrame(packet: seq<Byte>) returns (result: ParseResult)
    ensures result == Parse(packet)
  {
    hide HeaderOf, WithHeader, TimestampFrom;
    if |packet| < HEADER_SIZE {
      return Rejected(TruncatedHeader);
    }
    if |packet| > MAX_PACKET_SIZE {
      return Rejected(ExcessivePacketSize);
    }
    HeaderRead(packet);
    var h := ReadHeader(packet);
    var objection := Objection(h, |packet|);
    if objection.Some? {
      return Rejected(objection.value);
    }
    var frame := FrameFrom(h, packet[HEADER_SIZE..]);
    if !frame.WellFormed() {
      return Rejected(InvalidAudioFrame);
    }
    return Parsed(frame);
  }

  method SerializeMedia(session: Id, frame: AudioFrame) returns (envelope: Option<seq<Byte>>)
    ensures envelope == Seal(session, frame)
  {
    if !ValidId(session) {
      return None;
    }
    var packet := SerializeFrame(frame);
    if packet.None? {
      return None;
    }
    return Some(session + packet.value);
  }

  method DeserializeMedia(expected: Id, packet: seq<Byte>) returns (frame: Option<AudioFrame>)
    ensures frame == Open(expected, packet)
  {
    if !ValidId(expected) || |packet| <= 16 {
      return None;
    }
    if packet[..16] != expected {
      return None;
    }
    var parsed := DeserializeFrame(packet[16..]);
    return if parsed.Parsed? then Some(parsed.frame) else None;
  }
}
