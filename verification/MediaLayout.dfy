/** Audio packets byte by byte: what is where, and which complaint comes first. */
module MediaLayout {
  import opened AudioFrames
  import opened Bytes
  import opened Checks
  import opened MediaCodec
  import opened Packets
  import opened Words
  import opened Wrappers

  lemma HeaderAt(packet: seq<Byte>)
    requires |packet| >= HEADER_SIZE
    ensures HeaderOf(packet) == Header(
      Field(packet, 0, 4), Field(packet, 4, 1), Field(packet, 5, 1), Field(packet, 6, 2), Field(packet, 8, 8),
      Field(packet, 16, 8), Field(packet, 24, 4), Field(packet, 28, 2), Field(packet, 30, 1), Field(packet, 31, 1),
      Field(packet, 32, 4), Field(packet, 36, 4))
  {
    hide Head, Field;
    assert packet[0..] == packet;
    HeadAt(packet, 0, 4);
    HeadAt(packet, 4, 1);
    HeadAt(packet, 5, 1);
    HeadAt(packet, 6, 2);
    HeadAt(packet, 8, 8);
    HeadAt(packet, 16, 8);
    HeadAt(packet, 24, 4);
    HeadAt(packet, 28, 2);
    HeadAt(packet, 30, 1);
    HeadAt(packet, 31, 1);
    HeadAt(packet, 32, 4);
    HeadAt(packet, 36, 4);
  }

  /** What every byte of a sent frame says. The packet opens with "DAS1" in ASCII. */
  lemma Layout(frame: AudioFrame)
    requires Sendable(frame) && Representable(frame.timestamp)
    ensures Serialize(frame).Some?
    ensures var packet, width := Serialize(frame).value, 2 * frame.format.channelCount;
      && |packet| == 40 + |frame.payload|
      && packet[..4] == [0x44, 0x41, 0x53, 0x31] && packet[4] == 1 && packet[5] == packet[6] == packet[7] == 0
      && Field(packet, 8, 8) == frame.sequence
      && Field(packet, 16, 8) == (if frame.timestamp < 0 then frame.timestamp + TWO_64 else frame.timestamp)
      && Field(packet, 24, 4) == frame.format.sampleRate
      && Field(packet, 28, 2) == frame.format.channelCount
      && packet[30] == 1 && packet[31] == 0
      && Field(packet, 32, 4) * width == |frame.payload|
      && Field(packet, 36, 4) == |frame.payload|
      && packet[40..] == frame.payload
  {
    hide WithHeader, HeaderOf, Field, Wrap, Sendable;
    var packet := Serialize(frame).value;
    SentHeader(frame);
    HeaderWritten(HeaderFor(frame), frame.payload);
    HeaderAt(packet);
    FourBytes(packet, 0);
    OneByte(packet, 4);
    OneByte(packet, 5);
    TwoBytes(packet, 6);
    OneByte(packet, 30);
    OneByte(packet, 31);
  }

  lemma SentHeader(frame: AudioFrame)
    requires Sendable(frame) && Representable(frame.timestamp)
    ensures frame.format.BytesPerFrame() == 2 * frame.format.channelCount != 0
    ensures var h := HeaderFor(frame);
      && h.Fits() && h.samples * (2 * frame.format.channelCount) == |frame.payload|
      && h.timestamp == (if frame.timestamp < 0 then frame.timestamp + TWO_64 else frame.timestamp)
  {
    SizesAgree(|frame.payload|, frame.format.channelCount, |frame.payload| / (2 * frame.format.channelCount));
  }

  // ---------------------------------------------------------------- complaints

  /** What is checked of a packet of acceptable size, in order. */
  function Demands(packet: seq<Byte>): seq<Check<ParseError>>
    requires |packet| >= 40
  {
    var rate, channels, samples, size :=
      Field(packet, 24, 4), Field(packet, 28, 2), Field(packet, 32, 4), Field(packet, 36, 4);
    [Check(packet[..4] == [0x44, 0x41, 0x53, 0x31], InvalidMagic),
     Check(packet[4] == 1, UnsupportedVersion),
     Check(packet[5] == packet[6] == packet[7] == packet[31] == 0, InvalidFlags),
     Check(1 <= rate <= 384_000, InvalidSampleRate),
     Check(1 <= channels <= 8, InvalidChannels),
     Check(packet[30] == 1, UnsupportedSampleFormat),
     Check(1 <= samples <= 4096, InvalidSampleCount),
     Check(size == samples * channels * 2 && size <= 1200, InvalidPayloadSize),
     Check(|packet| >= 40 + size, TruncatedPayload),
     Check(|packet| <= 40 + size, InvalidPayloadSize)]
  }

  lemma ObjectionIsFirst(packet: seq<Byte>)
    requires |packet| >= 40
    ensures Objection(HeaderOf(packet), |packet|) == FirstFailed(Demands(packet), 0)
  {
    hide HeaderOf, Field;
    HeaderAt(packet);
    FourBytes(packet, 0);
    OneByte(packet, 4);
    OneByte(packet, 5);
    TwoBytes(packet, 6);
    OneByte(packet, 30);
    OneByte(packet, 31);
    if 0 < Field(packet, 28, 2) <= 8 && Field(packet, 32, 4) <= 4096 {
      NoOverflow(Field(packet, 32, 4), Field(packet, 28, 2));
    }
    Unrolled(Demands(packet), 0);
    Unrolled(Demands(packet), 5);
  }

  /** A packet is refused with the first complaint there is against it, and accepted if there is none. */
  lemma RefusedExactly(packet: seq<Byte>)
    ensures |packet| < 40 ==> Parse(packet) == Rejected(TruncatedHeader)
    ensures |packet| > 1240 ==> Parse(packet) == Rejected(ExcessivePacketSize)
    ensures 40 <= |packet| <= 1240 ==>
      var complaint := FirstFailed(Demands(packet), 0);
      if complaint.Some? then Parse(packet) == Rejected(complaint.value) else Parse(packet).Parsed?
  {
    hide HeaderOf, Objection, Demands, FirstFailed, FrameFrom;
    NeverIllFormed(packet);
    if |packet| >= 40 {
      ObjectionIsFirst(packet);
    }
  }
}
