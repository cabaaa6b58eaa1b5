/** Discovery packets byte by byte: what is where, and which complaint comes first. */
module DiscoveryLayout {
  import opened Bytes
  import opened Checks
  import opened ControlHeaders
  import opened Devices
  import opened DiscoveryCodec
  import opened Packets
  import opened Words
  import opened Wrappers

  /** Types count from 1. */
  const TYPES: seq<MessageType> := [Announce, Query, Response, Goodbye]

  /** What the header of a sent message says. The packet opens with "DIS1" in ASCII. */
  lemma HeaderLayout(m: DiscoveryMessage)
    requires Sendable(m)
    ensures var packet := Packet(m);
      && |packet| == 12 + |Payload(m)|
      && packet[..4] == [0x44, 0x49, 0x53, 0x31] && packet[4] == 1
      && 1 <= packet[5] <= 4 && TYPES[packet[5] - 1] == m.kind
      && packet[6] == packet[7] == 0
      && Field(packet, 8, 4) == |packet| - 12
      && packet[12..] == Payload(m)
  {
    hide HeaderOf, WithHeader, Field, Payload, Sendable;
    var packet := Packet(m);
    PayloadBounded(m);
    HeaderWritten(Header(MAGIC, VERSION, TypeCode(m.kind), 0, |Payload(m)|), Payload(m));
    HeaderAt(packet);
    FourBytes(packet, 0);
    OneByte(packet, 4);
    OneByte(packet, 5);
    TwoBytes(packet, 6);
  }

  /** Where in a packet the description of a device has its parts. */
  function AddressAt(d: DeviceInfo): nat {
    30 + |d.name|
  }

  function NumbersAt(d: DeviceInfo): nat {
    AddressAt(d) + 2 + |d.address|
  }

  function RatesAt(d: DeviceInfo): nat {
    NumbersAt(d) + 6
  }

  function ChannelsAt(d: DeviceInfo): nat {
    RatesAt(d) + 2 + 4 * |d.sampleRates|
  }

  function BitsAt(d: DeviceInfo): nat {
    ChannelsAt(d) + 2 + 2 * |d.channelCounts|
  }

  /** A counted list of numbers stands at the offset. */
  ghost predicate ListAt(packet: seq<Byte>, offset: nat, items: seq<nat>, width: nat) {
    && offset + 2 + width * |items| <= |packet|
    && Field(packet, offset, 2) == |items|
    && ItemsAt(packet, offset + 2, items, width)
  }

  ghost predicate ItemsAt(packet: seq<Byte>, offset: nat, items: seq<nat>, width: nat) {
    forall i :: 0 <= i < |items| ==> ItemAt(packet, offset, items, width, i)
  }

  ghost predicate ItemAt(packet: seq<Byte>, offset: nat, items: seq<nat>, width: nat, i: nat)
    requires i < |items|
  {
    && offset + width * i + width <= |packet|
    && Field(packet, offset + width * i, width) == items[i]
  }

  lemma {:induction false} ItemsPlaced(packet: seq<Byte>, offset: nat, items: seq<nat>, width: nat, rest: seq<Byte>)
    requires offset <= |packet| && packet[offset..] == PutItems(items, width, rest)
    requires forall i :: 0 <= i < |items| ==> items[i] < Pow256(width)
    ensures offset + width * |items| <= |packet| && packet[offset + width * |items|..] == rest
    ensures ItemsAt(packet, offset, items, width)
    decreases |items|
  {
    if items == [] {
      assert width * |items| == 0;
    } else {
      hide Put, Field, Pow256;
      FieldAt(packet, offset, items[0], width, PutItems(items[1..], width, rest));
      ItemsPlaced(packet, offset + width, items[1..], width, rest);
      TimesNext(width, |items| - 1);
      hide ItemAt, ItemsAt;
      OneMoreItem(packet, offset, items, width);
    }
  }

  lemma OneMoreItem(packet: seq<Byte>, offset: nat, items: seq<nat>, width: nat)
    requires items != [] && offset + width <= |packet| && Field(packet, offset, width) == items[0]
    requires ItemsAt(packet, offset + width, items[1..], width)
    ensures ItemsAt(packet, offset, items, width)
  {
    hide Field;
    forall i | 0 <= i < |items| ensures ItemAt(packet, offset, items, width, i) {
      if i > 0 {
        TimesNext(width, i - 1);
        assert ItemAt(packet, offset + width, items[1..], width, i - 1);
      } else {
        assert width * i == 0;
      }
    }
  }

  lemma TimesNext(width: nat, n: nat)
    ensures width + width * n == width * (n + 1)
  {
  }

  lemma ListPlaced(packet: seq<Byte>, offset: nat, items: seq<nat>, width: nat, rest: seq<Byte>)
    requires offset <= |packet| && packet[offset..] == PutList(items, width, rest)
    requires |items| <= MAX_CAPABILITIES && forall i :: 0 <= i < |items| ==> items[i] < Pow256(width)
    ensures ListAt(packet, offset, items, width)
    ensures packet[offset + 2 + width * |items|..] == rest
  {
    hide Put, Field, PutItems, ItemAt;
    Powers();
    FieldAt(packet, offset, |items|, 2, PutItems(items, width, rest));
    ItemsPlaced(packet, offset + 2, items, width, rest);
  }

  lemma StringPlaced(packet: seq<Byte>, offset: nat, text: seq<Byte>, rest: seq<Byte>)
    requires offset <= |packet| && packet[offset..] == PutString(text, rest) && |text| < 0x1_0000
    ensures offset + 2 + |text| <= |packet| && packet[offset + 2 + |text|..] == rest
    ensures Field(packet, offset, 2) == |text| && packet[offset + 2..offset + 2 + |text|] == text
  {
    hide Put, Field, Pow256;
    Powers();
    FieldAt(packet, offset, |text|, 2, text + rest);
    BytesAt(packet, offset + 2, text, rest);
  }

  /** What every byte of the description of a device says. */
  lemma Layout(m: DiscoveryMessage)
    requires Sendable(m) && m.device.Some?
    ensures var packet, d := Packet(m), m.device.value;
      && |packet| == BitsAt(d) + 2 + 2 * |d.bitsPerSample|
      && packet[12..28] == d.id
      && Field(packet, 28, 2) == |d.name| && packet[30..30 + |d.name|] == d.name
      && Field(packet, AddressAt(d), 2) == |d.address| && packet[AddressAt(d) + 2..NumbersAt(d)] == d.address
      && Field(packet, NumbersAt(d), 2) == d.protocolVersion
      && Field(packet, NumbersAt(d) + 2, 2) == d.audioPort
      && Field(packet, NumbersAt(d) + 4, 2) == d.discoveryPort
      && ListAt(packet, RatesAt(d), d.sampleRates, 4)
      && ListAt(packet, ChannelsAt(d), d.channelCounts, 2)
      && ListAt(packet, BitsAt(d), d.bitsPerSample, 2)
  {
    hide Put, PutString, PutList, Pow256, Field, Packet, ValidId, ListAt;
    Powers();
    HeaderLayout(m);
    var packet, d := Packet(m), m.device.value;
    var bits := PutList(d.bitsPerSample, 2, []);
    var channels := PutList(d.channelCounts, 2, bits);
    var ports := Put(d.audioPort, 2, Put(d.discoveryPort, 2, Capabilities(d)));
    BytesAt(packet, 12, d.id, PutString(d.name, PutString(d.address, Numbers(d))));
    StringPlaced(packet, 28, d.name, PutString(d.address, Numbers(d)));
    StringPlaced(packet, AddressAt(d), d.address, Numbers(d));
    FieldAt(packet, NumbersAt(d), d.protocolVersion, 2, ports);
    FieldAt(packet, NumbersAt(d) + 2, d.audioPort, 2, Put(d.discoveryPort, 2, Capabilities(d)));
    FieldAt(packet, NumbersAt(d) + 4, d.discoveryPort, 2, Capabilities(d));
    ListPlaced(packet, RatesAt(d), d.sampleRates, 4, channels);
    ListPlaced(packet, ChannelsAt(d), d.channelCounts, 2, bits);
    ListPlaced(packet, BitsAt(d), d.bitsPerSample, 2, []);
  }

  // ---------------------------------------------------------------- complaints

  /** A name of 1 to 96 bytes, an address of at most 64, and 8 bytes more fit in. */
  predicate StringsFit(packet: seq<Byte>)
    requires |packet| >= 28
  {
    && |packet| >= 30
    && var n := Field(packet, 28, 2);
       && 1 <= n <= 96 && 32 + n <= |packet|
       && var k := Field(packet, 30 + n, 2);
          k <= 64 && 32 + n + k + 8 <= |packet|
  }

  /** The end of a list of 1 to 16 items at the offset, if it fits in. */
  function EndOfList(packet: seq<Byte>, offset: nat, width: nat): Option<nat> {
    if offset + 2 <= |packet| && 1 <= Field(packet, offset, 2) <= 16
       && offset + 2 + width * Field(packet, offset, 2) <= |packet|
    then Some(offset + 2 + width * Field(packet, offset, 2))
    else None
  }

  /** Three lists of 4, 2 and 2 bytes an item fill the packet exactly. */
  predicate ListsFit(packet: seq<Byte>, offset: nat) {
    var rates := EndOfList(packet, offset, 4);
    && rates.Some?
    && var channels := EndOfList(packet, rates.value, 2);
       channels.Some? && EndOfList(packet, channels.value, 2) == Some(|packet|)
  }

  predicate CapabilitiesFit(packet: seq<Byte>)
    requires |packet| >= 28 && StringsFit(packet)
  {
    var n := Field(packet, 28, 2);
    ListsFit(packet, 38 + n + Field(packet, 30 + n, 2))
  }

  /** What is checked of a packet of acceptable size, in order. */
  function Demands(packet: seq<Byte>): seq<Check<ParseError>>
    requires |packet| >= 12
  {
    [Check(packet[..4] == [0x44, 0x49, 0x53, 0x31], InvalidMagic),
     Check(packet[4] == 1, UnsupportedVersion),
     Check(1 <= packet[5] <= 4, InvalidType),
     Check(packet[6] == packet[7] == 0, InvalidLength),
     Check(Field(packet, 8, 4) == |packet| - 12, InvalidLength)]
  }

  /** What is checked of the payload behind a sound header. A query, type 2, has none. */
  function PayloadDemands(packet: seq<Byte>): seq<Check<ParseError>>
    requires |packet| >= 12
  {
    var query := packet[5] == 2;
    [Check(query ==> |packet| == 12, InvalidLength),
     Check(query || |packet| >= 28, Truncated),
     Check(query || (|packet| >= 28 && ValidId(packet[12..28])), InvalidDeviceId),
     Check(query || (|packet| >= 28 && StringsFit(packet)), InvalidString),
     Check(query || (|packet| >= 28 && StringsFit(packet) && CapabilitiesFit(packet)), InvalidCapabilities)]
  }

  lemma StringAt(packet: seq<Byte>, offset: nat, limit: nat)
    requires offset + 2 <= |packet|
    ensures var n, taken := Field(packet, offset, 2), TakeString(packet[offset..], limit);
      && (taken.Some? <==> n <= limit && offset + 2 + n <= |packet|)
      && (taken.Some? ==> |taken.value.0| == n && taken.value.1 == packet[offset + 2 + n..])
  {
    hide Head, Field;
    HeadAt(packet, offset, 2);
    if offset + 2 + Field(packet, offset, 2) <= |packet| {
      HeadAt(packet, offset + 2, Field(packet, offset, 2));
    }
  }

  lemma StringsAt(packet: seq<Byte>)
    requires |packet| >= 28
    ensures var strings := ParseStrings(packet[28..]);
      && (strings.Some? <==> StringsFit(packet))
      && (strings.Some? ==>
            && StringsFit(packet)
            && var n := Field(packet, 28, 2);
               strings.value.2 == packet[32 + n + Field(packet, 30 + n, 2)..])
  {
    hide Field, TakeString;
    if |packet| >= 30 {
      StringAt(packet, 28, MAX_NAME_LENGTH);
      var n := Field(packet, 28, 2);
      if 32 + n <= |packet| {
        StringAt(packet, 30 + n, MAX_ADDRESS_LENGTH);
      } else {
        TooShort(packet, 30 + n);
      }
    } else {
      TooShort(packet, 28);
    }
  }

  lemma TooShort(packet: seq<Byte>, offset: nat)
    ensures offset <= |packet| < offset + 2 ==>
      forall limit: nat :: TakeString(packet[offset..], limit) == None
  {
  }

  lemma {:induction false} ItemsFit(bytes: seq<Byte>, width: nat, count: nat)
    ensures var taken := TakeItems(bytes, width, count);
      && (taken.Some? <==> width * count <= |bytes|)
      && (taken.Some? ==> taken.value.1 == bytes[width * count..])
    decreases count
  {
    if count == 0 {
      assert width * count == 0;
    } else {
      hide Head;
      TimesNext(width, count - 1);
      if width <= |bytes| {
        ItemsFit(bytes[width..], width, count - 1);
        if width * count <= |bytes| {
          HeadAt(bytes, width, width * (count - 1));
          assert bytes[width..][width * (count - 1)..] == bytes[width * count..];
        }
      } else {
        AtLeast(width, count);
      }
    }
  }

  lemma AtLeast(width: nat, count: nat)
    requires count > 0
    ensures width * count >= width
  {
  }

  lemma ListEnds(packet: seq<Byte>, offset: nat, width: nat)
    requires offset <= |packet|
    ensures var taken, end := TakeList(packet[offset..], width), EndOfList(packet, offset, width);
      && (taken.Some? <==> end.Some?)
      && (taken.Some? ==> end.value <= |packet| && taken.value.1 == packet[end.value..])
  {
    hide Head, TakeItems;
    if offset + 2 <= |packet| {
      HeadAt(packet, offset, 2);
      var count := Field(packet, offset, 2);
      ItemsFit(packet[offset + 2..], width, count);
      if offset + 2 + width * count <= |packet| {
        HeadAt(packet, offset + 2, width * count);
      }
    }
  }

  lemma ListsEnd(packet: seq<Byte>, offset: nat)
    requires offset <= |packet|
    ensures ParseLists(packet[offset..]).Some? <==> ListsFit(packet, offset)
  {
    hide TakeList, EndOfList, Pow256;
    Powers();
    ListEnds(packet, offset, 4);
    var rates := EndOfList(packet, offset, 4);
    if rates.Some? {
      ListEnds(packet, rates.value, 2);
      var channels := EndOfList(packet, rates.value, 2);
      if channels.Some? {
        ListEnds(packet, channels.value, 2);
      }
    }
  }

  lemma PayloadRefused(kind: MessageType, packet: seq<Byte>)
    requires |packet| >= 12 && packet[5] != 2
    ensures var complaint := FirstFailed(PayloadDemands(packet), 0);
      if complaint.Some? then ParsePayload(kind, packet[12..]) == Rejected(complaint.value)
      else ParsePayload(kind, packet[12..]).Parsed?
  {
    hide Head, Field, ValidId, ParseStrings, ParseLists, StringsFit, ListsFit;
    Unrolled(PayloadDemands(packet), 0);
    NoneLeft(PayloadDemands(packet));
    if |packet| >= 28 {
      HeadAt(packet, 12, 16);
      StringsAt(packet);
      if StringsFit(packet) {
        CapabilitiesAt(packet);
      }
    }
  }

  lemma CapabilitiesAt(packet: seq<Byte>)
    requires |packet| >= 28 && StringsFit(packet)
    ensures ParseDevice(packet[12..]).Some? <==> CapabilitiesFit(packet)
  {
    hide Head, Field, ValidId, ParseStrings, ParseLists, ListsFit;
    HeadAt(packet, 12, 16);
    StringsAt(packet);
    var n := Field(packet, 28, 2);
    var start := 32 + n + Field(packet, 30 + n, 2);
    HeadAt(packet, start, 2);
    HeadAt(packet, start + 2, 2);
    HeadAt(packet, start + 4, 2);
    ListsEnd(packet, start + 6);
  }

  /** A packet is refused with the first complaint there is against it, and accepted if there is none. */
  lemma RefusedExactly(packet: seq<Byte>)
    ensures |packet| < 12 ==> Parse(packet) == Rejected(Truncated)
    ensures |packet| > 1024 ==> Parse(packet) == Rejected(ExcessivePacket)
    ensures 12 <= |packet| <= 1024 ==>
      var complaint := FirstFailed(Demands(packet) + PayloadDemands(packet), 0);
      if complaint.Some? then Parse(packet) == Rejected(complaint.value) else Parse(packet).Parsed?
  {
    hide HeaderOf, ParsePayload, FirstFailed, Field, TypeFrom, ValidId, StringsFit, CapabilitiesFit;
    if 12 <= |packet| <= 1024 {
      HeaderAt(packet);
      FourBytes(packet, 0);
      OneByte(packet, 4);
      OneByte(packet, 5);
      TwoBytes(packet, 6);
      Unrolled(Demands(packet), 0);
      NoneLeft(Demands(packet));
      Unrolled(PayloadDemands(packet), 0);
      NoneLeft(PayloadDemands(packet));
      Joined(Demands(packet), PayloadDemands(packet), 0);
      if 1 <= packet[5] <= 4 {
        QueryIsTwo(packet[5]);
      }
      if packet[5] != 2 {
        PayloadRefused(TypeFrom(if 1 <= packet[5] <= 4 then packet[5] else 1), packet);
      }
    }
  }

  lemma QueryIsTwo(code: nat)
    requires 1 <= code <= 4
    ensures TypeFrom(code).Query? <==> code == 2
  {
  }
}
