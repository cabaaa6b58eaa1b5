/** Discovery messages on the wire: two strings and three lists of varying length. */
module DiscoveryCodec {
  import opened Bytes
  import opened ControlHeaders
  import opened Devices
  import opened Packets
  import opened Words
  import opened Wrappers

  const MAGIC := 0x4449_5331
  const VERSION := 1
  const MAX_PACKET_SIZE := 1024
  const MAX_NAME_LENGTH := 96
  const MAX_ADDRESS_LENGTH := 64
  const MAX_CAPABILITIES := 16

  datatype MessageType = Announce | Query | Response | Goodbye

  datatype DiscoveryMessage = DiscoveryMessage(kind: MessageType, device: Option<DeviceInfo>)

  datatype ParseError =
    | Truncated | InvalidMagic | UnsupportedVersion | InvalidType | InvalidLength | InvalidDeviceId
    | InvalidString | InvalidCapabilities | ExcessivePacket

  datatype ParseResult = Parsed(message: DiscoveryMessage) | Rejected(error: ParseError)

  function TypeCode(kind: MessageType): (code: Byte)
    ensures 1 <= code <= 4 && TypeFrom(code) == kind
  {
    match kind
    case Announce => 1
    case Query => 2
    case Response => 3
    case Goodbye => 4
  }

  function TypeFrom(code: nat): MessageType
    requires 1 <= code <= 4
  {
    if code == 1 then Announce else if code == 2 then Query else if code == 3 then Response else Goodbye
  }

  // ---------------------------------------------------------------- the format

  function PutString(text: seq<Byte>, rest: seq<Byte>): (bytes: seq<Byte>)
    ensures |bytes| == 2 + |text| + |rest|
  {
    Put(|text|, 2, text + rest)
  }

  function PutItems(items: seq<nat>, width: nat, rest: seq<Byte>): (bytes: seq<Byte>)
    ensures |bytes| == width * |items| + |rest|
  {
    if items == [] then rest else Put(items[0], width, PutItems(items[1..], width, rest))
  }

  function PutList(items: seq<nat>, width: nat, rest: seq<Byte>): (bytes: seq<Byte>)
    ensures |bytes| == 2 + width * |items| + |rest|
  {
    Put(|items|, 2, PutItems(items, width, rest))
  }

  function Capabilities(d: DeviceInfo): (bytes: seq<Byte>)
    ensures |bytes| == 6 + 4 * |d.sampleRates| + 2 * |d.channelCounts| + 2 * |d.bitsPerSample|
  {
    PutList(d.sampleRates, 4, PutList(d.channelCounts, 2, PutList(d.bitsPerSample, 2, [])))
  }

  function Numbers(d: DeviceInfo): (bytes: seq<Byte>)
    ensures |bytes| == 6 + |Capabilities(d)|
  {
    Put(d.protocolVersion, 2, Put(d.audioPort, 2, Put(d.discoveryPort, 2, Capabilities(d))))
  }

  function DeviceBytes(d: DeviceInfo): (bytes: seq<Byte>)
    ensures |bytes| == 20 + |d.name| + |d.address| + |Numbers(d)|
  {
    d.id + PutString(d.name, PutString(d.address, Numbers(d)))
  }

  function Payload(m: DiscoveryMessage): seq<Byte> {
    match m.device
    case None => []
    case Some(d) => DeviceBytes(d)
  }

  function Packet(m: DiscoveryMessage): seq<Byte> {
    WithHeader(Header(MAGIC, VERSION, TypeCode(m.kind), 0, |Payload(m)|), Payload(m))
  }

  predicate ValidDevice(d: DeviceInfo) {
    && ValidId(d.id)
    && 0 < |d.name| <= MAX_NAME_LENGTH
    && |d.address| <= MAX_ADDRESS_LENGTH
    && 0 < |d.sampleRates| <= MAX_CAPABILITIES
    && 0 < |d.channelCounts| <= MAX_CAPABILITIES
    && 0 < |d.bitsPerSample| <= MAX_CAPABILITIES
  }

  /** What the serializer insists on. */
  predicate Sendable(m: DiscoveryMessage) {
    && (m.kind.Query? || m.device.Some?)
    && (m.device.Some? ==> ValidDevice(m.device.value))
  }

  function Serialize(m: DiscoveryMessage): Option<seq<Byte>> {
    if !Sendable(m) then None
    else if |Payload(m)| > MAX_PACKET_SIZE - CONTROL_HEADER_SIZE then None
    else Some(Packet(m))
  }

  // ---------------------------------------------------------------- parsing

  function TakeString(bytes: seq<Byte>, limit: nat): (taken: Option<(seq<Byte>, seq<Byte>)>)
    ensures taken.Some? ==> |taken.value.0| <= limit
  {
    if |bytes| < 2 then None
    else
      var length, rest := Head(bytes, 2), bytes[2..];
      if length > limit || length > |rest| then None else Some((rest[..length], rest[length..]))
  }

  function TakeItems(bytes: seq<Byte>, width: nat, count: nat): (taken: Option<(seq<nat>, seq<Byte>)>)
    ensures taken.Some? ==> |taken.value.0| == count
    ensures taken.Some? ==> forall i :: 0 <= i < |taken.value.0| ==> taken.value.0[i] < Pow256(width)
  {
    if count == 0 then Some(([], bytes))
    else if |bytes| < width then None
    else
      var others := TakeItems(bytes[width..], width, count - 1);
      if others.None? then None else Some(([Head(bytes, width)] + others.value.0, others.value.1))
  }

  function TakeList(bytes: seq<Byte>, width: nat): (taken: Option<(seq<nat>, seq<Byte>)>)
    ensures taken.Some? ==> 0 < |taken.value.0| <= MAX_CAPABILITIES
    ensures taken.Some? ==> forall i :: 0 <= i < |taken.value.0| ==> taken.value.0[i] < Pow256(width)
  {
    if |bytes| < 2 then None
    else
      var count := Head(bytes, 2);
      if count == 0 || count > MAX_CAPABILITIES then None else TakeItems(bytes[2..], width, count)
  }

  datatype Lists = Lists(rates: seq<Word32>, channels: seq<Word16>, bits: seq<Word16>)

  function ParseLists(bytes: seq<Byte>): (lists: Option<Lists>) {
    Powers();
    var rates := TakeList(bytes, 4);
    if rates.None? then None
    else
      var channels := TakeList(rates.value.1, 2);
      if channels.None? then None
      else
        var bits := TakeList(channels.value.1, 2);
        if bits.None? || bits.value.1 != [] then None
        else Some(Lists(rates.value.0, channels.value.0, bits.value.0))
  }

  function ParseDevice(payload: seq<Byte>): Option<DeviceInfo>
    requires |payload| >= 16
  {
    var strings := ParseStrings(payload[16..]);
    if strings.None? then None
    else
      var (name, address, afterStrings) := strings.value;
      var lists := ParseLists(afterStrings[2..][2..][2..]);
      if lists.None? then None
      else
        Powers();
        Some(DeviceInfo(payload[..16], name, Head(afterStrings, 2), address,
                        lists.value.rates, lists.value.channels, lists.value.bits,
                        Head(afterStrings[2..], 2), Head(afterStrings[2..][2..], 2)))
  }

  /** The name and the address, if at least the three numbers and one more field can follow. */
  function ParseStrings(bytes: seq<Byte>): (strings: Option<(seq<Byte>, seq<Byte>, seq<Byte>)>)
    ensures strings.Some? ==> |strings.value.2| >= 8
    ensures strings.Some? ==> 0 < |strings.value.0| <= MAX_NAME_LENGTH && |strings.value.1| <= MAX_ADDRESS_LENGTH
  {
    var name := TakeString(bytes, MAX_NAME_LENGTH);
    if name.None? || name.value.0 == [] then None
    else
      var address := TakeString(name.value.1, MAX_ADDRESS_LENGTH);
      if address.None? || |address.value.1| < 8 then None
      else Some((name.value.0, address.value.0, address.value.1))
  }

  function ParsePayload(kind: MessageType, payload: seq<Byte>): ParseResult {
    if |payload| < 16 then Rejected(Truncated)
    else if !ValidId(payload[..16]) then Rejected(InvalidDeviceId)
    else if ParseStrings(payload[16..]).None? then Rejected(InvalidString)
    else
      var device := ParseDevice(payload);
      if device.None? then Rejected(InvalidCapabilities) else Parsed(DiscoveryMessage(kind, device))
  }

  function Parse(packet: seq<Byte>): ParseResult {
    if |packet| < CONTROL_HEADER_SIZE then Rejected(Truncated)
    else if |packet| > MAX_PACKET_SIZE then Rejected(ExcessivePacket)
    else
      var h := HeaderOf(packet);
      if h.magic != MAGIC then Rejected(InvalidMagic)
      else if h.version != VERSION then Rejected(UnsupportedVersion)
      else if h.kind < 1 || h.kind > 4 then Rejected(InvalidType)
      else if h.reserved != 0 then Rejected(InvalidLength)
      else if h.length != |packet| - CONTROL_HEADER_SIZE then Rejected(InvalidLength)
      else
        var kind := TypeFrom(h.kind);
        if kind.Query? then
          if h.length != 0 then Rejected(InvalidLength) else Parsed(DiscoveryMessage(kind, None))
        else ParsePayload(kind, packet[CONTROL_HEADER_SIZE..])
  }

  // ---------------------------------------------------------------- round trips

  lemma StringWritten(text: seq<Byte>, limit: nat, rest: seq<Byte>)
    requires |text| <= limit < 0x1_0000
    ensures TakeString(PutString(text, rest), limit) == Some((text, rest))
  {
    hide Put, Head, Pow256;
    Powers();
    HeadOfPut(|text|, 2, text + rest);
    FirstOf(text, rest);
  }

  lemma StringRead(bytes: seq<Byte>, limit: nat)
    requires TakeString(bytes, limit).Some?
    ensures var (text, rest) := TakeString(bytes, limit).value; PutString(text, rest) == bytes
  {
    hide Put, Head, Pow256;
    PutOfHead(bytes, 2);
    var (text, rest) := TakeString(bytes, limit).value;
    assert text + rest == bytes[2..];
  }

  lemma {:induction false} ItemsWritten(items: seq<nat>, width: nat, rest: seq<Byte>)
    requires forall i :: 0 <= i < |items| ==> items[i] < Pow256(width)
    ensures TakeItems(PutItems(items, width, rest), width, |items|) == Some((items, rest))
  {
    if items != [] {
      hide Put, Head, Pow256;
      var others := PutItems(items[1..], width, rest);
      HeadOfPut(items[0], width, others);
      ItemsWritten(items[1..], width, rest);
      assert items == [items[0]] + items[1..];
    }
  }

  lemma {:induction false} ItemsRead(bytes: seq<Byte>, width: nat, count: nat)
    requires TakeItems(bytes, width, count).Some?
    ensures var (items, rest) := TakeItems(bytes, width, count).value; PutItems(items, width, rest) == bytes
  {
    if count != 0 {
      hide Put, Head, Pow256;
      PutOfHead(bytes, width);
      ItemsRead(bytes[width..], width, count - 1);
      var (items, rest) := TakeItems(bytes, width, count).value;
      assert items[1..] == TakeItems(bytes[width..], width, count - 1).value.0;
    }
  }

  lemma ListWritten(items: seq<nat>, width: nat, rest: seq<Byte>)
    requires 0 < |items| <= MAX_CAPABILITIES && forall i :: 0 <= i < |items| ==> items[i] < Pow256(width)
    ensures TakeList(PutList(items, width, rest), width) == Some((items, rest))
  {
    hide Put, Head, PutItems, TakeItems;
    Powers();
    HeadOfPut(|items|, 2, PutItems(items, width, rest));
    ItemsWritten(items, width, rest);
  }

  lemma ListRead(bytes: seq<Byte>, width: nat)
    requires TakeList(bytes, width).Some?
    ensures var (items, rest) := TakeList(bytes, width).value; PutList(items, width, rest) == bytes
  {
    hide Put, Head, PutItems, TakeItems;
    PutOfHead(bytes, 2);
    ItemsRead(bytes[2..], width, Head(bytes, 2));
  }

  lemma ListsWritten(d: DeviceInfo)
    requires ValidDevice(d)
    ensures ParseLists(Capabilities(d)) == Some(Lists(d.sampleRates, d.channelCounts, d.bitsPerSample))
  {
    hide PutList, TakeList, Pow256, ValidId;
    Powers();
    var bits := PutList(d.bitsPerSample, 2, []);
    var channels := PutList(d.channelCounts, 2, bits);
    ListWritten(d.sampleRates, 4, channels);
    ListWritten(d.channelCounts, 2, bits);
    ListWritten(d.bitsPerSample, 2, []);
  }

  lemma ListsRead(bytes: seq<Byte>)
    requires ParseLists(bytes).Some?
    ensures var l := ParseLists(bytes).value;
      PutList(l.rates, 4, PutList(l.channels, 2, PutList(l.bits, 2, []))) == bytes
  {
    hide PutList, TakeList, Pow256;
    Powers();
    ListRead(bytes, 4);
    var afterRates := TakeList(bytes, 4).value.1;
    ListRead(afterRates, 2);
    ListRead(TakeList(afterRates, 2).value.1, 2);
  }

  lemma StringsWritten(d: DeviceInfo)
    requires ValidDevice(d)
    ensures ParseStrings(PutString(d.name, PutString(d.address, Numbers(d)))) == Some((d.name, d.address, Numbers(d)))
  {
    hide PutString, TakeString, Capabilities, ValidId, Put;
    StringWritten(d.name, MAX_NAME_LENGTH, PutString(d.address, Numbers(d)));
    StringWritten(d.address, MAX_ADDRESS_LENGTH, Numbers(d));
  }

  lemma StringsRead(bytes: seq<Byte>)
    requires ParseStrings(bytes).Some?
    ensures var (name, address, rest) := ParseStrings(bytes).value; PutString(name, PutString(address, rest)) == bytes
  {
    hide PutString, TakeString;
    StringRead(bytes, MAX_NAME_LENGTH);
    StringRead(TakeString(bytes, MAX_NAME_LENGTH).value.1, MAX_ADDRESS_LENGTH);
  }

  lemma NumbersWritten(d: DeviceInfo)
    ensures var bytes := Numbers(d);
      && |bytes| >= 8
      && Head(bytes, 2) == d.protocolVersion && Head(bytes[2..], 2) == d.audioPort
      && Head(bytes[2..][2..], 2) == d.discoveryPort && bytes[2..][2..][2..] == Capabilities(d)
  {
    hide Put, Head, Pow256, Capabilities;
    Powers();
    var ports := Put(d.audioPort, 2, Put(d.discoveryPort, 2, Capabilities(d)));
    HeadOfPut(d.protocolVersion, 2, ports);
    HeadOfPut(d.audioPort, 2, Put(d.discoveryPort, 2, Capabilities(d)));
    HeadOfPut(d.discoveryPort, 2, Capabilities(d));
  }

  lemma NumbersRead(bytes: seq<Byte>)
    requires |bytes| >= 6
    ensures bytes == Put(Head(bytes, 2), 2, Put(Head(bytes[2..], 2), 2,
                       Put(Head(bytes[2..][2..], 2), 2, bytes[2..][2..][2..])))
  {
    hide Put, Head;
    PutOfHead(bytes, 2);
    PutOfHead(bytes[2..], 2);
    PutOfHead(bytes[2..][2..], 2);
  }

  lemma DeviceWritten(kind: MessageType, d: DeviceInfo)
    requires ValidDevice(d)
    ensures ParsePayload(kind, DeviceBytes(d)) == Parsed(DiscoveryMessage(kind, Some(d)))
  {
    hide ParseStrings, ParseLists, Capabilities, PutString, Numbers, ValidId, Head, Pow256;
    FirstOf(d.id, PutString(d.name, PutString(d.address, Numbers(d))));
    StringsWritten(d);
    NumbersWritten(d);
    ListsWritten(d);
  }

  lemma ListsBounded(bytes: seq<Byte>)
    requires ParseLists(bytes).Some?
    ensures var l := ParseLists(bytes).value;
      && 0 < |l.rates| <= MAX_CAPABILITIES
      && 0 < |l.channels| <= MAX_CAPABILITIES
      && 0 < |l.bits| <= MAX_CAPABILITIES
  {
    hide TakeList, Pow256;
    Powers();
  }

  lemma DeviceRead(kind: MessageType, payload: seq<Byte>)
    requires ParsePayload(kind, payload).Parsed?
    ensures var m := ParsePayload(kind, payload).message;
      m.kind == kind && m.device.Some? && ValidDevice(m.device.value) && DeviceBytes(m.device.value) == payload
  {
    hide ParseStrings, ParseLists, PutString, PutList, ValidId, Head, Pow256, Put;
    StringsRead(payload[16..]);
    var (name, address, rest) := ParseStrings(payload[16..]).value;
    NumbersRead(rest);
    ListsRead(rest[2..][2..][2..]);
    ListsBounded(rest[2..][2..][2..]);
    assert payload == payload[..16] + payload[16..];
  }

  /** Device information is bounded, so no sendable message is too large. */
  lemma PayloadBounded(m: DiscoveryMessage)
    requires Sendable(m)
    ensures |Payload(m)| <= 320
    ensures m.device.None? <==> |Payload(m)| == 0
  {
    hide Numbers, Capabilities, DeviceBytes, ValidId;
  }

  lemma NeverTooLarge(m: DiscoveryMessage)
    ensures Serialize(m).Some? <==> Sendable(m)
  {
    hide Payload, Packet, Sendable;
    if Sendable(m) {
      PayloadBounded(m);
    }
  }

  lemma TypeBack(code: nat)
    requires 1 <= code <= 4
    ensures TypeCode(TypeFrom(code)) == code
  {
  }

  lemma HeaderParsed(m: DiscoveryMessage)
    requires Sendable(m)
    ensures Parse(Packet(m)) ==
      if m.kind.Query? then if m.device.Some? then Rejected(InvalidLength) else Parsed(m)
      else ParsePayload(m.kind, Payload(m))
  {
    hide HeaderOf, WithHeader, ParsePayload, Payload, Sendable, TypeFrom;
    PayloadBounded(m);
    HeaderWritten(Header(MAGIC, VERSION, TypeCode(m.kind), 0, |Payload(m)|), Payload(m));
  }

  /** A sent message is read back as it was; only a query that carries a device is refused. */
  lemma SentIsRead(m: DiscoveryMessage)
    requires Sendable(m)
    ensures Parse(Packet(m)) == if m.kind.Query? && m.device.Some? then Rejected(InvalidLength) else Parsed(m)
  {
    hide Packet, Parse, ParsePayload, DeviceBytes, ValidDevice;
    HeaderParsed(m);
    if !m.kind.Query? {
      DeviceWritten(m.kind, m.device.value);
    }
  }

  lemma AcceptedIsSent(packet: seq<Byte>)
    requires Parse(packet).Parsed?
    ensures Sendable(Parse(packet).message) && Packet(Parse(packet).message) == packet
    ensures !(Parse(packet).message.kind.Query? && Parse(packet).message.device.Some?)
  {
    hide HeaderOf, WithHeader, ParsePayload, DeviceBytes, TypeFrom, TypeCode, ValidDevice;
    var h := HeaderOf(packet);
    HeaderRead(packet);
    TypeBack(h.kind);
    if !TypeFrom(h.kind).Query? {
      DeviceRead(TypeFrom(h.kind), packet[CONTROL_HEADER_SIZE..]);
    }
  }

  /** A packet is read as `m` exactly when `m` is written as it, a query with a device apart. */
  lemma RoundTrip(packet: seq<Byte>, m: DiscoveryMessage)
    ensures Parse(packet) == Parsed(m)
       <==> Serialize(m) == Some(packet) && !(m.kind.Query? && m.device.Some?)
  {
    hide Packet, Parse, Sendable, Serialize;
    NeverTooLarge(m);
    SerializedIsPacket(m);
    if Sendable(m) {
      SentIsRead(m);
    }
    if Parse(packet) == Parsed(m) {
      AcceptedIsSent(packet);
    }
  }

  lemma SerializedIsPacket(m: DiscoveryMessage)
    ensures Serialize(m).Some? ==> Serialize(m).value == Packet(m)
  {
  }

  // ---------------------------------------------------------------- in place

  method AppendString(output: seq<Byte>, text: seq<Byte>, ghost rest: seq<Byte>) returns (result: seq<Byte>)
    ensures result + rest == output + PutString(text, rest)
  {
    hide Put;
    result := AppendNumber(output, |text|, 2, text + rest);
    Regroup(result, text, rest);
    result := result + text;
  }

  method AppendList(output: seq<Byte>, items: seq<nat>, width: nat, ghost rest: seq<Byte>) returns (result: seq<Byte>)
    ensures result + rest == output + PutList(items, width, rest)
  {
    hide Put;
    result := AppendNumber(output, |items|, 2, PutItems(items, width, rest));
    assert items[0..] == items;
    for i := 0 to |items|
      invariant result + PutItems(items[i..], width, rest) == output + PutList(items, width, rest)
    {
      assert items[i..][0] == items[i] && items[i..][1..] == items[i + 1..];
      result := AppendNumber(result, items[i], width, PutItems(items[i + 1..], width, rest));
    }
  }

  method AppendDevice(d: DeviceInfo) returns (payload: seq<Byte>)
    ensures payload == DeviceBytes(d)
  {
    hide Put, PutString, PutList;
    ghost var bits := PutList(d.bitsPerSample, 2, []);
    ghost var channels := PutList(d.channelCounts, 2, bits);
    ghost var ports := Put(d.audioPort, 2, Put(d.discoveryPort, 2, Capabilities(d)));
    payload := d.id;
    payload := AppendString(payload, d.name, PutString(d.address, Numbers(d)));
    payload := AppendString(payload, d.address, Numbers(d));
    payload := AppendNumber(payload, d.protocolVersion, 2, ports);
    payload := AppendNumber(payload, d.audioPort, 2, Put(d.discoveryPort, 2, Capabilities(d)));
    payload := AppendNumber(payload, d.discoveryPort, 2, Capabilities(d));
    payload := AppendList(payload, d.sampleRates, 4, channels);
    payload := AppendList(payload, d.channelCounts, 2, bits);
    payload := AppendList(payload, d.bitsPerSample, 2, []);
    assert payload + [] == payload;
  }

  method SerializeMessage(m: DiscoveryMessage) returns (result: Option<seq<Byte>>)
    ensures result == Serialize(m)
  {
    hide WithHeader, DeviceBytes, ValidDevice, TypeCode;
    if !m.kind.Query? && m.device.None? {
      return None;
    }
    var payload := [];
    if m.device.Some? {
      if !ValidDevice(m.device.value) {
        return None;
      }
      payload := AppendDevice(m.device.value);
    }
    if |payload| > MAX_PACKET_SIZE - CONTROL_HEADER_SIZE {
      return None;
    }
    var packet := AppendHeader(Header(MAGIC, VERSION, TypeCode(m.kind), 0, |payload|), payload);
    return Some(packet + payload);
  }

  method ReadString(packet: seq<Byte>, offset: nat, limit: nat)
    returns (text: Option<seq<Byte>>, next: nat)
    requires offset <= |packet|
    ensures text.Some? == TakeString(packet[offset..], limit).Some?
    ensures offset <= next <= |packet|
    ensures text.Some? ==> (text.value, packet[next..]) == TakeString(packet[offset..], limit).value
  {
    hide Head;
    next := offset;
    if |packet| - next < 2 {
      return None, next;
    }
    var length;
    length, next := ReadNumber(packet, next, 2);
    if length > limit || length > |packet| - next {
      return None, next;
    }
    text := Some(packet[next..next + length]);
    assert text.value == packet[next..][..length];
    next := next + length;
  }

  method ReadList(packet: seq<Byte>, offset: nat, width: nat)
    returns (items: Option<seq<nat>>, next: nat)
    requires offset <= |packet|
    ensures items.Some? == TakeList(packet[offset..], width).Some?
    ensures offset <= next <= |packet|
    ensures items.Some? ==> (items.value, packet[next..]) == TakeList(packet[offset..], width).value
  {
    hide Head;
    next := offset;
    if |packet| - next < 2 {
      return None, next;
    }
    var count;
    count, next := ReadNumber(packet, next, 2);
    if count == 0 || count > MAX_CAPABILITIES {
      return None, next;
    }
    ghost var start := next;
    var output: seq<nat> := [];
    for i := 0 to count
      invariant |output| == i
      invariant start <= next <= |packet|
      invariant Resumes(TakeItems(packet[start..], width, count), output, TakeItems(packet[next..], width, count - i))
    {
      if |packet| - next < width {
        return None, next;
      }
      var value;
      value, next := ReadNumber(packet, next, width);
      output := output + [value];
    }
    assert output + [] == output;
    items := Some(output);
  }

  /** The whole list is what has been read, then what is still to be read. */
  ghost predicate Resumes(whole: Option<(seq<nat>, seq<Byte>)>, done: seq<nat>,
                          remaining: Option<(seq<nat>, seq<Byte>)>) {
    && whole.Some? == remaining.Some?
    && (whole.Some? ==> whole.value.0 == done + remaining.value.0 && whole.value.1 == remaining.value.1)
  }

  method DeserializeMessage(packet: seq<Byte>) returns (result: ParseResult)
    ensures result == Parse(packet)
  {
    hide HeaderOf, ParsePayload, TypeFrom;
    if |packet| < CONTROL_HEADER_SIZE {
      return Rejected(Truncated);
    }
    if |packet| > MAX_PACKET_SIZE {
      return Rejected(ExcessivePacket);
    }
    var h, offset := ReadHeader(packet);
    if h.magic != MAGIC {
      return Rejected(InvalidMagic);
    }
    if h.version != VERSION {
      return Rejected(UnsupportedVersion);
    }
    if h.reserved != 0 || h.kind < 1 || h.kind > 4 {
      return Rejected(if h.kind < 1 || h.kind > 4 then InvalidType else InvalidLength);
    }
    if h.length != |packet| - CONTROL_HEADER_SIZE {
      return Rejected(InvalidLength);
    }
    var kind := TypeFrom(h.kind);
    if kind.Query? && h.length != 0 {
      return Rejected(InvalidLength);
    }
    if kind.Query? {
      return Parsed(DiscoveryMessage(kind, None));
    }
    result := DeserializePayload(kind, packet, offset);
  }

  method DeserializePayload(kind: MessageType, packet: seq<Byte>, start: nat) returns (result: ParseResult)
    requires start <= |packet|
    ensures result == ParsePayload(kind, packet[start..])
  {
    hide Head, Pow256, TakeString, TakeList, ValidId;
    Powers();
    var offset := start;
    if |packet| - offset < 16 {
      return Rejected(Truncated);
    }
    var id: Id := packet[offset..offset + 16];
    assert id == packet[start..][..16];
    offset := offset + 16;
    if !ValidId(id) {
      return Rejected(InvalidDeviceId);
    }
    assert packet[offset..] == packet[start..][16..];
    var name, address, version, audioPort, discoveryPort, rates, channels, bits;
    name, offset := ReadString(packet, offset, MAX_NAME_LENGTH);
    if name.None? || name.value == [] {
      return Rejected(InvalidString);
    }
    address, offset := ReadString(packet, offset, MAX_ADDRESS_LENGTH);
    if address.None? || |packet| - offset < 8 {
      return Rejected(InvalidString);
    }
    version, offset := ReadNumber(packet, offset, 2);
    audioPort, offset := ReadNumber(packet, offset, 2);
    discoveryPort, offset := ReadNumber(packet, offset, 2);
    rates, offset := ReadList(packet, offset, 4);
    if rates.None? {
      return Rejected(InvalidCapabilities);
    }
    channels, offset := ReadList(packet, offset, 2);
    if channels.None? {
      return Rejected(InvalidCapabilities);
    }
    bits, offset := ReadList(packet, offset, 2);
    if bits.None? || offset != |packet| {
      return Rejected(InvalidCapabilities);
    }
    return Parsed(DiscoveryMessage(kind, Some(DeviceInfo(
      id, name.value, version, address.value, rates.value, channels.value, bits.value, audioPort, discoveryPort))));
  }
}
