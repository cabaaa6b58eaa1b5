/** The header that discovery and session messages share. */
module ControlHeaders {
  import opened Bytes
  import opened Packets
  import opened Words

  const CONTROL_HEADER_SIZE := 12

  datatype Header = Header(magic: nat, version: nat, kind: nat, reserved: nat, length: nat) {
    predicate Fits() {
      && magic < 0x1_0000_0000 && version < 0x100 && kind < 0x100
      && reserved < 0x1_0000 && length < 0x1_0000_0000
    }
  }

  function WithHeader(h: Header, payload: seq<Byte>): (packet: seq<Byte>)
    ensures |packet| == CONTROL_HEADER_SIZE + |payload|
  {
    Put(h.magic, 4, Put(h.version, 1, Put(h.kind, 1, Put(h.reserved, 2, Put(h.length, 4, payload)))))
  }

  function HeaderOf(packet: seq<Byte>): Header
    requires |packet| >= CONTROL_HEADER_SIZE
  {
    var afterMagic := packet[4..];
    var afterVersion := afterMagic[1..];
    var afterKind := afterVersion[1..];
    var afterReserved := afterKind[2..];
    Header(Head(packet, 4), Head(afterMagic, 1), Head(afterVersion, 1), Head(afterKind, 2), Head(afterReserved, 4))
  }

  lemma HeaderWritten(h: Header, payload: seq<Byte>)
    requires h.Fits()
    ensures HeaderOf(WithHeader(h, payload)) == h
    ensures WithHeader(h, payload)[CONTROL_HEADER_SIZE..] == payload
  {
    hide Put, Head, Pow256;
    Powers();
    var fromLength := Put(h.length, 4, payload);
    var fromReserved := Put(h.reserved, 2, fromLength);
    var fromKind := Put(h.kind, 1, fromReserved);
    var fromVersion := Put(h.version, 1, fromKind);
    HeadOfPut(h.magic, 4, fromVersion);
    HeadOfPut(h.version, 1, fromKind);
    HeadOfPut(h.kind, 1, fromReserved);
    HeadOfPut(h.reserved, 2, fromLength);
    HeadOfPut(h.length, 4, payload);
    Drops(WithHeader(h, payload));
  }

  lemma Drops(packet: seq<Byte>)
    requires |packet| >= CONTROL_HEADER_SIZE
    ensures packet[4..][1..][1..][2..][4..] == packet[CONTROL_HEADER_SIZE..]
  {
  }

  lemma HeaderRead(packet: seq<Byte>)
    requires |packet| >= CONTROL_HEADER_SIZE
    ensures HeaderOf(packet).Fits()
    ensures WithHeader(HeaderOf(packet), packet[CONTROL_HEADER_SIZE..]) == packet
  {
    hide Put, Head, Pow256;
    Powers();
    var fromVersion := packet[4..];
    var fromKind := fromVersion[1..];
    var fromReserved := fromKind[1..];
    var fromLength := fromReserved[2..];
    PutOfHead(packet, 4);
    PutOfHead(fromVersion, 1);
    PutOfHead(fromKind, 1);
    PutOfHead(fromReserved, 2);
    PutOfHead(fromLength, 4);
    Drops(packet);
  }

  /** Where the fields of the header are. */
  lemma HeaderAt(packet: seq<Byte>)
    requires |packet| >= CONTROL_HEADER_SIZE
    ensures HeaderOf(packet) == Header(Field(packet, 0, 4), Field(packet, 4, 1), Field(packet, 5, 1),
                                       Field(packet, 6, 2), Field(packet, 8, 4))
  {
    hide Head, Field;
    assert packet[0..] == packet;
    HeadAt(packet, 0, 4);
    HeadAt(packet, 4, 1);
    HeadAt(packet, 5, 1);
    HeadAt(packet, 6, 2);
    HeadAt(packet, 8, 4);
  }

  // ---------------------------------------------------------------- in place

  method AppendHeader(h: Header, ghost payload: seq<Byte>) returns (packet: seq<Byte>)
    ensures packet + payload == WithHeader(h, payload)
  {
    hide Put;
    ghost var fromLength := Put(h.length, 4, payload);
    ghost var fromReserved := Put(h.reserved, 2, fromLength);
    ghost var fromKind := Put(h.kind, 1, fromReserved);
    ghost var fromVersion := Put(h.version, 1, fromKind);
    packet := AppendNumber([], h.magic, 4, fromVersion);
    packet := AppendNumber(packet, h.version, 1, fromKind);
    packet := AppendNumber(packet, h.kind, 1, fromReserved);
    packet := AppendNumber(packet, h.reserved, 2, fromLength);
    packet := AppendNumber(packet, h.length, 4, payload);
  }

  method ReadHeader(packet: seq<Byte>) returns (h: Header, offset: nat)
    requires |packet| >= CONTROL_HEADER_SIZE
    ensures h == HeaderOf(packet) && offset == CONTROL_HEADER_SIZE
  {
    hide Head;
    assert packet[0..] == packet;
    var magic, version, kind, reserved, length;
    magic, offset := ReadNumber(packet, 0, 4);
    version, offset := ReadNumber(packet, offset, 1);
    kind, offset := ReadNumber(packet, offset, 1);
    reserved, offset := ReadNumber(packet, offset, 2);
    length, offset := ReadNumber(packet, offset, 4);
    h := Header(magic, version, kind, reserved, length);
  }
}
