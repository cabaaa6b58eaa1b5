/** Writing and reading packets field by field. */
module Packets {
  import opened Bytes
  import opened Words

  /** A big-endian field in front of the rest of a packet. */
  function Put(value: nat, width: nat, rest: seq<Byte>): (bytes: seq<Byte>)
    ensures |bytes| == width + |rest|
  {
    Big(value, width) + rest
  }

  /** The value of the field at the front of `bytes`. */
  function Head(bytes: seq<Byte>, width: nat): (value: nat)
    requires width <= |bytes|
    ensures value < Pow256(width)
  {
    NumberBound(bytes[..width]);
    Number(bytes[..width])
  }

  lemma HeadOfPut(value: nat, width: nat, rest: seq<Byte>)
    requires value < Pow256(width)
    ensures Head(Put(value, width, rest), width) == value
    ensures Put(value, width, rest)[width..] == rest
  {
    NumberOfBig(value, width);
    assert Put(value, width, rest)[..width] == Big(value, width);
  }

  lemma FirstOf(first: seq<Byte>, rest: seq<Byte>)
    ensures (first + rest)[..|first|] == first && (first + rest)[|first|..] == rest
  {
  }

  lemma PutOfHead(bytes: seq<Byte>, width: nat)
    requires width <= |bytes|
    ensures Put(Head(bytes, width), width, bytes[width..]) == bytes
  {
    BigOfNumber(bytes[..width]);
  }

  lemma Powers()
    ensures Pow256(1) == 0x100
    ensures Pow256(2) == 0x1_0000
    ensures Pow256(4) == 0x1_0000_0000
    ensures Pow256(8) == TWO_64
  {
    assert Pow256(4) == 256 * Pow256(3);
    assert Pow256(8) == 256 * Pow256(7);
  }

  // ---------------------------------------------------------------- positions

  /** The number in `width` bytes at `offset`. */
  function Field(packet: seq<Byte>, offset: nat, width: nat): nat
    requires offset + width <= |packet|
  {
    Number(packet[offset..offset + width])
  }

  /** The first byte of a number weighs most. */
  lemma {:induction false} MostSignificantFirst(bytes: seq<Byte>)
    requires bytes != []
    ensures Number(bytes) == bytes[0] * Pow256(|bytes| - 1) + Number(bytes[1..])
  {
    if |bytes| > 1 {
      var front := bytes[..|bytes| - 1];
      MostSignificantFirst(front);
      assert bytes[1..][..|bytes| - 2] == front[1..];
      Regroups(bytes[0], Pow256(|front| - 1));
    }
  }

  lemma Regroups(x: int, p: int)
    ensures 256 * (x * p) == x * (256 * p)
  {
  }

  lemma OneByte(packet: seq<Byte>, offset: nat)
    requires offset < |packet|
    ensures Field(packet, offset, 1) == packet[offset]
  {
    var one := packet[offset..offset + 1];
    assert one[..|one| - 1] == [] && one[|one| - 1] == packet[offset];
    assert Number(one) == 256 * Number([]) + packet[offset];
  }

  /** A field is the bytes before its last one, times 256, and the last one. */
  lemma LastByte(packet: seq<Byte>, offset: nat, width: nat)
    requires 0 < width && offset + width <= |packet|
    ensures Field(packet, offset, width) == 256 * Field(packet, offset, width - 1) + packet[offset + width - 1]
  {
    assert packet[offset..offset + width][..width - 1] == packet[offset..offset + width - 1];
  }

  lemma TwoBytes(packet: seq<Byte>, offset: nat)
    requires offset + 2 <= |packet|
    ensures Field(packet, offset, 2) == 256 * packet[offset] as int + packet[offset + 1]
  {
    hide Field;
    LastByte(packet, offset, 2);
    OneByte(packet, offset);
  }

  lemma FourBytes(packet: seq<Byte>, offset: nat)
    requires offset + 4 <= |packet|
    ensures Field(packet, offset, 4)
         == 0x100_0000 * packet[offset] as int + 0x1_0000 * packet[offset + 1] as int
            + 256 * packet[offset + 2] as int + packet[offset + 3]
  {
    hide Field;
    LastByte(packet, offset, 4);
    LastByte(packet, offset, 3);
    TwoBytes(packet, offset);
  }

  /** Where a packet goes on with a field, the field is there and the rest follows it. */
  lemma FieldAt(packet: seq<Byte>, offset: nat, value: nat, width: nat, rest: seq<Byte>)
    requires offset <= |packet| && packet[offset..] == Put(value, width, rest) && value < Pow256(width)
    ensures offset + width <= |packet| && packet[offset + width..] == rest
    ensures Field(packet, offset, width) == value
  {
    HeadOfPut(value, width, rest);
    HeadAt(packet, offset, width);
  }

  lemma BytesAt(packet: seq<Byte>, offset: nat, bytes: seq<Byte>, rest: seq<Byte>)
    requires offset <= |packet| && packet[offset..] == bytes + rest
    ensures offset + |bytes| <= |packet| && packet[offset + |bytes|..] == rest
    ensures packet[offset..offset + |bytes|] == bytes
  {
    FirstOf(bytes, rest);
    assert packet[offset..offset + |bytes|] == packet[offset..][..|bytes|];
  }

  /** Reading on from a position. */
  lemma HeadAt(packet: seq<Byte>, offset: nat, width: nat)
    requires offset + width <= |packet|
    ensures Head(packet[offset..], width) == Field(packet, offset, width)
    ensures packet[offset..][width..] == packet[offset + width..]
    ensures packet[offset..][..width] == packet[offset..offset + width]
  {
    assert packet[offset..][..width] == packet[offset..offset + width];
  }

  // ---------------------------------------------------------------- in place

  /** `value` shifted right by whole bytes. */
  function Shift(value: nat, bytes: nat): nat {
    if bytes == 0 then value else Shift(value, bytes - 1) / 256
  }

  /** Appends the bytes of `value`, the most significant first; `rest` is what will follow. */
  method AppendNumber(output: seq<Byte>, value: nat, width: nat, ghost rest: seq<Byte>) returns (result: seq<Byte>)
    ensures result == output + Big(value, width)
    ensures result + rest == output + Put(value, width, rest)
  {
    result := output;
    for i := 0 to width
      invariant result == output + Big(Shift(value, width - i), i)
    {
      result := result + [Shift(value, width - i - 1) % 256];
    }
    Regroup(output, Big(value, width), rest);
  }

  lemma Regroup(output: seq<Byte>, bytes: seq<Byte>, rest: seq<Byte>)
    ensures output + bytes + rest == output + (bytes + rest)
  {
  }

  /** Reads `width` bytes at `offset`, the most significant first. */
  method ReadNumber(packet: seq<Byte>, offset: nat, width: nat) returns (value: nat, next: nat)
    requires offset + width <= |packet|
    ensures next == offset + width
    ensures value == Head(packet[offset..], width) && packet[next..] == packet[offset..][width..]
  {
    value, next := 0, offset;
    for i := 0 to width
      invariant next == offset + i
      invariant value == Number(packet[offset..next])
    {
      assert packet[offset..next + 1][..i] == packet[offset..next];
      value := 256 * value + packet[next];
      next := next + 1;
    }
    assert packet[offset..][..width] == packet[offset..next];
  }
}
