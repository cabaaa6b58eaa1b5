/** Big-endian fields of packets, and 16-byte identities. */
module Bytes {
  import opened Words

  function Pow256(n: nat): (p: nat)
    ensures p > 0
  {
    if n == 0 then 1 else 256 * Pow256(n - 1)
  }

  /** The last `width` bytes of `value`, most significant first. */
  function Big(value: nat, width: nat): (bytes: seq<Byte>)
    ensures |bytes| == width
  {
    if width == 0 then [] else Big(value / 256, width - 1) + [value % 256]
  }

  function Number(bytes: seq<Byte>): nat {
    if bytes == [] then 0 else 256 * Number(bytes[..|bytes| - 1]) + bytes[|bytes| - 1]
  }

  lemma {:induction false} NumberBound(bytes: seq<Byte>)
    ensures Number(bytes) < Pow256(|bytes|)
  {
    if bytes != [] {
      NumberBound(bytes[..|bytes| - 1]);
    }
  }

  lemma {:induction false} NumberOfBig(value: nat, width: nat)
    requires value < Pow256(width)
    ensures Number(Big(value, width)) == value
  {
    if width != 0 {
      NumberOfBig(value / 256, width - 1);
      assert Big(value, width)[..width - 1] == Big(value / 256, width - 1);
    }
  }

  lemma {:induction false} BigOfNumber(bytes: seq<Byte>)
    ensures Big(Number(bytes), |bytes|) == bytes
  {
    if bytes != [] {
      BigOfNumber(bytes[..|bytes| - 1]);
    }
  }

  type Id = bytes: seq<Byte> | |bytes| == 16 witness seq(16, _ => 0)

  /** An identity is valid when some byte of it is not zero. */
  predicate ValidId(id: Id) {
    exists i :: 0 <= i < 16 && id[i] != 0
  }

  /** The identities handed out for sessions: a fixed first byte, then a 64-bit counter. */
  function SessionIdFrom(value: Word64): (id: Id)
    ensures ValidId(id)
  {
    var id := [0x53, 0, 0, 0, 0, 0, 0, 0] + Big(value, 8);
    assert id[0] != 0;
    id
  }

  lemma SessionIdsDiffer(x: Word64, y: Word64)
    requires SessionIdFrom(x) == SessionIdFrom(y)
    ensures x == y
  {
    assert SessionIdFrom(x)[8..] == Big(x, 8) && SessionIdFrom(y)[8..] == Big(y, 8);
    assert Pow256(8) == TWO_64 by {
      assert Pow256(4) == 0x1_0000_0000;
    }
    NumberOfBig(x, 8);
    NumberOfBig(y, 8);
  }

  /** A counter that starts anywhere and wraps issues no identity twice in fewer than 2^64 steps. */
  lemma IssuedIdsDiffer(start: Word64, i: nat, j: nat)
    requires i < j < i + TWO_64
    ensures SessionIdFrom(Wrap(start + i)) != SessionIdFrom(Wrap(start + j))
  {
    hide SessionIdFrom, Wrap;
    if SessionIdFrom(Wrap(start + i)) == SessionIdFrom(Wrap(start + j)) {
      SessionIdsDiffer(Wrap(start + i), Wrap(start + j));
      WrapInjective(start + i, start + j);
    }
  }

  /** A session's identity spells the counter in its last eight bytes, behind an `S` and seven zeros. */
  lemma SessionIdSpells(value: Word64)
    ensures var id := SessionIdFrom(value);
      id[0] == 0x53 && (forall i :: 1 <= i < 8 ==> id[i] == 0) && Number(id[8..]) == value
  {
    assert SessionIdFrom(value)[8..] == Big(value, 8);
    assert Pow256(8) == TWO_64 by {
      assert Pow256(4) == 0x1_0000_0000;
    }
    NumberOfBig(value, 8);
  }
}
