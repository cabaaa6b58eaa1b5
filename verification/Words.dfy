/** Fixed-width unsigned words and the wrap-around of 64-bit sequence numbers. */
module Words {
  const TWO_63: int := 0x8000_0000_0000_0000
  const TWO_64: int := 0x1_0000_0000_0000_0000

  type Byte = x: int | 0 <= x < 0x100
  type Word16 = x: int | 0 <= x < 0x1_0000
  type Word32 = x: int | 0 <= x < 0x1_0000_0000
  type Word64 = x: int | 0 <= x < 0x1_0000_0000_0000_0000

  type Positive = x: int | x > 0 witness 1

  /** The 64-bit word that stands for the unbounded number `x`. */
  function Wrap(x: int): Word64 {
    x % TWO_64
  }

  /** Unsigned 64-bit subtraction: how far `to` is ahead of `from` going forwards. */
  function ForwardDistance(from: Word64, to: Word64): Word64 {
    Wrap(to - from)
  }

  /** `u` lies within half the number range of the cursor, on either side. */
  predicate InWindow(cursor: int, u: int) {
    cursor - TWO_63 <= u < cursor + TWO_63
  }

  /** The only number near the cursor that travels as the word `w`. */
  function Unwrap(cursor: int, w: Word64): (u: int)
    ensures InWindow(cursor, u) && Wrap(u) == w
  {
    var d := Wrap(w - cursor);
    if d < TWO_63 then cursor + d else cursor + d - TWO_64
  }

  lemma WrapNext(x: int)
    ensures Wrap(Wrap(x) + 1) == Wrap(x + 1)
  {
  }

  lemma WrapAdd(x: int, y: int)
    ensures Wrap(Wrap(x) + y) == Wrap(x + y)
  {
  }

  lemma WrapSmall(x: int)
    requires 0 <= x < TWO_64
    ensures Wrap(x) == x
  {
  }

  lemma WrapInjective(x: int, y: int)
    requires Wrap(x) == Wrap(y)
    requires -TWO_64 < x - y < TWO_64
    ensures x == y
  {
  }

  /** A sender's number is recovered from its word whenever it is in the window. */
  lemma UnwrapExact(cursor: int, u: int)
    requires InWindow(cursor, u)
    ensures Unwrap(cursor, Wrap(u)) == u
  {
    WrapInjective(u, Unwrap(cursor, Wrap(u)));
  }

  /** The 64-bit distance decides "ahead or behind" exactly as the unbounded numbers do. */
  lemma DistanceExact(cursor: int, u: int)
    requires InWindow(cursor, u)
    ensures ForwardDistance(Wrap(cursor), Wrap(u)) == if cursor <= u then u - cursor else u - cursor + TWO_64
    ensures ForwardDistance(Wrap(cursor), Wrap(u)) < TWO_63 <==> cursor <= u
  {
  }

  lemma QuotientOf(x: nat, d: nat, q: nat)
    requires d > 0 && x == d * q
    ensures x / d == q && x % d == 0
  {
    assert d * (x / d - q) == -(x % d);
    Multiples(d, x / d - q);
  }

  lemma Multiples(d: int, k: int)
    requires d > 0
    ensures k >= 1 ==> d * k >= d
    ensures k <= -1 ==> d * k <= -d
  {
  }
}
