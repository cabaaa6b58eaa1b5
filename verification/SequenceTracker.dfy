/** Gap counting over wrapping 64-bit sequence numbers, and what the count means over a whole run. */
module SequenceTracker {
  import opened Words

  datatype Disposition = First | Expected | Duplicate | Gap | OutOfOrder

  /** Only `missing` grows by more than one at a time, so it alone is kept to its 64 bits. */
  datatype Statistics = Statistics(
    received: nat, accepted: nat, malformed: nat, duplicate: nat, outOfOrder: nat, missing: Word64)

  datatype Tracker = Tracker(hasLast: bool, last: Word64, statistics: Statistics)

  const FRESH: Tracker := Tracker(false, 0, Statistics(0, 0, 0, 0, 0, 0))

  function Observed(t: Tracker, sequence: Word64): (Tracker, Disposition) {
    var s := t.statistics.(accepted := t.statistics.accepted + 1);
    if !t.hasLast then (Tracker(true, sequence, s), First)
    else
      var delta := ForwardDistance(t.last, sequence);
      if delta == 0 then (t.(statistics := s.(duplicate := s.duplicate + 1)), Duplicate)
      else if delta == 1 then (Tracker(true, sequence, s), Expected)
      else if delta < TWO_63 then (Tracker(true, sequence, s.(missing := Wrap(s.missing + (delta - 1)))), Gap)
      else (t.(statistics := s.(outOfOrder := s.outOfOrder + 1)), OutOfOrder)
  }

  class SequenceTracker {
    var statistics: Statistics
    var hasLast: bool
    var last: Word64

    function State(): Tracker
      reads this
    {
      Tracker(hasLast, last, statistics)
    }

    constructor ()
      ensures State() == FRESH
    {
      statistics := Statistics(0, 0, 0, 0, 0, 0);
      hasLast, last := false, 0;
    }

    method Observe(sequence: Word64) returns (disposition: Disposition)
      modifies this
      ensures (State(), disposition) == Observed(old(State()), sequence)
    {
      hide Wrap;
      statistics := statistics.(accepted := statistics.accepted + 1);
      if !hasLast {
        hasLast, last := true, sequence;
        return First;
      }
      var delta := ForwardDistance(last, sequence);
      if delta == 0 {
        statistics := statistics.(duplicate := statistics.duplicate + 1);
        return Duplicate;
      }
      if delta < TWO_63 {
        last := sequence;
        if delta == 1 {
          return Expected;
        }
        statistics := statistics.(missing := Wrap(statistics.missing + (delta - 1)));
        return Gap;
      }
      statistics := statistics.(outOfOrder := statistics.outOfOrder + 1);
      return OutOfOrder;
    }

    method RecordReceived()
      modifies this`statistics
      ensures statistics == old(statistics).(received := old(statistics.received) + 1)
    {
      statistics := statistics.(received := statistics.received + 1);
    }

    method RecordMalformed()
      modifies this`statistics
      ensures statistics == old(statistics).(malformed := old(statistics.malformed) + 1)
    {
      statistics := statistics.(malformed := statistics.malformed + 1);
    }
  }

  // ---------------------------------------------------------------- runs

  /** The tracker after the packets whose unbounded numbers are given. */
  function After(run: seq<int>): Tracker {
    if run == [] then FRESH else Observed(After(run[..|run| - 1]), Wrap(run[|run| - 1])).0
  }

  function Greatest(run: seq<int>): int
    requires run != []
  {
    var u := run[|run| - 1];
    if |run| == 1 then u
    else
      var g := Greatest(run[..|run| - 1]);
      if u > g then u else g
  }

  /** The numbers that were greater than all before them when they arrived. */
  function Landed(run: seq<int>): set<int> {
    if run == [] then {}
    else
      var front, u := run[..|run| - 1], run[|run| - 1];
      if front == [] || u > Greatest(front) then Landed(front) + {u} else Landed(front)
  }

  /** Every packet lies within half the number range of the greatest number before it. */
  ghost predicate InRange(run: seq<int>) {
    forall k :: 0 < k < |run| ==> InWindow(Greatest(run[..k]), run[k])
  }

  function Between(low: int, high: int): (numbers: set<int>)
    ensures forall u :: u in numbers <==> low <= u < high
    decreases high - low
  {
    if low >= high then {} else Between(low, high - 1) + {high - 1}
  }

  /** From the first number to the greatest, those that no forward move landed on. */
  function Holes(run: seq<int>): set<int>
    requires run != []
  {
    Between(run[0], Greatest(run) + 1) - Landed(run)
  }

  function Seen(run: seq<int>): set<int> {
    set u | u in run
  }

  lemma {:induction false} BetweenSize(low: int, high: int)
    requires low <= high
    ensures |Between(low, high)| == high - low
    decreases high - low
  {
    if low < high {
      BetweenSize(low, high - 1);
    }
  }

  lemma {:induction false} LandedBounds(run: seq<int>)
    requires run != []
    ensures run[0] <= Greatest(run) && Greatest(run) in run
    ensures forall u :: u in Landed(run) ==> run[0] <= u <= Greatest(run)
    ensures Landed(run) <= Seen(run)
    ensures forall k :: 0 <= k < |run| ==> run[k] <= Greatest(run)
  {
    if |run| > 1 {
      LandedBounds(run[..|run| - 1]);
      assert run == run[..|run| - 1] + [run[|run| - 1]];
    }
  }

  /** A forward move to `u` adds exactly the numbers it jumps over to the holes. */
  lemma HolesGrow(front: seq<int>, u: int)
    requires front != []
    ensures var run := front + [u];
      if u > Greatest(front) then |Holes(run)| == |Holes(front)| + (u - Greatest(front) - 1)
      else Holes(run) == Holes(front)
  {
    hide Between, Landed, Greatest;
    var run, g := front + [u], Greatest(front);
    OneMore(front, u);
    if u > g {
      forall v | v in Landed(front)
        ensures v <= g
      {
        LandedBounds(front);
      }
      assert front[0] <= g by { LandedBounds(front); }
      BetweenSize(g + 1, u);
      JumpAdds(front[0], g, u, Landed(front));
      assert Holes(run) == Between(front[0], u + 1) - (Landed(front) + {u});
    }
  }

  lemma OneMore(front: seq<int>, u: int)
    requires front != []
    ensures var run := front + [u];
      if u > Greatest(front) then Greatest(run) == u && Landed(run) == Landed(front) + {u}
      else Greatest(run) == Greatest(front) && Landed(run) == Landed(front)
  {
    assert (front + [u])[..|front|] == front;
  }

  lemma JumpAdds(first: int, g: int, u: int, landed: set<int>)
    requires first <= g < u && forall v :: v in landed ==> v <= g
    ensures |Between(first, u + 1) - (landed + {u})| == |Between(first, g + 1) - landed| + |Between(g + 1, u)|
  {
    hide Between;
    var before, jumped := Between(first, g + 1) - landed, Between(g + 1, u);
    assert Between(first, u + 1) - (landed + {u}) == before + jumped;
    assert before !! jumped;
  }

  lemma ObservedExactly(t: Tracker, last: int, u: int)
    requires t.hasLast && t.last == Wrap(last) && InWindow(last, u)
    ensures var (t', d) := Observed(t, Wrap(u));
      && t'.hasLast && t'.last == Wrap(if u > last then u else last)
      && t'.statistics.accepted == t.statistics.accepted + 1
      && t'.statistics.missing
         == (if u > last then Wrap(t.statistics.missing + (u - last - 1)) else t.statistics.missing)
      && t'.statistics.duplicate == t.statistics.duplicate + (if u == last then 1 else 0)
      && t'.statistics.outOfOrder == t.statistics.outOfOrder + (if u < last then 1 else 0)
      && d == (if u == last then Duplicate else if u < last then OutOfOrder
               else if u == last + 1 then Expected else Gap)
  {
    hide Wrap, ForwardDistance;
    DistanceExact(last, u);
    WrapSmall(t.statistics.missing);
  }

  /** Over every run in range the missing estimate is the number of holes, reduced to 64 bits. */
  lemma {:induction false} MissingWraps(run: seq<int>)
    requires run != [] && InRange(run)
    ensures After(run).hasLast && After(run).last == Wrap(Greatest(run))
    ensures After(run).statistics.missing == Wrap(|Holes(run)|)
    ensures After(run).statistics.accepted == |run|
    ensures After(run).statistics.duplicate + After(run).statistics.outOfOrder + |Landed(run)| == |run|
  {
    hide Wrap, Observed, Holes, Landed, Greatest, InRange;
    var front, u := run[..|run| - 1], run[|run| - 1];
    assert run == front + [u];
    if front == [] {
      FirstObserved(u);
      OnlyOne(u);
      WrapSmall(0);
    } else {
      FrontInRange(front, u);
      MissingWraps(front);
      ObservedExactly(After(front), Greatest(front), u);
      HolesGrow(front, u);
      LandsOnce(front, u);
      WrapAdd(|Holes(front)|, u - Greatest(front) - 1);
    }
  }

  lemma FrontInRange(front: seq<int>, u: int)
    requires front != []
    ensures InRange(front + [u]) <==> InRange(front) && InWindow(Greatest(front), u)
  {
    var run := front + [u];
    assert forall k :: 0 < k < |front| ==> run[..k] == front[..k] && run[k] == front[k];
    assert run[..|front|] == front;
  }

  lemma OnlyOne(u: int)
    ensures Greatest([u]) == u && Landed([u]) == {u} && Holes([u]) == {}
  {
    assert [u][..0] == [];
  }

  lemma LandsOnce(front: seq<int>, u: int)
    requires front != []
    ensures var run := front + [u];
      && Greatest(run) == (if u > Greatest(front) then u else Greatest(front))
      && |Landed(run)| == |Landed(front)| + (if u > Greatest(front) then 1 else 0)
  {
    hide Landed, Greatest;
    OneMore(front, u);
    LandedBounds(front);
  }

  lemma FirstObserved(u: int)
    ensures Observed(FRESH, Wrap(u)) == (Tracker(true, Wrap(u), Statistics(0, 1, 0, 0, 0, 0)), First)
  {
    hide Wrap;
  }

  /** The holes are the numbers spanned, less those landed on. */
  lemma HolesSize(run: seq<int>)
    requires run != []
    ensures |Holes(run)| == Greatest(run) - run[0] + 1 - |Landed(run)|
    ensures Greatest(run) - run[0] <= TWO_64 ==> |Holes(run)| < TWO_64
  {
    hide Between, Greatest, Landed;
    LandedBounds(run);
    FirstLands(run);
    var span := Between(run[0], Greatest(run) + 1);
    BetweenSize(run[0], Greatest(run) + 1);
    assert span == Holes(run) + Landed(run);
    assert Holes(run) !! Landed(run);
    var ends := {run[0], Greatest(run)};
    assert Landed(run) == ends + (Landed(run) - ends);
  }

  lemma {:induction false} FirstLands(run: seq<int>)
    requires run != []
    ensures run[0] in Landed(run) && Greatest(run) in Landed(run)
  {
    if |run| > 1 {
      FirstLands(run[..|run| - 1]);
    }
  }

  /**
   Over every run in range the estimate is exact if and only if there are fewer than 2^64 holes.
   The caller knows their number from the span and the counters, and a span of at most 2^64
   suffices.
   */
  lemma MissingExact(run: seq<int>)
    requires run != [] && InRange(run)
    ensures var s, span := After(run).statistics, Greatest(run) - run[0];
      && (s.missing == |Holes(run)| <==> |Holes(run)| < TWO_64)
      && |Holes(run)| == span + 1 - (s.accepted - s.duplicate - s.outOfOrder)
      && (span <= TWO_64 ==> s.missing == |Holes(run)|)
  {
    hide After, Holes, Greatest, Landed, InRange, Wrap;
    MissingWraps(run);
    HolesSize(run);
    if |Holes(run)| < TWO_64 {
      WrapSmall(|Holes(run)|);
    }
  }

  /** Four packets, each as far ahead as it may be, are enough for the estimate to wrap. */
  lemma FourPacketsWrap()
    ensures var h := TWO_63 - 1;
      var run := [0, h, 2 * h, 3 * h];
      && InRange(run)
      && |Holes(run)| == 3 * TWO_63 - 6
      && After(run).statistics.missing == TWO_63 - 6
  {
    var h := TWO_63 - 1;
    var run := [0, h, 2 * h, 3 * h];
    hide Greatest, Landed, InRange, Holes, Wrap, After;
    assert InRange([0]) by { OneInRange(0); }
    OnlyOne(0);
    LandsOnce([0], h);
    FrontInRange([0], h);
    assert [0] + [h] == [0, h];
    LandsOnce([0, h], 2 * h);
    FrontInRange([0, h], 2 * h);
    assert [0, h] + [2 * h] == [0, h, 2 * h];
    LandsOnce([0, h, 2 * h], 3 * h);
    FrontInRange([0, h, 2 * h], 3 * h);
    assert [0, h, 2 * h] + [3 * h] == run;
    MissingWraps(run);
    HolesSize(run);
    WrapsOnce();
  }

  lemma OneInRange(u: int)
    ensures InRange([u])
  {
  }

  lemma WrapsOnce()
    ensures Wrap(3 * TWO_63 - 6) == TWO_63 - 6
  {
  }

  /**
   The holes exceed the numbers never received by exactly the distinct late arrivals that filled
   one; so does the estimate, if and only if the two together are fewer than 2^64.
   */
  lemma MissingBoundsLoss(run: seq<int>)
    requires run != [] && InRange(run)
    ensures var lost := Between(run[0], Greatest(run) + 1) - Seen(run);
      var late := Holes(run) * Seen(run);
      && |Holes(run)| == |lost| + |late|
      && After(run).statistics.missing == Wrap(|lost| + |late|)
      && (After(run).statistics.missing == |lost| + |late| <==> |lost| + |late| < TWO_64)
  {
    hide Landed, Greatest, InRange, After, Wrap, Between;
    MissingWraps(run);
    MissingExact(run);
    LandedBounds(run);
    var lost := Between(run[0], Greatest(run) + 1) - Seen(run);
    var late := Holes(run) * Seen(run);
    assert Holes(run) == lost + late;
    assert lost !! late;
  }
}
