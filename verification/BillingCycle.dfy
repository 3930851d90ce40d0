/** The billing cycle: catching up with missed boundaries, and accepting reported ones. */
module BillingCycle {
  import opened Calendar

  const MAX_CATCH_UPS := 2400
  const DRIFT_TOLERANCE_MS := 7 * DAY_MS
  const MAX_PLAUSIBLE_RESET_MS := 4_102_444_800_000

  /** `addMonthsMsIn` of some location: an instant and a number of months to the
      shifted instant. Nothing is assumed of it, since a zone with irregular
      offsets need not advance. */
  type Zone = (int, int) -> int

  function Advance(zone: Zone, boundary: int): (next: int)
    ensures next == 0 || next > boundary
    ensures zone(boundary, 1) > boundary ==> next == zone(boundary, 1)
  {
    var adv := zone(boundary, 1);
    if adv <= boundary then 0 else adv
  }

  predicate Plausible(ms: int) { 0 < ms < MAX_PLAUSIBLE_RESET_MS }

  /** The tracked refresh instant (0 when unset), the start of its cycle, and the
      credits spent in it. */
  datatype Cycle = Cycle(next: int, start: int, credits: real)

  predicate Due(c: Cycle, now: int) { c.next > 0 && now >= c.next }

  /** The catch-up loop from its iteration i on. */
  function CatchUp(zone: Zone, c: Cycle, now: int, i: nat): Cycle
    requires i <= MAX_CATCH_UPS
    decreases MAX_CATCH_UPS - i
  {
    if !Due(c, now) || i == MAX_CATCH_UPS then c
    else
      var adv := Advance(zone, c.next);
      if adv == 0 then Cycle(0, c.next, 0.0)
      else CatchUp(zone, Cycle(adv, c.next, 0.0), now, i + 1)
  }

  /** The cycle after rolling it to a clock. */
  function Roll(zone: Zone, c: Cycle, now: int): Cycle {
    var r := CatchUp(zone, c, now, 0);
    if Due(r, now) then r.(next := 0) else r
  }

  // ---- What a roll means ----

  /** The boundaries that follow one another from a first one; 0 from the point
      where none can be derived. */
  function Boundary(zone: Zone, first: int, k: nat): int {
    if k == 0 then first
    else
      var b := Boundary(zone, first, k - 1);
      if b > 0 then Advance(zone, b) else 0
  }

  /** How many boundaries a clock has passed. */
  function Passed(zone: Zone, boundary: int, now: int): nat
    decreases now - boundary
  {
    if boundary <= 0 || now < boundary then 0
    else
      var adv := Advance(zone, boundary);
      if adv == 0 then 1 else 1 + Passed(zone, adv, now)
  }

  lemma {:induction false} BoundaryShift(zone: Zone, first: int, k: nat)
    requires first > 0
    ensures Boundary(zone, first, k + 1) == if Advance(zone, first) == 0 then 0
        else Boundary(zone, Advance(zone, first), k)
  {
    if k > 0 {
      BoundaryShift(zone, first, k - 1);
    }
  }

  /** The boundaries up to the last one passed are exactly those not later than the
      clock, each later than the one before; the next is unset or in the future. */
  lemma {:induction false} PassedMeaning(zone: Zone, first: int, now: int)
    requires first > 0
    ensures var n := Passed(zone, first, now);
            && (forall k :: 0 <= k < n ==> 0 < Boundary(zone, first, k) <= now)
            && (forall k :: 0 <= k < n - 1 ==> Boundary(zone, first, k) < Boundary(zone, first, k + 1))
            && (Boundary(zone, first, n) == 0 || Boundary(zone, first, n) > now)
    decreases Passed(zone, first, now)
  {
    if now >= first && Advance(zone, first) != 0 {
      var adv := Advance(zone, first);
      PassedMeaning(zone, adv, now);
      var n := Passed(zone, first, now);
      forall k | 0 <= k < n
        ensures Boundary(zone, first, k + 1) == Boundary(zone, adv, k)
      {
        BoundaryShift(zone, first, k);
      }
      forall k | 0 < k < n
        ensures 0 < Boundary(zone, first, k) <= now
      {
        assert Boundary(zone, first, (k - 1) + 1) == Boundary(zone, adv, k - 1);
      }
      forall k | 0 <= k < n - 1
        ensures Boundary(zone, first, k) < Boundary(zone, first, k + 1)
      {
        if k > 0 {
          assert Boundary(zone, first, (k - 1) + 1) == Boundary(zone, adv, k - 1);
        }
      }
      assert Boundary(zone, first, (n - 1) + 1) == Boundary(zone, adv, n - 1);
    } else if now >= first {
      BoundaryShift(zone, first, 0);
    }
  }

  lemma {:induction false} CatchUpMeaning(zone: Zone, c: Cycle, now: int, i: nat)
    requires i <= MAX_CATCH_UPS
    ensures var n := Passed(zone, c.next, now);
            var k := if n <= MAX_CATCH_UPS - i then n else MAX_CATCH_UPS - i;
            CatchUp(zone, c, now, i) ==
            if k == 0 then c else Cycle(Boundary(zone, c.next, k), Boundary(zone, c.next, k - 1), 0.0)
    decreases MAX_CATCH_UPS - i
  {
    if Due(c, now) && i < MAX_CATCH_UPS {
      var adv := Advance(zone, c.next);
      BoundaryShift(zone, c.next, 0);
      if adv != 0 {
        CatchUpMeaning(zone, Cycle(adv, c.next, 0.0), now, i + 1);
        var n := Passed(zone, adv, now);
        var k := if n <= MAX_CATCH_UPS - (i + 1) then n else MAX_CATCH_UPS - (i + 1);
        BoundaryShift(zone, c.next, k);
        if k > 0 {
          BoundaryShift(zone, c.next, k - 1);
        }
      }
    }
  }

  /** A roll jumps to the first boundary after the clock and empties the credits if
      any boundary was passed; beyond the cap it gives the boundary up. */
  lemma RollMeaning(zone: Zone, c: Cycle, now: int)
    ensures var n := Passed(zone, c.next, now);
            Roll(zone, c, now) ==
            if n == 0 then c
            else if n <= MAX_CATCH_UPS then Cycle(Boundary(zone, c.next, n), Boundary(zone, c.next, n - 1), 0.0)
            else Cycle(0, Boundary(zone, c.next, MAX_CATCH_UPS - 1), 0.0)
  {
    CatchUpMeaning(zone, c, now, 0);
    if c.next > 0 {
      PassedMeaning(zone, c.next, now);
    }
  }

  /** After any roll the boundary is unset or later than the clock, so rolling again changes nothing. */
  lemma RollSettles(zone: Zone, c: Cycle, now: int)
    ensures !Due(Roll(zone, c, now), now)
    ensures Roll(zone, Roll(zone, c, now), now) == Roll(zone, c, now)
    ensures Roll(zone, c, now) == c <==> !Due(c, now)
    ensures Roll(zone, c, now).credits == if Due(c, now) then 0.0 else c.credits
  {
    RollMeaning(zone, c, now);
    if c.next > 0 {
      PassedMeaning(zone, c.next, now);
    }
  }

  lemma {:induction false} PassedSplits(zone: Zone, first: int, t1: int, t2: int)
    requires t1 <= t2 && first > 0
    ensures Passed(zone, first, t2) == Passed(zone, first, t1) +
        Passed(zone, Boundary(zone, first, Passed(zone, first, t1)), t2)
    decreases Passed(zone, first, t1)
  {
    if t1 >= first {
      BoundaryShift(zone, first, Passed(zone, first, t1) - 1);
      var adv := Advance(zone, first);
      if adv != 0 {
        PassedSplits(zone, adv, t1, t2);
      }
    }
  }

  lemma {:induction false} BoundarySplits(zone: Zone, first: int, j: nat, k: nat)
    ensures Boundary(zone, first, j + k) == if k == 0 then Boundary(zone, first, j)
        else Boundary(zone, Boundary(zone, first, j), k)
  {
    if k > 0 {
      BoundarySplits(zone, first, j, k - 1);
    }
  }

  lemma {:induction false} BoundariesIncrease(zone: Zone, first: int, now: int, i: nat, j: nat)
    requires first > 0 && i < j < Passed(zone, first, now)
    ensures Boundary(zone, first, i) < Boundary(zone, first, j)
  {
    PassedMeaning(zone, first, now);
    if i < j - 1 {
      BoundariesIncrease(zone, first, now, i, j - 1);
    }
    assert Boundary(zone, first, j - 1) < Boundary(zone, first, (j - 1) + 1);
  }

  lemma PassedNeedsBoundary(zone: Zone, first: int, now: int)
    requires Passed(zone, first, now) > 0
    ensures first > 0
  {
  }

  /** Two rolls in a row, the first of which moved within the cap. */
  lemma TwoRolls(zone: Zone, c: Cycle, t1: int, t2: int)
    requires t1 <= t2 && 0 < Passed(zone, c.next, t1) <= MAX_CATCH_UPS
    ensures var n1, n2 := Passed(zone, c.next, t1), Passed(zone, c.next, t2);
            && n1 <= n2
            && Roll(zone, Roll(zone, c, t1), t2) ==
               if n2 - n1 <= MAX_CATCH_UPS then Cycle(Boundary(zone, c.next, n2), Boundary(zone, c.next, n2 - 1), 0.0)
               else Cycle(0, Boundary(zone, c.next, n1 + MAX_CATCH_UPS - 1), 0.0)
  {
    hide Roll, Passed, Boundary, Advance, CatchUp, Due;
    PassedNeedsBoundary(zone, c.next, t1);
    var n1, n2 := Passed(zone, c.next, t1), Passed(zone, c.next, t2);
    RollMeaning(zone, c, t1);
    PassedSplits(zone, c.next, t1, t2);
    var mid := Roll(zone, c, t1);
    RollMeaning(zone, mid, t2);
    var m := Passed(zone, mid.next, t2);
    assert n2 == n1 + m && mid == Cycle(Boundary(zone, c.next, n1), Boundary(zone, c.next, n1 - 1), 0.0);
    if m > MAX_CATCH_UPS {
      SplitBeforeLast(zone, c.next, n1, MAX_CATCH_UPS);
    } else if m > 0 {
      BoundarySplits(zone, c.next, n1, m);
      SplitBeforeLast(zone, c.next, n1, m);
    }
  }

  lemma SplitBeforeLast(zone: Zone, first: int, j: nat, k: nat)
    requires k > 0
    ensures Boundary(zone, first, j + k - 1) == Boundary(zone, Boundary(zone, first, j), k - 1)
  {
    BoundarySplits(zone, first, j, k - 1);
  }

  /** Path independence: rolling at t1 and then at t2 gives what rolling once at t2
      gives, exactly when the cap is not what stops the long roll, or the first
      roll did nothing, or the cap already stopped the first roll. */
  lemma PathIndependentIff(zone: Zone, c: Cycle, t1: int, t2: int)
    requires t1 <= t2
    ensures Roll(zone, Roll(zone, c, t1), t2) == Roll(zone, c, t2) <==>
            Passed(zone, c.next, t2) <= MAX_CATCH_UPS || Passed(zone, c.next, t1) == 0 ||
                Passed(zone, c.next, t1) > MAX_CATCH_UPS
  {
    RollMeaning(zone, c, t1);
    RollMeaning(zone, c, t2);
    var n1, n2 := Passed(zone, c.next, t1), Passed(zone, c.next, t2);
    if 0 < n1 <= MAX_CATCH_UPS {
      TwoRolls(zone, c, t1, t2);
      hide Roll, Passed, Boundary, Advance, CatchUp, Due;
      if n2 > MAX_CATCH_UPS {
        var last := if n2 - n1 <= MAX_CATCH_UPS then n2 - 1 else n1 + MAX_CATCH_UPS - 1;
        BoundariesIncrease(zone, c.next, t2, MAX_CATCH_UPS - 1, last);
      }
    } else if n1 > MAX_CATCH_UPS {
      PassedSplits(zone, c.next, t1, t2);
      RollMeaning(zone, Roll(zone, c, t1), t2);
      hide Roll, Boundary;
    }
  }

  // ---- The fixed-offset calendar ----

  /** A zone without daylight saving. */
  ghost function FixedOffset(offset: int): Zone {
    (ms, n) => AddMonths(ms, n, offset)
  }

  lemma FixedOffsetAdvances(offset: int, boundary: int)
    requires boundary > 0
    ensures Advance(FixedOffset(offset), boundary) == AddMonths(boundary, 1, offset)
    ensures 28 * DAY_MS <= Advance(FixedOffset(offset), boundary) - boundary <= 31 * DAY_MS
  {
    OneMonthShift(boundary, offset);
  }

  /** There the catch-up needs at most one step per 28 days of delay, and one more. */
  lemma {:induction false} CatchUpIsShort(offset: int, boundary: int, now: int)
    requires boundary > 0 && now >= boundary
    ensures 1 <= Passed(FixedOffset(offset), boundary, now) <= (now - boundary) / (28 * DAY_MS) + 1
    decreases now - boundary
  {
    hide FixedOffset, Advance, AddMonths;
    FixedOffsetAdvances(offset, boundary);
    var adv := Advance(FixedOffset(offset), boundary);
    if now >= adv {
      CatchUpIsShort(offset, adv, now);
      QuotientShrinks(now - boundary, now - adv);
    }
  }

  lemma QuotientShrinks(a: int, b: int)
    requires a >= b + 28 * DAY_MS
    ensures a / (28 * DAY_MS) >= b / (28 * DAY_MS) + 1
  {
  }

  /** There a boundary up to 2400 times 28 days old is never given up: after the roll
      it lies in the future, within 31 days of the clock. */
  lemma RecentBoundarySurvives(offset: int, c: Cycle, now: int)
    requires Due(c, now) && now - c.next < MAX_CATCH_UPS * 28 * DAY_MS
    ensures var r := Roll(FixedOffset(offset), c, now);
            r.start <= now < r.next && r.next - r.start <= 31 * DAY_MS && r.next == AddMonths(r.start, 1, offset)
  {
    hide FixedOffset, AddMonths, Roll, Passed, Boundary;
    var zone := FixedOffset(offset);
    CatchUpIsShort(offset, c.next, now);
    assert (now - c.next) / (28 * DAY_MS) < MAX_CATCH_UPS;
    RollMeaning(zone, c, now);
    PassedMeaning(zone, c.next, now);
    var n := Passed(zone, c.next, now);
    FixedOffsetAdvances(offset, Boundary(zone, c.next, n - 1));
    BoundaryStep(zone, c.next, n);
  }

  /** There the cap never makes two rolls differ from one as long as the boundary is not
      older than that. */
  lemma RecentRollsAgree(offset: int, c: Cycle, t1: int, t2: int)
    requires t1 <= t2 && t2 - c.next < MAX_CATCH_UPS * 28 * DAY_MS
    ensures Roll(FixedOffset(offset), Roll(FixedOffset(offset), c, t1), t2) == Roll(FixedOffset(offset), c, t2)
  {
    hide Roll;
    PathIndependentIff(FixedOffset(offset), c, t1, t2);
    if c.next > 0 && t2 >= c.next {
      CatchUpIsShort(offset, c.next, t2);
    }
  }

  lemma BoundaryStep(zone: Zone, first: int, k: nat)
    requires k > 0
    ensures Boundary(zone, first, k - 1) > 0 ==> Boundary(zone, first, k) == Advance(zone, Boundary(zone, first, k - 1))
  {
  }

  // ---- Reported boundaries ----

  /** `setBillingCycleAt`: the cycle after a report. */
  function Reported(zone: Zone, c: Cycle, reset: int, now: int): Cycle {
    if reset <= 0 then c
    else
      var rolled := Roll(zone, c, now);
      if rolled.next == reset then rolled
      else if Plausible(rolled.next) && reset <= rolled.next then rolled
      else
        var genuine := rolled.next != 0 && reset - rolled.next >= DRIFT_TOLERANCE_MS;
        Cycle(reset, zone(reset, -1), if genuine then 0.0 else rolled.credits)
  }

  /** A plausible report no later than the boundary tracked before the call, or than the
      one it rolls to, adds nothing to the roll exactly when the roll leaves a plausible
      boundary. When it drops the boundary instead, the stale instant is adopted after all. */
  lemma StaleReportIsIgnoredIff(zone: Zone, c: Cycle, reset: int, now: int)
    requires Plausible(reset) && ((Plausible(c.next) && reset <= c.next) || reset <= Roll(zone, c, now).next)
    ensures Reported(zone, c, reset, now) == Roll(zone, c, now) <==> Plausible(Roll(zone, c, now).next)
    ensures Roll(zone, c, now).next == 0 ==> Reported(zone, c, reset, now).next == reset
  {
    RollNeverGoesBack(zone, c, now);
  }

  /** A roll moves the boundary forward or drops it. */
  lemma RollNeverGoesBack(zone: Zone, c: Cycle, now: int)
    ensures Roll(zone, c, now).next == 0 || Roll(zone, c, now).next >= c.next
  {
    hide Roll, Passed, Boundary;
    RollMeaning(zone, c, now);
    var n := Passed(zone, c.next, now);
    if 0 < n <= MAX_CATCH_UPS {
      PassedNeedsBoundary(zone, c.next, now);
      PassedMeaning(zone, c.next, now);
      FirstIsDue(zone, c.next, now);
    }
  }

  lemma FirstIsDue(zone: Zone, first: int, now: int)
    requires Passed(zone, first, now) > 0
    ensures first <= now
  {
  }

  /** A report moves the boundary back exactly when it names an earlier one and the roll
      leaves no plausible boundary. */
  lemma ReportsMoveForwardIff(zone: Zone, c: Cycle, reset: int, now: int)
    ensures Reported(zone, c, reset, now).next >= c.next <==>
            reset <= 0 || reset >= c.next || Plausible(Roll(zone, c, now).next)
  {
    RollNeverGoesBack(zone, c, now);
  }

  /** The roll drops the boundary when the zone derives no later one, and then a stale
      report is adopted: the boundary moves back, against the rule that it never does. */
  lemma DroppedBoundaryIsReadopted(zone: Zone, c: Cycle, reset: int, now: int)
    requires Due(c, now) && zone(c.next, 1) <= c.next && 0 < reset < c.next
    ensures Reported(zone, c, reset, now).next == reset < c.next
  {
  }

  /** Reports of a drifting boundary: each later than the one before by less than
      the tolerance, each read before the tracked boundary is due. */
  ghost predicate DriftChain(tracked: int, resets: seq<int>, clocks: seq<int>) {
    && |resets| == |clocks|
    && forall i :: 0 <= i < |resets| ==>
         SmallMove(ReportBefore(tracked, resets, i), resets[i], clocks[i])
  }

  function ReportBefore(tracked: int, resets: seq<int>, i: nat): int
    requires i < |resets|
  {
    if i == 0 then tracked else resets[i - 1]
  }

  ghost predicate SmallMove(before: int, reset: int, now: int) {
    0 < before < reset < before + DRIFT_TOLERANCE_MS && now < before
  }

  function ReportAll(zone: Zone, c: Cycle, resets: seq<int>, clocks: seq<int>): Cycle
    requires |resets| == |clocks|
  {
    if |resets| == 0 then c
    else
      var n := |resets| - 1;
      Reported(zone, ReportAll(zone, c, resets[..n], clocks[..n]), resets[n], clocks[n])
  }

  /** A chain of small forward moves is adopted to its end and never discards a
      credit, however far it drifts in all. */
  lemma {:induction false} DriftKeepsCredits(zone: Zone, c: Cycle, resets: seq<int>, clocks: seq<int>)
    requires DriftChain(c.next, resets, clocks)
    ensures var r := ReportAll(zone, c, resets, clocks);
            r.credits == c.credits && r.next == if resets == [] then c.next else resets[|resets| - 1]
  {
    hide Roll, Passed, Boundary, Plausible;
    if |resets| > 0 {
      var n := |resets| - 1;
      forall i | 0 <= i < n
        ensures SmallMove(ReportBefore(c.next, resets[..n], i), resets[..n][i], clocks[..n][i])
      {
        assert SmallMove(ReportBefore(c.next, resets, i), resets[i], clocks[i]);
      }
      assert SmallMove(ReportBefore(c.next, resets, n), resets[n], clocks[n]);
      DriftKeepsCredits(zone, c, resets[..n], clocks[..n]);
      var before := ReportAll(zone, c, resets[..n], clocks[..n]);
      RollSettles(zone, before, clocks[n]);
    }
  }

  /** The first report keeps the credits spent so far; but if its boundary has
      already passed, the next write at the same clock empties them after all. */
  lemma FirstReportKeepsCreditsIff(zone: Zone, c: Cycle, reset: int, now: int)
    requires c.next == 0 && reset > 0
    ensures Reported(zone, c, reset, now) == Cycle(reset, zone(reset, -1), c.credits)
    ensures Roll(zone, Reported(zone, c, reset, now), now).credits == c.credits <==> reset > now || c.credits == 0.0
  {
    RollSettles(zone, c, now);
    RollSettles(zone, Reported(zone, c, reset, now), now);
  }

  /** A report later than the boundary left by the roll is adopted with the cycle that ends
      there, one month long; it discards the credits exactly when it is at least seven
      days later. */
  lemma ForwardReportIsAdopted(offset: int, c: Cycle, reset: int, now: int)
    requires var tracked := Roll(FixedOffset(offset), c, now).next; 0 < tracked < reset
    ensures var zone := FixedOffset(offset);
            var rolled, r := Roll(zone, c, now), Reported(zone, c, reset, now);
            && r.next == reset && r.start == AddMonths(reset, -1, offset)
            && 28 * DAY_MS <= r.next - r.start <= 31 * DAY_MS
            && r.credits == if reset - rolled.next >= 7 * DAY_MS then 0.0 else rolled.credits
  {
    OneMonthShift(reset, offset);
    hide Roll, AddMonths;
  }

  /** A persisted sentinel does not block genuine reports, and giving it up for an
      earlier boundary discards nothing. */
  lemma SentinelYields(zone: Zone, c: Cycle, reset: int, now: int)
    requires c.next >= MAX_PLAUSIBLE_RESET_MS && now < c.next && 0 < reset < c.next
    ensures Reported(zone, c, reset, now) == Cycle(reset, zone(reset, -1), c.credits)
  {
    RollSettles(zone, c, now);
  }

  /** Repeating a report at the same clock changes nothing, as long as its boundary
      is still ahead or was not adopted. */
  lemma RepeatedReportIsIdle(zone: Zone, c: Cycle, reset: int, now: int)
    requires reset > 0 && (now < reset || Reported(zone, c, reset, now).next != reset)
    ensures Reported(zone, Reported(zone, c, reset, now), reset, now) == Reported(zone, c, reset, now)
  {
    RollSettles(zone, c, now);
    RollSettles(zone, Reported(zone, c, reset, now), now);
  }
}
