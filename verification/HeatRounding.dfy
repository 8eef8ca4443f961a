/** What four-decimal rounding does to the heat limits, for fixed-risk sizing that affords a share. */
module HeatRounding {
  import opened Common
  import opened Numbers
  import opened Correlation
  import opened Sizing
  import opened RiskEngine
  import opened PortfolioHeat

  /** A property of the capital alone: the largest rounded risk of each regime fits beside the fullest book. */
  ghost predicate SafeCapital(capital: real, cap: real) {
    forall r: Regime, w: bool :: r != HighVolChaos ==> Fits(capital, cap, r, w, Round4(Budget(capital, r, w)))
  }

  /** With a safe capital every affordable event keeps the cap. */
  lemma {:induction false} AffordableKeepsCap(e: Event, capital: real, cap: real)
    requires Affordable(e, capital) && SafeCapital(capital, cap)
    ensures KeepsCap(e, capital, cap)
  {
    hide Decided, SizeFor, Round4, Floor4, Estimate, Budget, Affordable, ActualRisk;
    if e.Propose? && OnEmpty(e, capital).approved {
      var p := Asked([], capital, e.params);
      ApprovalFacts(e.entry, e.stop, p);
      SizeFacts(e.entry, e.stop, p);
      AffordableAsked(e, [], capital);
      AffordableRisk(e.entry, e.stop, p);
      BudgetWithinEstimate(capital, p.regime, p.isSnapshotWindow);
      Round4Monotone(ActualRisk(e.entry, e.stop, p), Budget(capital, p.regime, p.isSnapshotWindow));
      assert Fits(capital, cap, p.regime, p.isSnapshotWindow, Round4(Budget(capital, p.regime, p.isSnapshotWindow)));
    }
  }

  // ---- Which capital is safe ----

  /** A cap with four decimals is safe: so is any capital in whole cents, for both caps. */
  lemma RoundCapIsSafe(capital: real, cap: real)
    requires capital > 0.0 && FourDecimals(cap)
    ensures SafeCapital(capital, cap)
  {
    hide FourDecimals;
    forall r: Regime, w: bool | r != HighVolChaos
      ensures Fits(capital, cap, r, w, Round4(Budget(capital, r, w)))
    {
      hide Estimate, Budget, Round4, Floor4;
      var room := Floor4(cap - Estimate(capital, r, w));
      BudgetWithinEstimate(capital, r, w);
      Floor4Facts(cap - Estimate(capital, r, w));
      FourDecimalsSubtract(cap, room);
      Round4Below(Budget(capital, r, w), cap - room);
    }
  }

  lemma FourDecimalsSubtract(x: real, y: real)
    requires FourDecimals(x) && FourDecimals(y)
    ensures FourDecimals(x - y)
  {
    var m, n := (x * 10000.0).Floor, (y * 10000.0).Floor;
    FourDecimalsOf(x - y, m - n);
  }

  lemma {:induction false} WholeCentsAreSafe(cents: int)
    requires cents > 0
    ensures var capital := cents as real / 100.0;
            SafeCapital(capital, 0.07 * capital) && SafeCapital(capital, 0.05 * capital)
  {
    var capital := cents as real / 100.0;
    FourDecimalsOf(0.07 * capital, 7 * cents);
    FourDecimalsOf(0.05 * capital, 5 * cents);
    hide FourDecimals, SafeCapital;
    RoundCapIsSafe(capital, 0.07 * capital);
    RoundCapIsSafe(capital, 0.05 * capital);
  }

  // ---- Proposals of one share ----

  /** Fixed-risk sizing of one share with its stop this far away. */
  function OneShare(distance: real, r: Regime, w: bool, sector: string): Event {
    Propose(2.0 * distance, distance, "NEW", QUIET.(regime := r, isSnapshotWindow := w, proposedSector := sector))
  }

  lemma SingleShare(budget: real, distance: real)
    requires 0.0 < budget / 2.0 < distance <= budget
    ensures StopDistance(2.0 * distance, distance) == distance && MinDistance(2.0 * distance) <= distance
    ensures Shares(budget, distance) == 1 && Loss(1, distance) == distance
  {
    LossOfOne(distance);
    SharesAreLargest(budget, distance);
    TwoSharesLose(distance);
    hide Shares, Loss, WholeTimes;
    if Shares(budget, distance) >= 2 {
      LossMonotone(2, Shares(budget, distance), distance);
    }
  }

  lemma TwoSharesLose(distance: real)
    ensures Loss(2, distance) == distance + distance
  {
  }

  lemma BudgetIs(capital: real, r: Regime, w: bool)
    ensures Budget(capital, r, w) == AtrBudget(capital, RegimeRiskPct(r), RegimeRiskPct(r) / RISK_PCT_BULL_TREND, w)
  {
  }

  /** When the budget affords one share and not two, the share is approved and its rounded risk recorded. */
  lemma OneShareOpens(book: Book, capital: real, distance: real, r: Regime, w: bool, sector: string)
    requires capital > 0.0 && Budget(capital, r, w) / 2.0 < distance <= Budget(capital, r, w)
    requires Heat(book) + Estimate(capital, r, w) <= 0.07 * capital
    requires SectorHeat(book, sector) + Estimate(capital, r, w) <= 0.05 * capital
    ensures Affordable(OneShare(distance, r, w, sector), capital)
    ensures Step(book, OneShare(distance, r, w, sector), capital) ==
            book + [OpenPosition("NEW", sector, Round4(distance), [])]
  {
    hide Budget, Estimate, Heat, SectorHeat, Round4, Shares, StopDistance, MinDistance, Gates, SizeFor, Decided, Guard;
    BudgetWithinEstimate(capital, r, w);
    SingleShare(Budget(capital, r, w), distance);
    var e := OneShare(distance, r, w, sector);
    var p := Asked([], capital, e.params);
    OneShareSize(capital, distance, r, w, sector);
    QuietApproved(e.entry, e.stop, r, w, sector, capital);
    assert GuardPassed(Guard([], ReturnsOf(book), MAX_POSITION_CORRELATION)) by {
      ShortGuard(ReturnsOf(book));
    }
    GatesOverBook(e.entry, e.stop, book, capital, e.params);
    ApprovedIffAllGates(e.entry, e.stop, Asked(book, capital, e.params));
    SizeIgnoresBook(e.entry, e.stop, book, capital, e.params);
  }

  lemma ShortGuard(positions: seq<seq<real>>)
    ensures GuardPassed(Guard([], positions, MAX_POSITION_CORRELATION))
  {
  }

  lemma OneShareSize(capital: real, distance: real, r: Regime, w: bool, sector: string)
    requires capital > 0.0 && Budget(capital, r, w) / 2.0 < distance <= Budget(capital, r, w)
    ensures var e := OneShare(distance, r, w, sector);
            var size := SizeFor(e.entry, e.stop, Asked([], capital, e.params));
            size.Some? && size.value.riskAmount == Round4(distance) && size.value.riskPct <= 3.0
  {
    BudgetWithinEstimate(capital, r, w);
    SingleShare(Budget(capital, r, w), distance);
    BudgetIs(capital, r, w);
    hide Round4, Budget, AtrBudget, Estimate, Shares, StopDistance, MinDistance;
    QuotientOrder(distance, capital, 0.01);
    var share := distance / capital * 100.0;
    assert share <= 1.0;
    assert Round4(share) <= share + 0.00005;
  }

  // ---- Limits under single approvals ----

  /** Every affordable approval over every orderly book within 7 percent leaves heat within 7 percent. */
  ghost predicate HeatAlwaysKept(capital: real) {
    forall e: Event :: Affordable(e, capital) ==> AlwaysKeepsHeat(e, capital)
  }

  /** Every affordable approval leaves every sector within 5 percent. */
  ghost predicate SectorsAlwaysKept(capital: real) {
    forall e: Event :: Affordable(e, capital) ==> AlwaysKeepsSectors(e, capital)
  }

  /** The share that spends a budget which does not fit fails the cap. */
  lemma UnfitShare(capital: real, cap: real, r: Regime, w: bool) returns (e: Event)
    requires capital > 0.0 && r != HighVolChaos && !Fits(capital, cap, r, w, Round4(Budget(capital, r, w)))
    ensures Affordable(e, capital) && !KeepsCap(e, capital, cap)
  {
    BudgetWithinEstimate(capital, r, w);
    e := OneShare(Budget(capital, r, w), r, w, "NEW");
    SingleShare(Budget(capital, r, w), Budget(capital, r, w));
    hide Budget, Estimate, Round4, SizeFor, Decided, Floor4, StopDistance, Fits;
    OneShareSize(capital, Budget(capital, r, w), r, w, "NEW");
    QuietApproved(e.entry, e.stop, r, w, "NEW", capital);
  }

  /** The 7 percent limit survives every affordable approval if and only if the capital is safe for it. */
  lemma {:induction false} HeatKeptIffSafe(capital: real)
    requires capital > 0.0
    ensures HeatAlwaysKept(capital) <==> SafeCapital(capital, 0.07 * capital)
  {
    hide Fits, KeepsCap, AlwaysKeepsHeat, Affordable;
    if SafeCapital(capital, 0.07 * capital) {
      forall e: Event | Affordable(e, capital)
        ensures AlwaysKeepsHeat(e, capital)
      {
        AffordableKeepsCap(e, capital, 0.07 * capital);
        HeatKeptIff(e, capital);
      }
    } else {
      var r: Regime, w: bool :|
        r != HighVolChaos && !Fits(capital, 0.07 * capital, r, w, Round4(Budget(capital, r, w)));
      var e := UnfitShare(capital, 0.07 * capital, r, w);
      HeatKeptIff(e, capital);
    }
  }

  /** The 5 percent sector limit survives every affordable approval if and only if the capital is safe for it. */
  lemma {:induction false} SectorsKeptIffSafe(capital: real)
    requires capital > 0.0
    ensures SectorsAlwaysKept(capital) <==> SafeCapital(capital, 0.05 * capital)
  {
    hide Fits, KeepsCap, AlwaysKeepsSectors, Affordable;
    if SafeCapital(capital, 0.05 * capital) {
      forall e: Event | Affordable(e, capital)
        ensures AlwaysKeepsSectors(e, capital)
      {
        AffordableKeepsCap(e, capital, 0.05 * capital);
        SectorsKeptIff(e, capital);
      }
    } else {
      var r: Regime, w: bool :|
        r != HighVolChaos && !Fits(capital, 0.05 * capital, r, w, Round4(Budget(capital, r, w)));
      var e := UnfitShare(capital, 0.05 * capital, r, w);
      SectorsKeptIff(e, capital);
    }
  }

  lemma UnsafeAmounts()
    ensures Estimate(100.0055, BullTrend, false) == 1.000055 && Budget(100.0055, BullTrend, false) == 1.000055
    ensures Floor4(6.00033) == 6.0003 && Floor4(4.00022) == 4.0002 && Round4(1.000055) == 1.0001
  {
  }

  /**
   * A capital for which both limits can be overstepped: one share with its stop 1.000055 away is recorded as 1.0001,
   * which takes the heat over 7.000385, or its sector over 5.000275.
   */
  lemma {:induction false} UnsafeCapital()
    ensures !SafeCapital(100.0055, 0.07 * 100.0055) && !SafeCapital(100.0055, 0.05 * 100.0055)
    ensures var book, e := [OpenPosition("OLD", "OLD", 6.0003, [])], Propose(2.00011, 1.000055, "NEW", QUIET);
            && Orderly(book) && Affordable(e, 100.0055) && Heat(book) == 6.0003
            && Heat(Step(book, e, 100.0055)) == 7.0004 > 0.07 * 100.0055
    ensures var book, e := [OpenPosition("OLD", "NEW", 4.0002, [])], Propose(2.00011, 1.000055, "NEW", QUIET);
            && Orderly(book) && Affordable(e, 100.0055) && SectorHeat(book, "NEW") == 4.0002
            && SectorHeat(Step(book, e, 100.0055), "NEW") == 5.0003 > 0.05 * 100.0055
  {
    UnsafeAmounts();
    OverstepAt(6.0003, "OLD");
    OverstepAt(4.0002, "NEW");
    hide Estimate, Budget, Round4, Floor4, Step, Affordable, Orderly, Heat, SectorHeat;
    assert !Fits(100.0055, 0.07 * 100.0055, BullTrend, false, Round4(Budget(100.0055, BullTrend, false)));
    assert !Fits(100.0055, 0.05 * 100.0055, BullTrend, false, Round4(Budget(100.0055, BullTrend, false)));
  }

  lemma OverstepAt(held: real, sector: string)
    requires (held == 6.0003 && sector == "OLD") || (held == 4.0002 && sector == "NEW")
    ensures var x, e := OpenPosition("OLD", sector, held, []), Propose(2.00011, 1.000055, "NEW", QUIET);
            && Orderly([x]) && Affordable(e, 100.0055) && Heat([x]) == held && SectorHeat([x], sector) == held
            && Heat(Step([x], e, 100.0055)) == held + 1.0001
            && SectorHeat(Step([x], e, 100.0055), "NEW") == (if sector == "NEW" then held else 0.0) + 1.0001
  {
    UnsafeAmounts();
    var x := OpenPosition("OLD", sector, held, []);
    assert OneShare(1.000055, BullTrend, false, "NEW") == Propose(2.00011, 1.000055, "NEW", QUIET);
    HeatOfOne(x, sector);
    HeatOfOne(x, "NEW");
    FourDecimalsOf(held, if held == 6.0003 then 60003 else 40002);
    hide Estimate, Budget, Round4, Step, Affordable, Heat, SectorHeat, OneShare;
    OneShareOpens([x], 100.0055, 1.000055, BullTrend, false, "NEW");
    HeatOpened([x], OpenPosition("NEW", "NEW", 1.0001, []), "NEW");
  }

  // ---- Limits over runs from the empty book ----

  ghost predicate AllAffordable(events: seq<Event>, capital: real) {
    forall i :: 0 <= i < |events| ==> Affordable(events[i], capital)
  }

  lemma {:induction false} RunJoined(book: Book, a: seq<Event>, b: seq<Event>, capital: real)
    ensures Run(book, a + b, capital) == Run(Run(book, a, capital), b, capital)
  {
    if b == [] {
      assert a + b == a;
    } else {
      assert Front(a + b) == a + Front(b) && Last(a + b) == Last(b);
      RunJoined(book, a, Front(b), capital);
    }
  }

  lemma RunOne(book: Book, e: Event, capital: real)
    ensures Run(book, [e], capital) == Step(book, e, capital)
  {
    assert Front([e]) == [];
  }

  /** The sector of the nth position: one for all, or each its own. */
  function SectorAt(n: nat, spread: bool): string {
    if spread then seq(n, _ => 'S') else "S"
  }

  ghost predicate Named(book: Book, spread: bool) {
    forall i :: 0 <= i < |book| ==> book[i].sector == SectorAt(i, spread)
  }

  /** The sector of the next position holds nothing yet, or everything. */
  lemma {:induction false} NextSectorHeat(book: Book, n: nat, spread: bool)
    requires Named(book, spread) && |book| <= n
    ensures SectorHeat(book, SectorAt(n, spread)) == if spread then 0.0 else Heat(book)
  {
    if book != [] {
      NextSectorHeat(Front(book), n, spread);
      assert spread ==> |SectorAt(|book| - 1, spread)| < |SectorAt(n, spread)|;
      assert Last(book) == book[|book| - 1];
    }
  }

  function Units(n: int): real {
    n as real / 10000.0
  }

  lemma UnitsAdd(m: int, n: int)
    ensures Units(m + n) == Units(m) + Units(n)
  {
  }

  lemma UnitsRound(n: int)
    ensures Round4(Units(n)) == Units(n)
  {
    assert Units(n) * 10000.0 == n as real;
    RoundHalfEvenInt(n);
  }

  /** A budget that rounds up, to so many units of the fourth decimal. */
  predicate RoundsUpTo(budget: real, units: int) {
    units >= 1 && Round4(budget) == Units(units) && Units(units) - 0.00005 <= budget < Units(units)
  }

  /** A stop distance that buys one share and records n units, from half of the rounded budget to all of it. */
  lemma DistanceFor(budget: real, units: int, n: int) returns (distance: real)
    requires budget > 0.0 && RoundsUpTo(budget, units) && n <= units <= 2 * n
    ensures budget / 2.0 < distance <= budget && Round4(distance) == Units(n)
  {
    hide Round4;
    if n == units {
      distance := budget;
    } else {
      UnitsRound(n);
      distance := Units(n);
    }
  }

  /** How far a book has been filled. */
  ghost predicate FilledTo(book: Book, units: int, spread: bool) {
    Named(book, spread) && Heat(book) == Units(units)
  }

  /** One affordable approval adds n units. */
  lemma AddUnits(book: Book, filled: int, n: int, capital: real, r: Regime, w: bool, units: int, spread: bool)
      returns (e: Event)
    requires capital > 0.0 && Budget(capital, r, w) > 0.0 && RoundsUpTo(Budget(capital, r, w), units)
    requires n <= units <= 2 * n
    requires FilledTo(book, filled, spread)
    requires Units(filled) + Estimate(capital, r, w) <= (if spread then 0.07 else 0.05) * capital
    ensures Affordable(e, capital) && FilledTo(Step(book, e, capital), filled + n, spread)
  {
    BudgetWithinEstimate(capital, r, w);
    hide Budget, Estimate, Round4, Heat, SectorHeat, Step, Affordable, RoundsUpTo, Units, OneShare, SectorAt, Named;
    var distance := DistanceFor(Budget(capital, r, w), units, n);
    var sector := SectorAt(|book|, spread);
    NextSectorHeat(book, |book|, spread);
    OneShareOpens(book, capital, distance, r, w, sector);
    e := OneShare(distance, r, w, sector);
    var x := OpenPosition("NEW", sector, Round4(distance), []);
    HeatOpened(book, x, sector);
    UnitsAdd(filled, n);
    NamedNext(book, x, spread);
  }

  lemma NamedNext(book: Book, x: OpenPosition, spread: bool)
    requires Named(book, spread) && x.sector == SectorAt(|book|, spread)
    ensures Named(book + [x], spread)
  {
    hide SectorAt;
  }

  /** Affordable approvals can add any number of units from one rounded budget on, as far as the gates reach. */
  lemma {:induction false} FillUnits(book: Book, filled: int, more: int, capital: real, r: Regime, w: bool, units: int,
                                     spread: bool) returns (events: seq<Event>)
    requires capital > 0.0 && Budget(capital, r, w) > 0.0 && RoundsUpTo(Budget(capital, r, w), units)
    requires more >= units && FilledTo(book, filled, spread)
    requires Units(filled + more) + Estimate(capital, r, w) <= (if spread then 0.07 else 0.05) * capital
    ensures AllAffordable(events, capital) && FilledTo(Run(book, events, capital), filled + more, spread)
    decreases more
  {
    hide Budget, Estimate, Affordable, FilledTo, Run, Step, Round4;
    var n := if more == units then more else if more < 2 * units then more / 2 else units;
    UnitsGrow(filled, filled + more);
    var e := AddUnits(book, filled, n, capital, r, w, units, spread);
    RunOne(book, e, capital);
    var after := Step(book, e, capital);
    if more == units {
      events := [e];
    } else if more < 2 * units {
      UnitsGrow(filled + n, filled + more);
      var f := AddUnits(after, filled + n, more - n, capital, r, w, units, spread);
      RunOne(after, f, capital);
      RunJoined(book, [e], [f], capital);
      events := [e] + [f];
    } else {
      var rest := FillUnits(after, filled + n, more - n, capital, r, w, units, spread);
      RunJoined(book, [e], rest, capital);
      events := [e] + rest;
    }
  }

  lemma UnitsGrow(m: int, n: int)
    requires m <= n
    ensures Units(m) <= Units(n)
  {
  }

  /** The units of the fullest book and of the budget that does not fit beside it. */
  lemma UnfitUnits(capital: real, cap: real, r: Regime, w: bool) returns (room: int, units: int)
    requires capital > 0.0 && 0.05 * capital <= cap && r != HighVolChaos
    requires !Fits(capital, cap, r, w, Round4(Budget(capital, r, w)))
    ensures room >= units && RoundsUpTo(Budget(capital, r, w), units)
    ensures Units(room) + Estimate(capital, r, w) <= cap < Units(room) + Units(units)
  {
    BudgetWithinEstimate(capital, r, w);
    hide Budget, Estimate, RoundHalfEven;
    var estimate, budget := Estimate(capital, r, w), Budget(capital, r, w);
    room := ((cap - estimate) * 10000.0).Floor;
    units := RoundHalfEven(budget * 10000.0);
    assert Round4(budget) == Units(units);
    assert Units(units) > budget;
    assert units as real > 0.0;
    assert cap - estimate >= 4.0 * budget;
  }

  /** An unsafe capital has a run of affordable approvals from the empty book that oversteps the cap. */
  lemma OversteppingRun(capital: real, spread: bool) returns (events: seq<Event>)
    requires capital > 0.0 && !SafeCapital(capital, (if spread then 0.07 else 0.05) * capital)
    ensures AllAffordable(events, capital)
    ensures var book := Run([], events, capital);
            && Heat(book) > (if spread then 0.07 else 0.05) * capital
            && (!spread ==> SectorHeat(book, "S") == Heat(book))
  {
    hide Fits, Budget, Estimate, Round4, Heat, SectorHeat, Affordable, Run, Step, RoundsUpTo, Units;
    var cap := (if spread then 0.07 else 0.05) * capital;
    var r: Regime, w: bool :| r != HighVolChaos && !Fits(capital, cap, r, w, Round4(Budget(capital, r, w)));
    var room, units := UnfitUnits(capital, cap, r, w);
    BudgetWithinEstimate(capital, r, w);
    NothingHeld(spread);
    PositiveUnits(Budget(capital, r, w), units);
    var before := FillUnits([], 0, room, capital, r, w, units, spread);
    var book := Run([], before, capital);
    var e := AddUnits(book, room, units, capital, r, w, units, spread);
    UnitsAdd(room, units);
    RunOne(book, e, capital);
    RunJoined([], before, [e], capital);
    events := before + [e];
    if !spread {
      NextSectorHeat(Step(book, e, capital), |Step(book, e, capital)|, spread);
    }
  }

  lemma NothingHeld(spread: bool)
    ensures FilledTo([], 0, spread)
  {
  }

  lemma PositiveUnits(budget: real, units: int)
    requires RoundsUpTo(budget, units)
    ensures units >= 1
  {
  }

  /** Heat stays within 7 percent over all runs of affordable events from the empty book. */
  ghost predicate HeatKeptOverRuns(capital: real) {
    forall events: seq<Event> :: AllAffordable(events, capital) ==> Heat(Run([], events, capital)) <= 0.07 * capital
  }

  ghost predicate SectorsKeptOverRuns(capital: real) {
    forall events: seq<Event>, sector: string :: AllAffordable(events, capital) ==>
      SectorHeat(Run([], events, capital), sector) <= 0.05 * capital
  }

  /** The books of all runs: the 7 percent limit holds over every run if and only if the capital is safe for it. */
  lemma {:induction false} HeatRunsKeptIffSafe(capital: real)
    requires capital > 0.0
    ensures HeatKeptOverRuns(capital) <==> SafeCapital(capital, 0.07 * capital)
  {
    NothingHeld(true);
    hide SafeCapital, Affordable, KeepsCap, Run;
    if SafeCapital(capital, 0.07 * capital) {
      forall events: seq<Event> | AllAffordable(events, capital)
        ensures Heat(Run([], events, capital)) <= 0.07 * capital
      {
        forall i | 0 <= i < |events|
          ensures KeepsCap(events[i], capital, 0.07 * capital)
        {
          AffordableKeepsCap(events[i], capital, 0.07 * capital);
        }
        RunKeepsHeat([], events, capital);
      }
    } else {
      var events := OversteppingRun(capital, true);
      assert AllAffordable(events, capital);
    }
  }

  /** The same for the 5 percent limit of the sectors. */
  lemma {:induction false} SectorRunsKeptIffSafe(capital: real)
    requires capital > 0.0
    ensures SectorsKeptOverRuns(capital) <==> SafeCapital(capital, 0.05 * capital)
  {
    NothingHeld(false);
    hide SafeCapital, Affordable, KeepsCap, Run;
    if SafeCapital(capital, 0.05 * capital) {
      forall events: seq<Event>, sector: string | AllAffordable(events, capital)
        ensures SectorHeat(Run([], events, capital), sector) <= 0.05 * capital
      {
        forall i | 0 <= i < |events|
          ensures KeepsCap(events[i], capital, 0.05 * capital)
        {
          AffordableKeepsCap(events[i], capital, 0.05 * capital);
        }
        RunKeepsSector([], events, capital, sector);
      }
    } else {
      var events := OversteppingRun(capital, false);
      assert SectorHeat(Run([], events, capital), "S") > 0.05 * capital;
    }
  }
}
