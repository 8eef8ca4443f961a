/** What an evaluation decides, in numbers: the guards in their documented order and the size behind an approval. */
module RiskDecisions {
  import opened Common
  import opened Numbers
  import opened Sums
  import opened Correlation
  import opened Sizing
  import opened RiskEngine

  /** The documented order of the guards. */
  const GUARD_ORDER := [SystemHalted, CircuitBreaker, DailyTradeLimit, MaxPerTradeRisk, MaxSectorRisk,
    MaxPortfolioHeat, CorrelationGuard, SizingCheck, FinalPerTradeCap]

  /** The regime's 1, 0.75, 0.5 or 0 percent of the capital, halved in the snapshot window. */
  ghost function Estimated(p: Parameters): real {
    var full := match p.regime
      case BullTrend => 0.01 * p.capital
      case BearTrend => 0.0075 * p.capital
      case MeanReverting => 0.005 * p.capital
      case HighVolChaos => 0.0;
    if p.isSnapshotWindow then full / 2.0 else full
  }

  /** What a fixed-risk size may lose: the regime scales the percentage once more. */
  ghost function FixedBudget(p: Parameters): real {
    var full := match p.regime
      case BullTrend => 0.01 * p.capital
      case BearTrend => 0.005625 * p.capital
      case MeanReverting => 0.0025 * p.capital
      case HighVolChaos => 0.0;
    if p.isSnapshotWindow then full / 2.0 else full
  }

  /** What a Kelly size may lose: a quarter of the edge, scaled by the regime and halved in the snapshot window. */
  ghost function EdgeBudget(p: Parameters, edge: real): real {
    var full := match p.regime
      case BullTrend => 0.25 * edge * p.capital
      case BearTrend => 0.1875 * edge * p.capital
      case MeanReverting => 0.125 * edge * p.capital
      case HighVolChaos => 0.0;
    if p.isSnapshotWindow then full / 2.0 else full
  }

  lemma EstimateInNumbers(p: Parameters)
    ensures PreliminaryRisk(p) == Estimated(p)
    ensures 0.0 <= p.capital ==> Estimated(p) <= 0.03 * p.capital
  {
    match p.regime {
      case BullTrend => if p.isSnapshotWindow {}
      case BearTrend => if p.isSnapshotWindow {}
      case MeanReverting => if p.isSnapshotWindow {}
      case HighVolChaos => if p.isSnapshotWindow {}
    }
  }

  lemma FixedBudgetInNumbers(p: Parameters)
    ensures var pct := RegimeRiskPct(p.regime);
            AtrBudget(p.capital, pct, pct / RISK_PCT_BULL_TREND, p.isSnapshotWindow) == FixedBudget(p)
  {
    match p.regime {
      case BullTrend => if p.isSnapshotWindow {}
      case BearTrend => if p.isSnapshotWindow {}
      case MeanReverting => if p.isSnapshotWindow {}
      case HighVolChaos => if p.isSnapshotWindow {}
    }
  }

  /** The win rate less the loss rate per unit of the ratio, if that is an edge at all. */
  ghost function Edge(winRate: real, ratio: real): real
    requires ratio > 0.0
  {
    if ratio * winRate > 1.0 - winRate then winRate - (1.0 - winRate) / ratio else 0.0
  }

  lemma EdgeBudgetInNumbers(p: Parameters, winRate: real, ratio: real)
    requires ratio > 0.0
    ensures KellyBudget(p.capital, winRate, ratio, RegimeRiskPct(p.regime) / RISK_PCT_BULL_TREND, p.isSnapshotWindow)
            == EdgeBudget(p, Edge(winRate, ratio))
  {
    FullKellyIsEdge(winRate, ratio);
    hide FullKelly;
    match p.regime {
      case BullTrend => if p.isSnapshotWindow {}
      case BearTrend => if p.isSnapshotWindow {}
      case MeanReverting => if p.isSnapshotWindow {}
      case HighVolChaos => if p.isSnapshotWindow {}
    }
  }

  ghost function RegimeShare(r: Regime): real {
    match r
    case BullTrend => 1.0
    case BearTrend => 0.75
    case MeanReverting => 0.5
    case HighVolChaos => 0.0
  }

  lemma RegimeShareIs(r: Regime)
    ensures RegimeRiskPct(r) / RISK_PCT_BULL_TREND == RegimeShare(r)
  {
  }

  /** The size of a proposal is the most shares within this loss, over this distance to the stop. */
  ghost predicate SizedWithin(size: PositionSize, p: Parameters, entry: real, distance: real, budget: real, m: Method) {
    && MostShares(size.quantity, budget, distance) && Describes(size, p.capital, entry, distance)
    && size.sizingMethod == m && size.snapshotMultiplier == (if p.isSnapshotWindow then 0.5 else 1.0)
    && size.regimeMultiplier == RegimeShare(p.regime)
  }

  ghost predicate SizedByEdge(size: Option<PositionSize>, p: Parameters, entry: real, distance: real, w: real,
      ratio: real)
  {
    && (size.Some? <==> 0.0 < w < 1.0 && ratio > 0.0 && distance >= 0.0005 * entry)
    && (size.Some? ==> SizedWithin(size.value, p, entry, distance, EdgeBudget(p, Edge(w, ratio)), Kelly))
  }

  ghost predicate SizedByShare(size: Option<PositionSize>, p: Parameters, entry: real, distance: real) {
    && (size.Some? <==> entry > 0.0 && distance >= 0.0005 * entry)
    && (size.Some? ==> SizedWithin(size.value, p, entry, distance, FixedBudget(p), AtrFixedRisk))
  }

  lemma KellyInNumbers(entry: real, stop: real, p: Parameters)
    requires SizedByKelly(p)
    ensures SizedByEdge(SizeFor(entry, stop, p), p, entry, StopDistance(entry, stop), p.winRate.value,
                        p.avgWinLossRatio.value)
  {
    var multiplier := RegimeRiskPct(p.regime) / RISK_PCT_BULL_TREND;
    RegimeShareIs(p.regime);
    var w, ratio := p.winRate.value, p.avgWinLossRatio.value;
    assert SizeFor(entry, stop, p) == KellySize(p.capital, entry, stop, w, ratio, multiplier, p.isSnapshotWindow);
    hide MostShares, Describes, KellySize, KellyBudget, EdgeBudget, Edge, RegimeRiskPct, RegimeShare, SizeFor;
    KellySizeExact(p.capital, entry, stop, w, ratio, multiplier, p.isSnapshotWindow);
    if ratio > 0.0 {
      EdgeBudgetInNumbers(p, w, ratio);
    }
  }

  lemma ShareInNumbers(entry: real, stop: real, p: Parameters)
    requires !SizedByKelly(p)
    ensures SizedByShare(SizeFor(entry, stop, p), p, entry, StopDistance(entry, stop))
  {
    var pct := RegimeRiskPct(p.regime);
    var multiplier := pct / RISK_PCT_BULL_TREND;
    RegimeShareIs(p.regime);
    assert SizeFor(entry, stop, p) == AtrSize(p.capital, entry, stop, pct, multiplier, p.isSnapshotWindow);
    hide MostShares, Describes, AtrSize, AtrBudget, FixedBudget, RegimeRiskPct, RegimeShare, SizeFor;
    AtrSizeExact(p.capital, entry, stop, pct, multiplier, p.isSnapshotWindow);
    FixedBudgetInNumbers(p);
  }

  /**
   * Sizing in numbers. Kelly is used only when asked for with both inputs; it wants a win rate inside (0, 1) and a
   * positive ratio, fixed-risk sizing a positive entry price, and both a stop at least 0.05 percent away.
   */
  lemma {:induction false} SizeInNumbers(entry: real, stop: real, p: Parameters)
    ensures var size, distance := SizeFor(entry, stop, p), if entry < stop then stop - entry else entry - stop;
            if p.useKelly && p.winRate.Some? && p.avgWinLossRatio.Some? then
              SizedByEdge(size, p, entry, distance, p.winRate.value, p.avgWinLossRatio.value)
            else SizedByShare(size, p, entry, distance)
  {
    if SizedByKelly(p) {
      KellyInNumbers(entry, stop, p);
    } else {
      ShareInNumbers(entry, stop, p);
    }
    hide SizeFor, SizedByEdge, SizedByShare;
  }

  /** The condition of each guard over a positive capital. */
  ghost predicate Clears(name: CheckName, entry: real, stop: real, p: Parameters) {
    var size := SizeFor(entry, stop, p);
    match name
    case SystemHalted => !p.halted
    case CircuitBreaker => p.capital > 0.0 && p.dailyPnl > -0.02 * p.capital
    case DailyTradeLimit => p.dailyTradeCount < 10
    case MaxPerTradeRisk => true
    case MaxSectorRisk => SectorHeat(p.openPositions, p.proposedSector) + Estimated(p) <= 0.05 * p.capital
    case MaxPortfolioHeat => Heat(p.openPositions) + Estimated(p) <= 0.07 * p.capital
    case CorrelationGuard =>
      |p.proposedReturns| < 2 ||
      forall k :: 0 <= k < |p.openPositions| ==> !Exceeds(Pearson(p.proposedReturns, p.openPositions[k].history), 0.7)
    case SizingCheck => size.Some?
    case FinalPerTradeCap => size.Some? && size.value.riskPct <= 3.0
    case ThreeFiveSeven => false
  }

  /** Gate by gate, over a positive capital: the documented name and the condition in numbers. */
  lemma GatesInNumbers(entry: real, stop: real, p: Parameters)
    requires p.capital > 0.0
    ensures |Gates(entry, stop, p)| == 9
    ensures forall i :: 0 <= i < 9 ==>
              Gates(entry, stop, p)[i] == RiskCheck(GUARD_ORDER[i], Clears(GUARD_ORDER[i], entry, stop, p))
  {
    var estimate := PreliminaryRisk(p);
    EstimateInNumbers(p);
    LossLimitInNumbers(p.dailyPnl, p.capital);
    PctInNumbers(estimate, p.capital, 3.0);
    PctInNumbers(SectorHeat(p.openPositions, p.proposedSector) + estimate, p.capital, 5.0);
    PctInNumbers(Heat(p.openPositions) + estimate, p.capital, 7.0);
    GuardExact(p.proposedReturns, ReturnsOf(p.openPositions), 0.7);
    hide SizeFor, Heat, SectorHeat, Guard, Pearson, Exceeds, LossWithinLimit, WithinPct, PreliminaryRisk, Estimated;
  }

  /** The 3-5-7 rules on any amount: 3 percent for the amount alone, 5 with its sector's open risk, 7 with all of it, in
      this order and up to the first that fails; without a positive capital a single failure under its own name. */
  lemma {:induction false} RulesInNumbers(p: Parameters, amount: real)
    ensures var alone, sector, all := amount <= 0.03 * p.capital,
                                      SectorHeat(p.openPositions, p.proposedSector) + amount <= 0.05 * p.capital,
                                      Heat(p.openPositions) + amount <= 0.07 * p.capital;
            Rules(p, amount) ==
            if p.capital <= 0.0 then [RiskCheck(ThreeFiveSeven, false)]
            else if !alone then [RiskCheck(MaxPerTradeRisk, false)]
            else if !sector then [RiskCheck(MaxPerTradeRisk, true), RiskCheck(MaxSectorRisk, false)]
            else [RiskCheck(MaxPerTradeRisk, true), RiskCheck(MaxSectorRisk, true), RiskCheck(MaxPortfolioHeat, all)]
  {
    if p.capital > 0.0 {
      var sector, all := SectorHeat(p.openPositions, p.proposedSector) + amount, Heat(p.openPositions) + amount;
      PctInNumbers(amount, p.capital, 3.0);
      PctInNumbers(sector, p.capital, 5.0);
      PctInNumbers(all, p.capital, 7.0);
      hide Heat, SectorHeat, WithinPct;
      UntilFailureOfThree(RiskCheck(MaxPerTradeRisk, WithinPct(amount, p.capital, 3.0)),
        RiskCheck(MaxSectorRisk, WithinPct(sector, p.capital, 5.0)),
        RiskCheck(MaxPortfolioHeat, WithinPct(all, p.capital, 7.0)));
    }
  }

  lemma {:induction false} StopsWhereItFails(gs: seq<RiskCheck>)
    requires gs != []
    ensures var n := |UntilFailure(gs)|;
            && 1 <= n <= |gs| && UntilFailure(gs) == gs[..n] && AllPass(gs[..n - 1]) && (n < |gs| ==> !gs[n - 1].passed)
            && FirstFailure(gs) == if gs[n - 1].passed then None else Some(gs[n - 1].name)
  {
    if AllPass(gs) {
      RunsThrough(gs);
      assert gs[..|gs|] == gs;
    } else {
      var k := FirstFailing(gs);
      StopsAt(gs, k);
    }
  }

  /** The gates of any evaluation; without a positive capital they end with the failing breaker. */
  lemma AllGatesInNumbers(entry: real, stop: real, p: Parameters)
    ensures var gs := AllGates(entry, stop, p);
            && (|gs| == 9 || (|gs| == 2 && !gs[1].passed))
            && forall i :: 0 <= i < |gs| ==>
                 gs[i] == RiskCheck(GUARD_ORDER[i], Clears(GUARD_ORDER[i], entry, stop, p))
  {
    if p.capital > 0.0 {
      GatesInNumbers(entry, stop, p);
      hide Gates, Clears;
    } else {
      hide SizeFor, Heat, SectorHeat, Pearson, Exceeds, Estimated;
    }
  }

  /**
   * The decision in full. The checks are those of the documented order up to the first that fails, each with the
   * outcome its condition gives; the trade is approved exactly when the last of them passes, with the computed size,
   * and otherwise rejected for it.
   */
  lemma {:induction false} DecisionInNumbers(entry: real, stop: real, p: Parameters)
    ensures var d := Decided(entry, stop, p);
            var n := |d.checks|;
            && 1 <= n <= 9
            && (forall i :: 0 <= i < n ==>
                  d.checks[i] == RiskCheck(GUARD_ORDER[i], Clears(GUARD_ORDER[i], entry, stop, p)))
            && (forall i :: 0 <= i < n - 1 ==> Clears(GUARD_ORDER[i], entry, stop, p))
            && (n < 9 ==> !d.approved)
            && (d.approved <==> Clears(GUARD_ORDER[n - 1], entry, stop, p))
            && d.rejection == (if d.approved then None else Some(GUARD_ORDER[n - 1]))
            && d.positionSize == if d.approved then SizeFor(entry, stop, p) else None
  {
    var gs := AllGates(entry, stop, p);
    StopsWhereItFails(gs);
    AllGatesInNumbers(entry, stop, p);
    hide AllGates, SizeFor, Clears, UntilFailure, FirstFailure;
    var n := |UntilFailure(gs)|;
    assert forall i :: 0 <= i < n ==> gs[..n][i] == gs[i];
    assert forall i :: 0 <= i < n - 1 ==> gs[..n - 1][i] == gs[i];
  }

  /** Approved exactly when the capital is positive and all nine conditions hold. */
  lemma {:induction false} ApprovedInNumbers(entry: real, stop: real, p: Parameters)
    ensures Decided(entry, stop, p).approved <==>
            p.capital > 0.0 && forall i :: 0 <= i < 9 ==> Clears(GUARD_ORDER[i], entry, stop, p)
  {
    ApprovedIffAllGates(entry, stop, p);
    if p.capital > 0.0 {
      GatesInNumbers(entry, stop, p);
    }
    hide Gates, Decided, Clears;
  }

  /** A loss of 2 percent of the capital or more always rejects, at the breaker or before; a smaller one never does. */
  lemma {:induction false} DailyLossStops(entry: real, stop: real, p: Parameters)
    requires p.capital > 0.0
    ensures var d := Decided(entry, stop, p);
            && (p.dailyPnl <= -0.02 * p.capital ==> !d.approved && |d.checks| <= 2)
            && (p.dailyPnl > -0.02 * p.capital ==> d.rejection != Some(CircuitBreaker))
  {
    DecisionInNumbers(entry, stop, p);
    hide Decided, SizeFor, Heat, SectorHeat, Pearson, Exceeds, Estimated;
    var d := Decided(entry, stop, p);
    assert GUARD_ORDER[1] == CircuitBreaker;
    assert forall i :: 0 <= i < 9 && GUARD_ORDER[i] == CircuitBreaker ==> i == 1;
  }

  /** The cap on the final size, in money: the loss may reach 3.00005 percent, which still rounds to 3. */
  lemma {:induction false} FinalCapInNumbers(entry: real, stop: real, p: Parameters)
    requires p.capital > 0.0 && SizeFor(entry, stop, p).Some?
    ensures var q, distance := SizeFor(entry, stop, p).value.quantity, StopDistance(entry, stop);
            Clears(FinalPerTradeCap, entry, stop, p) <==> Times(q as real, distance) <= 0.0300005 * p.capital
  {
    var q, distance := SizeFor(entry, stop, p).value.quantity, StopDistance(entry, stop);
    var loss := Times(q as real, distance);
    RecordedPct(entry, stop, p);
    CapClears(entry, stop, p);
    hide *;
    CapRounded(loss / p.capital * 100.0);
    QuotientOrder(loss, p.capital, 0.0300005);
  }

  lemma CapClears(entry: real, stop: real, p: Parameters)
    requires SizeFor(entry, stop, p).Some?
    ensures Clears(FinalPerTradeCap, entry, stop, p) <==> SizeFor(entry, stop, p).value.riskPct <= 3.0
  {
  }

  lemma RecordedPct(entry: real, stop: real, p: Parameters)
    requires p.capital > 0.0 && SizeFor(entry, stop, p).Some?
    ensures var q, distance := SizeFor(entry, stop, p).value.quantity, StopDistance(entry, stop);
            SizeFor(entry, stop, p).value.riskPct == Round4(Times(q as real, distance) / p.capital * 100.0)
  {
    hide Round4, Times, Shares, AtrBudget, KellyBudget, StopDistance, MinDistance;
  }

  lemma CapRounded(pct: real)
    ensures Round4(pct) <= 3.0 <==> pct <= 3.00005
  {
    RoundHalfEvenAtMost(pct * 10000.0, 30000);
    hide RoundHalfEven;
  }

  /** The open risk is the sum of the recorded amounts, and a sector's the sum of those of its positions. */
  lemma {:induction false} HeatIsSum(ps: seq<OpenPosition>, sector: string)
    ensures Heat(ps) == Sum(seq(|ps|, i requires 0 <= i < |ps| => ps[i].riskAmount))
    ensures SectorHeat(ps, sector)
         == Sum(seq(|ps|, i requires 0 <= i < |ps| => if ps[i].sector == sector then ps[i].riskAmount else 0.0))
  {
    if ps != [] {
      HeatIsSum(Front(ps), sector);
      var all, own := seq(|ps|, i requires 0 <= i < |ps| => ps[i].riskAmount),
                      seq(|ps|, i requires 0 <= i < |ps| => if ps[i].sector == sector then ps[i].riskAmount else 0.0);
      var n := |ps| - 1;
      assert Front(all) == seq(n, i requires 0 <= i < n => Front(ps)[i].riskAmount);
      assert Front(own)
          == seq(n, i requires 0 <= i < n => if Front(ps)[i].sector == sector then Front(ps)[i].riskAmount else 0.0);
    }
  }
}
