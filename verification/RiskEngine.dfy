/** The guards before a new position, in order, and the decision they lead to. */
module RiskEngine {
  import opened Common
  import opened Numbers
  import opened Correlation
  import opened Sizing

  const DAILY_LOSS_LIMIT_PCT := -2.0
  const MAX_DAILY_TRADES := 10
  const MAX_SINGLE_TRADE_LOSS_PCT := 3.0
  const MAX_SECTOR_EXPOSURE_PCT := 5.0
  const MAX_PORTFOLIO_HEAT_PCT := 7.0
  const RISK_PCT_BULL_TREND := 1.0
  const RISK_PCT_BEAR_TREND := 0.75
  const RISK_PCT_MEAN_REVERTING := 0.5
  const RISK_PCT_HIGH_VOL_CHAOS := 0.0

  datatype Regime = BullTrend | BearTrend | MeanReverting | HighVolChaos

  datatype OpenPosition = OpenPosition(symbol: string, sector: string, riskAmount: real, history: seq<real>)

  datatype Parameters = Parameters(
    capital: real, openPositions: seq<OpenPosition>, dailyPnl: real, dailyTradeCount: int, isSnapshotWindow: bool,
    regime: Regime, proposedSector: string, proposedReturns: seq<real>,
    useKelly: bool, winRate: Option<real>, avgWinLossRatio: Option<real>, halted: bool)

  datatype CheckName =
    | SystemHalted | CircuitBreaker | DailyTradeLimit | ThreeFiveSeven
    | MaxPerTradeRisk | MaxSectorRisk | MaxPortfolioHeat | CorrelationGuard | SizingCheck | FinalPerTradeCap

  datatype RiskCheck = RiskCheck(name: CheckName, passed: bool)

  /** The reason of a rejection is the detail of the failing check, here its name. */
  datatype Decision = Decision(approved: bool, positionSize: Option<PositionSize>, rejection: Option<CheckName>,
      checks: seq<RiskCheck>)

  function RegimeRiskPct(r: Regime): (pct: real)
    ensures 0.0 <= pct <= 1.0
  {
    match r
    case BullTrend => RISK_PCT_BULL_TREND
    case BearTrend => RISK_PCT_BEAR_TREND
    case MeanReverting => RISK_PCT_MEAN_REVERTING
    case HighVolChaos => RISK_PCT_HIGH_VOL_CHAOS
  }

  function Heat(ps: seq<OpenPosition>): real {
    if ps == [] then 0.0 else Heat(Front(ps)) + Last(ps).riskAmount
  }

  function SectorHeat(ps: seq<OpenPosition>, sector: string): real {
    if ps == [] then 0.0
    else SectorHeat(Front(ps), sector) + (if Last(ps).sector == sector then Last(ps).riskAmount else 0.0)
  }

  function ReturnsOf(ps: seq<OpenPosition>): (rs: seq<seq<real>>)
    ensures |rs| == |ps| && forall i :: 0 <= i < |ps| ==> rs[i] == ps[i].history
  {
    seq(|ps|, i requires 0 <= i < |ps| => ps[i].history)
  }

  /** The estimate the 3-5-7 rule is applied to, before sizing. */
  function PreliminaryRisk(p: Parameters): real {
    p.capital * (RegimeRiskPct(p.regime) / 100.0) * SnapshotMultiplier(p.isSnapshotWindow)
  }

  function SizeFor(entry: real, stop: real, p: Parameters): Option<PositionSize> {
    var pct := RegimeRiskPct(p.regime);
    var multiplier := pct / RISK_PCT_BULL_TREND;
    if p.useKelly && p.winRate.Some? && p.avgWinLossRatio.Some? then
      KellySize(p.capital, entry, stop, p.winRate.value, p.avgWinLossRatio.value, multiplier, p.isSnapshotWindow)
    else AtrSize(p.capital, entry, stop, pct, multiplier, p.isSnapshotWindow)
  }

  // ---- Each gate on its own ----

  predicate LossWithinLimit(dailyPnl: real, capital: real) {
    capital > 0.0 && dailyPnl / capital * 100.0 > DAILY_LOSS_LIMIT_PCT
  }

  /** The breaker trips at a loss of 2 percent of the capital, and whenever the capital is not positive. */
  lemma LossLimitInNumbers(dailyPnl: real, capital: real)
    ensures LossWithinLimit(dailyPnl, capital) <==> capital > 0.0 && dailyPnl > -0.02 * capital
  {
    if capital > 0.0 {
      QuotientOrder(dailyPnl, capital, -0.02);
    }
  }

  /** A share of capital within a percentage limit. */
  predicate WithinPct(amount: real, capital: real, limit: real)
    requires capital > 0.0
  {
    amount / capital * 100.0 <= limit
  }

  lemma PctInNumbers(amount: real, capital: real, limit: real)
    requires capital > 0.0
    ensures WithinPct(amount, capital, limit) <==> amount <= limit / 100.0 * capital
  {
    QuotientOrder(amount, capital, limit / 100.0);
  }

  /** Every gate with its own outcome, as if no earlier one had stopped the evaluation. */
  function Gates(entry: real, stop: real, p: Parameters): seq<RiskCheck>
    requires p.capital > 0.0
  {
    var prelim := PreliminaryRisk(p);
    var size := SizeFor(entry, stop, p);
    [RiskCheck(SystemHalted, !p.halted),
     RiskCheck(CircuitBreaker, LossWithinLimit(p.dailyPnl, p.capital)),
     RiskCheck(DailyTradeLimit, p.dailyTradeCount < MAX_DAILY_TRADES),
     RiskCheck(MaxPerTradeRisk, WithinPct(prelim, p.capital, MAX_SINGLE_TRADE_LOSS_PCT)),
     RiskCheck(MaxSectorRisk,
       WithinPct(SectorHeat(p.openPositions, p.proposedSector) + prelim, p.capital, MAX_SECTOR_EXPOSURE_PCT)),
     RiskCheck(MaxPortfolioHeat, WithinPct(Heat(p.openPositions) + prelim, p.capital, MAX_PORTFOLIO_HEAT_PCT)),
     RiskCheck(CorrelationGuard,
       GuardPassed(Guard(p.proposedReturns, ReturnsOf(p.openPositions), MAX_POSITION_CORRELATION))),
     RiskCheck(SizingCheck, size.Some?),
     RiskCheck(FinalPerTradeCap, size.Some? && size.value.riskPct <= MAX_SINGLE_TRADE_LOSS_PCT)]
  }

  /** The gates of an evaluation; without positive capital it cannot get past the circuit breaker. */
  function AllGates(entry: real, stop: real, p: Parameters): (gs: seq<RiskCheck>)
    ensures |gs| >= 2
  {
    if p.capital > 0.0 then Gates(entry, stop, p)
    else [RiskCheck(SystemHalted, !p.halted), RiskCheck(CircuitBreaker, false)]
  }

  predicate AllPass(gs: seq<RiskCheck>) {
    forall i :: 0 <= i < |gs| ==> gs[i].passed
  }

  /** The checks up to and including the first that fails. */
  function UntilFailure(gs: seq<RiskCheck>): seq<RiskCheck> {
    if gs == [] then []
    else if !gs[0].passed then [gs[0]] else [gs[0]] + UntilFailure(gs[1..])
  }

  function FirstFailure(gs: seq<RiskCheck>): Option<CheckName> {
    if gs == [] then None
    else if !gs[0].passed then Some(gs[0].name) else FirstFailure(gs[1..])
  }

  // ---- The checks as the engine runs them ----

  method CheckHaltedFlag(halted: bool) returns (c: RiskCheck)
    ensures c == RiskCheck(SystemHalted, !halted)
  {
    if halted {
      return RiskCheck(SystemHalted, false);
    }
    c := RiskCheck(SystemHalted, true);
  }

  method CheckDailyLossLimit(dailyPnl: real, capital: real) returns (c: RiskCheck)
    ensures c == RiskCheck(CircuitBreaker, LossWithinLimit(dailyPnl, capital))
    ensures c.passed <==> capital > 0.0 && dailyPnl > -0.02 * capital
  {
    LossLimitInNumbers(dailyPnl, capital);
    if capital <= 0.0 {
      return RiskCheck(CircuitBreaker, false);
    }
    var pnlPct := dailyPnl / capital * 100.0;
    if pnlPct <= DAILY_LOSS_LIMIT_PCT {
      return RiskCheck(CircuitBreaker, false);
    }
    c := RiskCheck(CircuitBreaker, true);
  }

  method CheckDailyTradeCount(count: int) returns (c: RiskCheck)
    ensures c == RiskCheck(DailyTradeLimit, count < MAX_DAILY_TRADES)
  {
    if count >= MAX_DAILY_TRADES {
      return RiskCheck(DailyTradeLimit, false);
    }
    c := RiskCheck(DailyTradeLimit, true);
  }

  /** The three rules on an amount, stopping at the first that fails. */
  function Rules(p: Parameters, amount: real): seq<RiskCheck> {
    if p.capital <= 0.0 then [RiskCheck(ThreeFiveSeven, false)]
    else UntilFailure([
      RiskCheck(MaxPerTradeRisk, WithinPct(amount, p.capital, MAX_SINGLE_TRADE_LOSS_PCT)),
      RiskCheck(MaxSectorRisk,
        WithinPct(SectorHeat(p.openPositions, p.proposedSector) + amount, p.capital, MAX_SECTOR_EXPOSURE_PCT)),
      RiskCheck(MaxPortfolioHeat, WithinPct(Heat(p.openPositions) + amount, p.capital, MAX_PORTFOLIO_HEAT_PCT))])
  }

  method CheckThreeFiveSeven(p: Parameters, proposedRiskAmount: real) returns (checks: seq<RiskCheck>)
    ensures checks == Rules(p, proposedRiskAmount)
  {
    hide WithinPct, Heat, SectorHeat;
    if p.capital <= 0.0 {
      return [RiskCheck(ThreeFiveSeven, false)];
    }
    ghost var r1 := RiskCheck(MaxPerTradeRisk, WithinPct(proposedRiskAmount, p.capital, MAX_SINGLE_TRADE_LOSS_PCT));
    ghost var r2 := RiskCheck(MaxSectorRisk,
      WithinPct(SectorHeat(p.openPositions, p.proposedSector) + proposedRiskAmount, p.capital,
          MAX_SECTOR_EXPOSURE_PCT));
    ghost var r3 := RiskCheck(MaxPortfolioHeat,
      WithinPct(Heat(p.openPositions) + proposedRiskAmount, p.capital, MAX_PORTFOLIO_HEAT_PCT));
    UntilFailureOfThree(r1, r2, r3);
    var perTrade := RiskCheck(MaxPerTradeRisk, WithinPct(proposedRiskAmount, p.capital, MAX_SINGLE_TRADE_LOSS_PCT));
    checks := [perTrade];
    if !perTrade.passed {
      return;
    }
    var sectorRisk := SectorHeat(p.openPositions, p.proposedSector);
    var sector :=
      RiskCheck(MaxSectorRisk, WithinPct(sectorRisk + proposedRiskAmount, p.capital, MAX_SECTOR_EXPOSURE_PCT));
    checks := checks + [sector];
    if !sector.passed {
      return;
    }
    var totalHeat := Heat(p.openPositions);
    checks := checks +
      [RiskCheck(MaxPortfolioHeat, WithinPct(totalHeat + proposedRiskAmount, p.capital, MAX_PORTFOLIO_HEAT_PCT))];
  }

  lemma UntilFailureOfThree(a: RiskCheck, b: RiskCheck, c: RiskCheck)
    ensures UntilFailure([a, b, c]) ==
            if !a.passed then [a] else if !b.passed then [a, b] else [a, b, c]
  {
    assert [a, b, c][1..] == [b, c] && [b, c][1..] == [c] && [c][1..] == [];
    assert UntilFailure([c]) == [c];
    assert UntilFailure([b, c]) == if !b.passed then [b] else [b, c];
  }

  /** The decision an evaluation must reach, from the gates alone. */
  function Decided(entry: real, stop: real, p: Parameters): Decision {
    var gs := AllGates(entry, stop, p);
    var ok := FirstFailure(gs).None?;
    Decision(ok, if ok then SizeFor(entry, stop, p) else None, FirstFailure(gs), UntilFailure(gs))
  }

  lemma {:induction false} StopsAt(gs: seq<RiskCheck>, k: nat)
    requires k < |gs| && AllPass(gs[..k]) && !gs[k].passed
    ensures UntilFailure(gs) == gs[..k + 1] && FirstFailure(gs) == Some(gs[k].name)
  {
    if k > 0 {
      assert gs[..k][0].passed;
      assert gs[1..][..k - 1] == gs[..k][1..];
      StopsAt(gs[1..], k - 1);
      assert gs[..k + 1] == [gs[0]] + gs[1..][..k];
    } else {
      assert gs[..1] == [gs[0]];
    }
  }

  lemma {:induction false} RunsThrough(gs: seq<RiskCheck>)
    requires AllPass(gs)
    ensures UntilFailure(gs) == gs && FirstFailure(gs).None?
  {
    if gs != [] {
      RunsThrough(gs[1..]);
      assert gs == [gs[0]] + gs[1..];
    }
  }

  function Reject(checks: seq<RiskCheck>): Decision
    requires checks != []
  {
    Decision(false, None, Some(Last(checks).name), checks)
  }

  /** A failing gate after passing ones decides the evaluation. */
  lemma DecidedAt(entry: real, stop: real, p: Parameters, k: nat)
    requires var gs := AllGates(entry, stop, p); k < |gs| && AllPass(gs[..k]) && !gs[k].passed
    ensures Decided(entry, stop, p) == Reject(AllGates(entry, stop, p)[..k + 1])
  {
    hide AllGates, SizeFor;
    StopsAt(AllGates(entry, stop, p), k);
  }

  lemma DecidedThrough(entry: real, stop: real, p: Parameters)
    requires AllPass(AllGates(entry, stop, p))
    ensures Decided(entry, stop, p) == Decision(true, SizeFor(entry, stop, p), None, AllGates(entry, stop, p))
  {
    hide AllGates, SizeFor;
    RunsThrough(AllGates(entry, stop, p));
  }

  /** Guards 1 to 3: no division by capital happens before the circuit breaker has seen it positive. */
  method EarlyChecks(p: Parameters) returns (checks: seq<RiskCheck>)
    ensures 1 <= |checks| <= 3
    ensures forall entry, stop :: checks <= AllGates(entry, stop, p)
    ensures AllPass(Front(checks)) && (Last(checks).passed ==> |checks| == 3 && p.capital > 0.0)
  {
    hide Gates;
    forall entry, stop
      ensures EarlyGates(p) <= AllGates(entry, stop, p)
    {
      EarlyGatesFirst(entry, stop, p);
    }
    var halted := CheckHaltedFlag(p.halted);
    checks := [halted];
    if !halted.passed {
      return;
    }
    var breaker := CheckDailyLossLimit(p.dailyPnl, p.capital);
    checks := checks + [breaker];
    if !breaker.passed {
      return;
    }
    var trades := CheckDailyTradeCount(p.dailyTradeCount);
    checks := checks + [trades];
  }

  function EarlyGates(p: Parameters): seq<RiskCheck> {
    [RiskCheck(SystemHalted, !p.halted), RiskCheck(CircuitBreaker, LossWithinLimit(p.dailyPnl, p.capital))]
    + if p.capital > 0.0 then [RiskCheck(DailyTradeLimit, p.dailyTradeCount < MAX_DAILY_TRADES)] else []
  }

  lemma EarlyGatesFirst(entry: real, stop: real, p: Parameters)
    ensures EarlyGates(p) <= AllGates(entry, stop, p)
  {
  }

  /** The rules on the estimate are the gates from the fourth to the sixth, up to the first that fails. */
  lemma RulesAreGates(entry: real, stop: real, p: Parameters)
    requires p.capital > 0.0
    ensures var checks := Rules(p, PreliminaryRisk(p));
            && 1 <= |checks| <= 3 && |AllGates(entry, stop, p)| == 9
            && checks <= AllGates(entry, stop, p)[3..6]
            && AllPass(Front(checks)) && (Last(checks).passed ==> |checks| == 3)
  {
    hide WithinPct, Heat, SectorHeat, LossWithinLimit, Guard, SizeFor, PreliminaryRisk, UntilFailure;
    var gs := Gates(entry, stop, p);
    UntilFailureOfThree(gs[3], gs[4], gs[5]);
    assert gs[3..6] == [gs[3], gs[4], gs[5]];
  }

  method Evaluate(entryPrice: real, stopLoss: real, p: Parameters) returns (d: Decision)
    ensures d == Decided(entryPrice, stopLoss, p)
  {
    ghost var gs := AllGates(entryPrice, stopLoss, p);
    var checks := EarlyChecks(p);
    hide AllGates, SizeFor, Decided, WithinPct, Heat, SectorHeat, LossWithinLimit, Guard, Rules;
    if !Last(checks).passed {
      assert checks == gs[..|checks|] && Front(checks) == gs[..|checks| - 1];
      DecidedAt(entryPrice, stopLoss, p, |checks| - 1);
      return Reject(checks);
    }
    GatesAt(entryPrice, stopLoss, p);
    assert checks == gs[..3];
    AllPassSnoc(Front(checks), Last(checks));
    FrontLast(checks);
    var regimePct := RegimeRiskPct(p.regime);
    var preliminaryRisk := p.capital * (regimePct / 100.0) * SnapshotMultiplier(p.isSnapshotWindow);
    var threeFiveSeven := CheckThreeFiveSeven(p, preliminaryRisk);
    RulesAreGates(entryPrice, stopLoss, p);
    RulesExtend(gs, threeFiveSeven);
    checks := checks + threeFiveSeven;
    if !Last(threeFiveSeven).passed {
      DecidedAt(entryPrice, stopLoss, p, 2 + |threeFiveSeven|);
      return Reject(checks);
    }
    PassNext(gs, 5);
    var guard := CheckCorrelationGuard(p.proposedReturns, ReturnsOf(p.openPositions), MAX_POSITION_CORRELATION);
    var corrCheck := RiskCheck(CorrelationGuard, GuardPassed(guard));
    checks := checks + [corrCheck];
    if !corrCheck.passed {
      DecidedAt(entryPrice, stopLoss, p, 6);
      assert checks == gs[..7];
      return Reject(checks);
    }
    PassNext(gs, 6);
    var size := SizeFor(entryPrice, stopLoss, p);
    if size.None? {
      checks := checks + [RiskCheck(SizingCheck, false)];
      DecidedAt(entryPrice, stopLoss, p, 7);
      assert checks == gs[..8];
      return Reject(checks);
    }
    checks := checks + [RiskCheck(SizingCheck, true)];
    PassNext(gs, 7);
    if size.value.riskPct > MAX_SINGLE_TRADE_LOSS_PCT {
      checks := checks + [RiskCheck(FinalPerTradeCap, false)];
      DecidedAt(entryPrice, stopLoss, p, 8);
      assert checks == gs[..9];
      return Reject(checks);
    }
    checks := checks + [RiskCheck(FinalPerTradeCap, true)];
    PassNext(gs, 8);
    assert gs[..9] == gs == checks;
    DecidedThrough(entryPrice, stopLoss, p);
    d := Decision(true, size, None, checks);
  }

  lemma GatesAt(entry: real, stop: real, p: Parameters)
    requires p.capital > 0.0
    ensures var gs, size := AllGates(entry, stop, p), SizeFor(entry, stop, p);
            && |gs| == 9
            && gs[6] == RiskCheck(CorrelationGuard,
                 GuardPassed(Guard(p.proposedReturns, ReturnsOf(p.openPositions), MAX_POSITION_CORRELATION)))
            && gs[7] == RiskCheck(SizingCheck, size.Some?)
            && gs[8] == RiskCheck(FinalPerTradeCap, size.Some? && size.value.riskPct <= MAX_SINGLE_TRADE_LOSS_PCT)
  {
  }

  /** Checks 4 to 6, appended to the first three. */
  lemma RulesExtend(gs: seq<RiskCheck>, rules: seq<RiskCheck>)
    requires |gs| >= 6 && 1 <= |rules| <= 3 && rules <= gs[3..6]
    requires AllPass(gs[..3]) && AllPass(Front(rules))
    ensures var n := 3 + |rules|;
            gs[..3] + rules == gs[..n] && Last(rules) == gs[n - 1] && AllPass(gs[..n - 1])
  {
    var n := 3 + |rules|;
    assert rules == gs[3..6][..|rules|] == gs[3..n];
    assert Front(rules) == gs[3..n - 1];
    AllPassJoined(gs[..3], Front(rules));
    assert gs[..3] + Front(rules) == gs[..n - 1];
  }

  lemma AllPassSnoc(gs: seq<RiskCheck>, g: RiskCheck)
    requires AllPass(gs) && g.passed
    ensures AllPass(gs + [g])
  {
  }

  lemma AllPassJoined(gs: seq<RiskCheck>, hs: seq<RiskCheck>)
    requires AllPass(gs) && AllPass(hs)
    ensures AllPass(gs + hs)
  {
  }

  lemma PassNext(gs: seq<RiskCheck>, k: nat)
    requires k < |gs| && AllPass(gs[..k]) && gs[k].passed
    ensures AllPass(gs[..k + 1])
  {
    assert gs[..k + 1] == gs[..k] + [gs[k]];
  }

  // ---- What a decision means ----

  /** Approved exactly when capital is positive and every gate passes on its own; then the size is the computed one. */
  lemma {:induction false} ApprovedIffAllGates(entry: real, stop: real, p: Parameters)
    ensures var d := Decided(entry, stop, p);
            && (d.approved <==> p.capital > 0.0 && AllPass(Gates(entry, stop, p)))
            && (d.approved <==> AllPass(d.checks)) && (d.approved <==> d.rejection.None?)
            && (d.approved ==> d.positionSize == SizeFor(entry, stop, p) && d.positionSize.Some?)
            && (!d.approved ==> d.positionSize.None?)
  {
    hide Gates, SizeFor, WithinPct, Heat, SectorHeat, LossWithinLimit, Guard;
    var gs := AllGates(entry, stop, p);
    if AllPass(gs) {
      RunsThrough(gs);
      assert gs[1].passed;
      GatesAt(entry, stop, p);
      assert gs[7].passed;
    } else {
      var k := FirstFailing(gs);
      StopsAt(gs, k);
      assert UntilFailure(gs)[k] == gs[k];
      if p.capital <= 0.0 {
        assert !gs[1].passed;
      }
    }
  }

  lemma {:induction false} FirstFailing(gs: seq<RiskCheck>) returns (k: nat)
    requires !AllPass(gs)
    ensures k < |gs| && AllPass(gs[..k]) && !gs[k].passed
  {
    var j :| 0 <= j < |gs| && !gs[j].passed;
    if !gs[0].passed {
      k := 0;
    } else {
      assert gs[1..][j - 1] == gs[j];
      var m := FirstFailing(gs[1..]);
      k := m + 1;
      assert gs[..k] == [gs[0]] + gs[1..][..m];
    }
  }

  lemma PctOfShare(capital: real, pct: real, m: real)
    requires capital > 0.0
    ensures capital * (pct / 100.0) * m / capital * 100.0 == pct * m
  {
    assert capital * (pct / 100.0) * m == pct * m / 100.0 * capital;
    assert pct * m / 100.0 * capital / capital == pct * m / 100.0;
  }

  /** The first of the three rules never fires: the estimate is at most one percent of capital. */
  lemma {:induction false} PerTradeRuleNeverFails(entry: real, stop: real, p: Parameters)
    requires p.capital > 0.0
    ensures Gates(entry, stop, p)[3] == RiskCheck(MaxPerTradeRisk, true)
  {
    hide Heat, SectorHeat, Guard, SizeFor, LossWithinLimit;
    PctOfShare(p.capital, RegimeRiskPct(p.regime), SnapshotMultiplier(p.isSnapshotWindow));
  }

  /** Sizing goes by Kelly only when it is asked for and both of its inputs are there. */
  predicate SizedByKelly(p: Parameters) {
    p.useKelly && p.winRate.Some? && p.avgWinLossRatio.Some?
  }

  /** What the sizing in use checks of its own inputs; only fixed-risk sizing looks at the sign of the entry price. */
  predicate SizingInputsValid(entry: real, p: Parameters) {
    if SizedByKelly(p) then 0.0 < p.winRate.value < 1.0 && p.avgWinLossRatio.value > 0.0 else entry > 0.0
  }

  /**
   * HIGH_VOL_CHAOS is documented as zero risk without exceptions, yet its risk budget of zero still buys one share,
   * on either sizing path: a proposal is approved exactly when the other gates pass, the sizing accepts its inputs and
   * one share's loss stays under the cap.
   */
  lemma {:induction false} ChaosApprovesOneShare(entry: real, stop: real, p: Parameters)
    requires p.regime == HighVolChaos
    ensures var d, distance := Decided(entry, stop, p), StopDistance(entry, stop);
            && (d.approved <==>
                  && p.capital > 0.0 && AllPass(Gates(entry, stop, p)[..7])
                  && SizingInputsValid(entry, p) && distance >= MinDistance(entry)
                  && Round4(distance / p.capital * 100.0) <= MAX_SINGLE_TRADE_LOSS_PCT)
            && (d.approved ==>
                  d.positionSize.value.quantity == 1 && d.positionSize.value.riskAmount == Round4(distance))
  {
    ApprovedIffAllGates(entry, stop, p);
    if p.capital > 0.0 {
      ChaosSize(entry, stop, p);
      hide Gates, SizeFor, Decided, Round4, StopDistance, MinDistance, SizingInputsValid;
      var gs := Gates(entry, stop, p);
      GatesAt(entry, stop, p);
      assert gs == gs[..7] + [gs[7], gs[8]];
      AllPassSplit(gs[..7], gs[7], gs[8]);
    }
  }

  lemma AllPassSplit(gs: seq<RiskCheck>, g: RiskCheck, h: RiskCheck)
    ensures AllPass(gs + [g, h]) <==> AllPass(gs) && g.passed && h.passed
  {
    if AllPass(gs + [g, h]) {
      forall i | 0 <= i < |gs|
        ensures gs[i].passed
      {
        assert (gs + [g, h])[i] == gs[i];
      }
      assert (gs + [g, h])[|gs|] == g && (gs + [g, h])[|gs| + 1] == h;
    }
  }

  lemma ChaosSize(entry: real, stop: real, p: Parameters)
    requires p.regime == HighVolChaos && p.capital > 0.0
    ensures var size, distance := SizeFor(entry, stop, p), StopDistance(entry, stop);
            && (size.Some? <==> SizingInputsValid(entry, p) && distance >= MinDistance(entry))
            && (size.Some? ==>
                  && size.value.quantity == 1 && size.value.riskAmount == Round4(distance)
                  && size.value.riskPct == Round4(distance / p.capital * 100.0))
  {
    hide Round4, FullKelly;
    var distance := StopDistance(entry, stop);
    LossOfOne(distance);
    if distance > 0.0 {
      SharesOfNothing(distance);
    }
    if SizingInputsValid(entry, p) && distance >= MinDistance(entry) {
      if SizedByKelly(p) {
        assert KellyBudget(p.capital, p.winRate.value, p.avgWinLossRatio.value, 0.0, p.isSnapshotWindow) == 0.0;
      } else {
        DistancePositive(entry, stop);
        assert AtrBudget(p.capital, 0.0, 0.0, p.isSnapshotWindow) == 0.0;
      }
    }
  }

  lemma SharesOfNothing(distance: real)
    requires distance > 0.0
    ensures Shares(0.0, distance) == 1
  {
    assert 0.0 / distance == 0.0;
  }
}
