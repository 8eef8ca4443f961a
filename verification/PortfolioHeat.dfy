/** Portfolio heat over whole runs of approvals and closures at a fixed capital. */
module PortfolioHeat {
  import opened Common
  import opened Numbers
  import opened Correlation
  import opened Sizing
  import opened RiskEngine

  type Book = seq<OpenPosition>

  /** A proposal put to the engine, which reads the current book, or the closure of one position. */
  datatype Event =
    | Propose(entry: real, stop: real, symbol: string, params: Parameters)
    | Close(index: nat)

  /** The parameters of a proposal, over the current book and the fixed capital. */
  function Asked(book: Book, capital: real, params: Parameters): Parameters {
    params.(capital := capital, openPositions := book)
  }

  /** An approved proposal opens a position with the risk amount of its size; a closure removes one. */
  function Step(book: Book, e: Event, capital: real): Book {
    match e
    case Propose(entry, stop, symbol, params) =>
      var d := Decided(entry, stop, Asked(book, capital, params));
      if d.approved && d.positionSize.Some? then
        book + [OpenPosition(symbol, params.proposedSector, d.positionSize.value.riskAmount, params.proposedReturns)]
      else book
    case Close(i) => if i < |book| then book[..i] + book[i + 1..] else book
  }

  function Run(book: Book, events: seq<Event>, capital: real): Book {
    if events == [] then book else Step(Run(book, Front(events), capital), Last(events), capital)
  }

  /** Risk amounts as the engine records them: not negative, four decimals. */
  predicate Orderly(book: Book) {
    forall i :: 0 <= i < |book| ==> book[i].riskAmount >= 0.0 && FourDecimals(book[i].riskAmount)
  }

  // ---- Heat as a sum ----

  lemma {:induction false} HeatJoined(a: Book, b: Book, sector: string)
    ensures Heat(a + b) == Heat(a) + Heat(b)
    ensures SectorHeat(a + b, sector) == SectorHeat(a, sector) + SectorHeat(b, sector)
  {
    if b == [] {
      assert a + b == a;
    } else {
      assert Front(a + b) == a + Front(b) && Last(a + b) == Last(b);
      HeatJoined(a, Front(b), sector);
    }
  }

  lemma HeatOpened(book: Book, x: OpenPosition, sector: string)
    ensures Heat(book + [x]) == Heat(book) + x.riskAmount
    ensures SectorHeat(book + [x], sector) == SectorHeat(book, sector)
        + (if x.sector == sector then x.riskAmount else 0.0)
  {
    AppendFrontLast(book, x);
  }

  lemma {:induction false} HeatNonNegative(book: Book, sector: string)
    requires Orderly(book)
    ensures 0.0 <= SectorHeat(book, sector) <= Heat(book)
    ensures FourDecimals(Heat(book)) && FourDecimals(SectorHeat(book, sector))
  {
    hide FourDecimals;
    ZeroFourDecimals();
    if book != [] {
      HeatNonNegative(Front(book), sector);
      FourDecimalsAdd(Heat(Front(book)), Last(book).riskAmount);
      FourDecimalsAdd(SectorHeat(Front(book), sector), Last(book).riskAmount);
    }
  }

  lemma ZeroFourDecimals()
    ensures FourDecimals(0.0)
  {
  }

  lemma OrderlyWithout(book: Book, i: nat)
    requires Orderly(book) && i < |book|
    ensures Orderly(book[..i] + book[i + 1..]) && book[i].riskAmount >= 0.0
  {
    hide FourDecimals;
  }

  lemma HeatClosed(book: Book, i: nat, sector: string)
    requires Orderly(book) && i < |book|
    ensures Orderly(book[..i] + book[i + 1..])
    ensures Heat(book[..i] + book[i + 1..]) <= Heat(book)
    ensures SectorHeat(book[..i] + book[i + 1..], sector) <= SectorHeat(book, sector)
  {
    hide FourDecimals, Heat, SectorHeat;
    OrderlyWithout(book, i);
    hide Orderly;
    var a, x, b := book[..i], book[i], book[i + 1..];
    assert book == (a + [x]) + b;
    HeatJoined(a + [x], b, sector);
    HeatOpened(a, x, sector);
    HeatJoined(a, b, sector);
  }

  // ---- One approval ----

  /** What an approval tells about the book it was given. */
  lemma ApprovalFacts(entry: real, stop: real, p: Parameters)
    requires Decided(entry, stop, p).approved
    ensures p.capital > 0.0 && SizeFor(entry, stop, p).Some?
    ensures Decided(entry, stop, p).positionSize == SizeFor(entry, stop, p)
    ensures Heat(p.openPositions) + PreliminaryRisk(p) <= 0.07 * p.capital
    ensures SectorHeat(p.openPositions, p.proposedSector) + PreliminaryRisk(p) <= 0.05 * p.capital
    ensures SizeFor(entry, stop, p).value.riskPct <= 3.0
  {
    ApprovedIffAllGates(entry, stop, p);
    hide SizeFor, Heat, SectorHeat, Guard, LossWithinLimit, PreliminaryRisk, Decided, WithinPct;
    var gs := Gates(entry, stop, p);
    assert gs[4].passed && gs[5].passed && gs[8].passed;
    PctInNumbers(SectorHeat(p.openPositions, p.proposedSector) + PreliminaryRisk(p), p.capital, 5.0);
    PctInNumbers(Heat(p.openPositions) + PreliminaryRisk(p), p.capital, 7.0);
  }

  /** The unrounded risk of a sized proposal. */
  function ActualRisk(entry: real, stop: real, p: Parameters): real
    requires SizeFor(entry, stop, p).Some?
  {
    Loss(SizeFor(entry, stop, p).value.quantity, StopDistance(entry, stop))
  }

  lemma SizeFacts(entry: real, stop: real, p: Parameters)
    requires SizeFor(entry, stop, p).Some? && p.capital > 0.0
    ensures var size, actual := SizeFor(entry, stop, p).value, ActualRisk(entry, stop, p);
            && actual >= 0.0 && size.riskAmount == Round4(actual)
            && size.riskPct == Round4(actual / p.capital * 100.0)
  {
    hide Round4;
    var size := SizeFor(entry, stop, p).value;
    assert size.quantity >= 1;
    LossNonNegative(size.quantity, StopDistance(entry, stop));
  }

  lemma LossNonNegative(q: int, distance: real)
    requires q >= 1 && distance >= 0.0
    ensures Loss(q, distance) >= 0.0
  {
  }

  lemma Round4NonNegative(x: real)
    requires x >= 0.0
    ensures Round4(x) >= 0.0 && FourDecimals(Round4(x))
  {
    RoundHalfEvenMonotone(0.0, x * 10000.0);
    Round4IsFourDecimals(x);
  }

  /** No approved size risks more than 3 percent of capital, up to the rounding of its percentage. */
  lemma {:induction false} ApprovedRiskCapped(entry: real, stop: real, p: Parameters)
    requires Decided(entry, stop, p).approved
    ensures SizeFor(entry, stop, p).Some? && ActualRisk(entry, stop, p) <= 0.0300005 * p.capital
  {
    ApprovalFacts(entry, stop, p);
    SizeFacts(entry, stop, p);
    hide SizeFor, Decided;
    var actual := ActualRisk(entry, stop, p);
    assert actual / p.capital * 100.0 <= 3.00005;
    QuotientOrder(actual, p.capital, 0.0300005);
  }

  // ---- Fixed-risk sizing with room for a whole share ----

  /** Fixed-risk sizing whose budget buys at least one share. */
  predicate Affordable(e: Event, capital: real) {
    e.Propose? ==>
      && !(e.params.useKelly && e.params.winRate.Some? && e.params.avgWinLossRatio.Some?)
      && StopDistance(e.entry, e.stop) <= Budget(capital, e.params.regime, e.params.isSnapshotWindow)
  }

  function Estimate(capital: real, r: Regime, inWindow: bool): real {
    capital * (RegimeRiskPct(r) / 100.0) * SnapshotMultiplier(inWindow)
  }

  function Budget(capital: real, r: Regime, inWindow: bool): real {
    AtrBudget(capital, RegimeRiskPct(r), RegimeRiskPct(r) / RISK_PCT_BULL_TREND, inWindow)
  }

  /** The regime scales the budget twice, so it never exceeds the estimate the gates saw. */
  lemma {:induction false} BudgetWithinEstimate(capital: real, r: Regime, inWindow: bool)
    requires capital > 0.0
    ensures 0.0 <= Budget(capital, r, inWindow) <= Estimate(capital, r, inWindow) <= 0.01 * capital
    ensures Budget(capital, r, inWindow) > 0.0 <==> r != HighVolChaos
  {
    match r {
      case BullTrend => if inWindow {}
      case BearTrend => if inWindow {}
      case MeanReverting => if inWindow {}
      case HighVolChaos => if inWindow {}
    }
  }

  /** An affordable approval risks a positive amount within its budget. */
  lemma AffordableRisk(entry: real, stop: real, p: Parameters)
    requires Decided(entry, stop, p).approved
    requires Affordable(Propose(entry, stop, "", p), p.capital)
    ensures SizeFor(entry, stop, p).Some?
    ensures 0.0 <= ActualRisk(entry, stop, p) <= Budget(p.capital, p.regime, p.isSnapshotWindow)
    ensures Budget(p.capital, p.regime, p.isSnapshotWindow) > 0.0
  {
    ApprovalFacts(entry, stop, p);
    SizeFacts(entry, stop, p);
    hide Decided, Round4, Loss, AtrBudget;
    DistancePositive(entry, stop);
    SharesAreLargest(Budget(p.capital, p.regime, p.isSnapshotWindow), StopDistance(entry, stop));
  }

  /** The largest amount with four decimals that does not exceed x. */
  function Floor4(x: real): real {
    (x * 10000.0).Floor as real / 10000.0
  }

  lemma Floor4IsGreatest(h: real, x: real)
    requires FourDecimals(h) && h <= x
    ensures h <= Floor4(x)
  {
  }

  lemma Floor4Facts(x: real)
    ensures FourDecimals(Floor4(x)) && Floor4(x) <= x < Floor4(x) + 0.0001
  {
    FourDecimalsOf(Floor4(x), (x * 10000.0).Floor);
  }

  lemma Round4Monotone(x: real, y: real)
    requires x <= y
    ensures Round4(x) <= Round4(y)
  {
    RoundHalfEvenMonotone(x * 10000.0, y * 10000.0);
  }

  // ---- The limits, proposal by proposal, whatever the sizing ----

  /** The decision on a proposal when no position is open. */
  function OnEmpty(e: Event, capital: real): Decision
    requires e.Propose?
  {
    Decided(e.entry, e.stop, Asked([], capital, e.params))
  }

  /** The fullest book the gate admits, plus a recorded risk, stays within the cap. */
  predicate Fits(capital: real, cap: real, r: Regime, inWindow: bool, risk: real) {
    Floor4(cap - Estimate(capital, r, inWindow)) + risk <= cap
  }

  /** A property of the proposal alone: what it records when approved fits beside the fullest book. */
  predicate KeepsCap(e: Event, capital: real, cap: real) {
    e.Propose? && OnEmpty(e, capital).approved && OnEmpty(e, capital).positionSize.Some? ==>
      Fits(capital, cap, e.params.regime, e.params.isSnapshotWindow, OnEmpty(e, capital).positionSize.value.riskAmount)
  }

  lemma EstimateIs(p: Parameters)
    ensures PreliminaryRisk(p) == Estimate(p.capital, p.regime, p.isSnapshotWindow)
  {
  }

  lemma SizeIgnoresBook(entry: real, stop: real, book: Book, capital: real, params: Parameters)
    ensures SizeFor(entry, stop, Asked(book, capital, params)) == SizeFor(entry, stop, Asked([], capital, params))
  {
  }

  /** The gates that look at the book: sector, heat and correlation. */
  lemma GatesOverBook(entry: real, stop: real, book: Book, capital: real, params: Parameters)
    requires capital > 0.0 && AllPass(Gates(entry, stop, Asked([], capital, params)))
    requires SectorHeat(book, params.proposedSector) + Estimate(capital, params.regime, params.isSnapshotWindow)
             <= 0.05 * capital
    requires Heat(book) + Estimate(capital, params.regime, params.isSnapshotWindow) <= 0.07 * capital
    requires GuardPassed(Guard(params.proposedReturns, ReturnsOf(book), MAX_POSITION_CORRELATION))
    ensures AllPass(Gates(entry, stop, Asked(book, capital, params)))
  {
    hide SizeFor, Heat, SectorHeat, Guard, LossWithinLimit, PreliminaryRisk, Estimate, WithinPct;
    var p, q := Asked([], capital, params), Asked(book, capital, params);
    var gs, hs := Gates(entry, stop, p), Gates(entry, stop, q);
    SizeIgnoresBook(entry, stop, book, capital, params);
    EstimateIs(q);
    PerTradeRuleNeverFails(entry, stop, q);
    PctInNumbers(SectorHeat(book, params.proposedSector) + PreliminaryRisk(q), capital, 5.0);
    PctInNumbers(Heat(book) + PreliminaryRisk(q), capital, 7.0);
    assert gs[0].passed && gs[1].passed && gs[2].passed && gs[7].passed && gs[8].passed;
  }

  lemma GatesOverNothing(entry: real, stop: real, book: Book, capital: real, params: Parameters)
    requires capital > 0.0 && AllPass(Gates(entry, stop, Asked(book, capital, params)))
    ensures AllPass(Gates(entry, stop, Asked([], capital, params)))
  {
    var p, q := Asked(book, capital, params), Asked([], capital, params);
    EstimateIs(q);
    BudgetWithinEstimate(capital, params.regime, params.isSnapshotWindow);
    hide SizeFor, LossWithinLimit, PreliminaryRisk, Estimate, WithinPct, Budget;
    var gs, hs := Gates(entry, stop, p), Gates(entry, stop, q);
    SizeIgnoresBook(entry, stop, book, capital, params);
    PerTradeRuleNeverFails(entry, stop, q);
    PctInNumbers(SectorHeat([], params.proposedSector) + PreliminaryRisk(q), capital, 5.0);
    PctInNumbers(Heat([]) + PreliminaryRisk(q), capital, 7.0);
    assert gs[0].passed && gs[1].passed && gs[2].passed && gs[7].passed && gs[8].passed;
  }

  /** An approval over any book: it is one over the empty book too, for the same recorded risk. */
  lemma Opened(book: Book, e: Event, capital: real) returns (x: OpenPosition)
    requires e.Propose? && Decided(e.entry, e.stop, Asked(book, capital, e.params)).approved
    ensures capital > 0.0 && OnEmpty(e, capital).approved && OnEmpty(e, capital).positionSize.Some?
    ensures x.riskAmount == OnEmpty(e, capital).positionSize.value.riskAmount >= 0.0 && FourDecimals(x.riskAmount)
    ensures x.sector == e.params.proposedSector && Step(book, e, capital) == book + [x]
    ensures var estimate := Estimate(capital, e.params.regime, e.params.isSnapshotWindow);
            && Heat(book) + estimate <= 0.07 * capital
            && SectorHeat(book, x.sector) + estimate <= 0.05 * capital
  {
    var p, q := Asked(book, capital, e.params), Asked([], capital, e.params);
    hide Gates, SizeFor, Decided, Heat, SectorHeat, Estimate, PreliminaryRisk, FourDecimals, Round4, ActualRisk;
    ApprovalFacts(e.entry, e.stop, p);
    ApprovedIffAllGates(e.entry, e.stop, p);
    GatesOverNothing(e.entry, e.stop, book, capital, e.params);
    ApprovedIffAllGates(e.entry, e.stop, q);
    SizeIgnoresBook(e.entry, e.stop, book, capital, e.params);
    SizeFacts(e.entry, e.stop, p);
    Round4NonNegative(ActualRisk(e.entry, e.stop, p));
    EstimateIs(p);
    x := OpenPosition(e.symbol, p.proposedSector, SizeFor(e.entry, e.stop, p).value.riskAmount, p.proposedReturns);
  }

  lemma StepKeepsHeat(book: Book, e: Event, capital: real)
    requires Orderly(book) && Heat(book) <= 0.07 * capital && KeepsCap(e, capital, 0.07 * capital)
    ensures Heat(Step(book, e, capital)) <= 0.07 * capital
  {
    hide Heat, SectorHeat, Orderly, FourDecimals, Decided, Estimate, Floor4, OnEmpty;
    if e.Close? {
      if e.index < |book| {
        HeatClosed(book, e.index, "");
      }
    } else if Decided(e.entry, e.stop, Asked(book, capital, e.params)).approved {
      var x := Opened(book, e, capital);
      HeatOpened(book, x, "");
      HeatNonNegative(book, "");
      Floor4IsGreatest(Heat(book), 0.07 * capital - Estimate(capital, e.params.regime, e.params.isSnapshotWindow));
    }
  }

  lemma StepKeepsSector(book: Book, e: Event, capital: real, sector: string)
    requires Orderly(book) && SectorHeat(book, sector) <= 0.05 * capital && KeepsCap(e, capital, 0.05 * capital)
    ensures SectorHeat(Step(book, e, capital), sector) <= 0.05 * capital
  {
    hide Heat, SectorHeat, Orderly, FourDecimals, Decided, Estimate, Floor4, OnEmpty;
    if e.Close? {
      if e.index < |book| {
        HeatClosed(book, e.index, sector);
      }
    } else if Decided(e.entry, e.stop, Asked(book, capital, e.params)).approved {
      var x := Opened(book, e, capital);
      HeatOpened(book, x, sector);
      HeatNonNegative(book, sector);
      if sector == x.sector {
        Floor4IsGreatest(SectorHeat(book, sector),
                         0.05 * capital - Estimate(capital, e.params.regime, e.params.isSnapshotWindow));
      }
    }
  }

  lemma StepOrderly(book: Book, e: Event, capital: real)
    requires Orderly(book)
    ensures Orderly(Step(book, e, capital))
  {
    hide Heat, SectorHeat, FourDecimals, Decided, Estimate, OnEmpty;
    if e.Close? {
      if e.index < |book| {
        OrderlyWithout(book, e.index);
      }
    } else if Decided(e.entry, e.stop, Asked(book, capital, e.params)).approved {
      var x := Opened(book, e, capital);
    }
  }

  /** One position that fills the cap as far as the gate lets the proposal through. */
  function FullestBook(e: Event, capital: real, cap: real, sector: string): Book
    requires e.Propose?
  {
    [OpenPosition("OLD", sector, Floor4(cap - Estimate(capital, e.params.regime, e.params.isSnapshotWindow)), [])]
  }

  lemma HeatOfOne(x: OpenPosition, sector: string)
    ensures Heat([x]) == x.riskAmount && SectorHeat([x], sector) == if x.sector == sector then x.riskAmount else 0.0
  {
    HeatOpened([], x, sector);
    assert [] + [x] == [x];
  }

  /** A position without returns never fails the guard. */
  lemma GuardWithoutReturns(proposed: seq<real>, book: Book)
    requires forall i :: 0 <= i < |book| ==> book[i].history == []
    ensures GuardPassed(Guard(proposed, ReturnsOf(book), MAX_POSITION_CORRELATION))
  {
    if book != [] && |proposed| >= 2 {
      GuardExact(proposed, ReturnsOf(book), MAX_POSITION_CORRELATION);
    }
  }

  /** What is approved over the empty book is approved over the fullest: of its sector, or of all. */
  lemma FullestBookFilled(e: Event, capital: real, cap: real, sector: string) returns (x: OpenPosition)
    requires e.Propose? && OnEmpty(e, capital).approved
    requires (cap == 0.07 * capital && sector != e.params.proposedSector)
          || (cap == 0.05 * capital && sector == e.params.proposedSector)
    ensures capital > 0.0 && OnEmpty(e, capital).positionSize.Some?
    ensures var book := FullestBook(e, capital, cap, sector);
            && Orderly(book) && Step(book, e, capital) == book + [x]
            && x.riskAmount == OnEmpty(e, capital).positionSize.value.riskAmount && x.sector == e.params.proposedSector
            && Heat(book) == SectorHeat(book, sector) == book[0].riskAmount <= cap
  {
    var r, w, book := e.params.regime, e.params.isSnapshotWindow, FullestBook(e, capital, cap, sector);
    var empty := Opened([], e, capital);
    BudgetWithinEstimate(capital, r, w);
    Floor4Facts(cap - Estimate(capital, r, w));
    ZeroFourDecimals();
    Floor4IsGreatest(0.0, cap - Estimate(capital, r, w));
    hide Gates, Decided, Heat, SectorHeat, Estimate, Floor4, FourDecimals, Guard, Budget;
    HeatOfOne(book[0], sector);
    HeatOfOne(book[0], e.params.proposedSector);
    GuardWithoutReturns(e.params.proposedReturns, book);
    ApprovedIffAllGates(e.entry, e.stop, Asked([], capital, e.params));
    GatesOverBook(e.entry, e.stop, book, capital, e.params);
    ApprovedIffAllGates(e.entry, e.stop, Asked(book, capital, e.params));
    x := Opened(book, e, capital);
  }

  /** Over every orderly book within 7 percent, the event leaves heat within 7 percent. */
  ghost predicate AlwaysKeepsHeat(e: Event, capital: real) {
    forall book: Book :: Orderly(book) && Heat(book) <= 0.07 * capital ==>
      Heat(Step(book, e, capital)) <= 0.07 * capital
  }

  /** Over every orderly book, the event leaves each sector that is within 5 percent there. */
  ghost predicate AlwaysKeepsSectors(e: Event, capital: real) {
    forall book: Book, sector: string :: Orderly(book) && SectorHeat(book, sector) <= 0.05 * capital ==>
      SectorHeat(Step(book, e, capital), sector) <= 0.05 * capital
  }

  /**
   * For an event of any kind and any sizing: the 7 percent limit survives it over every book if and only if what the
   * proposal records fits beside the fullest book, which the proposal and the capital decide.
   */
  lemma {:induction false} HeatKeptIff(e: Event, capital: real)
    ensures AlwaysKeepsHeat(e, capital) <==> KeepsCap(e, capital, 0.07 * capital)
  {
    hide Step, Heat, SectorHeat, Orderly, Decided, Floor4, Estimate;
    if KeepsCap(e, capital, 0.07 * capital) {
      forall book: Book | Orderly(book) && Heat(book) <= 0.07 * capital
        ensures Heat(Step(book, e, capital)) <= 0.07 * capital
      {
        StepKeepsHeat(book, e, capital);
      }
    } else {
      var other := OtherThan(e.params.proposedSector);
      var book := FullestBook(e, capital, 0.07 * capital, other);
      var x := FullestBookFilled(e, capital, 0.07 * capital, other);
      HeatOpened(book, x, "");
    }
  }

  lemma OtherThan(sector: string) returns (other: string)
    ensures other != sector
  {
    other := sector + "X";
    assert |other| != |sector|;
  }

  /** The same for the 5 percent limit of the sectors. */
  lemma {:induction false} SectorsKeptIff(e: Event, capital: real)
    ensures AlwaysKeepsSectors(e, capital) <==> KeepsCap(e, capital, 0.05 * capital)
  {
    hide Step, Heat, SectorHeat, Orderly, Decided, Floor4, Estimate;
    if KeepsCap(e, capital, 0.05 * capital) {
      forall book: Book, sector: string | Orderly(book) && SectorHeat(book, sector) <= 0.05 * capital
        ensures SectorHeat(Step(book, e, capital), sector) <= 0.05 * capital
      {
        StepKeepsSector(book, e, capital, sector);
      }
    } else {
      var sector := e.params.proposedSector;
      var book := FullestBook(e, capital, 0.05 * capital, sector);
      var x := FullestBookFilled(e, capital, 0.05 * capital, sector);
      HeatOpened(book, x, sector);
    }
  }

  /** The book, its heat and the heat of every sector are within bounds. */
  ghost predicate WithinLimits(book: Book, heatCap: real, sectorCap: real) {
    Orderly(book) && Heat(book) <= heatCap && forall sector :: SectorHeat(book, sector) <= sectorCap
  }

  lemma {:induction false} RunKeepsHeat(book: Book, events: seq<Event>, capital: real)
    requires Orderly(book) && Heat(book) <= 0.07 * capital
    requires forall i :: 0 <= i < |events| ==> KeepsCap(events[i], capital, 0.07 * capital)
    ensures Orderly(Run(book, events, capital)) && Heat(Run(book, events, capital)) <= 0.07 * capital
  {
    hide Step, Heat, Orderly, KeepsCap;
    if events != [] {
      RunKeepsHeat(book, Front(events), capital);
      StepOrderly(Run(book, Front(events), capital), Last(events), capital);
      StepKeepsHeat(Run(book, Front(events), capital), Last(events), capital);
    }
  }

  lemma {:induction false} RunKeepsSector(book: Book, events: seq<Event>, capital: real, sector: string)
    requires Orderly(book) && SectorHeat(book, sector) <= 0.05 * capital
    requires forall i :: 0 <= i < |events| ==> KeepsCap(events[i], capital, 0.05 * capital)
    ensures Orderly(Run(book, events, capital)) && SectorHeat(Run(book, events, capital), sector) <= 0.05 * capital
  {
    hide Step, SectorHeat, Orderly, KeepsCap;
    if events != [] {
      RunKeepsSector(book, Front(events), capital, sector);
      StepOrderly(Run(book, Front(events), capital), Last(events), capital);
      StepKeepsSector(Run(book, Front(events), capital), Last(events), capital, sector);
    }
  }

  /**
   * Over every run of closures and of proposals of any sizing that each keep both caps, heat stays within 7 percent and
   * every sector within 5 percent.
   */
  lemma {:induction false} RunWithinLimits(book: Book, events: seq<Event>, capital: real)
    requires WithinLimits(book, 0.07 * capital, 0.05 * capital)
    requires forall i :: 0 <= i < |events| ==>
      KeepsCap(events[i], capital, 0.07 * capital) && KeepsCap(events[i], capital, 0.05 * capital)
    ensures WithinLimits(Run(book, events, capital), 0.07 * capital, 0.05 * capital)
  {
    RunKeepsHeat(book, events, capital);
    forall sector
      ensures SectorHeat(Run(book, events, capital), sector) <= 0.05 * capital
    {
      RunKeepsSector(book, events, capital, sector);
    }
  }

  const QUIET := Parameters(0.0, [], 0.0, 0, false, BullTrend, "NEW", [], false, None, None, false)

  /** Nothing but the size can stop a proposal with these parameters over the empty book. */
  lemma QuietApproved(entry: real, stop: real, r: Regime, w: bool, sector: string, capital: real)
    requires capital > 0.0
    requires var p := Asked([], capital, QUIET.(regime := r, isSnapshotWindow := w, proposedSector := sector));
             SizeFor(entry, stop, p).Some? && SizeFor(entry, stop, p).value.riskPct <= 3.0
    ensures var p := Asked([], capital, QUIET.(regime := r, isSnapshotWindow := w, proposedSector := sector));
            Decided(entry, stop, p).approved && Decided(entry, stop, p).positionSize == SizeFor(entry, stop, p)
            && AllPass(Gates(entry, stop, p))
  {
    var p := Asked([], capital, QUIET.(regime := r, isSnapshotWindow := w, proposedSector := sector));
    EstimateIs(p);
    BudgetWithinEstimate(capital, r, w);
    ApprovedIffAllGates(entry, stop, p);
    hide SizeFor, PreliminaryRisk, Estimate, WithinPct, Budget, Decided;
    PerTradeRuleNeverFails(entry, stop, p);
    PctInNumbers(SectorHeat([], sector) + PreliminaryRisk(p), capital, 5.0);
    PctInNumbers(Heat([]) + PreliminaryRisk(p), capital, 7.0);
    assert AllPass(Gates(entry, stop, p));
  }

  /**
   * The one share that HIGH_VOL_CHAOS still buys oversteps both limits by its whole risk: with capital 100, a full book
   * and a stop 3 away, heat goes from 7 to 10, or its sector from 5 to 8.
   */
  lemma {:induction false} OneShareOversteps()
    ensures var e := Propose(10.0, 7.0, "NEW", QUIET.(regime := HighVolChaos));
            var book := [OpenPosition("OLD", "OLD", 7.0, [])];
            && Orderly(book) && Heat(book) == 7.0 == 0.07 * 100.0 && Heat(Step(book, e, 100.0)) == 10.0
    ensures var e := Propose(10.0, 7.0, "NEW", QUIET.(regime := HighVolChaos));
            var book := [OpenPosition("OLD", "NEW", 5.0, [])];
            && Orderly(book) && SectorHeat(book, "NEW") == 5.0 == 0.05 * 100.0
            && SectorHeat(Step(book, e, 100.0), "NEW") == 8.0
  {
    var params := QUIET.(regime := HighVolChaos);
    var e := Propose(10.0, 7.0, "NEW", params);
    ChaosSize(10.0, 7.0, Asked([], 100.0, params));
    assert Round4(3.0) == 3.0 && Round4(3.0 / 100.0 * 100.0) == 3.0;
    QuietApproved(10.0, 7.0, HighVolChaos, false, "NEW", 100.0);
    assert Estimate(100.0, HighVolChaos, false) == 0.0 && Floor4(7.0) == 7.0 && Floor4(5.0) == 5.0;
    assert FullestBook(e, 100.0, 0.07 * 100.0, "OLD") == [OpenPosition("OLD", "OLD", 7.0, [])];
    assert FullestBook(e, 100.0, 0.05 * 100.0, "NEW") == [OpenPosition("OLD", "NEW", 5.0, [])];
    hide Decided, SizeFor, Round4, Floor4, Estimate, Heat, SectorHeat, Step, Gates;
    var x := FullestBookFilled(e, 100.0, 0.07 * 100.0, "OLD");
    HeatOpened(FullestBook(e, 100.0, 0.07 * 100.0, "OLD"), x, "NEW");
    var y := FullestBookFilled(e, 100.0, 0.05 * 100.0, "NEW");
    HeatOpened(FullestBook(e, 100.0, 0.05 * 100.0, "NEW"), y, "NEW");
  }

  lemma AffordableAsked(e: Event, book: Book, capital: real)
    requires e.Propose? && Affordable(e, capital)
    ensures Affordable(Propose(e.entry, e.stop, "", Asked(book, capital, e.params)), capital)
  {
  }

  // ---- Any capital, any sizing ----

  /** An approval of any kind, fixed-risk, clamped to one share or Kelly. */
  lemma StepBounded(book: Book, e: Event, capital: real)
    requires Orderly(book) && capital > 0.0
    ensures Orderly(Step(book, e, capital))
    ensures Heat(Step(book, e, capital)) <= Heat(book)
         || Heat(Step(book, e, capital)) <= 0.1000005 * capital + 0.00005
    ensures Affordable(e, capital) ==>
      Heat(Step(book, e, capital)) <= Heat(book) || Heat(Step(book, e, capital)) <= 0.07 * capital + 0.00005
  {
    hide Heat, SectorHeat, FourDecimals, Decided, SizeFor, Affordable, Round4, PreliminaryRisk, Budget, ActualRisk;
    if e.Close? {
      if e.index < |book| {
        HeatClosed(book, e.index, "");
      }
    } else {
      var p := Asked(book, capital, e.params);
      if Decided(e.entry, e.stop, p).approved {
        ApprovalFacts(e.entry, e.stop, p);
        SizeFacts(e.entry, e.stop, p);
        ApprovedRiskCapped(e.entry, e.stop, p);
        Round4NonNegative(ActualRisk(e.entry, e.stop, p));
        EstimateIs(p);
        BudgetWithinEstimate(capital, p.regime, p.isSnapshotWindow);
        if Affordable(e, capital) {
          AffordableAsked(e, book, capital);
          AffordableRisk(e.entry, e.stop, p);
        }
        var risk := SizeFor(e.entry, e.stop, p).value.riskAmount;
        var x := OpenPosition(e.symbol, p.proposedSector, risk, p.proposedReturns);
        HeatOpened(book, x, "");
      }
    }
  }

  /** The sector of an approval, in the same way; other sectors do not move. */
  lemma StepSectorBounded(book: Book, e: Event, capital: real, sector: string)
    requires Orderly(book) && capital > 0.0
    ensures SectorHeat(Step(book, e, capital), sector) <= SectorHeat(book, sector)
         || SectorHeat(Step(book, e, capital), sector) <= 0.0800005 * capital + 0.00005
    ensures Affordable(e, capital) ==>
      || SectorHeat(Step(book, e, capital), sector) <= SectorHeat(book, sector)
      || SectorHeat(Step(book, e, capital), sector) <= 0.05 * capital + 0.00005
  {
    hide Heat, SectorHeat, FourDecimals, Decided, SizeFor, Affordable, Round4, PreliminaryRisk, Budget, ActualRisk;
    if e.Close? {
      if e.index < |book| {
        HeatClosed(book, e.index, sector);
      }
    } else {
      var p := Asked(book, capital, e.params);
      if Decided(e.entry, e.stop, p).approved {
        ApprovalFacts(e.entry, e.stop, p);
        SizeFacts(e.entry, e.stop, p);
        ApprovedRiskCapped(e.entry, e.stop, p);
        EstimateIs(p);
        BudgetWithinEstimate(capital, p.regime, p.isSnapshotWindow);
        if Affordable(e, capital) {
          AffordableAsked(e, book, capital);
          AffordableRisk(e.entry, e.stop, p);
        }
        var risk := SizeFor(e.entry, e.stop, p).value.riskAmount;
        var x := OpenPosition(e.symbol, p.proposedSector, risk, p.proposedReturns);
        HeatOpened(book, x, sector);
      }
    }
  }

  /**
   * Over every run, whatever the sizing, a sector that starts within 5 percent never exceeds 8 percent of capital plus
   * the two roundings; with affordable fixed-risk sizing only, 5 percent plus one rounding.
   */
  lemma {:induction false} RunSectorBounded(book: Book, events: seq<Event>, capital: real, sector: string)
    requires Orderly(book) && capital > 0.0 && SectorHeat(book, sector) <= 0.05 * capital
    ensures Orderly(Run(book, events, capital))
    ensures SectorHeat(Run(book, events, capital), sector) <= 0.0800005 * capital + 0.00005
    ensures (forall i :: 0 <= i < |events| ==> Affordable(events[i], capital)) ==>
      SectorHeat(Run(book, events, capital), sector) <= 0.05 * capital + 0.00005
  {
    hide Step, Affordable, Orderly, SectorHeat;
    if events != [] {
      RunSectorBounded(book, Front(events), capital, sector);
      StepBounded(Run(book, Front(events), capital), Last(events), capital);
      StepSectorBounded(Run(book, Front(events), capital), Last(events), capital, sector);
    }
  }

  /**
   * Over every run from a book within 7 percent, whatever the sizing, heat never exceeds 10 percent of capital plus
   * the rounding of the percentage and of the amount; with affordable fixed-risk sizing only, 7 percent plus one
   * rounding. The excess does not accumulate.
   */
  lemma {:induction false} RunBounded(book: Book, events: seq<Event>, capital: real)
    requires Orderly(book) && capital > 0.0 && Heat(book) <= 0.07 * capital
    ensures Orderly(Run(book, events, capital))
    ensures Heat(Run(book, events, capital)) <= 0.1000005 * capital + 0.00005
    ensures (forall i :: 0 <= i < |events| ==> Affordable(events[i], capital)) ==>
      Heat(Run(book, events, capital)) <= 0.07 * capital + 0.00005
  {
    hide Step, Affordable, Orderly, Heat;
    if events != [] {
      RunBounded(book, Front(events), capital);
      StepBounded(Run(book, Front(events), capital), Last(events), capital);
    }
  }
}
