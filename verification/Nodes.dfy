/** The orchestrator's shared state and its six nodes, each a function from state to state. */
module Nodes {
  import opened Common
  import opened Numbers

  const HITL_CAPITAL_THRESHOLD_PCT := 0.05
  const DAILY_LOSS_TRIGGER := -0.02
  const CHAOS := "HIGH_VOL_CHAOS"
  const MISMATCH_READ_LIMIT := 100

  /** A missing or non-numeric field counts as zero. */
  datatype Position = Position(symbol: string, quantity: Option<real>, avgPrice: Option<real>)

  datatype HitlRequest = HitlRequest(symbol: string, positionValue: real, capitalPct: real, requestedAt: string)

  datatype Error = BreakerTripped(pnlPct: real) | KillSwitchActivated | Reported(text: string)

  /** The fields the nodes and the graph read or write. */
  datatype SystemState = SystemState(
    marketRegime: string, regimeConfidence: real,
    openPositions: seq<Position>,
    signalsToday: int, tradesToday: int, pnlTodayPct: real,
    circuitBreakerActive: bool, killSwitchActive: bool,
    pendingHitlApproval: Option<HitlRequest>,
    lastReconciliationAt: Option<string>, reconciliationMismatchesToday: int,
    lastError: Option<Error>, lastErrorAgent: Option<string>, lastErrorAt: Option<string>)

  const INITIAL := SystemState("MEAN_REVERTING", 0.0, [], 0, 0, 0.0, false, false, None, None, 0, None, None, None)

  predicate Halted(s: SystemState) {
    s.killSwitchActive || s.circuitBreakerActive
  }

  /** What reading a stream gave: an exception, nothing, or the newest entry. */
  datatype Read<T> = Failed | Empty | Entry(value: T)

  datatype RegimeEntry = RegimeEntry(regime: string, confidence: Option<real>)
  datatype SignalEntry = SignalEntry(symbol: string, exchange: string)

  /** What Redis holds while one cycle runs. */
  datatype Redis = Redis(regime: Read<RegimeEntry>, halted: bool, degraded: bool, signal: Read<SignalEntry>,
      mismatches: Option<nat>)

  /** One cycle's surroundings; no Redis client means paper mode, no blocked function means no block check. */
  datatype World = World(redis: Option<Redis>, blocked: Option<(string, string) -> bool>, now: string)

  /** An unparsable confidence reads as zero; an empty regime name is ignored. */
  function RegimeNode(s: SystemState, w: World): SystemState {
    if w.redis.Some? && w.redis.value.regime.Entry? && w.redis.value.regime.value.regime != "" then
      var entry := w.redis.value.regime.value;
      s.(marketRegime := entry.regime,
         regimeConfidence := if entry.confidence.Some? then entry.confidence.value else 0.0)
    else s
  }

  predicate SignalBlocked(w: World, entry: SignalEntry) {
    w.blocked.Some? && w.blocked.value(entry.symbol, entry.exchange)
  }

  function SignalNode(s: SystemState, w: World): SystemState {
    if Halted(s) then s
    else if w.redis.None? then s
    else if w.redis.value.halted then s.(killSwitchActive := true)
    else if w.redis.value.degraded then s
    else if s.marketRegime == CHAOS then s
    else
      match w.redis.value.signal
      case Failed => s
      case Empty => s
      case Entry(entry) => if SignalBlocked(w, entry) then s else s.(signalsToday := s.signalsToday + 1)
  }

  function ReconciliationNode(s: SystemState, w: World): SystemState {
    var stamped := s.(lastReconciliationAt := Some(w.now));
    if w.redis.Some? && w.redis.value.mismatches.Some? then
      var n := w.redis.value.mismatches.value;
      var count := if n > MISMATCH_READ_LIMIT then MISMATCH_READ_LIMIT else n;
      stamped.(reconciliationMismatchesToday :=
        if s.reconciliationMismatchesToday < count then count else s.reconciliationMismatchesToday)
    else stamped
  }

  function OrZero(x: Option<real>): real {
    if x.Some? then x.value else 0.0
  }

  function PositionValue(p: Position): real {
    Abs(OrZero(p.quantity) * OrZero(p.avgPrice))
  }

  predicate Large(p: Position, capital: real) {
    capital > 0.0 && PositionValue(p) / capital > HITL_CAPITAL_THRESHOLD_PCT
  }

  function FirstLarge(ps: seq<Position>, capital: real): Option<Position> {
    if ps == [] then None
    else if Large(ps[0], capital) then Some(ps[0]) else FirstLarge(ps[1..], capital)
  }

  function RiskNode(s: SystemState, capital: real, w: World): SystemState {
    if s.pnlTodayPct <= DAILY_LOSS_TRIGGER && !s.circuitBreakerActive then
      s.(circuitBreakerActive := true, lastError := Some(BreakerTripped(s.pnlTodayPct)),
         lastErrorAgent := Some("risk_node"), lastErrorAt := Some(w.now))
    else if Halted(s) then s
    else
      match FirstLarge(s.openPositions, capital)
      case None => s
      case Some(p) =>
        s.(pendingHitlApproval :=
          Some(HitlRequest(p.symbol, PositionValue(p),
                           if capital > 0.0 then PositionValue(p) / capital else 0.0, w.now)))
  }

  function HitlNode(s: SystemState): SystemState {
    s.(pendingHitlApproval := None)
  }

  function KillSwitchNode(s: SystemState, w: World): SystemState {
    s.(killSwitchActive := true, pendingHitlApproval := None, lastError := Some(KillSwitchActivated),
       lastErrorAgent := Some("kill_switch_node"), lastErrorAt := Some(w.now))
  }

  /** The request names the first position over the threshold, if there is one. */
  lemma {:induction false} FirstLargeIsFirst(ps: seq<Position>, capital: real) returns (n: nat)
    ensures n <= |ps| && forall i :: 0 <= i < n ==> !Large(ps[i], capital)
    ensures if n < |ps| then Large(ps[n], capital) && FirstLarge(ps, capital) == Some(ps[n])
            else FirstLarge(ps, capital) == None
  {
    if ps == [] || Large(ps[0], capital) {
      n := 0;
    } else {
      var m := FirstLargeIsFirst(ps[1..], capital);
      n := m + 1;
      forall i | 0 <= i < n
        ensures !Large(ps[i], capital)
      {
        if i > 0 {
          assert ps[i] == ps[1..][i - 1];
        }
      }
    }
  }

  // ---- What the nodes decide, from the numbers alone ----

  /** The position's value: quantity times price in absolute value, a missing factor counting as zero. */
  ghost predicate IsWorth(p: Position, value: real) {
    if p.quantity == None || p.avgPrice == None then value == 0.0
    else
      var product := p.quantity.value * p.avgPrice.value;
      (0.0 <= product && value == product) || (product < 0.0 && value == -product)
  }

  /** The position is worth more than 5 percent of a positive capital. */
  ghost predicate OverThreshold(p: Position, capital: real) {
    capital > 0.0 && exists value: real :: IsWorth(p, value) && value > 0.05 * capital
  }

  /** The first position over the threshold is asked about, with its value, its share of the capital and the time;
      with no such position the request stays as it was. */
  ghost predicate AsksAboutFirst(ps: seq<Position>, capital: real, now: string, before: Option<HitlRequest>,
      after: Option<HitlRequest>)
  {
    if forall i :: 0 <= i < |ps| ==> !OverThreshold(ps[i], capital) then after == before
    else
      exists n ::
        && 0 <= n < |ps| && OverThreshold(ps[n], capital) && (forall i :: 0 <= i < n ==> !OverThreshold(ps[i], capital))
        && after.Some? && after.value.symbol == ps[n].symbol && after.value.requestedAt == now
        && IsWorth(ps[n], after.value.positionValue)
        && after.value.capitalPct * capital == after.value.positionValue
  }

  lemma ValueIsWorth(p: Position)
    ensures forall value: real :: IsWorth(p, value) <==> value == PositionValue(p)
  {
  }

  lemma LargeIsOver(p: Position, capital: real)
    ensures Large(p, capital) <==> OverThreshold(p, capital)
  {
    hide PositionValue, IsWorth;
    ValueIsWorth(p);
    if capital > 0.0 {
      QuotientOrder(PositionValue(p), capital, 0.05);
      assert PositionValue(p) > 0.05 * capital ==> IsWorth(p, PositionValue(p));
    }
  }

  /** The risk node: at a loss of 2 percent or more it trips the breaker and nothing else; halted it does nothing;
      otherwise it asks about the first position worth more than 5 percent of the capital. */
  lemma {:induction false} RiskNodeDecides(s: SystemState, capital: real, w: World)
    ensures var t := RiskNode(s, capital, w);
            if s.pnlTodayPct <= -0.02 && !s.circuitBreakerActive then
              t == s.(circuitBreakerActive := true, lastError := Some(BreakerTripped(s.pnlTodayPct)),
                      lastErrorAgent := Some("risk_node"), lastErrorAt := Some(w.now))
            else if s.killSwitchActive || s.circuitBreakerActive then t == s
            else
              && t == s.(pendingHitlApproval := t.pendingHitlApproval)
              && AsksAboutFirst(s.openPositions, capital, w.now, s.pendingHitlApproval, t.pendingHitlApproval)
  {
    var t := RiskNode(s, capital, w);
    if s.pnlTodayPct > -0.02 && !Halted(s) {
      var ps := s.openPositions;
      var n := FirstLargeIsFirst(ps, capital);
      forall i | 0 <= i < |ps|
        ensures Large(ps[i], capital) <==> OverThreshold(ps[i], capital)
      {
        LargeIsOver(ps[i], capital);
      }
      if n < |ps| {
        ValueIsWorth(ps[n]);
        DivideTimes(PositionValue(ps[n]), capital);
        hide PositionValue, IsWorth, OverThreshold;
        assert OverThreshold(ps[n], capital);
      }
    }
  }

  /** The reconciliation count never falls and is at least the listed mismatches, of which 100 at most are read. */
  lemma {:induction false} ReconciliationNodeCounts(s: SystemState, w: World)
    ensures var t := ReconciliationNode(s, w);
            && t == s.(lastReconciliationAt := Some(w.now),
                       reconciliationMismatchesToday := t.reconciliationMismatchesToday)
            && t.reconciliationMismatchesToday >= s.reconciliationMismatchesToday
            && (w.redis == None || w.redis.value.mismatches == None ==>
                  t.reconciliationMismatchesToday == s.reconciliationMismatchesToday)
            && (w.redis.Some? && w.redis.value.mismatches.Some? ==>
                  var n, count := w.redis.value.mismatches.value, t.reconciliationMismatchesToday;
                  && (count >= n || count >= 100)
                  && (count == s.reconciliationMismatchesToday || (count == n && n <= 100)
                      || (count == 100 && n > 100)))
  {
  }
}
