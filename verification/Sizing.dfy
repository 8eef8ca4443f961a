/** Position sizes from a risk budget: fixed fraction of capital, or fractional Kelly. */
module Sizing {
  import opened Common
  import opened Numbers

  const SNAPSHOT_WINDOW_SIZE_MULTIPLIER := 0.5
  const KELLY_FRACTION := 0.25
  const MIN_STOP_DISTANCE_PCT := 0.05

  datatype Method = AtrFixedRisk | Kelly

  datatype PositionSize = PositionSize(
    quantity: int, notionalValue: real, riskAmount: real, riskPct: real,
    sizingMethod: Method, regimeMultiplier: real, snapshotMultiplier: real)

  function SnapshotMultiplier(inWindow: bool): real {
    if inWindow then SNAPSHOT_WINDOW_SIZE_MULTIPLIER else 1.0
  }

  function StopDistance(entry: real, stop: real): (d: real)
    ensures d >= 0.0
  {
    Abs(entry - stop)
  }

  function MinDistance(entry: real): real {
    entry * (MIN_STOP_DISTANCE_PCT / 100.0)
  }

  /** How many whole times the distance fits into the budget. */
  function WholeTimes(budget: real, distance: real): int
    requires distance > 0.0
  {
    (budget / distance).Floor
  }

  /** What so many shares lose at the stop. */
  function Loss(q: int, distance: real): real {
    Times(q as real, distance)
  }

  /** At least one share, however small the budget. */
  function Shares(budget: real, distance: real): (q: int)
    requires distance > 0.0
    ensures q >= 1
  {
    var raw := WholeTimes(budget, distance);
    if raw > 1 then raw else 1
  }

  /** The record for so many shares. */
  function Sized(q: int, capital: real, entry: real, distance: real, m: Method, regime: real, snapshot: real)
    : PositionSize
  {
    var actual := Loss(q, distance);
    PositionSize(q, Round4(q as real * entry), Round4(actual),
                 Round4(if capital > 0.0 then actual / capital * 100.0 else 0.0), m, regime, snapshot)
  }

  /** What the fixed-risk method may put at risk. */
  function AtrBudget(capital: real, basePct: real, regime: real, inWindow: bool): real {
    capital * (basePct * regime * SnapshotMultiplier(inWindow) / 100.0)
  }

  /** None stands for the ValueError of a non-positive entry price or a stop that is too close. */
  function AtrSize(capital: real, entry: real, stop: real, basePct: real, regime: real, inWindow: bool)
    : Option<PositionSize>
  {
    if entry <= 0.0 then None
    else
      var distance := StopDistance(entry, stop);
      if distance < MinDistance(entry) then None
      else
        var q := Shares(AtrBudget(capital, basePct, regime, inWindow), distance);
        Some(Sized(q, capital, entry, distance, AtrFixedRisk, regime, SnapshotMultiplier(inWindow)))
  }

  function FullKelly(winRate: real, ratio: real): (k: real)
    requires ratio > 0.0
    ensures k >= 0.0
  {
    Max(0.0, (ratio * winRate - (1.0 - winRate)) / ratio)
  }

  function KellyBudget(capital: real, winRate: real, ratio: real, regime: real, inWindow: bool): real
    requires ratio > 0.0
  {
    capital * (KELLY_FRACTION * FullKelly(winRate, ratio) * regime * SnapshotMultiplier(inWindow))
  }

  /** None stands for the ValueError of a bad win rate, a bad ratio or a stop that is too close. */
  function KellySize(capital: real, entry: real, stop: real, winRate: real, ratio: real, regime: real, inWindow: bool):
    Option<PositionSize>
  {
    if !(0.0 < winRate < 1.0) then None
    else if ratio <= 0.0 then None
    else
      var budget := KellyBudget(capital, winRate, ratio, regime, inWindow);
      var distance := StopDistance(entry, stop);
      if distance < MinDistance(entry) then None
      else
        var q := if distance > 0.0 then Shares(budget, distance) else 1;
        Some(Sized(q, capital, entry, distance, Kelly, regime, SnapshotMultiplier(inWindow)))
  }

  /** An accepted fixed-risk size has a stop at a positive distance. */
  lemma DistancePositive(entry: real, stop: real)
    requires entry > 0.0 && StopDistance(entry, stop) >= MinDistance(entry)
    ensures StopDistance(entry, stop) > 0.0
  {
  }

  lemma ScaleBetween(x: real, low: real, high: real, distance: real)
    requires distance > 0.0 && low <= x < high
    ensures Times(low, distance) <= Times(x, distance) < Times(high, distance)
  {
    ScaleOrder(low, x, distance);
    ScaleOrder(x, high, distance);
  }

  lemma QuotientTimes(x: real, y: real)
    requires y > 0.0
    ensures Times(x / y, y) == x
  {
    DivideTimes(x, y);
  }

  lemma WholeTimesFit(budget: real, distance: real)
    requires distance > 0.0
    ensures var n := WholeTimes(budget, distance); Loss(n, distance) <= budget < Loss(n + 1, distance)
  {
    hide Times;
    var x := budget / distance;
    QuotientTimes(budget, distance);
    ScaleBetween(x, x.Floor as real, (x.Floor + 1) as real, distance);
  }

  lemma LossMonotone(m: int, n: int, distance: real)
    requires distance > 0.0 && m <= n
    ensures Loss(m, distance) <= Loss(n, distance)
  {
    ScaleOrder(m as real, n as real, distance);
  }

  lemma LossOfOne(distance: real)
    ensures Loss(1, distance) == distance
  {
  }

  /**
   * The quantity is the largest whole number of shares whose loss at the stop stays within the budget; when not
   * even one share fits, it is one share all the same and the loss exceeds the budget.
   */
  lemma {:induction false} SharesAreLargest(budget: real, distance: real)
    requires distance > 0.0
    ensures var q := Shares(budget, distance);
            && (forall more: int :: more > q ==> budget < Loss(more, distance))
            && (Loss(q, distance) <= budget <==> distance <= budget)
            && (budget < distance ==> q == 1)
  {
    hide Times, Loss, WholeTimes;
    var n, q := WholeTimes(budget, distance), Shares(budget, distance);
    WholeTimesFit(budget, distance);
    LossOfOne(distance);
    forall more: int | more > q
      ensures budget < Loss(more, distance)
    {
      LossMonotone(n + 1, more, distance);
    }
    if n >= 1 {
      LossMonotone(1, n, distance);
    } else {
      LossMonotone(n + 1, 1, distance);
    }
  }

  // ---- What a size is, from the numbers alone ----

  /** The most shares whose loss at the stop stays within the budget, but at least one. */
  ghost predicate MostShares(q: int, budget: real, distance: real) {
    && q >= 1
    && (q == 1 || q as real * distance <= budget)
    && (distance > 0.0 ==> budget < (q + 1) as real * distance)
    && (distance == 0.0 ==> q == 1)
  }

  /** So many shares at this entry price, with the loss they make over the distance, to four decimals. */
  ghost predicate Describes(size: PositionSize, capital: real, entry: real, distance: real) {
    var loss := Times(size.quantity as real, distance);
    && RoundedTo4(size.notionalValue, Times(size.quantity as real, entry))
    && RoundedTo4(size.riskAmount, loss)
    && (if capital > 0.0 then RoundedTo4(size.riskPct, loss / capital * 100.0) else size.riskPct == 0.0)
  }

  lemma SharesAreMost(budget: real, distance: real)
    requires distance > 0.0
    ensures MostShares(Shares(budget, distance), budget, distance)
  {
    var q := Shares(budget, distance);
    SharesAreLargest(budget, distance);
    assert budget < Loss(q + 1, distance);
    if q > 1 {
      WholeTimesFit(budget, distance);
    }
  }

  lemma SizedDescribes(q: int, capital: real, entry: real, distance: real, m: Method, regime: real, snapshot: real)
    ensures Describes(Sized(q, capital, entry, distance, m, regime, snapshot), capital, entry, distance)
  {
    var value, loss := Times(q as real, entry), Loss(q, distance);
    var share := if capital > 0.0 then loss / capital * 100.0 else 0.0;
    assert value == q as real * entry;
    hide Round4, RoundedTo4, FourDecimals, Times;
    RoundsAll(value, loss, share);
    Round4OfZero();
  }

  lemma RoundsAll(x: real, y: real, z: real)
    ensures RoundedTo4(Round4(x), x) && RoundedTo4(Round4(y), y) && RoundedTo4(Round4(z), z)
  {
    Round4Rounds(x);
    Round4Rounds(y);
    Round4Rounds(z);
  }

  lemma Round4OfZero()
    ensures Round4(0.0) == 0.0
  {
    RoundHalfEvenInt(0);
  }

  /**
   * The fixed-risk size is refused exactly for an entry price that is not positive or a stop nearer than 0.05 percent
   * of it; otherwise it is the most shares within the budget, correctly described.
   */
  lemma {:induction false} AtrSizeExact(capital: real, entry: real, stop: real, basePct: real, regime: real,
      inWindow: bool)
    ensures var size := AtrSize(capital, entry, stop, basePct, regime, inWindow);
            var distance := if entry < stop then stop - entry else entry - stop;
            var snapshot := if inWindow then 0.5 else 1.0;
            && (size == None <==> entry <= 0.0 || distance < 0.0005 * entry)
            && (size.Some? ==>
                  && MostShares(size.value.quantity, AtrBudget(capital, basePct, regime, inWindow), distance)
                  && Describes(size.value, capital, entry, distance)
                  && size.value.sizingMethod == AtrFixedRisk
                  && size.value.regimeMultiplier == regime && size.value.snapshotMultiplier == snapshot)
  {
    hide Describes, MostShares, Shares, Round4, FourDecimals, Times, AtrBudget;
    var distance := StopDistance(entry, stop);
    if entry > 0.0 && distance >= MinDistance(entry) {
      DistancePositive(entry, stop);
      var budget := AtrBudget(capital, basePct, regime, inWindow);
      SharesAreMost(budget, distance);
      SizedDescribes(Shares(budget, distance), capital, entry, distance, AtrFixedRisk, regime,
        SnapshotMultiplier(inWindow));
    }
  }

  /** The full Kelly fraction: the win rate less the loss rate per unit of the ratio, and zero without an edge. */
  lemma {:induction false} FullKellyIsEdge(winRate: real, ratio: real)
    requires ratio > 0.0
    ensures ratio * winRate <= 1.0 - winRate ==> FullKelly(winRate, ratio) == 0.0
    ensures ratio * winRate > 1.0 - winRate ==>
              FullKelly(winRate, ratio) > 0.0 && FullKelly(winRate, ratio) == winRate - (1.0 - winRate) / ratio
  {
    var edge := ratio * winRate - (1.0 - winRate);
    QuotientOrder(edge, ratio, 0.0);
    KellyQuotient(winRate, 1.0 - winRate, ratio);
  }

  lemma KellyQuotient(w: real, q: real, ratio: real)
    requires ratio > 0.0
    ensures (ratio * w - q) / ratio == w - q / ratio
  {
    DivideTimes(q, ratio);
    DivideTimes(ratio * w - q, ratio);
    assert (w - q / ratio) * ratio == ratio * w - q;
    CancelFactor((ratio * w - q) / ratio, w - q / ratio, ratio);
  }

  /**
   * The Kelly size is refused exactly for a win rate outside (0, 1), a ratio that is not positive or a stop nearer
   * than 0.05 percent of the entry price; otherwise it is the most shares within a quarter of the full fraction.
   */
  lemma {:induction false} KellySizeExact(capital: real, entry: real, stop: real, winRate: real, ratio: real,
      regime: real, inWindow: bool)
    ensures var size := KellySize(capital, entry, stop, winRate, ratio, regime, inWindow);
            var distance := if entry < stop then stop - entry else entry - stop;
            var snapshot := if inWindow then 0.5 else 1.0;
            && (size == None <==> winRate <= 0.0 || winRate >= 1.0 || ratio <= 0.0 || distance < 0.0005 * entry)
            && (size.Some? ==>
                  && MostShares(size.value.quantity, KellyBudget(capital, winRate, ratio, regime, inWindow), distance)
                  && Describes(size.value, capital, entry, distance)
                  && size.value.sizingMethod == Kelly
                  && size.value.regimeMultiplier == regime && size.value.snapshotMultiplier == snapshot)
  {
    hide Describes, MostShares, Shares, Round4, FourDecimals, Times, FullKelly, KellyBudget;
    var distance := StopDistance(entry, stop);
    if 0.0 < winRate < 1.0 && ratio > 0.0 && distance >= MinDistance(entry) {
      var budget := KellyBudget(capital, winRate, ratio, regime, inWindow);
      var q := if distance > 0.0 then Shares(budget, distance) else 1;
      if distance > 0.0 {
        SharesAreMost(budget, distance);
      } else {
        OneShareAtZero(budget);
      }
      SizedDescribes(q, capital, entry, distance, Kelly, regime, SnapshotMultiplier(inWindow));
    }
  }

  lemma OneShareAtZero(budget: real)
    ensures MostShares(1, budget, 0.0)
  {
  }
}
