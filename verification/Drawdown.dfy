/** Maximum drawdown of an equity curve by the running peak. */
module Drawdown {
  import opened Common
  import opened Numbers

  ghost predicate Positive(e: seq<real>) {
    forall i :: 0 <= i < |e| ==> e[i] > 0.0
  }

  /** The accumulated maximum at bar j. */
  function Peak(e: seq<real>, j: nat): real
    requires j < |e|
  {
    if j == 0 then e[0] else Max(Peak(e, j - 1), e[j])
  }

  /** The peak is the largest value so far and is one of them. */
  lemma {:induction false} PeakIsMaximum(e: seq<real>, j: nat) returns (at: nat)
    requires j < |e|
    ensures at <= j && e[at] == Peak(e, j)
    ensures forall i :: 0 <= i <= j ==> e[i] <= Peak(e, j)
  {
    at := 0;
    if j > 0 {
      at := PeakIsMaximum(e, j - 1);
      if Peak(e, j) == e[j] {
        at := j;
      }
    }
  }

  lemma PeakPositive(e: seq<real>, j: nat)
    requires Positive(e) && j < |e|
    ensures Peak(e, j) >= e[j] > 0.0
  {
  }

  function DrawdownAt(e: seq<real>, j: nat): real
    requires Positive(e) && j < |e|
  {
    PeakPositive(e, j);
    (Peak(e, j) - e[j]) / Peak(e, j)
  }

  function Worst(e: seq<real>, j: nat): real
    requires Positive(e) && j < |e|
  {
    if j == 0 then DrawdownAt(e, 0) else Max(Worst(e, j - 1), DrawdownAt(e, j))
  }

  /** The fraction reported: zero for curves of fewer than two bars. */
  function MaxDrawdown(e: seq<real>): real
    requires Positive(e)
  {
    if |e| > 1 then Worst(e, |e| - 1) else 0.0
  }

  /** The published percentage; a backtest without trades reports zero whatever its curve. */
  function MaxDrawdownPct(trades: nat, e: seq<real>): real
    requires Positive(e)
  {
    if trades == 0 then 0.0 else Round4(MaxDrawdown(e) * 100.0)
  }

  lemma LossAsRatio(entry: real, exit: real)
    requires entry > 0.0
    ensures (entry - exit) / entry == 1.0 - exit / entry
  {
    DivideTimes(entry - exit, entry);
    DivideTimes(exit, entry);
    CancelFactor((entry - exit) / entry, 1.0 - exit / entry, entry);
  }

  lemma DivideAntitone(x: real, low: real, high: real)
    requires x > 0.0 && 0.0 < low <= high
    ensures 0.0 < x / high <= x / low
  {
    DivideTimes(x, low);
    ScaleOrder(0.0, x / low, low);
    assert x / low * high >= x / low * low;
    QuotientOrder(x, high, x / low);
    DivideTimes(x, high);
    ScaleOrder(0.0, x / high, high);
  }

  /** A higher entry price means a larger fractional loss. */
  lemma LossMonotone(low: real, high: real, exit: real)
    requires 0.0 < low <= high && exit > 0.0
    ensures (low - exit) / low <= (high - exit) / high
  {
    LossAsRatio(low, exit);
    LossAsRatio(high, exit);
    DivideAntitone(exit, low, high);
  }

  lemma {:induction false} WorstIsMaximum(e: seq<real>, j: nat) returns (at: nat)
    requires Positive(e) && j < |e|
    ensures at <= j && DrawdownAt(e, at) == Worst(e, j)
    ensures forall k :: 0 <= k <= j ==> DrawdownAt(e, k) <= Worst(e, j)
  {
    at := 0;
    if j > 0 {
      at := WorstIsMaximum(e, j - 1);
      if Worst(e, j) == DrawdownAt(e, j) {
        at := j;
      }
    }
  }

  lemma FirstDrawdownZero(e: seq<real>)
    requires Positive(e) && |e| > 0
    ensures DrawdownAt(e, 0) == 0.0
  {
  }

  /** The one-pass peak algorithm computes the worst loss over all pairs of bars i <= j: no
      pair loses more, and the returned pair loses exactly that. */
  lemma {:induction false} WorstOverAllPairs(e: seq<real>) returns (buy: nat, sell: nat)
    requires Positive(e) && e != []
    ensures forall i: nat, j: nat :: i <= j < |e| ==> (e[i] - e[j]) / e[i] <= MaxDrawdown(e)
    ensures buy <= sell < |e| && (e[buy] - e[sell]) / e[buy] == MaxDrawdown(e)
  {
    sell := WorstIsMaximum(e, |e| - 1);
    buy := PeakIsMaximum(e, sell);
    FirstDrawdownZero(e);
    forall i: nat, j: nat | i <= j < |e|
      ensures (e[i] - e[j]) / e[i] <= MaxDrawdown(e)
    {
      var _ := PeakIsMaximum(e, j);
      LossMonotone(e[i], Peak(e, j), e[j]);
      assert (e[i] - e[j]) / e[i] <= DrawdownAt(e, j);
    }
  }

  ghost predicate NeverFalls(e: seq<real>) {
    forall i, j :: 0 <= i <= j < |e| ==> e[i] <= e[j]
  }

  lemma LossSign(buy: real, sell: real)
    requires buy > 0.0 && sell > 0.0
    ensures (buy - sell) / buy < 1.0
    ensures (buy - sell) / buy <= 0.0 <==> buy <= sell
  {
    LossAsRatio(buy, sell);
    DivideTimes(sell, buy);
    ScaleOrder(0.0, sell / buy, buy);
    QuotientOrder(sell, buy, 1.0);
  }

  /** A fraction at least zero and below one, and zero exactly when the curve never falls. */
  lemma {:induction false} DrawdownRange(e: seq<real>)
    requires Positive(e)
    ensures 0.0 <= MaxDrawdown(e) < 1.0
    ensures MaxDrawdown(e) == 0.0 <==> NeverFalls(e)
  {
    if e != [] {
      var buy, sell := WorstOverAllPairs(e);
      LossSign(e[buy], e[sell]);
      assert (e[0] - e[0]) / e[0] == 0.0;
      forall i: nat, j: nat | i <= j < |e|
        ensures MaxDrawdown(e) == 0.0 ==> e[i] <= e[j]
      {
        assert (e[i] - e[j]) / e[i] <= MaxDrawdown(e);
        LossSign(e[i], e[j]);
      }
      if NeverFalls(e) {
        assert e[buy] <= e[sell];
      }
    }
  }

  lemma RoundsToZero(x: real)
    requires x >= 0.0
    ensures RoundHalfEven(x) == 0 <==> x <= 0.5
  {
  }

  /** The published percentage is the fraction to four decimals; it is zero exactly for falls of half a millionth at
      most. */
  lemma {:induction false} ReportedPct(trades: nat, e: seq<real>)
    requires Positive(e)
    ensures 0.0 <= MaxDrawdownPct(trades, e) <= 100.0
    ensures trades > 0 ==> -0.00005 <= MaxDrawdownPct(trades, e) - MaxDrawdown(e) * 100.0 <= 0.00005
    ensures trades > 0 ==> (MaxDrawdownPct(trades, e) == 0.0 <==> MaxDrawdown(e) <= 0.0000005)
    ensures trades == 0 || NeverFalls(e) ==> MaxDrawdownPct(trades, e) == 0.0
  {
    DrawdownRange(e);
    hide MaxDrawdown;
    var pct := MaxDrawdown(e) * 100.0;
    FourDecimalsOf(100.0, 1000000);
    Round4Below(pct, 100.0);
    RoundHalfEvenMonotone(0.0, pct * 10000.0);
    RoundHalfEvenInt(0);
    RoundsToZero(pct * 10000.0);
  }

  /** A curve that falls and is reported as not falling. */
  lemma {:induction false} SmallFallUnseen()
    ensures var e := [4000000.0, 3999999.0]; Positive(e) && !NeverFalls(e) && MaxDrawdownPct(1, e) == 0.0
  {
    var e := [4000000.0, 3999999.0];
    assert e[1] < e[0];
    assert Peak(e, 0) == 4000000.0 && Peak(e, 1) == 4000000.0;
    assert DrawdownAt(e, 0) == 0.0 && DrawdownAt(e, 1) == 0.00000025;
    assert Worst(e, 1) == 0.00000025;
    ReportedPct(1, e);
  }

  /** The curve in another currency or at another account size. */
  ghost predicate IsScaled(f: seq<real>, e: seq<real>, c: real) {
    |f| == |e| && forall i :: 0 <= i < |e| ==> f[i] == Times(e[i], c)
  }

  lemma PositiveScaled(f: seq<real>, e: seq<real>, c: real)
    requires Positive(e) && c > 0.0 && IsScaled(f, e, c)
    ensures Positive(f)
  {
    forall i | 0 <= i < |f|
      ensures f[i] > 0.0
    {
      ScaleOrder(0.0, e[i], c);
    }
  }

  lemma MaxScaled(a: real, b: real, c: real)
    requires c > 0.0
    ensures Max(Times(a, c), Times(b, c)) == Times(Max(a, b), c)
  {
    ScaleOrder(a, b, c);
  }

  lemma {:induction false} PeakScaled(f: seq<real>, e: seq<real>, c: real, j: nat)
    requires Positive(e) && c > 0.0 && IsScaled(f, e, c) && j < |e|
    ensures Peak(f, j) == Times(Peak(e, j), c)
  {
    hide Times;
    if j > 0 {
      PeakScaled(f, e, c, j - 1);
      MaxScaled(Peak(e, j - 1), e[j], c);
    }
  }

  lemma RatioScaled(peak: real, x: real, c: real)
    requires peak > 0.0 && c > 0.0
    ensures Times(peak, c) > 0.0
    ensures (Times(peak, c) - Times(x, c)) / Times(peak, c) == (peak - x) / peak
  {
    ScaleOrder(0.0, peak, c);
    var r := (peak - x) / peak;
    DivideTimes(peak - x, peak);
    TimesAssociates(r, peak, c);
    DivideTimes(peak * c - x * c, peak * c);
    CancelFactor((peak * c - x * c) / (peak * c), r, peak * c);
  }

  lemma {:induction false} WorstScaled(f: seq<real>, e: seq<real>, c: real, j: nat)
    requires Positive(e) && Positive(f) && c > 0.0 && IsScaled(f, e, c) && j < |e|
    ensures Worst(f, j) == Worst(e, j)
  {
    PeakScaled(f, e, c, j);
    PeakPositive(e, j);
    RatioScaled(Peak(e, j), e[j], c);
    hide Times;
    assert DrawdownAt(f, j) == DrawdownAt(e, j);
    if j > 0 {
      WorstScaled(f, e, c, j - 1);
    }
  }

  /** The drawdown does not depend on the currency or account size. */
  lemma {:induction false} ScaleInvariant(f: seq<real>, e: seq<real>, c: real)
    requires Positive(e) && c > 0.0 && IsScaled(f, e, c)
    ensures Positive(f) && MaxDrawdown(f) == MaxDrawdown(e)
  {
    PositiveScaled(f, e, c);
    hide Times;
    if |e| > 0 {
      WorstScaled(f, e, c, |e| - 1);
    }
  }
}
