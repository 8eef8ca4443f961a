/** Support and resistance levels from swing pivots and a volume-at-price histogram. */
module SupportResistance {
  import opened Common
  import opened Numbers
  import opened Sorting
  import opened Sums
  import opened Clustering

  datatype Bar = Bar(high: real, low: real, close: real, volume: real)
  datatype Kind = Support | Resistance
  datatype Level = Level(price: real, kind: Kind, strength: real, touches: nat, lastTouchBar: nat)

  datatype Settings = Settings(swingWindow: int, touchTolerancePct: real, minTouches: int, clusterTolerancePct: real,
      buckets: int)

  /** Raised stands for the exceptions of the original: an empty maximum, an index or a division by zero. */
  datatype Detection = Levels(levels: seq<Level>) | Raised

  function Highs(bars: seq<Bar>): (xs: seq<real>)
    ensures |xs| == |bars| && forall i :: 0 <= i < |bars| ==> xs[i] == bars[i].high
  {
    seq(|bars|, i requires 0 <= i < |bars| => bars[i].high)
  }

  function Lows(bars: seq<Bar>): (xs: seq<real>)
    ensures |xs| == |bars| && forall i :: 0 <= i < |bars| ==> xs[i] == bars[i].low
  {
    seq(|bars|, i requires 0 <= i < |bars| => bars[i].low)
  }

  function Volumes(bars: seq<Bar>): (xs: seq<real>)
    ensures |xs| == |bars| && forall i :: 0 <= i < |bars| ==> xs[i] == bars[i].volume
  {
    seq(|bars|, i requires 0 <= i < |bars| => bars[i].volume)
  }

  function MaxOf(xs: seq<real>): (m: real)
    requires xs != []
    ensures m in xs && forall i :: 0 <= i < |xs| ==> xs[i] <= m
  {
    if |xs| == 1 then xs[0] else Max(MaxOf(Front(xs)), Last(xs))
  }

  function MinOf(xs: seq<real>): (m: real)
    requires xs != []
    ensures m in xs && forall i :: 0 <= i < |xs| ==> m <= xs[i]
  {
    if |xs| == 1 then xs[0] else Min(MinOf(Front(xs)), Last(xs))
  }

  // ---- Swing pivots ----

  /** More extreme: higher for a resistance, lower for a support. */
  predicate Beyond(kind: Kind, x: real, y: real) {
    if kind == Resistance then x > y else x < y
  }

  /** Strictly more extreme than every other value within w bars on either side. */
  predicate IsSwing(xs: seq<real>, i: int, w: nat, kind: Kind) {
    w <= i < |xs| - w && forall k :: i - w <= k <= i + w && k != i ==> Beyond(kind, xs[i], xs[k])
  }

  /** The swing bars below n, in order. */
  function Swings(xs: seq<real>, w: nat, kind: Kind, n: nat): seq<nat> {
    if n == 0 then [] else Swings(xs, w, kind, n - 1) + (if IsSwing(xs, n - 1, w, kind) then [n - 1] else [])
  }

  /** The prices of the swing bars below n. */
  function Pivots(xs: seq<real>, w: nat, kind: Kind, n: nat): seq<real> {
    if n == 0 then [] else Pivots(xs, w, kind, n - 1) + (if IsSwing(xs, n - 1, w, kind) then [xs[n - 1]] else [])
  }

  lemma {:induction false} SwingsAre(xs: seq<real>, w: nat, kind: Kind, n: nat)
    ensures forall i :: i in Swings(xs, w, kind, n) <==> 0 <= i < n && IsSwing(xs, i, w, kind)
    ensures forall a, b :: 0 <= a < b < |Swings(xs, w, kind, n)| ==>
      Swings(xs, w, kind, n)[a] < Swings(xs, w, kind, n)[b]
  {
    if n > 0 {
      SwingsAre(xs, w, kind, n - 1);
      var before := Swings(xs, w, kind, n - 1);
      assert forall a :: 0 <= a < |before| ==> before[a] in before;
    }
  }

  lemma TwoSwings(xs: seq<real>, i: nat, j: nat, w: nat, kind: Kind)
    requires i < j && IsSwing(xs, i, w, kind)
    ensures j - i <= w ==> !IsSwing(xs, j, w, kind)
  {
    if j - i <= w {
      assert Beyond(kind, xs[i], xs[j]);
      assert !Beyond(kind, xs[j], xs[i]);
    }
  }

  /** The bars found are all the swings of that kind, in order, and any two are more than w bars apart. */
  lemma {:induction false} SwingsApart(xs: seq<real>, w: nat, kind: Kind)
    ensures forall i :: i in Swings(xs, w, kind, |xs|) <==> IsSwing(xs, i, w, kind)
    ensures forall a, b :: 0 <= a < b < |Swings(xs, w, kind, |xs|)| ==>
      Swings(xs, w, kind, |xs|)[b] - Swings(xs, w, kind, |xs|)[a] > w
  {
    var found := Swings(xs, w, kind, |xs|);
    SwingsAre(xs, w, kind, |xs|);
    hide IsSwing, Swings;
    forall i
      ensures IsSwing(xs, i, w, kind) ==> 0 <= i < |xs|
    {
      SwingInside(xs, i, w, kind);
    }
    forall a, b | 0 <= a < b < |found|
      ensures found[b] - found[a] > w
    {
      assert found[a] in found && found[b] in found;
      TwoSwings(xs, found[a], found[b], w, kind);
    }
  }

  lemma SwingInside(xs: seq<real>, i: int, w: nat, kind: Kind)
    ensures IsSwing(xs, i, w, kind) ==> w <= i < |xs| - w
  {
  }

  lemma {:induction false} SpacedCount(at: seq<nat>, w: nat)
    requires at != [] && forall a, b :: 0 <= a < b < |at| ==> at[b] - at[a] > w
    ensures Last(at) >= at[0] + (|at| - 1) * (w + 1)
  {
    if |at| > 1 {
      SpacedCount(Front(at), w);
      assert at[|at| - 1] - at[|at| - 2] > w;
      assert (|at| - 1) * (w + 1) == (|at| - 2) * (w + 1) + (w + 1);
    }
  }

  /** So a series holds few of them: m swings take at least (m - 1) * (w + 1) + 2w + 1 bars. */
  lemma {:induction false} FewSwings(xs: seq<real>, w: nat, kind: Kind)
    ensures var m := |Swings(xs, w, kind, |xs|)|; m > 0 ==> (m - 1) * (w + 1) + 2 * w < |xs|
  {
    var found := Swings(xs, w, kind, |xs|);
    SwingsApart(xs, w, kind);
    hide IsSwing, Swings;
    if found != [] {
      SpacedCount(found, w);
      assert found[0] in found && Last(found) in found;
      SwingInside(xs, found[0], w, kind);
      SwingInside(xs, Last(found), w, kind);
    }
  }

  /** The pivot prices are the values at the swing bars. */
  lemma {:induction false} PivotsAtSwings(xs: seq<real>, w: nat, kind: Kind, n: nat)
    ensures var at, ps := Swings(xs, w, kind, n), Pivots(xs, w, kind, n);
            |at| == |ps| && forall k :: 0 <= k < |at| ==> at[k] < |xs| && ps[k] == xs[at[k]]
  {
    if n > 0 {
      SwingInside(xs, n - 1, w, kind);
      hide IsSwing;
      PivotsAtSwings(xs, w, kind, n - 1);
    }
  }

  /** The pivot prices are those of bars more than w apart, which are all the swing bars of that kind. */
  lemma {:induction false} PivotsApart(xs: seq<real>, w: nat, kind: Kind) returns (at: seq<nat>)
    ensures |at| == |Pivots(xs, w, kind, |xs|)|
    ensures forall k :: 0 <= k < |at| ==> at[k] < |xs| && Pivots(xs, w, kind, |xs|)[k] == xs[at[k]]
    ensures forall i :: i in at <==> IsSwing(xs, i, w, kind)
    ensures forall a, b :: 0 <= a < b < |at| ==> at[b] - at[a] > w
  {
    at := Swings(xs, w, kind, |xs|);
    PivotsAtSwings(xs, w, kind, |xs|);
    SwingsApart(xs, w, kind);
  }

  /** The comparison with the extreme value on one side. */
  lemma BeyondExtreme(xs: seq<real>, from: int, to: int, x: real)
    requires 0 <= from < to <= |xs|
    ensures x > MaxOf(xs[from..to]) <==> forall k :: from <= k < to ==> x > xs[k]
    ensures x < MinOf(xs[from..to]) <==> forall k :: from <= k < to ==> x < xs[k]
  {
    hide MaxOf, MinOf;
    var s := xs[from..to];
    forall k | from <= k < to
      ensures MinOf(s) <= xs[k] <= MaxOf(s)
    {
      assert s[k - from] == xs[k];
    }
    var high :| 0 <= high < |s| && s[high] == MaxOf(s);
    var low :| 0 <= low < |s| && s[low] == MinOf(s);
    assert xs[from + high] == MaxOf(s) && xs[from + low] == MinOf(s);
  }

  lemma SwingTest(xs: seq<real>, i: int, w: nat)
    requires 1 <= w <= i < |xs| - w
    ensures IsSwing(xs, i, w, Resistance) <==> xs[i] > MaxOf(xs[i - w..i]) && xs[i] > MaxOf(xs[i + 1..i + w + 1])
    ensures IsSwing(xs, i, w, Support) <==> xs[i] < MinOf(xs[i - w..i]) && xs[i] < MinOf(xs[i + 1..i + w + 1])
  {
    hide MaxOf, MinOf;
    BeyondExtreme(xs, i - w, i, xs[i]);
    BeyondExtreme(xs, i + 1, i + w + 1, xs[i]);
  }

  lemma {:induction false} NoPivotsBetween(xs: seq<real>, w: nat, kind: Kind, n: nat, m: nat)
    requires n <= m && forall i :: n <= i < m ==> !IsSwing(xs, i, w, kind)
    ensures Pivots(xs, w, kind, m) == Pivots(xs, w, kind, n)
    decreases m
  {
    if n < m {
      NoPivotsBetween(xs, w, kind, n, m - 1);
    }
  }

  lemma NoPivotsAtEnds(xs: seq<real>, w: nat, kind: Kind)
    requires w <= |xs|
    ensures Pivots(xs, w, kind, w) == []
    ensures Pivots(xs, w, kind, |xs|) == Pivots(xs, w, kind, |xs| - w)
  {
    NoPivotsBetween(xs, w, kind, 0, w);
    NoPivotsBetween(xs, w, kind, |xs| - w, |xs|);
  }

  lemma HighPivotNext(xs: seq<real>, w: nat, i: nat)
    requires 1 <= w <= i < |xs| - w
    ensures Pivots(xs, w, Resistance, i + 1) ==
            Pivots(xs, w, Resistance, i)
            + if xs[i] > MaxOf(xs[i - w..i]) && xs[i] > MaxOf(xs[i + 1..i + w + 1]) then [xs[i]] else []
  {
    hide IsSwing, MaxOf;
    SwingTest(xs, i, w);
  }

  lemma LowPivotNext(xs: seq<real>, w: nat, i: nat)
    requires 1 <= w <= i < |xs| - w
    ensures Pivots(xs, w, Support, i + 1) ==
            Pivots(xs, w, Support, i)
            + if xs[i] < MinOf(xs[i - w..i]) && xs[i] < MinOf(xs[i + 1..i + w + 1]) then [xs[i]] else []
  {
    hide IsSwing, MinOf;
    SwingTest(xs, i, w);
  }

  method FindPivots(high: seq<real>, low: seq<real>, w: nat) returns (resistance: seq<real>, support: seq<real>)
    requires |high| == |low| && 1 <= w && 2 * w + 1 <= |high|
    ensures resistance == Pivots(high, w, Resistance, |high|)
    ensures support == Pivots(low, w, Support, |low|)
  {
    hide *;
    var n := |high|;
    resistance, support := [], [];
    NoPivotsAtEnds(high, w, Resistance);
    NoPivotsAtEnds(low, w, Support);
    for i := w to n - w
      invariant resistance == Pivots(high, w, Resistance, i)
      invariant support == Pivots(low, w, Support, i)
    {
      HighPivotNext(high, w, i);
      LowPivotNext(low, w, i);
      var leftHigh, rightHigh := MaxOf(high[i - w..i]), MaxOf(high[i + 1..i + w + 1]);
      if high[i] > leftHigh && high[i] > rightHigh {
        resistance := resistance + [high[i]];
      }
      var leftLow, rightLow := MinOf(low[i - w..i]), MinOf(low[i + 1..i + w + 1]);
      if low[i] < leftLow && low[i] < rightLow {
        support := support + [low[i]];
      }
    }
  }

  // ---- Volume at price ----

  /** Conversion to int drops the fraction, toward zero. */
  function Truncate(x: real): int {
    if x >= 0.0 then x.Floor else -((-x).Floor)
  }

  datatype Profile = Profile(low: real, size: real, buckets: nat)

  function BucketIndex(close: real, p: Profile): int
    requires p.size > 0.0
  {
    var raw := Truncate((close - p.low) / p.size);
    if raw < p.buckets - 1 then raw else p.buckets - 1
  }

  /** Array indexing: negative indices count from the end, and those beyond it raise. */
  function Slot(index: int, length: nat): (s: Option<nat>)
    ensures s.Some? ==> s.value < length
  {
    if 0 <= index < length then Some(index)
    else if index < 0 && 0 <= index + length then Some(index + length)
    else None
  }

  function SlotOf(b: Bar, p: Profile): (s: Option<nat>)
    requires p.size > 0.0
    ensures s.Some? ==> s.value < p.buckets
  {
    Slot(BucketIndex(b.close, p), p.buckets)
  }

  /** The volume of the bars that fall into one bucket. */
  function VolumeIn(bars: seq<Bar>, p: Profile, slot: nat): real
    requires p.size > 0.0
  {
    if bars == [] then 0.0
    else VolumeIn(Front(bars), p, slot) + (if SlotOf(Last(bars), p) == Some(slot) then Last(bars).volume else 0.0)
  }

  predicate AllPlaced(bars: seq<Bar>, p: Profile)
    requires p.size > 0.0
  {
    forall i :: 0 <= i < |bars| ==> SlotOf(bars[i], p).Some?
  }

  function Histogram(bars: seq<Bar>, p: Profile): (h: seq<real>)
    requires p.size > 0.0
    ensures |h| == p.buckets && forall k :: 0 <= k < p.buckets ==> h[k] == VolumeIn(bars, p, k)
  {
    seq(p.buckets, k requires 0 <= k < p.buckets => VolumeIn(bars, p, k))
  }

  method FillBuckets(bars: seq<Bar>, p: Profile) returns (buckets: array<real>, raised: bool)
    requires p.size > 0.0
    ensures fresh(buckets)
    ensures raised <==> !AllPlaced(bars, p)
    ensures !raised ==> buckets[..] == Histogram(bars, p)
  {
    buckets := new real[p.buckets](_ => 0.0);
    assert buckets[..] == Histogram([], p);
    assert bars[..0] == [];
    hide SlotOf, Histogram, VolumeIn, AllPlaced;
    PlacedNone(p);
    for i := 0 to |bars|
      invariant buckets[..] == Histogram(bars[..i], p)
      invariant AllPlaced(bars[..i], p)
    {
      HistogramNext(bars, i, p);
      PlacedNext(bars, i, p);
      var slot := SlotOf(bars[i], p);
      if slot.None? {
        return buckets, true;
      }
      buckets[slot.value] := buckets[slot.value] + bars[i].volume;
    }
    assert bars[..|bars|] == bars;
    raised := false;
  }

  lemma PlacedNone(p: Profile)
    requires p.size > 0.0
    ensures AllPlaced([], p)
  {
  }

  lemma PlacedNext(bars: seq<Bar>, n: nat, p: Profile)
    requires p.size > 0.0 && n < |bars|
    ensures SlotOf(bars[n], p).None? ==> !AllPlaced(bars, p)
    ensures SlotOf(bars[n], p).Some? && AllPlaced(bars[..n], p) ==> AllPlaced(bars[..n + 1], p)
  {
    hide SlotOf;
    assert bars[..n + 1] == bars[..n] + [bars[n]];
  }

  lemma HistogramNext(bars: seq<Bar>, n: nat, p: Profile)
    requires p.size > 0.0 && n < |bars|
    ensures var slot, before := SlotOf(bars[n], p), Histogram(bars[..n], p);
            slot.Some? ==> Histogram(bars[..n + 1], p) == before[slot.value := before[slot.value] + bars[n].volume]
  {
    hide SlotOf;
    assert Front(bars[..n + 1]) == bars[..n] && Last(bars[..n + 1]) == bars[n];
    var slot, before := SlotOf(bars[n], p), Histogram(bars[..n], p);
    if slot.Some? {
      assert Histogram(bars[..n + 1], p) == before[slot.value := before[slot.value] + bars[n].volume];
    }
  }

  lemma {:induction false} HistogramOfNone(p: Profile)
    requires p.size > 0.0
    ensures Sum(Histogram([], p)) == 0.0
  {
    SumOfZeros(Histogram([], p));
  }

  /** When every bar finds a bucket, the buckets add up to the total volume. */
  lemma {:induction false} HistogramHoldsTotal(bars: seq<Bar>, p: Profile)
    requires p.size > 0.0 && AllPlaced(bars, p)
    ensures Sum(Histogram(bars, p)) == Sum(Volumes(bars))
  {
    if bars == [] {
      HistogramOfNone(p);
    } else {
      HistogramHoldsTotal(Front(bars), p);
      var before, k := Histogram(Front(bars), p), SlotOf(Last(bars), p).value;
      assert Histogram(bars, p) == before[k := before[k] + Last(bars).volume];
      SumUpdate(before, k, before[k] + Last(bars).volume);
      assert Volumes(bars) == Volumes(Front(bars)) + [Last(bars).volume];
      SumSnoc(Volumes(Front(bars)), Last(bars).volume);
    }
  }

  /** Prices make sense: positive, with the close between low and high. */
  predicate WellFormed(bars: seq<Bar>) {
    forall i :: 0 <= i < |bars| ==> 0.0 < bars[i].low <= bars[i].close <= bars[i].high
  }

  function ProfileOf(bars: seq<Bar>, buckets: nat): Profile
    requires bars != [] && buckets > 0
  {
    var low, high := MinOf(Lows(bars)), MaxOf(Highs(bars));
    Profile(low, (high - low) / buckets as real, buckets)
  }

  lemma QuotientNonNegative(x: real, y: real)
    requires x >= 0.0 && y > 0.0
    ensures x / y >= 0.0
  {
    DivideTimes(x, y);
    ScaleOrder(0.0, x / y, y);
  }

  lemma QuotientPositive(x: real, y: real)
    requires x > 0.0 && y > 0.0
    ensures x / y > 0.0
  {
    DivideTimes(x, y);
    ScaleOrder(0.0, x / y, y);
  }

  /** For well-formed bars every bucket index is in range as it stands, without wrapping. */
  lemma {:induction false} BucketsInRange(bars: seq<Bar>, buckets: nat)
    requires bars != [] && buckets > 0 && WellFormed(bars) && MaxOf(Highs(bars)) > MinOf(Lows(bars))
    ensures var p := ProfileOf(bars, buckets);
            && p.size > 0.0 && AllPlaced(bars, p)
            && forall i :: 0 <= i < |bars| ==> 0 <= BucketIndex(bars[i].close, p) < buckets
  {
    var p := ProfileOf(bars, buckets);
    QuotientPositive(MaxOf(Highs(bars)) - MinOf(Lows(bars)), buckets as real);
    forall i | 0 <= i < |bars|
      ensures 0 <= BucketIndex(bars[i].close, p) < buckets && SlotOf(bars[i], p).Some?
    {
      assert Lows(bars)[i] == bars[i].low;
      QuotientNonNegative(bars[i].close - p.low, p.size);
    }
  }

  /** Strictly more volume than both neighbours. */
  predicate IsPeak(h: seq<real>, i: int) {
    1 <= i < |h| - 1 && h[i] > h[i - 1] && h[i] > h[i + 1]
  }

  function Middle(p: Profile, i: int): real {
    p.low + (i as real + 0.5) * p.size
  }

  /** The bucket middles that become candidates of one kind, among the buckets below n. */
  function PeakPrices(h: seq<real>, p: Profile, lastClose: real, kind: Kind, n: nat): seq<real> {
    if n == 0 then []
    else
      PeakPrices(h, p, lastClose, kind, n - 1) +
      (if IsPeak(h, n - 1) && (kind == Support <==> Middle(p, n - 1) < lastClose) then [Middle(p, n - 1)] else [])
  }

  lemma NoPeaksAtEnds(h: seq<real>, p: Profile, close: real)
    requires |h| > 2
    ensures PeakPrices(h, p, close, Resistance, 1) == [] && PeakPrices(h, p, close, Support, 1) == []
    ensures PeakPrices(h, p, close, Resistance, |h|) == PeakPrices(h, p, close, Resistance, |h| - 1)
    ensures PeakPrices(h, p, close, Support, |h|) == PeakPrices(h, p, close, Support, |h| - 1)
  {
    assert !IsPeak(h, 0) && !IsPeak(h, |h| - 1);
  }

  lemma PeaksNext(h: seq<real>, p: Profile, close: real, i: nat)
    ensures var rs, ss := PeakPrices(h, p, close, Resistance, i), PeakPrices(h, p, close, Support, i);
            var mid := Middle(p, i);
            && PeakPrices(h, p, close, Resistance, i + 1) == (if IsPeak(h, i) && mid >= close then rs + [mid] else rs)
            && PeakPrices(h, p, close, Support, i + 1) == (if IsPeak(h, i) && mid < close then ss + [mid] else ss)
            && (IsPeak(h, i) <==> 1 <= i < |h| - 1 && h[i] > h[i - 1] && h[i] > h[i + 1])
  {
  }

  method AddPeaks(h: array<real>, p: Profile, lastClose: real, resistance: seq<real>, support: seq<real>)
    returns (resistance': seq<real>, support': seq<real>)
    requires h.Length > 2
    ensures resistance' == resistance + PeakPrices(h[..], p, lastClose, Resistance, h.Length)
    ensures support' == support + PeakPrices(h[..], p, lastClose, Support, h.Length)
  {
    hide *;
    ghost var hs, rs, ss := h[..], [], [];
    resistance', support' := resistance, support;
    NoPeaksAtEnds(hs, p, lastClose);
    for i := 1 to h.Length - 1
      invariant resistance' == resistance + rs && rs == PeakPrices(hs, p, lastClose, Resistance, i)
      invariant support' == support + ss && ss == PeakPrices(hs, p, lastClose, Support, i)
    {
      PeaksNext(hs, p, lastClose, i);
      if h[i] > h[i - 1] && h[i] > h[i + 1] {
        var bucketMid := Middle(p, i);
        if bucketMid < lastClose {
          AppendAssociates(support, ss, bucketMid);
          support', ss := support' + [bucketMid], ss + [bucketMid];
        } else {
          AppendAssociates(resistance, rs, bucketMid);
          resistance', rs := resistance' + [bucketMid], rs + [bucketMid];
        }
      }
    }
  }

  // ---- Touches ----

  predicate Touches(wick: real, level: real, tolerancePct: real) {
    Abs(wick - level) <= level * tolerancePct / 100.0
  }

  /** How many of the wicks touch the level. */
  function TouchesOf(wicks: seq<real>, level: real, tol: real): nat {
    if wicks == [] then 0 else TouchesOf(Front(wicks), level, tol) + (if Touches(Last(wicks), level, tol) then 1 else 0)
  }

  /** The index of the last wick that touches, or 0. */
  function LastTouch(wicks: seq<real>, level: real, tol: real): nat {
    if wicks == [] then 0
    else if Touches(Last(wicks), level, tol) then |wicks| - 1 else LastTouch(Front(wicks), level, tol)
  }

  lemma TouchesNone(level: real, tol: real)
    ensures TouchesOf([], level, tol) == 0 && LastTouch([], level, tol) == 0
  {
  }

  lemma TouchesNext(wicks: seq<real>, n: nat, level: real, tol: real)
    requires n < |wicks|
    ensures if Touches(wicks[n], level, tol)
            then TouchesOf(wicks[..n + 1], level, tol) == TouchesOf(wicks[..n], level, tol) + 1
                 && LastTouch(wicks[..n + 1], level, tol) == n
            else TouchesOf(wicks[..n + 1], level, tol) == TouchesOf(wicks[..n], level, tol)
                 && LastTouch(wicks[..n + 1], level, tol) == LastTouch(wicks[..n], level, tol)
  {
    hide Touches;
    assert Front(wicks[..n + 1]) == wicks[..n] && Last(wicks[..n + 1]) == wicks[n];
  }

  method TouchCount(wicks: seq<real>, level: real, tolerancePct: real) returns (touches: nat, lastBar: nat)
    ensures touches == TouchesOf(wicks, level, tolerancePct)
    ensures lastBar == LastTouch(wicks, level, tolerancePct)
  {
    var tol := level * tolerancePct / 100.0;
    touches, lastBar := 0, 0;
    hide Abs, TouchesOf, LastTouch;
    TouchesNone(level, tolerancePct);
    for i := 0 to |wicks|
      invariant touches == TouchesOf(wicks[..i], level, tolerancePct)
      invariant lastBar == LastTouch(wicks[..i], level, tolerancePct)
    {
      TouchesNext(wicks, i, level, tolerancePct);
      assert Touches(wicks[i], level, tolerancePct) <==> Abs(wicks[i] - level) <= tol;
      if Abs(wicks[i] - level) <= tol {
        touches := touches + 1;
        lastBar := i;
      }
    }
    assert wicks[..|wicks|] == wicks;
  }

  /** The reported bar touches and no later one does, exactly when there is a touch at all. */
  lemma {:induction false} LastTouchIsLast(wicks: seq<real>, level: real, tol: real)
    ensures TouchesOf(wicks, level, tol) <= |wicks|
    ensures TouchesOf(wicks, level, tol) == 0 <==> forall i :: 0 <= i < |wicks| ==> !Touches(wicks[i], level, tol)
    ensures var k := LastTouch(wicks, level, tol);
            if TouchesOf(wicks, level, tol) == 0 then k == 0
            else k < |wicks| && Touches(wicks[k], level, tol)
                 && forall i :: k < i < |wicks| ==> !Touches(wicks[i], level, tol)
  {
    if wicks != [] {
      LastTouchIsLast(Front(wicks), level, tol);
    }
  }

  datatype Hit = Hit(price: real, kind: Kind, touches: nat, lastBar: nat)

  function HitAt(price: real, kind: Kind, wicks: seq<real>, tol: real): Hit {
    Hit(price, kind, TouchesOf(wicks, price, tol), LastTouch(wicks, price, tol))
  }

  /** The prices touched often enough. */
  function Hits(prices: seq<real>, kind: Kind, wicks: seq<real>, s: Settings): seq<Hit> {
    if prices == [] then []
    else
      var hit := HitAt(Last(prices), kind, wicks, s.touchTolerancePct);
      Hits(Front(prices), kind, wicks, s) + (if hit.touches >= s.minTouches then [hit] else [])
  }

  /** At least one, so that it can divide. */
  function MostTouches(hits: seq<Hit>): (m: nat)
    ensures m >= 1 && forall i :: 0 <= i < |hits| ==> hits[i].touches <= m
  {
    if hits == [] then 1
    else
      var m := MostTouches(Front(hits));
      (if m < Last(hits).touches then Last(hits).touches else m)
  }

  lemma MostOfNone()
    ensures MostTouches([]) == 1
  {
  }

  lemma MostNext(hits: seq<Hit>, hit: Hit)
    ensures MostTouches(hits + [hit]) ==
            if MostTouches(hits) < hit.touches then hit.touches else MostTouches(hits)
  {
    AppendFrontLast(hits, hit);
  }

  lemma HitsNext(prices: seq<real>, n: nat, kind: Kind, wicks: seq<real>, s: Settings)
    requires n < |prices|
    ensures var touches := TouchesOf(wicks, prices[n], s.touchTolerancePct);
            var last := LastTouch(wicks, prices[n], s.touchTolerancePct);
            Hits(prices[..n + 1], kind, wicks, s) ==
            Hits(prices[..n], kind, wicks, s)
            + (if touches >= s.minTouches then [Hit(prices[n], kind, touches, last)] else [])
  {
    hide TouchesOf, LastTouch;
    assert Front(prices[..n + 1]) == prices[..n] && Last(prices[..n + 1]) == prices[n];
  }

  method AddHits(prices: seq<real>, kind: Kind, wicks: seq<real>, s: Settings, candidates: seq<Hit>, maxTouches: nat)
    returns (candidates': seq<Hit>, maxTouches': nat)
    requires maxTouches == MostTouches(candidates)
    ensures candidates' == candidates + Hits(prices, kind, wicks, s)
    ensures maxTouches' == MostTouches(candidates')
  {
    candidates', maxTouches' := candidates, maxTouches;
    assert Hits([], kind, wicks, s) == [];
    hide Hits, MostTouches, TouchesOf, LastTouch;
    for i := 0 to |prices|
      invariant candidates' == candidates + Hits(prices[..i], kind, wicks, s)
      invariant maxTouches' == MostTouches(candidates')
    {
      HitsNext(prices, i, kind, wicks, s);
      ghost var before := Hits(prices[..i], kind, wicks, s);
      var touches, lastBar := TouchCount(wicks, prices[i], s.touchTolerancePct);
      if touches >= s.minTouches {
        var hit := Hit(prices[i], kind, touches, lastBar);
        MostNext(candidates', hit);
        AppendAssociates(candidates, before, hit);
        candidates' := candidates' + [hit];
        maxTouches' := if maxTouches' < touches then touches else maxTouches';
      }
    }
    assert prices[..|prices|] == prices;
  }

  function Scored(h: Hit, most: nat): Level
    requires most >= 1
  {
    Level(Round6(h.price), h.kind, h.touches as real / most as real, h.touches, h.lastBar)
  }

  function ScoredAll(hits: seq<Hit>, most: nat): (ls: seq<Level>)
    requires most >= 1
    ensures |ls| == |hits| && forall i :: 0 <= i < |hits| ==> ls[i] == Scored(hits[i], most)
  {
    seq(|hits|, i requires 0 <= i < |hits| => Scored(hits[i], most))
  }

  function PriceOf(l: Level): real {
    l.price
  }

  // ---- The whole detection ----

  /** The candidate prices of both kinds; None when a bucket index raises. */
  function Candidates(bars: seq<Bar>, s: Settings): Option<(seq<real>, seq<real>)>
    requires 1 <= s.swingWindow && 2 * s.swingWindow + 1 <= |bars|
  {
    var resistance := Pivots(Highs(bars), s.swingWindow, Resistance, |bars|);
    var support := Pivots(Lows(bars), s.swingWindow, Support, |bars|);
    if MaxOf(Highs(bars)) > MinOf(Lows(bars)) && s.buckets > 2 then
      var p := ProfileOf(bars, s.buckets);
      QuotientPositive(MaxOf(Highs(bars)) - MinOf(Lows(bars)), s.buckets as real);
      if AllPlaced(bars, p) then
        var h := Histogram(bars, p);
        Some((resistance + PeakPrices(h, p, Last(bars).close, Resistance, s.buckets),
              support + PeakPrices(h, p, Last(bars).close, Support, s.buckets)))
      else None
    else Some((resistance, support))
  }

  /** The representatives of both kinds, after clustering. */
  function Representatives(bars: seq<Bar>, s: Settings): Option<(seq<real>, seq<real>)>
    requires 1 <= s.swingWindow && 2 * s.swingWindow + 1 <= |bars|
  {
    match Candidates(bars, s)
    case None => None
    case Some((resistance, support)) =>
      var rs, ss := Clustered(resistance, s.clusterTolerancePct), Clustered(support, s.clusterTolerancePct);
      if rs.Some? && ss.Some? then Some((rs.value, ss.value)) else None
  }

  function AllHits(bars: seq<Bar>, reps: (seq<real>, seq<real>), s: Settings): seq<Hit> {
    Hits(reps.0, Resistance, Highs(bars), s) + Hits(reps.1, Support, Lows(bars), s)
  }

  function Detected(bars: seq<Bar>, s: Settings): Detection {
    if |bars| < 2 * s.swingWindow + 1 then Levels([])
    else if s.swingWindow < 1 then Raised
    else
      match Representatives(bars, s)
      case None => Raised
      case Some(reps) =>
        var hits := AllHits(bars, reps, s);
        Levels(SortBy(ScoredAll(hits, MostTouches(hits)), PriceOf))
  }

  method CandidatePrices(bars: seq<Bar>, s: Settings) returns (found: Option<(seq<real>, seq<real>)>)
    requires 1 <= s.swingWindow && 2 * s.swingWindow + 1 <= |bars|
    ensures found == Candidates(bars, s)
  {
    hide Pivots, PeakPrices, Histogram, AllPlaced, MaxOf, MinOf, Highs, Lows;
    var high, low := Highs(bars), Lows(bars);
    var resistance, support := FindPivots(high, low, s.swingWindow);
    var priceMin, priceMax := MinOf(low), MaxOf(high);
    if priceMax > priceMin && s.buckets > 2 {
      QuotientPositive(priceMax - priceMin, s.buckets as real);
      var p := Profile(priceMin, (priceMax - priceMin) / s.buckets as real, s.buckets);
      var volBuckets, raised := FillBuckets(bars, p);
      if raised {
        return None;
      }
      resistance, support := AddPeaks(volBuckets, p, Last(bars).close, resistance, support);
    }
    found := Some((resistance, support));
  }

  method DetectSrLevels(bars: seq<Bar>, s: Settings) returns (result: Detection)
    ensures result == Detected(bars, s)
    ensures |bars| < 2 * s.swingWindow + 1 ==> result == Levels([])
    ensures |bars| >= 2 * s.swingWindow + 1 && s.swingWindow < 1 ==> result == Raised
  {
    hide Candidates, Clustered, Hits, MostTouches, SortBy, ScoredAll, Highs, Lows;
    if |bars| < 2 * s.swingWindow + 1 {
      return Levels([]);
    }
    if s.swingWindow < 1 {
      return Raised;
    }
    var found := CandidatePrices(bars, s);
    if found.None? {
      return Raised;
    }
    var resistancePrices := Cluster(found.value.0, s.clusterTolerancePct);
    if resistancePrices.None? {
      return Raised;
    }
    var supportPrices := Cluster(found.value.1, s.clusterTolerancePct);
    if supportPrices.None? {
      return Raised;
    }
    MostOfNone();
    var candidates, maxTouches := AddHits(resistancePrices.value, Resistance, Highs(bars), s, [], 1);
    assert candidates == Hits(resistancePrices.value, Resistance, Highs(bars), s);
    candidates, maxTouches := AddHits(supportPrices.value, Support, Lows(bars), s, candidates, maxTouches);
    result := Levels(SortBy(ScoredAll(candidates, maxTouches), PriceOf));
  }

  // ---- What the levels are ----

  lemma {:induction false} HitsAre(prices: seq<real>, kind: Kind, wicks: seq<real>, s: Settings, hit: Hit)
    ensures hit in Hits(prices, kind, wicks, s) <==>
            && hit.price in prices && hit == HitAt(hit.price, kind, wicks, s.touchTolerancePct)
            && hit.touches >= s.minTouches
  {
    if prices != [] {
      HitsAre(Front(prices), kind, wicks, s, hit);
      FrontLast(prices);
      assert hit.price in prices <==> hit.price in Front(prices) || hit.price == Last(prices);
    }
  }

  /** The index of a level's hit. */
  lemma HitOfLevel(hits: seq<Hit>, most: nat, l: Level) returns (k: nat)
    requires most >= 1 && l in ScoredAll(hits, most)
    ensures k < |hits| && l == Scored(hits[k], most)
  {
    k :| 0 <= k < |hits| && ScoredAll(hits, most)[k] == l;
  }

  lemma ScoredFields(h: Hit, most: nat)
    requires most >= 1
    ensures var l := Scored(h, most);
            && l.price == Round6(h.price) && SixDecimals(l.price)
            && l.kind == h.kind && l.touches == h.touches && l.lastTouchBar == h.lastBar
  {
    Round6IsSixDecimals(h.price);
  }

  /** Every level is a cluster representative touched often enough, with the touches recounted. */
  lemma {:induction false} LevelsSound(bars: seq<Bar>, s: Settings, l: Level) returns (price: real)
    requires Detected(bars, s).Levels? && l in Detected(bars, s).levels
    ensures 1 <= s.swingWindow && 2 * s.swingWindow + 1 <= |bars| && Representatives(bars, s).Some?
    ensures var reps := Representatives(bars, s).value;
            var wicks := if l.kind == Resistance then Highs(bars) else Lows(bars);
            && price in (if l.kind == Resistance then reps.0 else reps.1)
            && l.price == Round6(price) && SixDecimals(l.price) && -0.0000005 <= l.price - price <= 0.0000005
            && l.touches == TouchesOf(wicks, price, s.touchTolerancePct) >= s.minTouches
            && l.lastTouchBar == LastTouch(wicks, price, s.touchTolerancePct)
  {
    hide Representatives, TouchesOf, LastTouch, Hits, SortBy, ScoredAll, Scored, MostTouches, Highs, Lows, SixDecimals,
      RoundHalfEven;
    var reps := Representatives(bars, s).value;
    var hits, most := AllHits(bars, reps, s), MostTouches(AllHits(bars, reps, s));
    InSorted(ScoredAll(hits, most), PriceOf, l);
    var k := HitOfLevel(hits, most, l);
    price := hits[k].price;
    ScoredFields(hits[k], most);
    assert hits[k] in hits;
    HitsAre(reps.0, Resistance, Highs(bars), s, hits[k]);
    HitsAre(reps.1, Support, Lows(bars), s, hits[k]);
  }

  /** Every representative touched often enough is reported. */
  lemma {:induction false} LevelsComplete(bars: seq<Bar>, s: Settings, kind: Kind, price: real) returns (l: Level)
    requires 1 <= s.swingWindow && 2 * s.swingWindow + 1 <= |bars| && Representatives(bars, s).Some?
    requires var reps := Representatives(bars, s).value;
             var wicks := if kind == Resistance then Highs(bars) else Lows(bars);
             && price in (if kind == Resistance then reps.0 else reps.1)
             && TouchesOf(wicks, price, s.touchTolerancePct) >= s.minTouches
    ensures Detected(bars, s).Levels? && l in Detected(bars, s).levels
    ensures l.kind == kind && l.price == Round6(price)
  {
    hide Representatives, TouchesOf, LastTouch, Hits, SortBy;
    var reps := Representatives(bars, s).value;
    var wicks := if kind == Resistance then Highs(bars) else Lows(bars);
    var hits := AllHits(bars, reps, s);
    var hit := HitAt(price, kind, wicks, s.touchTolerancePct);
    HitsAre(reps.0, Resistance, Highs(bars), s, hit);
    HitsAre(reps.1, Support, Lows(bars), s, hit);
    assert hit in hits;
    var k :| 0 <= k < |hits| && hits[k] == hit;
    l := ScoredAll(hits, MostTouches(hits))[k];
    InSorted(ScoredAll(hits, MostTouches(hits)), PriceOf, l);
  }

  /** Levels come in ascending order of price. */
  lemma {:induction false} LevelsAscending(bars: seq<Bar>, s: Settings)
    requires Detected(bars, s).Levels?
    ensures var ls := Detected(bars, s).levels; forall i, j :: 0 <= i < j < |ls| ==> ls[i].price <= ls[j].price
  {
    hide Representatives, AllHits, SortBy;
    var ls := Detected(bars, s).levels;
    if |bars| >= 2 * s.swingWindow + 1 {
      var hits := AllHits(bars, Representatives(bars, s).value, s);
      SortBySorted(ScoredAll(hits, MostTouches(hits)), PriceOf);
      forall i, j | 0 <= i < j < |ls|
        ensures ls[i].price <= ls[j].price
      {
        assert PriceOf(ls[i]) <= PriceOf(ls[j]);
      }
    }
  }

  // ---- Strengths ----

  lemma {:induction false} MostIsReached(hits: seq<Hit>) returns (k: nat)
    requires hits != [] && exists i :: 0 <= i < |hits| && hits[i].touches >= 1
    ensures k < |hits| && hits[k].touches == MostTouches(hits)
  {
    if Last(hits).touches >= MostTouches(Front(hits)) {
      k := |hits| - 1;
    } else if exists i :: 0 <= i < |Front(hits)| && Front(hits)[i].touches >= 1 {
      k := MostIsReached(Front(hits));
    } else {
      assert MostTouches(Front(hits)) == 1 by {
        AllUntouched(Front(hits));
      }
      var i :| 0 <= i < |hits| && hits[i].touches >= 1;
      k := i;
    }
  }

  lemma {:induction false} AllUntouched(hits: seq<Hit>)
    requires forall i :: 0 <= i < |hits| ==> hits[i].touches == 0
    ensures MostTouches(hits) == 1
  {
    if hits != [] {
      AllUntouched(Front(hits));
    }
  }

  lemma StrengthOf(h: Hit, most: nat)
    requires most >= 1 && h.touches <= most
    ensures 0.0 <= Scored(h, most).strength <= 1.0
    ensures Scored(h, most).strength > 0.0 <==> h.touches >= 1
    ensures Scored(h, most).strength == 1.0 <==> h.touches == most
  {
    QuotientOrder(h.touches as real, most as real, 1.0);
    QuotientOrder(h.touches as real, most as real, 0.0);
    QuotientNonNegative(h.touches as real, most as real);
  }

  /**
   * Every strength lies in [0, 1]; a level's strength is positive exactly when it is touched at all, and the most
   * touched level has strength one whenever any level is touched. A minimum of at least one touch ensures both.
   * Strengths are proportional to touches.
   */
  lemma {:induction false} StrengthsNormalised(bars: seq<Bar>, s: Settings)
    requires Detected(bars, s).Levels?
    ensures var ls := Detected(bars, s).levels;
            && (forall l :: l in ls ==> 0.0 <= l.strength <= 1.0 && (l.strength > 0.0 <==> l.touches >= 1))
            && (forall l :: l in ls && s.minTouches >= 1 ==> 0.0 < l.strength)
            && ((exists l :: l in ls && l.strength == 1.0) <==> (exists l :: l in ls && l.touches >= 1))
            && (ls != [] && s.minTouches >= 1 ==> exists l :: l in ls && l.strength == 1.0)
            && (forall l, m :: l in ls && m in ls ==> l.strength * m.touches as real == m.strength * l.touches as real)
  {
    hide Representatives, AllHits, SortBy, Scored, ScoredAll, MostTouches;
    var ls := Detected(bars, s).levels;
    if |bars| >= 2 * s.swingWindow + 1 {
      var hits := AllHits(bars, Representatives(bars, s).value, s);
      var all := ScoredAll(hits, MostTouches(hits));
      ScoresNormalised(hits);
      forall l
        ensures l in ls <==> l in all
      {
        InSorted(all, PriceOf, l);
      }
      forall l | l in ls
        ensures l.touches >= s.minTouches
      {
        var _ := LevelsSound(bars, s, l);
      }
      if ls != [] && s.minTouches >= 1 {
        assert ls[0] in ls && ls[0].touches >= 1;
      }
    }
  }

  /** The same for the levels before they are sorted. */
  lemma ScoresNormalised(hits: seq<Hit>)
    ensures var all := ScoredAll(hits, MostTouches(hits));
            && (forall l :: l in all ==> 0.0 <= l.strength <= 1.0 && (l.strength > 0.0 <==> l.touches >= 1))
            && (forall l, m :: l in all && m in all ==>
                  l.strength * m.touches as real == m.strength * l.touches as real)
            && ((exists l :: l in all && l.touches >= 1) ==> exists l :: l in all && l.strength == 1.0)
  {
    hide Scored, MostTouches;
    var most := MostTouches(hits);
    var all := ScoredAll(hits, most);
    forall l | l in all
      ensures 0.0 <= l.strength <= 1.0 && (l.strength > 0.0 <==> l.touches >= 1)
    {
      var k := HitOfLevel(hits, most, l);
      StrengthOf(hits[k], most);
      ScoredFields(hits[k], most);
    }
    forall l, m | l in all && m in all
      ensures l.strength * m.touches as real == m.strength * l.touches as real
    {
      var i := HitOfLevel(hits, most, l);
      var j := HitOfLevel(hits, most, m);
      ScoredShares(hits[i], hits[j], most);
    }
    if l :| l in all && l.touches >= 1 {
      var k := HitOfLevel(hits, most, l);
      ScoredFields(hits[k], most);
      var top := MostIsReached(hits);
      StrengthOf(hits[top], most);
      assert all[top] in all;
    }
  }

  lemma ScoredShares(g: Hit, h: Hit, most: nat)
    requires most >= 1
    ensures Scored(g, most).strength * Scored(h, most).touches as real
         == Scored(h, most).strength * Scored(g, most).touches as real
  {
    hide Round6;
    SameShare(g.touches as real, h.touches as real, most as real);
  }

  lemma SameShare(x: real, y: real, most: real)
    requires most > 0.0
    ensures x / most * y == y / most * x
  {
  }

  // ---- Well-formed bars never raise, and levels stay within the traded range ----

  lemma {:induction false} PivotsWithin(xs: seq<real>, w: nat, kind: Kind, n: nat, low: real, high: real)
    requires Within(xs, low, high)
    ensures Within(Pivots(xs, w, kind, n), low, high)
  {
    if n > 0 {
      PivotsWithin(xs, w, kind, n - 1, low, high);
    }
  }

  lemma MiddleWithin(p: Profile, i: int, high: real)
    requires 0 <= i < p.buckets && p.size > 0.0 && p.low + p.buckets as real * p.size == high
    ensures p.low <= Middle(p, i) <= high
  {
    var x, n := i as real + 0.5, p.buckets as real;
    ScaleOrder(0.0, x, p.size);
    ScaleOrder(x, n, p.size);
  }

  lemma {:induction false} PeaksWithin(h: seq<real>, p: Profile, close: real, kind: Kind, n: nat, high: real)
    requires n <= p.buckets && p.size > 0.0 && p.low + p.buckets as real * p.size == high
    ensures Within(PeakPrices(h, p, close, kind, n), p.low, high)
  {
    if n > 0 {
      PeaksWithin(h, p, close, kind, n - 1, high);
      MiddleWithin(p, n - 1, high);
    }
  }

  lemma RangeWithin(bars: seq<Bar>)
    requires bars != [] && WellFormed(bars)
    ensures MinOf(Lows(bars)) > 0.0
    ensures Within(Highs(bars), MinOf(Lows(bars)), MaxOf(Highs(bars)))
    ensures Within(Lows(bars), MinOf(Lows(bars)), MaxOf(Highs(bars)))
  {
    forall i | 0 <= i < |bars|
      ensures MinOf(Lows(bars)) <= bars[i].low <= bars[i].high <= MaxOf(Highs(bars))
    {
      assert Lows(bars)[i] == bars[i].low && Highs(bars)[i] == bars[i].high;
    }
  }

  lemma CandidatesWithin(bars: seq<Bar>, s: Settings) returns (resistance: seq<real>, support: seq<real>)
    requires 1 <= s.swingWindow && 2 * s.swingWindow + 1 <= |bars| && WellFormed(bars)
    ensures Candidates(bars, s) == Some((resistance, support))
    ensures Within(resistance, MinOf(Lows(bars)), MaxOf(Highs(bars)))
    ensures Within(support, MinOf(Lows(bars)), MaxOf(Highs(bars)))
  {
    hide Pivots, PeakPrices, MaxOf, MinOf, Histogram, AllPlaced;
    var low, high := MinOf(Lows(bars)), MaxOf(Highs(bars));
    RangeWithin(bars);
    PivotsWithin(Highs(bars), s.swingWindow, Resistance, |bars|, low, high);
    PivotsWithin(Lows(bars), s.swingWindow, Support, |bars|, low, high);
    if high > low && s.buckets > 2 {
      var p := ProfileOf(bars, s.buckets);
      BucketsInRange(bars, s.buckets);
      DivideTimes(high - low, s.buckets as real);
      assert p.low + p.buckets as real * p.size == high;
      PeaksWithin(Histogram(bars, p), p, Last(bars).close, Resistance, s.buckets, high);
      PeaksWithin(Histogram(bars, p), p, Last(bars).close, Support, s.buckets, high);
    }
    var c := Candidates(bars, s).value;
    resistance, support := c.0, c.1;
  }

  lemma ClusterWithin(prices: seq<real>, tol: real, low: real, high: real)
    requires 0.0 < low && Within(prices, low, high)
    ensures Clustered(prices, tol).Some? && Within(Clustered(prices, tol).value, low, high)
  {
    hide Groups, Mean, Flatten, SortBy, Clustered;
    var gs := LevelsInsideGroups(prices, tol);
    forall i | 0 <= i < |gs|
      ensures low <= Means(gs)[i] <= high
    {
      assert gs[i][0] in prices && Last(gs[i]) in prices;
    }
  }

  /**
   * On well-formed bars with a window of at least one bar detection never raises, and every level it reports
   * lies between the lowest low and the highest high, up to the rounding of its price.
   */
  lemma {:induction false} LevelsWithinRange(bars: seq<Bar>, s: Settings)
    requires 1 <= s.swingWindow && WellFormed(bars)
    ensures Detected(bars, s).Levels?
    ensures forall l :: l in Detected(bars, s).levels ==>
      bars != [] && MinOf(Lows(bars)) - 0.0000005 <= l.price <= MaxOf(Highs(bars)) + 0.0000005
  {
    if |bars| >= 2 * s.swingWindow + 1 {
      var rs, ss := RepresentativesWithin(bars, s);
      hide Representatives, AllHits, SortBy, Highs, Lows, WellFormed, Within, MaxOf, MinOf;
      hide TouchesOf, LastTouch, Round6;
      forall l | l in Detected(bars, s).levels
        ensures MinOf(Lows(bars)) - 0.0000005 <= l.price <= MaxOf(Highs(bars)) + 0.0000005
      {
        var price := LevelsSound(bars, s, l);
        InWithin(if l.kind == Resistance then rs else ss, price, MinOf(Lows(bars)), MaxOf(Highs(bars)));
      }
    }
  }

  lemma InWithin(xs: seq<real>, x: real, low: real, high: real)
    requires Within(xs, low, high) && x in xs
    ensures low <= x <= high
  {
  }

  lemma RepresentativesWithin(bars: seq<Bar>, s: Settings) returns (rs: seq<real>, ss: seq<real>)
    requires 1 <= s.swingWindow && 2 * s.swingWindow + 1 <= |bars| && WellFormed(bars)
    ensures Representatives(bars, s) == Some((rs, ss))
    ensures Within(rs, MinOf(Lows(bars)), MaxOf(Highs(bars))) && Within(ss, MinOf(Lows(bars)), MaxOf(Highs(bars)))
  {
    RangeWithin(bars);
    var resistance, support := CandidatesWithin(bars, s);
    ClusterWithin(resistance, s.clusterTolerancePct, MinOf(Lows(bars)), MaxOf(Highs(bars)));
    ClusterWithin(support, s.clusterTolerancePct, MinOf(Lows(bars)), MaxOf(Highs(bars)));
    hide Candidates, Clustered, Within, Highs, Lows, MinOf, MaxOf;
    rs, ss := Clustered(resistance, s.clusterTolerancePct).value, Clustered(support, s.clusterTolerancePct).value;
  }

  // ---- Reported levels of one kind stay apart ----

  /** Hits keep the order of their prices. */
  lemma {:induction false} HitsFollowPrices(prices: seq<real>, kind: Kind, wicks: seq<real>, s: Settings, a: nat,
      b: nat)
      returns (i: nat, j: nat)
    requires a < b < |Hits(prices, kind, wicks, s)|
    ensures i < j < |prices|
    ensures Hits(prices, kind, wicks, s)[a].price == prices[i] && Hits(prices, kind, wicks, s)[b].price == prices[j]
  {
    var before := Hits(Front(prices), kind, wicks, s);
    if b < |before| {
      i, j := HitsFollowPrices(Front(prices), kind, wicks, s, a, b);
    } else {
      j := |prices| - 1;
      i := HitPrice(Front(prices), kind, wicks, s, a);
    }
  }

  lemma {:induction false} HitPrice(prices: seq<real>, kind: Kind, wicks: seq<real>, s: Settings, a: nat)
      returns (i: nat)
    requires a < |Hits(prices, kind, wicks, s)|
    ensures i < |prices| && Hits(prices, kind, wicks, s)[a].price == prices[i]
    ensures Hits(prices, kind, wicks, s)[a].kind == kind
  {
    if a < |Hits(Front(prices), kind, wicks, s)| {
      i := HitPrice(Front(prices), kind, wicks, s, a);
    } else {
      i := |prices| - 1;
    }
  }

  ghost predicate FarAbove(p: real, q: real, tol: real) {
    (q - p) * 100.0 > Times(tol, p)
  }

  /** Two hits of one kind are separated, in one order or the other. */
  lemma HitsApart(bars: seq<Bar>, reps: (seq<real>, seq<real>), s: Settings, a: nat, b: nat)
    requires Separated(reps.0, s.clusterTolerancePct) && Separated(reps.1, s.clusterTolerancePct)
    requires var hits := AllHits(bars, reps, s); a < b < |hits| && hits[a].kind == hits[b].kind
    ensures var hits := AllHits(bars, reps, s); FarAbove(hits[a].price, hits[b].price, s.clusterTolerancePct)
  {
    var rs, ss := Hits(reps.0, Resistance, Highs(bars), s), Hits(reps.1, Support, Lows(bars), s);
    hide Hits, Highs, Lows;
    if b < |rs| {
      var i, j := HitsFollowPrices(reps.0, Resistance, Highs(bars), s, a, b);
    } else if a >= |rs| {
      var i, j := HitsFollowPrices(reps.1, Support, Lows(bars), s, a - |rs|, b - |rs|);
    } else {
      var i := HitPrice(reps.0, Resistance, Highs(bars), s, a);
      var j := HitPrice(reps.1, Support, Lows(bars), s, b - |rs|);
    }
  }

  lemma WithinPositive(xs: seq<real>, low: real, high: real)
    requires Within(xs, low, high) && low > 0.0
    ensures Positive(xs)
  {
  }

  lemma RepresentativesSeparated(bars: seq<Bar>, s: Settings) returns (rs: seq<real>, ss: seq<real>)
    requires 1 <= s.swingWindow && 2 * s.swingWindow + 1 <= |bars| && WellFormed(bars) && s.clusterTolerancePct >= 0.0
    ensures Representatives(bars, s) == Some((rs, ss))
    ensures Separated(rs, s.clusterTolerancePct) && Separated(ss, s.clusterTolerancePct)
  {
    RangeWithin(bars);
    var resistance, support := CandidatesWithin(bars, s);
    WithinPositive(resistance, MinOf(Lows(bars)), MaxOf(Highs(bars)));
    WithinPositive(support, MinOf(Lows(bars)), MaxOf(Highs(bars)));
    LevelsSeparated(resistance, s.clusterTolerancePct);
    LevelsSeparated(support, s.clusterTolerancePct);
    hide Candidates, Clustered, Within, Highs, Lows, MinOf, MaxOf, Separated, Positive, WellFormed;
    rs, ss := Clustered(resistance, s.clusterTolerancePct).value, Clustered(support, s.clusterTolerancePct).value;
  }

  lemma RoundedApart(p: real, q: real, tol: real)
    requires FarAbove(p, q, tol) && tol >= 0.0
    ensures (Round6(q) - Round6(p) + 0.000001) * 100.0 > Times(tol, Round6(p) - 0.0000005)
  {
    hide Round6, Times;
    Scaled(tol, Round6(p) - 0.0000005, p);
    assert (Round6(q) - Round6(p) + 0.000001) * 100.0 >= (q - p) * 100.0;
  }

  lemma Scaled(tol: real, x: real, y: real)
    requires tol >= 0.0 && x <= y
    ensures Times(tol, x) <= Times(tol, y)
  {
  }

  ghost predicate HitsSeparated(hits: seq<Hit>, tol: real) {
    forall a, b :: 0 <= a < b < |hits| && hits[a].kind == hits[b].kind ==> FarAbove(hits[a].price, hits[b].price, tol)
  }

  /** Scoring and rounding keep separated hits apart. */
  lemma ScoredApart(g: Hit, h: Hit, most: nat, tol: real)
    requires most >= 1 && tol >= 0.0 && FarAbove(g.price, h.price, tol)
    ensures var low, high := Scored(g, most).price, Scored(h, most).price;
            (high - low + 0.000001) * 100.0 > Times(tol, low - 0.0000005)
  {
    hide Round6, FarAbove;
    RoundedApart(g.price, h.price, tol);
  }

  /** The hits behind a result. */
  lemma SeparatedHits(bars: seq<Bar>, s: Settings) returns (hits: seq<Hit>)
    requires 1 <= s.swingWindow && 2 * s.swingWindow + 1 <= |bars| && WellFormed(bars) && s.clusterTolerancePct >= 0.0
    ensures HitsSeparated(hits, s.clusterTolerancePct)
    ensures Detected(bars, s) == Levels(SortBy(ScoredAll(hits, MostTouches(hits)), PriceOf))
  {
    var rs, ss := RepresentativesSeparated(bars, s);
    hide Representatives, AllHits, SortBy, WellFormed, FarAbove, MostTouches, Separated, ScoredAll;
    hits := AllHits(bars, (rs, ss), s);
    forall a, b | 0 <= a < b < |hits| && hits[a].kind == hits[b].kind
      ensures FarAbove(hits[a].price, hits[b].price, s.clusterTolerancePct)
    {
      HitsApart(bars, (rs, ss), s, a, b);
    }
  }

  lemma EnoughBars(bars: seq<Bar>, s: Settings)
    ensures |bars| < 2 * s.swingWindow + 1 ==> Detected(bars, s) == Levels([])
  {
  }

  /**
   * On well-formed bars, of any two reported levels of one kind the higher is more than the cluster tolerance above the
   * lower, up to the rounding of their prices.
   */
  lemma {:induction false} ReportedLevelsApart(bars: seq<Bar>, s: Settings, i: nat, j: nat)
    requires 1 <= s.swingWindow && WellFormed(bars) && s.clusterTolerancePct >= 0.0
    requires Detected(bars, s).Levels? && i < j < |Detected(bars, s).levels|
    requires Detected(bars, s).levels[i].kind == Detected(bars, s).levels[j].kind
    ensures var low, high := Detected(bars, s).levels[i].price, Detected(bars, s).levels[j].price;
            (high - low + 0.000001) * 100.0 > Times(s.clusterTolerancePct, low - 0.0000005)
  {
    hide *;
    EnoughBars(bars, s);
    LevelsAscending(bars, s);
    var hits := SeparatedHits(bars, s);
    SortedApart(hits, MostTouches(hits), Detected(bars, s).levels, s.clusterTolerancePct, i, j);
  }

  /** Two of the scored levels in ascending order. */
  lemma SortedApart(hits: seq<Hit>, most: nat, ls: seq<Level>, tol: real, i: nat, j: nat)
    requires HitsSeparated(hits, tol) && tol >= 0.0 && most >= 1
    requires multiset(ls) == multiset(ScoredAll(hits, most))
    requires i < j < |ls| && ls[i].kind == ls[j].kind && ls[i].price <= ls[j].price
    ensures (ls[j].price - ls[i].price + 0.000001) * 100.0 > Times(tol, ls[i].price - 0.0000005)
  {
    hide ScoredAll, Scored, FarAbove, Times;
    var a, b := TwoOrigins(ScoredAll(hits, most), ls, i, j);
    ScoredFields(hits[a], most);
    ScoredFields(hits[b], most);
    if a < b {
      ScoredApart(hits[a], hits[b], most, tol);
    } else {
      ScoredApart(hits[b], hits[a], most, tol);
      Scaled(tol, ls[i].price - 0.0000005, ls[j].price - 0.0000005);
    }
  }

}
