/** Which prices become support and resistance levels, and how often they are touched, from the bars themselves. */
module CandidateLevels {
  import opened Common
  import opened Numbers
  import opened Sums
  import opened SupportResistance

  // ---- Swings ----

  /** A bar whose high is above all other highs within w bars. */
  ghost predicate SwingHigh(bars: seq<Bar>, i: int, w: nat) {
    w <= i < |bars| - w && forall k :: i - w <= k <= i + w && k != i ==> bars[k].high < bars[i].high
  }

  /** A bar whose low is below all other lows within w bars. */
  ghost predicate SwingLow(bars: seq<Bar>, i: int, w: nat) {
    w <= i < |bars| - w && forall k :: i - w <= k <= i + w && k != i ==> bars[k].low > bars[i].low
  }

  ghost predicate HighOfSwing(bars: seq<Bar>, w: nat, price: real) {
    exists i :: SwingHigh(bars, i, w) && bars[i].high == price
  }

  ghost predicate LowOfSwing(bars: seq<Bar>, w: nat, price: real) {
    exists i :: SwingLow(bars, i, w) && bars[i].low == price
  }

  lemma PivotPrices(bars: seq<Bar>, w: nat, price: real)
    ensures price in Pivots(Highs(bars), w, Resistance, |bars|) <==> HighOfSwing(bars, w, price)
    ensures price in Pivots(Lows(bars), w, Support, |bars|) <==> LowOfSwing(bars, w, price)
  {
    var highs, lows := Highs(bars), Lows(bars);
    var above := PivotsApart(highs, w, Resistance);
    var below := PivotsApart(lows, w, Support);
    forall i
      ensures IsSwing(highs, i, w, Resistance) <==> SwingHigh(bars, i, w)
      ensures IsSwing(lows, i, w, Support) <==> SwingLow(bars, i, w)
    {
      SwingsOfBars(bars, i, w);
    }
    hide IsSwing, SwingHigh, SwingLow, Pivots, Highs, Lows;
    AtPrices(Pivots(highs, w, Resistance, |bars|), above, highs, price);
    AtPrices(Pivots(lows, w, Support, |bars|), below, lows, price);
    if i :| SwingHigh(bars, i, w) && bars[i].high == price {
      assert i in above && highs[i] == price;
    }
    if i :| SwingLow(bars, i, w) && bars[i].low == price {
      assert i in below && lows[i] == price;
    }
    if n: nat :| n in above && n < |highs| && highs[n] == price {
      assert SwingHigh(bars, n, w);
    }
    if n: nat :| n in below && n < |lows| && lows[n] == price {
      assert SwingLow(bars, n, w);
    }
  }

  lemma AtPrices(ps: seq<real>, at: seq<nat>, xs: seq<real>, price: real)
    requires |at| == |ps| && forall k :: 0 <= k < |at| ==> at[k] < |xs| && ps[k] == xs[at[k]]
    ensures price in ps <==> exists i :: i in at && i < |xs| && xs[i] == price
  {
    if price in ps {
      var k :| 0 <= k < |ps| && ps[k] == price;
      assert at[k] in at;
    }
  }

  lemma SwingsOfBars(bars: seq<Bar>, i: int, w: nat)
    ensures IsSwing(Highs(bars), i, w, Resistance) <==> SwingHigh(bars, i, w)
    ensures IsSwing(Lows(bars), i, w, Support) <==> SwingLow(bars, i, w)
  {
    var highs, lows := Highs(bars), Lows(bars);
    if w <= i < |bars| - w {
      assert forall k :: i - w <= k <= i + w ==> highs[k] == bars[k].high && lows[k] == bars[k].low;
    }
  }

  // ---- Volume at price ----

  /** The price lies in bucket n: at or above its lower bound and below the next one's, which the last bucket lacks. */
  ghost predicate InBucket(price: real, p: Profile, n: nat) {
    && n < p.buckets && p.low + n as real * p.size <= price
    && (n == p.buckets - 1 || price < p.low + (n + 1) as real * p.size)
  }

  lemma QuotientBetween(x: real, size: real, n: int)
    requires size > 0.0
    ensures n as real * size <= x < (n + 1) as real * size <==> (x / size).Floor == n
  {
    QuotientOrder(x, size, n as real);
    QuotientOrder(x, size, (n + 1) as real);
    FloorIs(x / size, n);
  }

  lemma FloorIs(q: real, n: int)
    ensures q.Floor == n <==> !(q < n as real) && q < (n + 1) as real
  {
  }

  /**
   * Where a close goes: into the bucket around it; just below the range into the first bucket, since the conversion
   * drops the fraction toward zero; further below it counts m buckets back from the end, or raises.
   */
  lemma {:induction false} SlotInNumbers(b: Bar, p: Profile)
    requires p.size > 0.0 && p.buckets > 0
    ensures forall n: nat :: InBucket(b.close, p, n) ==> SlotOf(b, p) == Some(n)
    ensures p.low - p.size < b.close < p.low ==> SlotOf(b, p) == Some(0)
    ensures forall m: nat :: m >= 1 && Below(b.close, p, m) ==>
              SlotOf(b, p) == if m <= p.buckets then Some(p.buckets - m) else None
  {
    hide SlotOf, InBucket, Below;
    forall n: nat | InBucket(b.close, p, n)
      ensures SlotOf(b, p) == Some(n)
    {
      BucketOf(b.close, p, n);
      SlotOfIndex(b, p);
    }
    JustBelow(b, p);
    forall m: nat | m >= 1 && Below(b.close, p, m)
      ensures SlotOf(b, p) == if m <= p.buckets then Some(p.buckets - m) else None
    {
      FarBelow(b, p, m);
    }
  }

  lemma SlotOfIndex(b: Bar, p: Profile)
    requires p.size > 0.0
    ensures SlotOf(b, p) == Slot(BucketIndex(b.close, p), p.buckets)
    ensures forall n: nat :: BucketIndex(b.close, p) == n < p.buckets ==> SlotOf(b, p) == Some(n)
  {
  }

  lemma JustBelow(b: Bar, p: Profile)
    requires p.size > 0.0 && p.buckets > 0
    ensures p.low - p.size < b.close < p.low ==> SlotOf(b, p) == Some(0)
  {
    var x := b.close - p.low;
    var q := x / p.size;
    if -p.size < x < 0.0 {
      NegatedQuotient(x, p.size);
      QuotientBetween(-x, p.size, 0);
      ScaleOrder(0.0, q, p.size);
      DivideTimes(x, p.size);
    }
  }

  lemma FarBelow(b: Bar, p: Profile, m: nat)
    requires p.size > 0.0 && p.buckets > 0 && m >= 1 && Below(b.close, p, m)
    ensures SlotOf(b, p) == if m <= p.buckets then Some(p.buckets - m) else None
  {
    var x := b.close - p.low;
    NegatedQuotient(x, p.size);
    QuotientBetween(-x, p.size, m);
    ScaleOrder(0.0, x / p.size, p.size);
    DivideTimes(x, p.size);
    hide Below;
    assert x / p.size < 0.0;
    assert Truncate(x / p.size) == -(m as int);
  }

  /** Between m and m + 1 bucket sizes below the range. */
  ghost predicate Below(price: real, p: Profile, m: nat) {
    m as real * p.size <= p.low - price < (m + 1) as real * p.size
  }

  lemma NegatedQuotient(x: real, y: real)
    requires y > 0.0
    ensures -x / y == -(x / y)
  {
    DivideTimes(x, y);
    DivideTimes(-x, y);
    CancelFactor(-x / y, -(x / y), y);
  }

  lemma BucketOf(price: real, p: Profile, n: nat)
    requires p.size > 0.0 && InBucket(price, p, n)
    ensures BucketIndex(price, p) == n
  {
    var x := price - p.low;
    var q := x / p.size;
    DivideTimes(x, p.size);
    ScaleOrder(n as real, q, p.size);
    if n < p.buckets - 1 {
      QuotientBetween(x, p.size, n);
    }
  }

  lemma {:induction false} VolumeIsSum(bars: seq<Bar>, p: Profile, n: nat)
    requires p.size > 0.0
    ensures VolumeIn(bars, p, n)
         == Sum(seq(|bars|,
                i requires 0 <= i < |bars| => if SlotOf(bars[i], p) == Some(n) then bars[i].volume else 0.0))
  {
    hide SlotOf;
    if bars != [] {
      VolumeIsSum(Front(bars), p, n);
      var own := seq(|bars|,
        i requires 0 <= i < |bars| => if SlotOf(bars[i], p) == Some(n) then bars[i].volume else 0.0);
      var m := |bars| - 1;
      assert |Front(bars)| == m;
      assert Front(own) == seq(m,
        i requires 0 <= i < m => if SlotOf(Front(bars)[i], p) == Some(n) then Front(bars)[i].volume else 0.0);
    }
  }

  // ---- Candidates ----

  ghost predicate IsLowest(bars: seq<Bar>, low: real) {
    (exists i :: 0 <= i < |bars| && bars[i].low == low) && forall i :: 0 <= i < |bars| ==> low <= bars[i].low
  }

  ghost predicate IsHighest(bars: seq<Bar>, high: real) {
    (exists i :: 0 <= i < |bars| && bars[i].high == high) && forall i :: 0 <= i < |bars| ==> bars[i].high <= high
  }

  lemma RangeOf(bars: seq<Bar>, low: real, high: real)
    requires bars != [] && IsLowest(bars, low) && IsHighest(bars, high)
    ensures low == MinOf(Lows(bars)) && high == MaxOf(Highs(bars))
  {
    var lows, highs := Lows(bars), Highs(bars);
    var i :| 0 <= i < |bars| && bars[i].low == low;
    var j :| 0 <= j < |bars| && bars[j].high == high;
    assert lows[i] == low && highs[j] == high;
    var k :| 0 <= k < |lows| && lows[k] == MinOf(lows);
    var l :| 0 <= l < |highs| && highs[l] == MaxOf(highs);
  }

  /** The price is the middle of inner bucket n, which holds more volume than either neighbour. */
  ghost predicate PeakAt(bars: seq<Bar>, p: Profile, n: int, price: real)
    requires p.size > 0.0
  {
    && 1 <= n < p.buckets - 1 && price == p.low + (n as real + 0.5) * p.size
    && VolumeIn(bars, p, n) > VolumeIn(bars, p, n - 1) && VolumeIn(bars, p, n) > VolumeIn(bars, p, n + 1)
  }

  ghost predicate VolumePeak(bars: seq<Bar>, p: Profile, price: real) {
    p.size > 0.0 && exists n :: PeakAt(bars, p, n, price)
  }

  lemma {:induction false} PeakPricesAre(h: seq<real>, p: Profile, lastClose: real, kind: Kind, n: nat, price: real)
    ensures price in PeakPrices(h, p, lastClose, kind, n) <==>
            (kind == Support <==> price < lastClose) && exists i :: 0 <= i < n && IsPeak(h, i) && Middle(p, i) == price
  {
    hide IsPeak, Middle;
    if n > 0 {
      PeakPricesAre(h, p, lastClose, kind, n - 1, price);
    }
  }

  lemma PeakOfHistogram(bars: seq<Bar>, p: Profile, n: int, price: real)
    requires p.size > 0.0
    ensures IsPeak(Histogram(bars, p), n) && Middle(p, n) == price <==> PeakAt(bars, p, n, price)
  {
    hide VolumeIn;
  }

  lemma PeaksOfHistogram(bars: seq<Bar>, p: Profile, price: real)
    requires p.size > 0.0
    ensures (exists i :: 0 <= i < p.buckets && IsPeak(Histogram(bars, p), i) && Middle(p, i) == price) <==>
            VolumePeak(bars, p, price)
  {
    var h := Histogram(bars, p);
    if i :| 0 <= i < p.buckets && IsPeak(h, i) && Middle(p, i) == price {
      PeakOfHistogram(bars, p, i, price);
    }
    if n :| PeakAt(bars, p, n, price) {
      PeakOfHistogram(bars, p, n, price);
      assert 0 <= n < p.buckets;
    }
    hide PeakAt, IsPeak, Middle, Histogram;
  }

  /** The prices of the volume peaks, when the range is not a point and there are more than two buckets. */
  ghost predicate PeakOfRange(bars: seq<Bar>, low: real, high: real, buckets: int, price: real) {
    high > low && buckets > 2 && VolumePeak(bars, Profile(low, (high - low) / buckets as real, buckets), price)
  }

  lemma PeaksOfRange(bars: seq<Bar>, s: Settings, low: real, high: real, price: real)
    requires bars != [] && low == MinOf(Lows(bars)) && high == MaxOf(Highs(bars)) && high > low && s.buckets > 2
    ensures var p, close := ProfileOf(bars, s.buckets), bars[|bars| - 1].close;
            && p.size > 0.0
            && var h, peak := Histogram(bars, p), PeakOfRange(bars, low, high, s.buckets, price);
            && (price in PeakPrices(h, p, close, Resistance, s.buckets) <==> peak && price >= close)
            && (price in PeakPrices(h, p, close, Support, s.buckets) <==> peak && price < close)
  {
    QuotientPositive(high - low, s.buckets as real);
    var p, close := ProfileOf(bars, s.buckets), bars[|bars| - 1].close;
    var h := Histogram(bars, p);
    PeakPricesAre(h, p, close, Resistance, s.buckets, price);
    PeakPricesAre(h, p, close, Support, s.buckets, price);
    PeaksOfHistogram(bars, p, price);
    hide PeakPrices, VolumePeak, Histogram, IsPeak, Middle, Highs, Lows, MinOf, MaxOf;
  }

  /** The prices of one kind: swing prices first, then volume peaks. */
  lemma CandidatesOf(bars: seq<Bar>, s: Settings, low: real, high: real, price: real)
    requires 1 <= s.swingWindow && 2 * s.swingWindow + 1 <= |bars| && Candidates(bars, s).Some?
    requires low == MinOf(Lows(bars)) && high == MaxOf(Highs(bars))
    ensures var (resistance, support) := Candidates(bars, s).value;
            var peak, close := PeakOfRange(bars, low, high, s.buckets, price), bars[|bars| - 1].close;
            && (price in resistance <==>
                  price in Pivots(Highs(bars), s.swingWindow, Resistance, |bars|) || (peak && price >= close))
            && (price in support <==>
                  price in Pivots(Lows(bars), s.swingWindow, Support, |bars|) || (peak && price < close))
  {
    hide Pivots, PeakPrices, VolumePeak, PeakOfRange, Histogram, AllPlaced, ProfileOf, Highs, Lows, MinOf, MaxOf;
    if high > low && s.buckets > 2 {
      PeaksOfRange(bars, s, low, high, price);
      var h, close := Histogram(bars, ProfileOf(bars, s.buckets)), bars[|bars| - 1].close;
      InEither(Pivots(Highs(bars), s.swingWindow, Resistance, |bars|),
        PeakPrices(h, ProfileOf(bars, s.buckets), close, Resistance, s.buckets), price);
      InEither(Pivots(Lows(bars), s.swingWindow, Support, |bars|),
        PeakPrices(h, ProfileOf(bars, s.buckets), close, Support, s.buckets), price);
    } else {
      NoPeakOfRange(bars, low, high, s.buckets, price);
    }
  }

  lemma InEither(a: seq<real>, b: seq<real>, x: real)
    ensures x in a + b <==> x in a || x in b
  {
  }

  lemma NoPeakOfRange(bars: seq<Bar>, low: real, high: real, buckets: int, price: real)
    requires high <= low || buckets <= 2
    ensures !PeakOfRange(bars, low, high, buckets, price)
  {
  }

  /**
   * The candidates before clustering: the highs of the swing highs are resistance and the lows of the swing lows
   * support; when the range is not a point and there are more than two buckets, the volume peaks are support below
   * the last close and resistance from it on.
   */
  lemma {:induction false} CandidatesAre(bars: seq<Bar>, s: Settings, low: real, high: real, price: real)
    requires 1 <= s.swingWindow && 2 * s.swingWindow + 1 <= |bars| && Candidates(bars, s).Some?
    requires IsLowest(bars, low) && IsHighest(bars, high)
    ensures var (resistance, support) := Candidates(bars, s).value;
            var peak, close := PeakOfRange(bars, low, high, s.buckets, price), bars[|bars| - 1].close;
            && (price in resistance <==> HighOfSwing(bars, s.swingWindow, price) || (peak && price >= close))
            && (price in support <==> LowOfSwing(bars, s.swingWindow, price) || (peak && price < close))
  {
    RangeOf(bars, low, high);
    PivotPrices(bars, s.swingWindow, price);
    CandidatesOf(bars, s, low, high, price);
    hide Candidates, Pivots, PeakOfRange, HighOfSwing, LowOfSwing, Highs, Lows;
  }

  // ---- Touches ----

  /** The wicks within the tolerance of the level. */
  ghost function Touching(wicks: seq<real>, level: real, tol: real): set<int> {
    set i | 0 <= i < |wicks| && wicks[i] - level <= level * tol / 100.0 && level - wicks[i] <= level * tol / 100.0
  }

  /** The number of touches is the number of those wicks. */
  lemma {:induction false} TouchesCounted(wicks: seq<real>, level: real, tol: real)
    ensures TouchesOf(wicks, level, tol) == |Touching(wicks, level, tol)|
  {
    if wicks == [] {
      assert Touching(wicks, level, tol) == {};
    } else {
      var before, n := Touching(Front(wicks), level, tol), |wicks| - 1;
      TouchesCounted(Front(wicks), level, tol);
      if Touches(Last(wicks), level, tol) {
        assert Touching(wicks, level, tol) == before + {n};
      } else {
        assert Touching(wicks, level, tol) == before;
      }
    }
  }
}
