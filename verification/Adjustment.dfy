/** Back-adjustment of a candle series for splits and bonuses. */
module Adjustment {
  import opened Common
  import opened Numbers
  import opened Sorting

  datatype ActionType = Split | Bonus | Dividend | SymbolChange

  datatype ActionRecord = ActionRecord(exDate: int, kind: ActionType, numerator: real, denominator: real)

  predicate Adjusts(a: ActionRecord) {
    a.kind == Split || a.kind == Bonus
  }

  /** A split or bonus carries a positive ratio; the constructor refuses anything else. */
  type Action = a: ActionRecord | Adjusts(a) ==> a.numerator > 0.0 && a.denominator > 0.0
    witness ActionRecord(0, Dividend, 0.0, 0.0)

  datatype DailyCandle = DailyCandle(time: int, date: int, symbol: string, exchange: string,
    open: real, high: real, low: real, close: real, volume: int)

  function ByDate(a: Action): real {
    a.exDate as real
  }

  function Relevant(actions: seq<Action>): seq<Action> {
    if actions == [] then []
    else if Adjusts(actions[0]) then [actions[0]] + Relevant(actions[1..])
    else Relevant(actions[1..])
  }

  /** The price factor of one action for a candle of this date. */
  function Factor(a: Action, date: int): real
  {
    if Adjusts(a) && date < a.exDate then a.denominator / a.numerator else 1.0
  }

  function Inverse(a: Action, date: int): real
  {
    if Adjusts(a) && date < a.exDate then a.numerator / a.denominator else 1.0
  }

  /** The compounded price factor of all actions, in list order. */
  function PriceMult(actions: seq<Action>, date: int): real
  {
    if actions == [] then 1.0 else Times(PriceMult(Front(actions), date), Factor(Last(actions), date))
  }

  function VolumeMult(actions: seq<Action>, date: int): real
  {
    if actions == [] then 1.0 else Times(VolumeMult(Front(actions), date), Inverse(Last(actions), date))
  }

  /** A candle with its prices and volume multiplied, the volume rounded to whole shares. */
  function Rescaled(c: DailyCandle, priceMult: real, volumeMult: real): DailyCandle {
    c.(open := Times(c.open, priceMult), high := Times(c.high, priceMult),
       low := Times(c.low, priceMult), close := Times(c.close, priceMult),
       volume := RoundHalfEven(Times(c.volume as real, volumeMult)))
  }

  function Adjusted(c: DailyCandle, actions: seq<Action>): DailyCandle {
    Rescaled(c, PriceMult(actions, c.date), VolumeMult(actions, c.date))
  }

  /** Adjusts every candle by the actions after its date. The sort by ex-date and the filter
      do not show in the result: it is `Adjusted` under the actions as given. */
  method AdjustedCandles(candles: seq<DailyCandle>, actions: seq<Action>) returns (adjusted: seq<DailyCandle>)
    ensures |adjusted| == |candles|
    ensures forall i :: 0 <= i < |candles| ==> adjusted[i] == Adjusted(candles[i], actions)
  {
    adjusted := [];
    if candles == [] {
      return;
    }
    var relevant: seq<Action> := SortBy(Relevant(actions), ByDate);
    SortedRelevant(actions);
    for n := 0 to |candles|
      invariant |adjusted| == n
      invariant forall i :: 0 <= i < n ==> adjusted[i] == Adjusted(candles[i], actions)
    {
      var candle := candles[n];
      var priceMult, volumeMult := CompoundedMults(relevant, candle.date);
      SortingIsInvisible(actions, candle.date);
      hide Rescaled, PriceMult, VolumeMult;
      adjusted := adjusted + [Rescaled(candle, priceMult, volumeMult)];
    }
  }

  /** The inner loop: multiplies up the ratios of the actions after the candle's date. */
  method CompoundedMults(relevant: seq<Action>, date: int) returns (priceMult: real, volumeMult: real)
    requires forall a :: a in relevant ==> Adjusts(a)
    ensures priceMult == PriceMult(relevant, date) && volumeMult == VolumeMult(relevant, date)
  {
    priceMult, volumeMult := 1.0, 1.0;
    for k := 0 to |relevant|
      invariant priceMult == PriceMult(relevant[..k], date)
      invariant volumeMult == VolumeMult(relevant[..k], date)
    {
      var action := relevant[k];
      assert relevant[..k + 1] == relevant[..k] + [action];
      AppendFrontLast(relevant[..k], action);
      TimesOne(priceMult);
      TimesOne(volumeMult);
      assert action in relevant;
      if date < action.exDate {
        priceMult := Times(priceMult, action.denominator / action.numerator);
        volumeMult := Times(volumeMult, action.numerator / action.denominator);
      }
    }
    assert relevant[..|relevant|] == relevant;
  }

  lemma {:induction false} RelevantAreAdjusting(actions: seq<Action>)
    ensures forall a :: a in Relevant(actions) ==> Adjusts(a) && a in actions
  {
    if actions != [] {
      RelevantAreAdjusting(actions[1..]);
    }
  }

  lemma SortedRelevant(actions: seq<Action>)
    ensures forall a :: a in SortBy(Relevant(actions), ByDate) ==> Adjusts(a)
  {
    RelevantAreAdjusting(actions);
    var sorted := SortBy(Relevant(actions), ByDate);
    forall a | a in sorted
      ensures a in Relevant(actions)
    {
      assert a in multiset(sorted);
    }
  }

  // ---- The factors depend only on which actions there are ----

  lemma {:induction false} MultConcat(a: seq<Action>, b: seq<Action>, date: int)
    ensures PriceMult(a + b, date) == Times(PriceMult(a, date), PriceMult(b, date))
    ensures VolumeMult(a + b, date) == Times(VolumeMult(a, date), VolumeMult(b, date))
  {
    if b == [] {
      assert a + b == a;
      TimesOne(PriceMult(a, date));
      TimesOne(VolumeMult(a, date));
    } else {
      assert Front(a + b) == a + Front(b) && Last(a + b) == Last(b);
      MultConcat(a, Front(b), date);
      TimesAssociates(PriceMult(a, date), PriceMult(Front(b), date), Factor(Last(b), date));
      TimesAssociates(VolumeMult(a, date), VolumeMult(Front(b), date), Inverse(Last(b), date));
      hide Times, Factor, Inverse;
    }
  }

  lemma MultOne(a: Action, date: int)
    ensures PriceMult([a], date) == Factor(a, date) && VolumeMult([a], date) == Inverse(a, date)
  {
    assert Front([a]) == [] && Last([a]) == a;
    TimesOne(Factor(a, date));
    TimesOne(Inverse(a, date));
  }

  /** Pulling one action to the front changes neither factor. */
  lemma MultPull(s: seq<Action>, i: nat, date: int)
    requires i < |s|
    ensures PriceMult(s, date) == Times(Factor(s[i], date), PriceMult(s[..i] + s[i + 1..], date))
    ensures VolumeMult(s, date) == Times(Inverse(s[i], date), VolumeMult(s[..i] + s[i + 1..], date))
  {
    var a, x, b := s[..i], [s[i]], s[i + 1..];
    assert s == a + (x + b);
    MultConcat(x, b, date);
    MultConcat(a, x + b, date);
    MultConcat(a, b, date);
    MultOne(s[i], date);
    TimesSwaps(PriceMult(a, date), Factor(s[i], date), PriceMult(b, date));
    TimesSwaps(VolumeMult(a, date), Inverse(s[i], date), VolumeMult(b, date));
    hide Times, Factor, Inverse, PriceMult, VolumeMult;
  }

  lemma {:induction false} MultPermuted(s: seq<Action>, t: seq<Action>, date: int)
    requires multiset(s) == multiset(t)
    ensures PriceMult(s, date) == PriceMult(t, date) && VolumeMult(s, date) == VolumeMult(t, date)
    decreases |s|
  {
    hide Times, Factor, Inverse, PriceMult, VolumeMult;
    if s == [] {
      assert t == [] by {
        assert |multiset(t)| == 0;
      }
    } else {
      var i := Find(s[0], t);
      RemoveOne(s, t, i);
      MultPermuted(s[1..], t[..i] + t[i + 1..], date);
      MultPull(s, 0, date);
      MultPull(t, i, date);
      assert s[..0] + s[1..] == s[1..];
    }
  }

  lemma Find(x: Action, t: seq<Action>) returns (i: nat)
    requires x in multiset(t)
    ensures i < |t| && t[i] == x
  {
    i :| 0 <= i < |t| && t[i] == x;
  }

  lemma WithoutAt<T>(t: seq<T>, i: nat)
    requires i < |t|
    ensures multiset(t) == multiset{t[i]} + multiset(t[..i] + t[i + 1..])
  {
    assert t == t[..i] + ([t[i]] + t[i + 1..]);
  }

  lemma CancelOne<T>(x: T, a: multiset<T>, b: multiset<T>)
    requires multiset{x} + a == multiset{x} + b
    ensures a == b
  {
    assert (multiset{x} + a) - multiset{x} == a && (multiset{x} + b) - multiset{x} == b;
  }

  lemma RemoveOne<T>(s: seq<T>, t: seq<T>, i: nat)
    requires s != [] && i < |t| && t[i] == s[0] && multiset(s) == multiset(t)
    ensures multiset(s[1..]) == multiset(t[..i] + t[i + 1..])
  {
    WithoutAt(s, 0);
    WithoutAt(t, i);
    assert s[..0] + s[1..] == s[1..];
    CancelOne(s[0], multiset(s[1..]), multiset(t[..i] + t[i + 1..]));
  }

  lemma {:induction false} FilterIsInvisible(s: seq<Action>, date: int)
    ensures PriceMult(s, date) == PriceMult(Relevant(s), date) && VolumeMult(s, date) == VolumeMult(Relevant(s), date)
  {
    hide PriceMult, VolumeMult;
    if s != [] {
      FilterIsInvisible(s[1..], date);
      MultPull(s, 0, date);
      assert s[..0] + s[1..] == s[1..];
      if Adjusts(s[0]) {
        MultPull(Relevant(s), 0, date);
        assert Relevant(s)[..0] + Relevant(s)[1..] == Relevant(s[1..]);
        hide Times;
      } else {
        TimesOne(PriceMult(s[1..], date));
        TimesOne(VolumeMult(s[1..], date));
        hide Times;
      }
    }
  }

  lemma SortingIsInvisible(actions: seq<Action>, date: int)
    ensures PriceMult(SortBy(Relevant(actions), ByDate), date) == PriceMult(actions, date)
    ensures VolumeMult(SortBy(Relevant(actions), ByDate), date) == VolumeMult(actions, date)
  {
    SortedRelevant(actions);
    FilterIsInvisible(actions, date);
    MultPermuted(SortBy(Relevant(actions), ByDate), Relevant(actions), date);
  }

  /** The order in which actions are listed does not matter, for prices or for volumes. */
  lemma {:induction false} OrderDoesNotMatter(c: DailyCandle, s: seq<Action>, t: seq<Action>)
    requires multiset(s) == multiset(t)
    ensures Adjusted(c, s) == Adjusted(c, t)
  {
    MultPermuted(s, t, c.date);
  }

  lemma RatioProduct(x: real, p: real, q: real)
    requires q > 0.0
    ensures Times(Times(x, p / q), q) == Times(x, p)
  {
    DivideTimes(p, q);
    TimesAssociates(x, p / q, q);
  }

  /** Prices times numerator are what they were times denominator; volumes the other way round, to half a share. */
  ghost predicate ScaledBy(t: DailyCandle, c: DailyCandle, num: real, den: real) {
    && Times(t.open, num) == Times(c.open, den) && Times(t.high, num) == Times(c.high, den)
    && Times(t.low, num) == Times(c.low, den) && Times(t.close, num) == Times(c.close, den)
    && -0.5 * den <= Times(t.volume as real, den) - Times(c.volume as real, num) <= 0.5 * den
    && t == c.(open := t.open, high := t.high, low := t.low, close := t.close, volume := t.volume)
  }

  lemma RescaledIsScaled(c: DailyCandle, num: real, den: real)
    requires num > 0.0 && den > 0.0
    ensures ScaledBy(Rescaled(c, den / num, num / den), c, num, den)
  {
    RatioProduct(c.open, den, num);
    RatioProduct(c.high, den, num);
    RatioProduct(c.low, den, num);
    RatioProduct(c.close, den, num);
    RatioProduct(c.volume as real, num, den);
    var v := Times(c.volume as real, num / den);
    RoundedShare(RoundHalfEven(v) as real, v, den);
    hide Times, RoundHalfEven;
  }

  lemma RescaledByOne(c: DailyCandle)
    ensures Rescaled(c, 1.0, 1.0) == c
  {
    TimesOne(c.open);
    TimesOne(c.high);
    TimesOne(c.low);
    TimesOne(c.close);
    TimesOne(c.volume as real);
    RoundHalfEvenInt(c.volume);
    hide Times, RoundHalfEven;
  }

  /** A split or bonus n:d divides every earlier price by n / d and multiplies every earlier volume by it, to the
      nearest whole share; on and after its ex-date it changes nothing, and neither does any other kind of action. */
  lemma {:induction false} OneAction(c: DailyCandle, a: Action)
    ensures if (a.kind == Split || a.kind == Bonus) && c.date < a.exDate
            then ScaledBy(Adjusted(c, [a]), c, a.numerator, a.denominator)
            else Adjusted(c, [a]) == c
  {
    MultOne(a, c.date);
    if Adjusts(a) && c.date < a.exDate {
      RescaledIsScaled(c, a.numerator, a.denominator);
    } else {
      RescaledByOne(c);
    }
    hide Times, RoundHalfEven, PriceMult, VolumeMult, ScaledBy, Rescaled;
  }

  lemma RoundedShare(r: real, v: real, d: real)
    requires d > 0.0 && -0.5 <= r - v <= 0.5
    ensures -0.5 * d <= Times(r, d) - Times(v, d) <= 0.5 * d
  {
    TimesOrdered(-0.5, r - v, d);
    TimesOrdered(r - v, 0.5, d);
    TimesDifference(r, v, d);
    assert Times(-0.5, d) == -0.5 * d && Times(0.5, d) == 0.5 * d;
    hide Times;
  }

  lemma TimesOrdered(x: real, y: real, d: real)
    requires d > 0.0 && x <= y
    ensures Times(x, d) <= Times(y, d)
  {
    ScaleOrder(x, y, d);
  }

  lemma TimesDifference(r: real, v: real, d: real)
    ensures Times(r, d) - Times(v, d) == Times(r - v, d)
  {
  }

  /** Adjusting by A and then by B gives the prices of adjusting by both at once. */
  lemma {:induction false} AdjustmentComposes(c: DailyCandle, a: seq<Action>, b: seq<Action>)
    ensures var twice, once := Adjusted(Adjusted(c, a), b), Adjusted(c, a + b);
            && twice.open == once.open && twice.high == once.high
            && twice.low == once.low && twice.close == once.close
            && twice.time == once.time && twice.date == once.date
  {
    MultConcat(a, b, c.date);
    var p, q := PriceMult(a, c.date), PriceMult(b, c.date);
    TimesAssociates(c.open, p, q);
    TimesAssociates(c.high, p, q);
    TimesAssociates(c.low, p, q);
    TimesAssociates(c.close, p, q);
    hide Times, PriceMult, VolumeMult;
  }

  lemma AdjustedVolume(c: DailyCandle, actions: seq<Action>, mult: real, volume: int)
    requires VolumeMult(actions, c.date) == mult && RoundHalfEven(Times(c.volume as real, mult)) == volume
    ensures Adjusted(c, actions).volume == volume && Adjusted(c, actions).date == c.date
  {
  }

  /** Volumes need not compose, because each pass rounds: a 1:3 consolidation of one share
      and a 3:1 split, applied one after the other or together. */
  lemma {:induction false} VolumesMayNotCompose(c: DailyCandle, merge: Action, split: Action)
    requires c.volume == 1 && c.date == 0
    requires merge == ActionRecord(1, Split, 1.0, 3.0) && split == ActionRecord(1, Split, 3.0, 1.0)
    ensures Adjusted(Adjusted(c, [merge]), [split]).volume == 0
    ensures Adjusted(c, [merge] + [split]).volume == 1
  {
    MultOne(merge, 0);
    MultOne(split, 0);
    MultConcat([merge], [split], 0);
    assert Factor(merge, 0) == 3.0 && Inverse(merge, 0) == 1.0 / 3.0 && Inverse(split, 0) == 3.0;
    assert Times(1.0 / 3.0, 3.0) == 1.0;
    hide VolumeMult, PriceMult, Adjusted, Factor, Inverse;
    AdjustedVolume(c, [merge], 1.0 / 3.0, 0);
    AdjustedVolume(Adjusted(c, [merge]), [split], 3.0, 0);
    AdjustedVolume(c, [merge] + [split], 1.0, 1);
  }

  /** The volume before it is rounded to whole shares. */
  function ExactVolume(c: DailyCandle, actions: seq<Action>): real {
    Times(c.volume as real, VolumeMult(actions, c.date))
  }

  predicate IsWhole(x: real) {
    x == x.Floor as real
  }

  /** Two passes give the volume of one. */
  ghost predicate VolumesCompose(c: DailyCandle, a: seq<Action>, b: seq<Action>) {
    Adjusted(Adjusted(c, a), b).volume == Adjusted(c, a + b).volume
  }

  /** One pass rounds x * m, two passes round x first; m is the factor of the second list. */
  lemma ComposedVolumes(c: DailyCandle, a: seq<Action>, b: seq<Action>)
    ensures var x, m := ExactVolume(c, a), VolumeMult(b, c.date);
            && Adjusted(c, a + b).volume == RoundHalfEven(Times(x, m))
            && Adjusted(Adjusted(c, a), b).volume == RoundHalfEven(Times(RoundHalfEven(x) as real, m))
  {
    MultConcat(a, b, c.date);
    TimesAssociates(c.volume as real, VolumeMult(a, c.date), VolumeMult(b, c.date));
    hide Times, VolumeMult, PriceMult, RoundHalfEven;
  }

  /** A k:1 split after the candle's date. */
  function Multiplying(date: int, k: int): Action
    requires k > 0
  {
    ActionRecord(date + 1, Split, k as real, 1.0)
  }

  lemma MultiplyingMult(date: int, k: int)
    requires k > 0
    ensures VolumeMult([Multiplying(date, k)], date) == k as real
  {
    MultOne(Multiplying(date, k), date);
  }

  /** Multiplied by more than the inverse of the rounding error, the error exceeds a share. */
  lemma ErrorGrows(x: real, r: int, k: int)
    requires k > 0 && x != r as real && Times(Abs(x - r as real), k as real) > 1.0
    ensures RoundHalfEven(Times(x, k as real)) != RoundHalfEven(Times(r as real, k as real))
  {
    var e := x - r as real;
    assert Times(x, k as real) - Times(r as real, k as real) == Times(e, k as real);
    assert Times(r as real, k as real) == (r * k) as real;
    RoundHalfEvenInt(r * k);
    assert Times(Abs(e), k as real) == Abs(Times(e, k as real)) by {
      ScaleOrder(0.0, e, k as real);
    }
  }

  /** A factor beyond the inverse of a positive error. */
  lemma LargeFactor(e: real) returns (k: int)
    requires e > 0.0
    ensures k > 0 && Times(e, k as real) > 1.0
  {
    k := (1.0 / e).Floor + 1;
    DivideTimes(1.0, e);
    ScaleOrder(0.0, 1.0 / e, e);
    ScaleOrder(1.0 / e, k as real, e);
    assert Times(e, k as real) == k as real * e;
  }

  /** A list whose second pass does not compose with the first. */
  lemma FailingSecondPass(c: DailyCandle, a: seq<Action>) returns (b: seq<Action>)
    requires !IsWhole(ExactVolume(c, a))
    ensures !VolumesCompose(c, a, b)
  {
    hide Times, VolumeMult, RoundHalfEven, Adjusted;
    var x := ExactVolume(c, a);
    var r := RoundHalfEven(x);
    WholeIsOwnFloor(r);
    var k := LargeFactor(Abs(x - r as real));
    b := [Multiplying(c.date, k)];
    MultiplyingMult(c.date, k);
    ComposedVolumes(c, a, b);
    ErrorGrows(x, r, k);
  }

  lemma WholeIsOwnFloor(n: int)
    ensures IsWhole(n as real)
  {
  }

  /** Volumes compose with every second list exactly when the first pass rounds nothing away. */
  lemma {:induction false} VolumesComposeIffWhole(c: DailyCandle, a: seq<Action>)
    ensures (forall b :: VolumesCompose(c, a, b)) <==> IsWhole(ExactVolume(c, a))
  {
    if IsWhole(ExactVolume(c, a)) {
      RoundHalfEvenInt(ExactVolume(c, a).Floor);
      forall b
        ensures VolumesCompose(c, a, b)
      {
        ComposedVolumes(c, a, b);
      }
    } else {
      var b := FailingSecondPass(c, a);
    }
  }

  lemma {:induction false} NoLaterActions(actions: seq<Action>, date: int)
    requires forall i :: 0 <= i < |actions| && Adjusts(actions[i]) ==> actions[i].exDate <= date
    ensures PriceMult(actions, date) == 1.0 && VolumeMult(actions, date) == 1.0
  {
    if actions != [] {
      NoLaterActions(Front(actions), date);
    }
  }

  /** Candles on or after the last ex-date are untouched, volume included. */
  lemma {:induction false} LaterCandlesUnchanged(c: DailyCandle, actions: seq<Action>)
    requires forall i :: 0 <= i < |actions| && Adjusts(actions[i]) ==> actions[i].exDate <= c.date
    ensures Adjusted(c, actions) == c
  {
    NoLaterActions(actions, c.date);
    RoundHalfEvenInt(c.volume);
  }

  lemma {:induction false} MultsCancel(actions: seq<Action>, date: int)
    ensures PriceMult(actions, date) > 0.0
    ensures Times(PriceMult(actions, date), VolumeMult(actions, date)) == 1.0
  {
    if actions != [] {
      MultsCancel(Front(actions), date);
      var a := Last(actions);
      FactorCancels(a, date);
      Regroup(PriceMult(Front(actions), date), Factor(a, date), VolumeMult(Front(actions), date), Inverse(a, date));
      hide Times, Factor, Inverse;
    } else {
      TimesOne(1.0);
    }
  }

  lemma FactorCancels(a: Action, date: int)
    ensures Factor(a, date) > 0.0 && Times(Factor(a, date), Inverse(a, date)) == 1.0
  {
    if Adjusts(a) && date < a.exDate {
      var n, d := a.numerator, a.denominator;
      var f, g := d / n, n / d;
      DivideTimes(d, n);
      DivideTimes(n, d);
      ScaleOrder(0.0, f, n);
      TimesAssociates(f, g, d);
      CancelFactor(f * g, 1.0, d);
    } else {
      TimesOne(1.0);
    }
  }

  lemma Regroup(a: real, b: real, c: real, d: real)
    requires a > 0.0 && b > 0.0 && Times(a, c) == 1.0 && Times(b, d) == 1.0
    ensures Times(a, b) > 0.0 && Times(Times(a, b), Times(c, d)) == 1.0
  {
    ScaleOrder(0.0, a, b);
    TimesAssociates(a, b, Times(c, d));
    TimesSwaps(b, c, d);
    assert Times(b, Times(c, d)) == Times(c, 1.0);
    TimesOne(c);
  }

  /** Turnover is kept: close times volume moves by at most half an adjusted close, the
      share lost or gained by rounding the volume. */
  lemma {:induction false} TurnoverKept(c: DailyCandle, actions: seq<Action>)
    requires c.close >= 0.0
    ensures var r := Adjusted(c, actions);
            Abs(Times(r.close, r.volume as real) - Times(c.close, c.volume as real)) <= r.close / 2.0
  {
    MultsCancel(actions, c.date);
    var p, q, v := PriceMult(actions, c.date), VolumeMult(actions, c.date), c.volume as real;
    var close := Times(c.close, p);
    if c.close == 0.0 {
      assert close == 0.0;
    } else {
      ScaleOrder(0.0, c.close, p);
    }
    // close * (v * q) is the old turnover
    TimesAssociates(c.close, p, Times(v, q));
    TimesSwaps(p, v, q);
    TimesOne(v);
    Nearby(close, RoundHalfEven(Times(v, q)) as real, Times(v, q));
  }

  lemma Nearby(close: real, rounded: real, exact: real)
    requires close >= 0.0 && -0.5 <= rounded - exact <= 0.5
    ensures Abs(Times(close, rounded) - Times(close, exact)) <= close / 2.0
  {
    if close > 0.0 {
      RoundedShare(rounded, exact, close);
      TimesCommutes(rounded, close);
      TimesCommutes(exact, close);
    } else {
      TimesZero(rounded);
      TimesZero(exact);
    }
    hide Times;
  }
}
