/** The online aggregator agrees with the batch specification, and the 5-minute
    aggregator agrees with the 1-minute one. */
module AggregationTheorems {
  import opened Common
  import opened Numbers
  import opened Ticks
  import opened Aggregation

  // ---- Online equals batch ----

  /** The open bar holds the candle of `run`. */
  ghost predicate BarSummarises(b: Bar, run: seq<RawTick>, interval: int)
    requires run != [] && interval > 0
  {
    CandleOf(b, run[0].symbol, run[0].exchange, interval) == Summary(run, interval)
  }

  lemma BarExtends(b: Bar, run: seq<RawTick>, t: RawTick, interval: int)
    requires interval > 0 && run != [] && BarSummarises(b, run, interval)
    ensures BarSummarises(Extend(b, t), run + [t], interval)
  {
    AppendFrontLast(run, t);
  }

  /** Every finished run has been emitted, in order, and the last run is the open bar. */
  ghost predicate Agrees(open: map<string, Bar>, candles: seq<Candle>, runs: seq<seq<RawTick>>, key: string,
      interval: int)
    requires interval > 0
    requires forall i :: 0 <= i < |runs| ==> runs[i] != []
  {
    if runs == [] then key !in open && candles == []
    else key in open && BarSummarises(open[key], Last(runs), interval) && candles == Summaries(Front(runs), interval)
  }

  lemma AgreesStep(open: map<string, Bar>, candles: seq<Candle>, runs: seq<seq<RawTick>>, t: RawTick, interval: int)
    requires interval > 0
    requires forall i :: 0 <= i < |runs| ==> runs[i] != []
    requires Agrees(open, candles, runs, KeyOf(t), interval)
    requires runs != [] ==> Last(runs)[0].symbol == t.symbol && Last(runs)[0].exchange == t.exchange
    ensures Agrees(OpenAfter(open, t, interval), candles + Listed(EmittedOn(open, t, interval)),
                   AddToRuns(runs, t, interval), KeyOf(t), interval)
  {
    if runs != [] && SameBar(Last(runs)[0], t, interval) {
      BarExtends(open[KeyOf(t)], Last(runs), t, interval);
      AppendFrontLast(Front(runs), Last(runs) + [t]);
    } else {
      AppendFrontLast(runs, [t]);
      assert VolumeOf([t]) == VolumeOf([]) + t.volume by { AppendFrontLast([], t); }
    }
  }

  ghost predicate FollowsRuns(ticks: seq<RawTick>, key: string, interval: int)
    requires interval > 0
  {
    Agrees(OpenBars(ticks, interval), CandlesFor(Emitted(ticks, interval), key),
           Runs(Own(ticks, key), interval), key, interval)
  }

  lemma {:induction false} OnlineFollowsRuns(ticks: seq<RawTick>, key: string, interval: int)
    requires interval > 0 && PlainExchanges(ticks)
    ensures FollowsRuns(ticks, key, interval)
  {
    if ticks != [] {
      var before, t := Front(ticks), Last(ticks);
      var open, runs := OpenBars(before, interval), Runs(Own(before, key), interval);
      OnlineFollowsRuns(before, key, interval);
      CandlesForListed(Emitted(before, interval), EmittedLast(ticks, interval), key);
      if KeyOf(t) == key {
        if Own(before, key) != [] {
          OwnRun(before, key, interval);
          SameKeySameInstrument(Last(runs)[0], t);
        }
        AgreesStep(open, CandlesFor(Emitted(before, interval), key), runs, t, interval);
        AppendFrontLast(Own(before, key), t);
        assert Runs(Own(ticks, key), interval) == AddToRuns(runs, t, interval);
      } else {
        OtherKeyUntouched(open, t, key, interval);
      }
      hide KeyOf, CandleKey, BarSummarises, Summaries, OpenAfter, EmittedOn, AddToRuns, PlainExchanges;
    }
  }

  /** A tick of another key leaves this key's bar alone, and the candle it may complete is of that other key. */
  lemma OtherKeyUntouched(open: map<string, Bar>, t: RawTick, key: string, interval: int)
    requires interval > 0 && KeyOf(t) != key
    ensures var after, emitted := OpenAfter(open, t, interval), EmittedOn(open, t, interval);
            && (key in after <==> key in open) && (key in open ==> after[key] == open[key])
            && (emitted.Some? ==> CandleKey(emitted.value) != key)
  {
  }

  lemma CandlesForListed(candles: seq<Candle>, more: Option<Candle>, key: string)
    ensures CandlesFor(candles + Listed(more), key)
         == CandlesFor(candles, key) + (if more.Some? && CandleKey(more.value) == key then [more.value] else [])
  {
    if more.Some? {
      AppendFrontLast(candles, more.value);
    } else {
      assert candles + Listed(more) == candles;
    }
  }

  /** The ticks of a run of `key` are ticks of `key`. */
  lemma OwnRun(ticks: seq<RawTick>, key: string, interval: int)
    requires interval > 0 && PlainExchanges(ticks)
    requires Runs(Own(ticks, key), interval) != []
    ensures var t := Last(Runs(Own(ticks, key), interval))[0]; KeyOf(t) == key && ':' !in t.exchange
  {
    var own := Own(ticks, key);
    var runs := Runs(own, interval);
    OwnTicks(ticks, key);
    RunsAreMaximal(own, interval);
    FrontLast(runs);
    assert own == Concat(Front(runs)) + Last(runs);
    assert own[|Concat(Front(runs))|] == Last(runs)[0];
    assert own[|Concat(Front(runs))|] in own;
  }

  /** Online aggregation equals batch: whatever the interleaving, the candles emitted
      for a key followed by its flushed bar are the candles of the maximal runs of
      consecutive same-bar ticks of that key, and of nothing else. */
  lemma {:induction false} OnlineIsBatch(ticks: seq<RawTick>, key: string, runs: seq<seq<RawTick>>, interval: int)
    requires interval > 0 && PlainExchanges(ticks)
    requires MaximalRuns(Own(ticks, key), runs, interval)
    ensures CandlesFor(Emitted(ticks, interval), key) + Listed(FlushedFor(OpenBars(ticks, interval), key, interval))
         == Summaries(runs, interval)
  {
    MaximalRunsUnique(Own(ticks, key), runs, interval);
    OnlineFollowsRuns(ticks, key, interval);
    if runs != [] {
      OwnRun(ticks, key, interval);
      var t := Last(runs)[0];
      KeySplits(t.exchange, t.symbol);
    }
  }

  /** The open bar of a key is that of its latest tick. */
  lemma {:induction false} OpenBarIsLatest(ticks: seq<RawTick>, key: string, interval: int)
    requires interval > 0
    ensures key in OpenBars(ticks, interval) <==> Own(ticks, key) != []
    ensures Own(ticks, key) != [] ==>
              OpenBars(ticks, interval)[key].startMs == BarStart(Last(Own(ticks, key)).timestampMs, interval)
  {
    if ticks != [] {
      hide BarStart;
      OpenBarIsLatest(Front(ticks), key, interval);
      AppendFrontLast(Own(Front(ticks), key), Last(ticks));
    }
  }

  /** Both timestamps lie in the window between two consecutive interval boundaries. */
  ghost predicate ShareWindow(a: int, b: int, interval: int) {
    exists n: int :: n * (interval * 1000) <= a < (n + 1) * (interval * 1000)
                     && n * (interval * 1000) <= b < (n + 1) * (interval * 1000)
  }

  lemma SharedWindow(a: int, b: int, interval: int)
    requires interval > 0
    ensures ShareWindow(a, b, interval) <==> BarStart(a, interval) == BarStart(b, interval)
  {
    BarStartIsBoundary(a, interval);
    BarStartIsBoundary(b, interval);
    var n := a / (interval * 1000);
    assert (n + 1) * (interval * 1000) == n * (interval * 1000) + interval * 1000;
  }

  /** A tick completes a candle exactly when the key has an earlier tick and the latest one lies in another window. */
  lemma {:induction false} EmitsOnLeavingWindow(ticks: seq<RawTick>, interval: int)
    requires interval > 0 && ticks != []
    ensures var earlier := Own(Front(ticks), KeyOf(Last(ticks)));
            EmittedLast(ticks, interval).Some? <==>
            earlier != [] && !ShareWindow(Last(earlier).timestampMs, Last(ticks).timestampMs, interval)
  {
    var earlier := Own(Front(ticks), KeyOf(Last(ticks)));
    OpenBarIsLatest(Front(ticks), KeyOf(Last(ticks)), interval);
    if earlier != [] {
      SharedWindow(Last(earlier).timestampMs, Last(ticks).timestampMs, interval);
    }
  }

  lemma {:induction false} VolumeConcat(a: seq<RawTick>, b: seq<RawTick>)
    ensures VolumeOf(a + b) == VolumeOf(a) + VolumeOf(b)
  {
    if b == [] {
      assert a + b == a;
    } else {
      assert Front(a + b) == a + Front(b);
      VolumeConcat(a, Front(b));
    }
  }

  lemma {:induction false} SummariesConserve(runs: seq<seq<RawTick>>, interval: int)
    requires interval > 0
    requires forall i :: 0 <= i < |runs| ==> runs[i] != []
    ensures CandleVolume(Summaries(runs, interval)) == VolumeOf(Concat(runs))
    ensures CandleTicks(Summaries(runs, interval)) == |Concat(runs)|
  {
    if runs != [] {
      SummariesConserve(Front(runs), interval);
      VolumeConcat(Concat(Front(runs)), Last(runs));
      AppendFrontLast(Summaries(Front(runs), interval), Summary(Last(runs), interval));
    }
  }

  /** No volume and no tick is lost or counted twice: emitted plus flushed equals ingested. */
  lemma {:induction false} VolumeConserved(ticks: seq<RawTick>, key: string, interval: int)
    requires interval > 0 && PlainExchanges(ticks)
    ensures var all := CandlesFor(Emitted(ticks, interval), key)
                       + Listed(FlushedFor(OpenBars(ticks, interval), key, interval));
            CandleVolume(all) == VolumeOf(Own(ticks, key)) && CandleTicks(all) == |Own(ticks, key)|
  {
    var runs := Runs(Own(ticks, key), interval);
    RunsAreMaximal(Own(ticks, key), interval);
    OnlineIsBatch(ticks, key, runs, interval);
    SummariesConserve(runs, interval);
  }

  // ---- Two bar sizes ----

  /** The prices, volume and counts of a candle, without its instrument and interval. */
  function Body(c: Candle): Bar {
    Bar(c.timestampMs, c.open, c.high, c.low, c.close, c.volume, c.tickCount)
  }

  function Join(a: Bar, b: Bar): Bar {
    a.(high := Max(a.high, b.high), low := Min(a.low, b.low), close := b.close,
       volume := a.volume + b.volume, tickCount := a.tickCount + b.tickCount)
  }

  /** Merges consecutive bars: first open, highest high, lowest low, last close, summed
      volume and tick count, starting on the `interval` boundary of the first. */
  function Merge(bars: seq<Bar>, interval: int): Bar
    requires bars != [] && interval > 0
  {
    if |bars| == 1 then bars[0].(startMs := BarStart(bars[0].startMs, interval))
    else Join(Merge(Front(bars), interval), Last(bars))
  }

  /** The `fine` candles of `key` emitted since the most recent `coarse` candle of `key`,
      not counting the one emitted on that same tick. */
  function SinceRoll(ticks: seq<RawTick>, key: string, fine: int, coarse: int): seq<Bar>
    requires fine > 0 && coarse > 0
  {
    if ticks == [] then []
    else if KeyOf(Last(ticks)) != key then SinceRoll(Front(ticks), key, fine, coarse)
    else if EmittedLast(ticks, coarse).Some? then []
    else if EmittedLast(ticks, fine).Some? then
      SinceRoll(Front(ticks), key, fine, coarse) + [Body(EmittedLast(ticks, fine).value)]
    else SinceRoll(Front(ticks), key, fine, coarse)
  }

  lemma MulAssoc(a: int, b: int, c: int)
    ensures a * b * c == a * (b * c)
  {
  }

  lemma MulCancel(a: int, b: int, c: int)
    requires c > 0 && a * c < b * c
    ensures a < b
  {
  }

  lemma MulMonotone(a: int, b: int, c: int)
    requires c > 0 && a <= b
    ensures a * c <= b * c
  {
  }

  lemma FloorBetween(n: int, d: int, q: int)
    requires d > 0 && q * d <= n < (q + 1) * d
    ensures n / d == q
  {
    var p := n / d;
    assert p * d <= n < (p + 1) * d;
    MulCancel(q, p + 1, d);
    MulCancel(p, q + 1, d);
  }

  /** A coarse boundary is a fine boundary, so the fine bar start fixes the coarse one. */
  lemma {:induction false} FineBarFixesCoarse(ts: int, fine: int, coarse: int, m: int)
    requires fine > 0 && m > 0 && coarse == m * fine
    ensures coarse > 0 && BarStart(BarStart(ts, fine), coarse) == BarStart(ts, coarse)
  {
    var f, c := fine * 1000, coarse * 1000;
    MulAssoc(m, fine, 1000);
    assert c == m * f;
    var q, p := ts / c, ts / f;
    assert q * c <= ts < (q + 1) * c;
    assert p * f <= ts < (p + 1) * f;
    MulAssoc(q, m, f);
    MulCancel(q * m, p + 1, f);
    MulMonotone(q * m, p, f);
    FloorBetween(p * f, c, q);
  }

  /** The open coarse bar is the merge of the fine candles since its start and the open fine bar. */
  ghost predicate Coarsens(fineOpen: map<string, Bar>, coarseOpen: map<string, Bar>, since: seq<Bar>, key: string,
      coarse: int)
    requires coarse > 0
  {
    if key !in fineOpen then key !in coarseOpen && since == []
    else
      && key in coarseOpen
      && coarseOpen[key] == Merge(since + [fineOpen[key]], coarse)
      && coarseOpen[key].startMs == BarStart(fineOpen[key].startMs, coarse)
  }

  lemma MergeSnoc(bars: seq<Bar>, b: Bar, interval: int)
    requires interval > 0
    ensures Merge(bars + [b], interval)
         == if bars == [] then b.(startMs := BarStart(b.startMs, interval)) else Join(Merge(bars, interval), b)
  {
    AppendFrontLast(bars, b);
  }

  function SinceAfter(fineOpen: map<string, Bar>, coarseOpen: map<string, Bar>, since: seq<Bar>, t: RawTick, fine: int,
      coarse: int): seq<Bar>
    requires fine > 0 && coarse > 0
  {
    if EmittedOn(coarseOpen, t, coarse).Some? then []
    else if EmittedOn(fineOpen, t, fine).Some? then since + [Body(EmittedOn(fineOpen, t, fine).value)]
    else since
  }

  lemma CoarsensStep(fineOpen: map<string, Bar>, coarseOpen: map<string, Bar>, since: seq<Bar>, t: RawTick, fine: int,
      coarse: int, m: int)
    requires fine > 0 && m > 0 && coarse == m * fine && coarse > 0
    requires Coarsens(fineOpen, coarseOpen, since, KeyOf(t), coarse)
    ensures Coarsens(OpenAfter(fineOpen, t, fine), OpenAfter(coarseOpen, t, coarse),
                     SinceAfter(fineOpen, coarseOpen, since, t, fine, coarse), KeyOf(t), coarse)
    ensures EmittedOn(coarseOpen, t, coarse).Some? ==> EmittedOn(fineOpen, t, fine).Some?
  {
    FineBarFixesCoarse(t.timestampMs, fine, coarse, m);
    MergeSnoc([], FirstBar(t, fine), coarse);
    assert [] + [FirstBar(t, fine)] == [FirstBar(t, fine)];
    if KeyOf(t) in fineOpen {
      var b := fineOpen[KeyOf(t)];
      MergeSnoc(since, b, coarse);
      MergeSnoc(since, Extend(b, t), coarse);
      MergeSnoc(since + [b], FirstBar(t, fine), coarse);
    }
  }

  lemma {:induction false} CoarseFollowsFine(ticks: seq<RawTick>, key: string, fine: int, coarse: int, m: int)
    requires fine > 0 && m > 0 && coarse == m * fine && coarse > 0
    ensures Coarsens(OpenBars(ticks, fine), OpenBars(ticks, coarse), SinceRoll(ticks, key, fine, coarse), key, coarse)
  {
    if ticks != [] {
      CoarseFollowsFine(Front(ticks), key, fine, coarse, m);
      var fineOpen, coarseOpen := OpenBars(Front(ticks), fine), OpenBars(Front(ticks), coarse);
      if KeyOf(Last(ticks)) == key {
        CoarsensStep(fineOpen, coarseOpen, SinceRoll(Front(ticks), key, fine, coarse), Last(ticks), fine, coarse, m);
      }
    }
  }

  /** Every coarse candle is the merge of the fine candles of its key emitted since the
      previous coarse roll, the one completed by this very tick included; and a coarse
      roll always happens on a tick that also rolls the fine bar. Any tick order. */
  lemma {:induction false} CoarseCandleIsMerge(ticks: seq<RawTick>, fine: int, coarse: int, m: int)
    requires fine > 0 && m > 0 && coarse == m * fine && coarse > 0 && ticks != []
    requires EmittedLast(ticks, coarse).Some?
    ensures EmittedLast(ticks, fine).Some?
    ensures var t, c := Last(ticks), EmittedLast(ticks, fine).value;
            var fineCandles := SinceRoll(Front(ticks), KeyOf(t), fine, coarse) + [Body(c)];
            EmittedLast(ticks, coarse).value == CandleOf(Merge(fineCandles, coarse), t.symbol, t.exchange, coarse)
  {
    var before, t := Front(ticks), Last(ticks);
    CoarseFollowsFine(before, KeyOf(t), fine, coarse, m);
    CoarsensStep(OpenBars(before, fine), OpenBars(before, coarse), SinceRoll(before, KeyOf(t), fine, coarse), t, fine,
        coarse, m);
  }

  lemma FeedStep(ticks: seq<RawTick>, t: RawTick, interval: int)
    requires interval > 0
    ensures OpenBars(ticks + [t], interval) == OpenAfter(OpenBars(ticks, interval), t, interval)
    ensures EmittedLast(ticks + [t], interval) == EmittedOn(OpenBars(ticks, interval), t, interval)
  {
    AppendFrontLast(ticks, t);
  }

  lemma CoarseEmissionIsMerge(ticks: seq<RawTick>, t: RawTick, fine: int, coarse: int, m: int)
    requires fine > 0 && m > 0 && coarse == m * fine && coarse > 0
    requires EmittedOn(OpenBars(ticks, coarse), t, coarse).Some?
    ensures EmittedOn(OpenBars(ticks, fine), t, fine).Some?
    ensures var c := EmittedOn(OpenBars(ticks, fine), t, fine).value;
            var fineCandles := SinceRoll(ticks, KeyOf(t), fine, coarse) + [Body(c)];
            EmittedOn(OpenBars(ticks, coarse), t, coarse).value
            == CandleOf(Merge(fineCandles, coarse), t.symbol, t.exchange, coarse)
  {
    FeedStep(ticks, t, fine);
    FeedStep(ticks, t, coarse);
    AppendFrontLast(ticks, t);
    CoarseCandleIsMerge(ticks + [t], fine, coarse, m);
  }

  /** The two aggregators always hold open bars for the same keys. */
  lemma {:induction false} SameOpenKeys(ticks: seq<RawTick>, a: int, b: int)
    requires a > 0 && b > 0
    ensures OpenBars(ticks, a).Keys == OpenBars(ticks, b).Keys
    ensures forall k :: k in OpenBars(ticks, a) ==> ':' in k
  {
    if ticks != [] {
      SameOpenKeys(Front(ticks), a, b);
      var t := Last(ticks);
      assert KeyOf(t)[|t.exchange|] == ':';
      assert OpenBars(ticks, a).Keys == OpenBars(Front(ticks), a).Keys + {KeyOf(t)};
      assert OpenBars(ticks, b).Keys == OpenBars(Front(ticks), b).Keys + {KeyOf(t)};
    }
  }
}
