/** What candle aggregation means, independently of the online algorithm: the
    maximal runs of consecutive same-bar ticks, and the candle of one run. */
module Aggregation {
  import opened Common
  import opened Numbers
  import opened Ticks

  /** The interval boundary at or below a timestamp (floor division). */
  function BarStart(timestampMs: int, intervalSeconds: int): int
    requires intervalSeconds > 0
  {
    timestampMs / (intervalSeconds * 1000) * (intervalSeconds * 1000)
  }

  /** A bar starts on a whole multiple of the interval in milliseconds and covers the timestamp; no other multiple
      does. */
  lemma {:induction false} BarStartIsBoundary(timestampMs: int, intervalSeconds: int)
    requires intervalSeconds > 0
    ensures var start := BarStart(timestampMs, intervalSeconds);
            && start <= timestampMs < start + intervalSeconds * 1000
            && start % (intervalSeconds * 1000) == 0
    ensures forall n: int :: n * (intervalSeconds * 1000) <= timestampMs < (n + 1) * (intervalSeconds * 1000) ==>
              BarStart(timestampMs, intervalSeconds) == n * (intervalSeconds * 1000)
  {
    var size := intervalSeconds * 1000;
    var q := timestampMs / size;
    MultipleHasNoRest(q, size);
    forall n: int | n * size <= timestampMs < (n + 1) * size
      ensures n == q
    {
      OnlyQuotient(timestampMs, size, n, q);
    }
  }

  lemma MultipleHasNoRest(q: int, size: int)
    requires size > 0
    ensures q * size % size == 0
  {
    assert q * size == q * size / size * size + q * size % size;
    OnlyQuotient(q * size, size, q, q * size / size);
  }

  lemma OnlyQuotient(x: int, size: int, m: int, n: int)
    requires size > 0
    requires m * size <= x < (m + 1) * size && n * size <= x < (n + 1) * size
    ensures m == n
  {
    assert m < n ==> (m + 1) * size <= n * size;
    assert n < m ==> (n + 1) * size <= m * size;
  }

  /** The value of an open bar. */
  datatype Bar = Bar(startMs: int, open: real, high: real, low: real, close: real, volume: int, tickCount: int)

  function FirstBar(t: RawTick, interval: int): Bar
    requires interval > 0
  {
    Bar(BarStart(t.timestampMs, interval), t.ltp, t.ltp, t.ltp, t.ltp, t.volume, 1)
  }

  function Extend(b: Bar, t: RawTick): Bar {
    b.(high := Max(b.high, t.ltp), low := Min(b.low, t.ltp), close := t.ltp,
       volume := b.volume + t.volume, tickCount := b.tickCount + 1)
  }

  function CandleOf(b: Bar, symbol: string, exchange: string, interval: int): Candle {
    Candle(symbol, exchange, interval, b.open, b.high, b.low, b.close, b.volume, b.startMs, b.tickCount)
  }

  // ---- The online step on the dictionary of open bars ----

  function OpenAfter(open: map<string, Bar>, t: RawTick, interval: int): map<string, Bar>
    requires interval > 0
  {
    var k := KeyOf(t);
    if k in open && BarStart(t.timestampMs, interval) == open[k].startMs
    then open[k := Extend(open[k], t)]
    else open[k := FirstBar(t, interval)]
  }

  function EmittedOn(open: map<string, Bar>, t: RawTick, interval: int): Option<Candle>
    requires interval > 0
  {
    var k := KeyOf(t);
    if k in open && BarStart(t.timestampMs, interval) != open[k].startMs
    then Some(CandleOf(open[k], t.symbol, t.exchange, interval))
    else None
  }

  /** The open bars after ingesting `ticks` from an empty aggregator. */
  function OpenBars(ticks: seq<RawTick>, interval: int): map<string, Bar>
    requires interval > 0
  {
    if ticks == [] then map[] else OpenAfter(OpenBars(Front(ticks), interval), Last(ticks), interval)
  }

  /** The candle, if any, that the last of `ticks` completes. */
  function EmittedLast(ticks: seq<RawTick>, interval: int): Option<Candle>
    requires interval > 0 && ticks != []
  {
    EmittedOn(OpenBars(Front(ticks), interval), Last(ticks), interval)
  }

  /** All candles emitted while ingesting `ticks`, every key interleaved. */
  function Emitted(ticks: seq<RawTick>, interval: int): seq<Candle>
    requires interval > 0
  {
    if ticks == [] then []
    else Emitted(Front(ticks), interval) + Listed(EmittedLast(ticks, interval))
  }

  /** The candle a flush would return for `key`, if it has an open bar. */
  function FlushedFor(open: map<string, Bar>, key: string, interval: int): Option<Candle> {
    if key in open && ':' in key
    then Some(CandleOf(open[key], SplitKey(key).1, SplitKey(key).0, interval))
    else None
  }

  // ---- The batch specification ----

  predicate SameBar(a: RawTick, b: RawTick, interval: int)
    requires interval > 0
  {
    BarStart(a.timestampMs, interval) == BarStart(b.timestampMs, interval)
  }

  function Concat<T>(runs: seq<seq<T>>): seq<T> {
    if runs == [] then [] else Concat(Front(runs)) + Last(runs)
  }

  ghost predicate OneBar(run: seq<RawTick>, interval: int)
    requires interval > 0
  {
    run != [] && forall i :: 0 <= i < |run| ==> SameBar(run[0], run[i], interval)
  }

  /** `runs` cuts `ticks` into its maximal blocks of consecutive same-bar ticks. */
  ghost predicate MaximalRuns(ticks: seq<RawTick>, runs: seq<seq<RawTick>>, interval: int)
    requires interval > 0
  {
    && Concat(runs) == ticks
    && (forall i :: 0 <= i < |runs| ==> OneBar(runs[i], interval))
    && (forall i :: 0 < i < |runs| ==> !SameBar(runs[i - 1][0], runs[i][0], interval))
  }

  function HighOf(run: seq<RawTick>): real
    requires run != []
  {
    if |run| == 1 then run[0].ltp else Max(HighOf(Front(run)), Last(run).ltp)
  }

  function LowOf(run: seq<RawTick>): real
    requires run != []
  {
    if |run| == 1 then run[0].ltp else Min(LowOf(Front(run)), Last(run).ltp)
  }

  /** The candle of one run: first, highest, lowest and last price, summed volume. */
  function Summary(run: seq<RawTick>, interval: int): Candle
    requires run != [] && interval > 0
  {
    Candle(run[0].symbol, run[0].exchange, interval,
           run[0].ltp, HighOf(run), LowOf(run), Last(run).ltp,
           VolumeOf(run), BarStart(run[0].timestampMs, interval), |run|)
  }

  function Summaries(runs: seq<seq<RawTick>>, interval: int): (r: seq<Candle>)
    requires interval > 0
    requires forall i :: 0 <= i < |runs| ==> runs[i] != []
    ensures |r| == |runs|
  {
    if runs == [] then [] else Summaries(Front(runs), interval) + [Summary(Last(runs), interval)]
  }

  /** High and low really are the extremes of the run and are attained in it. */
  lemma {:induction false} SummaryBounds(run: seq<RawTick>, interval: int)
    requires run != [] && interval > 0
    ensures forall i :: 0 <= i < |run| ==> LowOf(run) <= run[i].ltp <= HighOf(run)
    ensures exists i :: 0 <= i < |run| && run[i].ltp == HighOf(run)
    ensures exists i :: 0 <= i < |run| && run[i].ltp == LowOf(run)
    ensures var c := Summary(run, interval); c.low <= c.open <= c.high && c.low <= c.close <= c.high
  {
    if |run| == 1 {
      assert run[0].ltp == HighOf(run) == LowOf(run);
    } else {
      SummaryBounds(Front(run), interval);
      assert forall i :: 0 <= i < |run| - 1 ==> Front(run)[i] == run[i];
      assert run[|run| - 1] == Last(run);
    }
  }

  /** The candle of a block opens at its first price, closes at its last, counts its ticks, starts on an interval
      boundary and covers every one of them. */
  lemma {:induction false} SummaryCovers(run: seq<RawTick>, interval: int)
    requires interval > 0 && OneBar(run, interval)
    ensures var c := Summary(run, interval);
            && c.open == run[0].ltp && c.close == run[|run| - 1].ltp && c.tickCount == |run|
            && c.timestampMs % (interval * 1000) == 0
            && forall i :: 0 <= i < |run| ==> c.timestampMs <= run[i].timestampMs < c.timestampMs + interval * 1000
  {
    BarStartIsBoundary(run[0].timestampMs, interval);
    forall i | 0 <= i < |run|
      ensures BarStart(run[0].timestampMs, interval) <= run[i].timestampMs
                < BarStart(run[0].timestampMs, interval) + interval * 1000
    {
      BarStartIsBoundary(run[i].timestampMs, interval);
      assert SameBar(run[0], run[i], interval);
    }
  }

  // ---- A computed cut into maximal runs; it exists and is the only one ----

  /** Appends a tick to the cut: to the last run if it is in the same bar, else as a new run. */
  function AddToRuns(runs: seq<seq<RawTick>>, t: RawTick, interval: int): (r: seq<seq<RawTick>>)
    requires interval > 0
    requires forall i :: 0 <= i < |runs| ==> runs[i] != []
    ensures r != [] && forall i :: 0 <= i < |r| ==> r[i] != []
  {
    if runs != [] && SameBar(Last(runs)[0], t, interval)
    then Front(runs) + [Last(runs) + [t]]
    else runs + [[t]]
  }

  function Runs(ticks: seq<RawTick>, interval: int): (r: seq<seq<RawTick>>)
    requires interval > 0
    ensures forall i :: 0 <= i < |r| ==> r[i] != []
    ensures ticks != [] ==> r != []
  {
    if ticks == [] then [] else AddToRuns(Runs(Front(ticks), interval), Last(ticks), interval)
  }

  lemma ConcatSnoc<T>(runs: seq<seq<T>>, run: seq<T>)
    ensures Concat(runs + [run]) == Concat(runs) + run
  {
    AppendFrontLast(runs, run);
  }

  lemma AddKeepsMaximal(ticks: seq<RawTick>, runs: seq<seq<RawTick>>, t: RawTick, interval: int)
    requires interval > 0 && MaximalRuns(ticks, runs, interval)
    ensures MaximalRuns(ticks + [t], AddToRuns(runs, t, interval), interval)
  {
    hide BarStart;
    if runs != [] && SameBar(Last(runs)[0], t, interval) {
      FrontLast(runs);
      ConcatSnoc(Front(runs), Last(runs) + [t]);
      assert Concat(runs) + [t] == Concat(Front(runs)) + (Last(runs) + [t]);
    } else {
      ConcatSnoc(runs, [t]);
    }
  }

  lemma {:induction false} RunsAreMaximal(ticks: seq<RawTick>, interval: int)
    requires interval > 0
    ensures MaximalRuns(ticks, Runs(ticks, interval), interval)
  {
    if ticks != [] {
      RunsAreMaximal(Front(ticks), interval);
      AddKeepsMaximal(Front(ticks), Runs(Front(ticks), interval), Last(ticks), interval);
      FrontLast(ticks);
    }
  }

  /** Dropping the last tick of a maximal cut leaves a maximal cut. */
  lemma {:induction false} MaximalRunsUnique(ticks: seq<RawTick>, runs: seq<seq<RawTick>>, interval: int)
    requires interval > 0 && MaximalRuns(ticks, runs, interval)
    ensures runs == Runs(ticks, interval)
    decreases |ticks|
  {
    if runs == [] {
    } else {
      var last := Last(runs);
      FrontLast(runs);
      assert OneBar(last, interval);
      assert Last(ticks) == Last(last);
      assert Front(ticks) == Concat(Front(runs)) + Front(last);
      if |last| == 1 {
        assert Front(ticks) == Concat(Front(runs));
        MaximalRunsUnique(Front(ticks), Front(runs), interval);
        assert last == [Last(ticks)];
        if Front(runs) != [] {
          assert OneBar(Last(Front(runs)), interval);
        }
      } else {
        var shorter := Front(runs) + [Front(last)];
        ConcatSnoc(Front(runs), Front(last));
        assert forall i :: 0 <= i < |Front(runs)| ==> shorter[i] == runs[i];
        MaximalRunsUnique(Front(ticks), shorter, interval);
        AppendFrontLast(Front(runs), Front(last));
        FrontLast(last);
      }
    }
  }
}
