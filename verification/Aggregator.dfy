/** The candle aggregator: one open bar object per key, updated in place. */
module Aggregator {
  import opened Common
  import opened Numbers
  import opened Ticks
  import opened Aggregation

  class BarState {
    const startMs: int
    const open: real
    var high: real
    var low: real
    var close: real
    var volume: int
    var tickCount: int

    constructor (startMs: int, price: real, volume: int)
      ensures Value() == Bar(startMs, price, price, price, price, volume, 1)
    {
      this.startMs, open, high, low, close := startMs, price, price, price, price;
      this.volume, tickCount := volume, 1;
    }

    function Value(): Bar
      reads this
    {
      Bar(startMs, open, high, low, close, volume, tickCount)
    }

    method Absorb(tick: RawTick)
      modifies this
      ensures Value() == Extend(old(Value()), tick)
    {
      high := Max(high, tick.ltp);
      low := Min(low, tick.ltp);
      close := tick.ltp;
      volume := volume + tick.volume;
      tickCount := tickCount + 1;
    }
  }

  class CandleAggregator {
    const interval: int
    var bars: map<string, BarState>

    ghost var Repr: set<object>

    /** The value of every open bar. */
    ghost var Open: map<string, Bar>

    /** No bar object is shared between two keys. */
    ghost predicate Valid()
      reads this, Repr
    {
      && interval > 0
      && this in Repr
      && bars.Keys == Open.Keys
      && (forall k :: k in bars ==> bars[k] in Repr && bars[k].Value() == Open[k])
      && (forall k :: k in bars ==> ':' in k)
      && (forall j, k :: j in bars && k in bars && j != k ==> bars[j] != bars[k])
    }

    constructor (interval: int)
      requires interval > 0
      ensures Valid() && fresh(Repr) && this.interval == interval && Open == map[]
    {
      this.interval, bars := interval, map[];
      Repr, Open := {this}, map[];
    }

    /** Replaces whatever bar the key had by a fresh one holding one tick. */
    method StartBar(key: string, startMs: int, tick: RawTick)
      requires Valid() && ':' in key
      modifies this
      ensures Valid() && fresh(Repr - old(Repr))
      ensures Open == old(Open)[key := Bar(startMs, tick.ltp, tick.ltp, tick.ltp, tick.ltp, tick.volume, 1)]
    {
      var bar := new BarState(startMs, tick.ltp, tick.volume);
      bars := bars[key := bar];
      Repr := Repr + {bar};
      Open := Open[key := bar.Value()];
    }

    method Ingest(tick: RawTick) returns (completed: Option<Candle>)
      requires Valid()
      modifies Repr
      ensures Valid() && fresh(Repr - old(Repr))
      ensures Open == OpenAfter(old(Open), tick, interval)
      ensures completed == EmittedOn(old(Open), tick, interval)
    {
      var key := Key(tick.exchange, tick.symbol);
      var barStart := BarStart(tick.timestampMs, interval);
      assert key[|tick.exchange|] == ':';
      completed := None;
      if key in bars {
        var existing := bars[key];
        if barStart == existing.startMs {
          existing.Absorb(tick);
          Open := Open[key := Extend(Open[key], tick)];
          return;
        }
        completed := Some(Candle(tick.symbol, tick.exchange, interval,
                                 existing.open, existing.high, existing.low, existing.close,
                                 existing.volume, existing.startMs, existing.tickCount));
      }
      StartBar(key, barStart, tick);
    }

    method Flush() returns (result: map<string, Candle>)
      requires Valid()
      modifies this
      ensures Valid() && Repr == old(Repr) && Open == map[]
      ensures result.Keys == old(Open).Keys
      ensures forall k :: k in result ==> Some(result[k]) == FlushedFor(old(Open), k, interval)
    {
      result := map[];
      var remaining := bars.Keys;
      while remaining != {}
        invariant remaining <= bars.Keys && result.Keys == bars.Keys - remaining
        invariant forall k :: k in result ==> Some(result[k]) == FlushedFor(Open, k, interval)
        decreases remaining
      {
        var key :| key in remaining;
        var state := bars[key];
        var (exchange, symbol) := SplitKey(key);
        result := result[key := Candle(symbol, exchange, interval,
                                       state.open, state.high, state.low, state.close,
                                       state.volume, state.startMs, state.tickCount)];
        remaining := remaining - {key};
      }
      bars, Open := map[], map[];
    }

    method Reset(symbol: string, exchange: string)
      requires Valid()
      modifies this
      ensures Valid() && Repr == old(Repr)
      ensures Open == old(Open) - {Key(exchange, symbol)}
    {
      bars, Open := bars - {Key(exchange, symbol)}, Open - {Key(exchange, symbol)};
    }
  }
}
