/** The ingestion agent: validate, aggregate at both bar sizes, buffer. */
module IngestionAgent {
  import opened Common
  import opened Ticks
  import opened Aggregation
  import opened AggregationTheorems
  import opened Aggregator
  import opened Validator
  import opened Buffer

  const CANDLE_INTERVAL_1M := 60
  const CANDLE_INTERVAL_5M := 300

  datatype Injection = Rejected(error: TickError) | Completed(candles: seq<Candle>)

  /** The map of latest candles after an optional new one. */
  function Latest(latest: map<string, Candle>, symbol: string, c: Option<Candle>): map<string, Candle> {
    if c.Some? then latest[symbol := c.value] else latest
  }

  class DataIngestionAgent {
    const validator: TickSequenceValidator
    const agg1m: CandleAggregator
    const agg5m: CandleAggregator
    const buffer: TickBuffer
    var latest1m: map<string, Candle>
    var latest5m: map<string, Candle>

    /** The ticks accepted since the open bars were last flushed. */
    ghost var fed: seq<RawTick>

    /** The parts are valid and share nothing. */
    ghost predicate Separate()
      reads this, agg1m, agg5m, agg1m.Repr, agg5m.Repr
    {
      && agg1m.Valid() && agg5m.Valid()
      && agg1m.Repr !! agg5m.Repr
      && this !in agg1m.Repr && validator !in agg1m.Repr && buffer !in agg1m.Repr && buffer.redis !in agg1m.Repr
      && this !in agg5m.Repr && validator !in agg5m.Repr && buffer !in agg5m.Repr && buffer.redis !in agg5m.Repr
      && agg1m.interval == CANDLE_INTERVAL_1M && agg5m.interval == CANDLE_INTERVAL_5M
    }

    /** Both aggregators hold what the batch specification says of the ticks fed. */
    ghost predicate Valid()
      reads this, agg1m, agg5m, agg1m.Repr, agg5m.Repr
    {
      && Separate()
      && agg1m.Open == OpenBars(fed, CANDLE_INTERVAL_1M)
      && agg5m.Open == OpenBars(fed, CANDLE_INTERVAL_5M)
    }

    constructor (redis: RedisQueue?)
      ensures Valid() && fed == [] && latest1m == map[] && latest5m == map[]
      ensures buffer.redis == redis
      ensures validator.lastTs == map[]
      ensures buffer.State() == Queues([], if redis == null then None else Some(redis.items))
    {
      validator := new TickSequenceValidator();
      agg1m := new CandleAggregator(CANDLE_INTERVAL_1M);
      agg5m := new CandleAggregator(CANDLE_INTERVAL_5M);
      buffer := new TickBuffer(redis);
      latest1m, latest5m, fed := map[], map[], [];
    }

    /** A refused tick changes nothing. An accepted one feeds both aggregators and the
        buffer; a 5-minute candle comes with the 1-minute candle that ends it, and is the
        merge of that candle and of the 1-minute candles emitted since the last roll. */
    method InjectTick(tick: RawTick, nowMs: int, rpushOk: bool) returns (r: Injection)
      requires Valid()
      modifies this, validator, buffer, buffer.redis, agg1m.Repr, agg5m.Repr
      ensures Valid() && fresh(agg1m.Repr - old(agg1m.Repr)) && fresh(agg5m.Repr - old(agg5m.Repr))
      ensures r.Rejected? <==> Verdict(old(validator.lastTs), tick, nowMs).Some?
      ensures r.Rejected? ==>
                && Some(r.error) == Verdict(old(validator.lastTs), tick, nowMs)
                && fed == old(fed) && validator.lastTs == old(validator.lastTs)
                && buffer.State() == old(buffer.State())
                && latest1m == old(latest1m) && latest5m == old(latest5m)
      ensures r.Completed? ==>
                && fed == old(fed) + [tick]
                && validator.lastTs == old(validator.lastTs)[KeyOf(tick) := tick.timestampMs]
                && buffer.State() == AfterPush(old(buffer.State()), tick, rpushOk)
                && var c1 := EmittedOn(old(agg1m.Open), tick, CANDLE_INTERVAL_1M);
                && var c5 := EmittedOn(old(agg5m.Open), tick, CANDLE_INTERVAL_5M);
                && r.candles == Listed(c1) + Listed(c5)
                && latest1m == (if c1.Some? then old(latest1m)[tick.symbol := c1.value] else old(latest1m))
                && latest5m == (if c5.Some? then old(latest5m)[tick.symbol := c5.value] else old(latest5m))
                && (c5.Some? ==>
                      && |r.candles| == 2
                      && var since := SinceRoll(old(fed), KeyOf(tick), CANDLE_INTERVAL_1M, CANDLE_INTERVAL_5M);
                         r.candles[1] == CandleOf(Merge(since + [Body(r.candles[0])], CANDLE_INTERVAL_5M),
                                                  tick.symbol, tick.exchange, CANDLE_INTERVAL_5M))
    {
      hide agg1m.Valid, OpenBars, OpenAfter, EmittedOn, Merge, SinceRoll, AfterPush, Verdict;
      var error := validator.Validate(tick, nowMs);
      if error.Some? {
        return Rejected(error.value);
      }
      FeedStep(fed, tick, CANDLE_INTERVAL_1M);
      FeedStep(fed, tick, CANDLE_INTERVAL_5M);
      CoarseRollsWithFine(fed, tick);
      fed := fed + [tick];
      var candles := Process(tick, rpushOk);
      r := Completed(candles);
    }

    static lemma CoarseRollsWithFine(fed: seq<RawTick>, tick: RawTick)
      ensures var c1 := EmittedOn(OpenBars(fed, CANDLE_INTERVAL_1M), tick, CANDLE_INTERVAL_1M);
              var c5 := EmittedOn(OpenBars(fed, CANDLE_INTERVAL_5M), tick, CANDLE_INTERVAL_5M);
              c5.Some? ==>
                && c1.Some?
                && var since := SinceRoll(fed, KeyOf(tick), CANDLE_INTERVAL_1M, CANDLE_INTERVAL_5M);
                   c5.value == CandleOf(Merge(since + [Body(c1.value)], CANDLE_INTERVAL_5M),
                                        tick.symbol, tick.exchange, CANDLE_INTERVAL_5M)
    {
      if EmittedOn(OpenBars(fed, CANDLE_INTERVAL_5M), tick, CANDLE_INTERVAL_5M).Some? {
        CoarseEmissionIsMerge(fed, tick, CANDLE_INTERVAL_1M, CANDLE_INTERVAL_5M, 5);
      }
    }

    /** Aggregates and buffers an accepted tick. */
    method Process(tick: RawTick, rpushOk: bool) returns (completed: seq<Candle>)
      requires Separate()
      modifies this`latest1m, this`latest5m, buffer, buffer.redis, agg1m.Repr, agg5m.Repr
      ensures Separate() && fresh(agg1m.Repr - old(agg1m.Repr)) && fresh(agg5m.Repr - old(agg5m.Repr))
      ensures agg1m.Open == OpenAfter(old(agg1m.Open), tick, CANDLE_INTERVAL_1M)
      ensures agg5m.Open == OpenAfter(old(agg5m.Open), tick, CANDLE_INTERVAL_5M)
      ensures buffer.State() == AfterPush(old(buffer.State()), tick, rpushOk)
      ensures var c1 := EmittedOn(old(agg1m.Open), tick, CANDLE_INTERVAL_1M);
              var c5 := EmittedOn(old(agg5m.Open), tick, CANDLE_INTERVAL_5M);
              && completed == Listed(c1) + Listed(c5)
              && latest1m == Latest(old(latest1m), tick.symbol, c1)
              && latest5m == Latest(old(latest5m), tick.symbol, c5)
    {
      hide agg1m.Valid, OpenAfter, EmittedOn, AfterPush;
      var c1m, c5m := Aggregate(tick);
      completed := [];
      if c1m.Some? {
        latest1m := latest1m[tick.symbol := c1m.value];
        completed := completed + [c1m.value];
      }
      if c5m.Some? {
        latest5m := latest5m[tick.symbol := c5m.value];
        completed := completed + [c5m.value];
      }
      buffer.Push(tick, rpushOk);
    }

    /** Feeds an accepted tick to the 1-minute and then the 5-minute aggregator. */
    method Aggregate(tick: RawTick) returns (c1m: Option<Candle>, c5m: Option<Candle>)
      requires Separate()
      modifies agg1m.Repr, agg5m.Repr
      ensures Separate() && fresh(agg1m.Repr - old(agg1m.Repr)) && fresh(agg5m.Repr - old(agg5m.Repr))
      ensures agg1m.Open == OpenAfter(old(agg1m.Open), tick, CANDLE_INTERVAL_1M)
      ensures agg5m.Open == OpenAfter(old(agg5m.Open), tick, CANDLE_INTERVAL_5M)
      ensures c1m == EmittedOn(old(agg1m.Open), tick, CANDLE_INTERVAL_1M)
      ensures c5m == EmittedOn(old(agg5m.Open), tick, CANDLE_INTERVAL_5M)
    {
      c1m := agg1m.Ingest(tick);
      c5m := agg5m.Ingest(tick);
    }

    /** Closes all open bars. The 5-minute bars overwrite the 1-minute bars, and since both
        aggregators hold the same keys, no 1-minute bar is ever returned. */
    method FlushOpenBars() returns (result: map<string, Candle>)
      requires Valid()
      modifies agg1m, agg5m, this`fed
      ensures Valid() && fed == []
      ensures result.Keys == OpenBars(old(fed), CANDLE_INTERVAL_5M).Keys == OpenBars(old(fed), CANDLE_INTERVAL_1M).Keys
      ensures forall k :: k in result ==>
                Some(result[k]) == FlushedFor(OpenBars(old(fed), CANDLE_INTERVAL_5M), k, CANDLE_INTERVAL_5M)
    {
      SameOpenKeys(fed, CANDLE_INTERVAL_1M, CANDLE_INTERVAL_5M);
      result := agg1m.Flush();
      var coarse := agg5m.Flush();
      result := result + coarse;
      fed := [];
    }
  }
}
