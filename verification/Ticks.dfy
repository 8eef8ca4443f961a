/** Ticks, candles and the "EXCHANGE:SYMBOL" keys of the ingestion pipeline. */
module Ticks {
  import opened Common
  import opened Numbers

  datatype RawTick = RawTick(symbol: string, exchange: string, ltp: real, volume: int, timestampMs: int)

  datatype Candle = Candle(
    symbol: string, exchange: string, intervalSeconds: int,
    open: real, high: real, low: real, close: real,
    volume: int, timestampMs: int, tickCount: int)

  function Key(exchange: string, symbol: string): string {
    exchange + ":" + symbol
  }

  function KeyOf(t: RawTick): string {
    Key(t.exchange, t.symbol)
  }

  function CandleKey(c: Candle): string {
    Key(c.exchange, c.symbol)
  }

  /** Splits at the first colon: (text before, text after). */
  function SplitKey(key: string): (string, string)
    requires ':' in key
  {
    if key[0] == ':' then ("", key[1..])
    else
      var rest := SplitKey(key[1..]);
      ([key[0]] + rest.0, rest.1)
  }

  /** Exchange codes contain no colon, so a key determines exchange and symbol. */
  lemma {:induction false} KeySplits(exchange: string, symbol: string)
    requires ':' !in exchange
    ensures ':' in Key(exchange, symbol)
    ensures SplitKey(Key(exchange, symbol)) == (exchange, symbol)
  {
    assert Key(exchange, symbol)[|exchange|] == ':';
    if exchange != "" {
      KeySplits(exchange[1..], symbol);
      assert Key(exchange, symbol)[1..] == Key(exchange[1..], symbol);
      assert [exchange[0]] + exchange[1..] == exchange;
    } else {
      assert Key(exchange, symbol)[1..] == symbol;
    }
  }

  /** Splitting and joining again gives the key back, whatever the exchange text. */
  lemma {:induction false} SplitRejoins(key: string)
    requires ':' in key
    ensures Key(SplitKey(key).0, SplitKey(key).1) == key
  {
    if key[0] == ':' {
      assert key == ":" + key[1..];
    } else {
      SplitRejoins(key[1..]);
      var rest := SplitKey(key[1..]);
      assert Key([key[0]] + rest.0, rest.1) == [key[0]] + Key(rest.0, rest.1);
      assert key == [key[0]] + key[1..];
    }
  }

  predicate PlainExchanges(ticks: seq<RawTick>) {
    forall i :: 0 <= i < |ticks| ==> ':' !in ticks[i].exchange
  }

  lemma SameKeySameInstrument(a: RawTick, b: RawTick)
    requires ':' !in a.exchange && ':' !in b.exchange && KeyOf(a) == KeyOf(b)
    ensures a.exchange == b.exchange && a.symbol == b.symbol
  {
    KeySplits(a.exchange, a.symbol);
    KeySplits(b.exchange, b.symbol);
  }

  /** The ticks of one key, in arrival order. */
  function Own(ticks: seq<RawTick>, key: string): seq<RawTick> {
    if ticks == [] then []
    else if KeyOf(Last(ticks)) == key then Own(Front(ticks), key) + [Last(ticks)]
    else Own(Front(ticks), key)
  }

  lemma {:induction false} OwnTicks(ticks: seq<RawTick>, key: string)
    ensures forall t :: t in Own(ticks, key) ==> t in ticks && KeyOf(t) == key
  {
    if ticks != [] {
      OwnTicks(Front(ticks), key);
    }
  }

  function VolumeOf(ticks: seq<RawTick>): int {
    if ticks == [] then 0 else VolumeOf(Front(ticks)) + Last(ticks).volume
  }

  /** The candles of one key, in emission order. */
  function CandlesFor(candles: seq<Candle>, key: string): seq<Candle> {
    if candles == [] then []
    else if CandleKey(Last(candles)) == key then CandlesFor(Front(candles), key) + [Last(candles)]
    else CandlesFor(Front(candles), key)
  }

  function CandleVolume(candles: seq<Candle>): int {
    if candles == [] then 0 else CandleVolume(Front(candles)) + Last(candles).volume
  }

  function CandleTicks(candles: seq<Candle>): int {
    if candles == [] then 0 else CandleTicks(Front(candles)) + Last(candles).tickCount
  }
}
