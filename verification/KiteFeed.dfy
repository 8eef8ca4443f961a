/** The Kite feed adapter: cumulative session volume becomes per-tick volume. */
module KiteFeed {
  import opened Common
  import opened Ticks
  import opened Aggregation
  import opened AggregationTheorems
  import opened Validator

  datatype RawEntry = RawEntry(token: int, lastPrice: real, cumVolume: int, timestampMs: int)

  function Digits(n: nat): string {
    if n < 10 then [('0' as int + n) as char] else Digits(n / 10) + Digits(n % 10)
  }

  function IntText(n: int): string {
    if n < 0 then "-" + Digits(-n) else Digits(n)
  }

  /** Symbol and exchange of a token; an unmapped token is its own symbol on NSE. */
  function Instrument(symbols: map<int, (string, string)>, token: int): (string, string) {
    if token in symbols then symbols[token] else (IntText(token), "NSE")
  }

  function TokenKey(symbols: map<int, (string, string)>, token: int): string {
    Key(Instrument(symbols, token).1, Instrument(symbols, token).0)
  }

  /** Volume traded since the previous entry of the token, never negative. */
  function Delta(prev: map<int, int>, e: RawEntry): int {
    if e.token in prev && e.cumVolume > prev[e.token] then e.cumVolume - prev[e.token] else 0
  }

  function TickOf(symbols: map<int, (string, string)>, prev: map<int, int>, e: RawEntry): RawTick {
    var (symbol, exchange) := Instrument(symbols, e.token);
    RawTick(symbol, exchange, e.lastPrice, Delta(prev, e), e.timestampMs)
  }

  /** The last cumulative volume per token after the positive-price entries. */
  function PrevVolumes(prev: map<int, int>, entries: seq<RawEntry>): map<int, int> {
    if entries == [] then prev
    else if Last(entries).lastPrice <= 0.0 then PrevVolumes(prev, Front(entries))
    else PrevVolumes(prev, Front(entries))[Last(entries).token := Last(entries).cumVolume]
  }

  /** The ticks handed downstream. */
  function Delivered(symbols: map<int, (string, string)>, prev: map<int, int>, entries: seq<RawEntry>): seq<RawTick> {
    if entries == [] then []
    else if Last(entries).lastPrice <= 0.0 then Delivered(symbols, prev, Front(entries))
    else Delivered(symbols, prev, Front(entries)) + [TickOf(symbols, PrevVolumes(prev, Front(entries)), Last(entries))]
  }

  class KiteAdapter {
    const symbols: map<int, (string, string)>
    var prevVol: map<int, int>

    constructor (symbols: map<int, (string, string)>)
      ensures this.symbols == symbols && prevVol == map[]
    {
      this.symbols, prevVol := symbols, map[];
    }

    /** Returns the ticks passed to the callback, in order; what the callback raises is swallowed. */
    method HandleTicks(raws: seq<RawEntry>) returns (sent: seq<RawTick>)
      modifies this
      ensures sent == Delivered(symbols, old(prevVol), raws)
      ensures prevVol == PrevVolumes(old(prevVol), raws)
    {
      sent := [];
      for i := 0 to |raws|
        invariant sent == Delivered(symbols, old(prevVol), raws[..i])
        invariant prevVol == PrevVolumes(old(prevVol), raws[..i])
      {
        var raw := raws[i];
        assert raws[..i + 1] == raws[..i] + [raw];
        AppendFrontLast(raws[..i], raw);
        if raw.lastPrice <= 0.0 {
          continue;
        }
        var prev := if raw.token in prevVol then prevVol[raw.token] else raw.cumVolume;
        var deltaVol := if raw.cumVolume - prev > 0 then raw.cumVolume - prev else 0;
        prevVol := prevVol[raw.token := raw.cumVolume];
        var (symbol, exchange) := Instrument(symbols, raw.token);
        sent := sent + [RawTick(symbol, exchange, raw.lastPrice, deltaVol, raw.timestampMs)];
      }
      assert raws[..|raws|] == raws;
    }
  }

  // ---- Telescoping ----

  /** The cumulative volumes of the positive-price entries of one token. */
  function Cumulative(entries: seq<RawEntry>, token: int): seq<int> {
    if entries == [] then []
    else if Last(entries).token == token && Last(entries).lastPrice > 0.0
    then Cumulative(Front(entries), token) + [Last(entries).cumVolume]
    else Cumulative(Front(entries), token)
  }

  /** How much the cumulative volume falls in total, over all its falls. */
  function TotalFall(vs: seq<int>): nat {
    if |vs| < 2 then 0
    else TotalFall(Front(vs)) + (if vs[|vs| - 2] > Last(vs) then vs[|vs| - 2] - Last(vs) else 0)
  }

  ghost predicate NonDecreasing(vs: seq<int>) {
    forall i :: 0 < i < |vs| ==> vs[i - 1] <= vs[i]
  }

  lemma {:induction false} NoFallIffNonDecreasing(vs: seq<int>)
    ensures TotalFall(vs) == 0 <==> NonDecreasing(vs)
  {
    if |vs| >= 2 {
      NoFallIffNonDecreasing(Front(vs));
      assert NonDecreasing(vs) <==> NonDecreasing(Front(vs)) && vs[|vs| - 2] <= Last(vs) by {
        assert forall i :: 0 <= i < |vs| - 1 ==> Front(vs)[i] == vs[i];
      }
    }
  }

  /** Every other token with a positive-price entry trades under another key. */
  ghost predicate OnlyToken(symbols: map<int, (string, string)>, entries: seq<RawEntry>, token: int) {
    forall i :: 0 <= i < |entries| && entries[i].lastPrice > 0.0 && entries[i].token != token ==>
      TokenKey(symbols, entries[i].token) != TokenKey(symbols, token)
  }

  /** `volume` is the change of the cumulative volume plus its falls; `prev` holds its last value. */
  ghost predicate Telescoped(vs: seq<int>, prev: map<int, int>, token: int, volume: int) {
    if vs == [] then token !in prev && volume == 0
    else token in prev && prev[token] == Last(vs) && volume == Last(vs) - vs[0] + TotalFall(vs)
  }

  lemma TelescopedStep(vs: seq<int>, prev: map<int, int>, e: RawEntry, volume: int)
    requires Telescoped(vs, prev, e.token, volume)
    ensures Telescoped(vs + [e.cumVolume], prev[e.token := e.cumVolume], e.token, volume + Delta(prev, e))
  {
    AppendFrontLast(vs, e.cumVolume);
  }

  lemma OwnVolumeSnoc(ticks: seq<RawTick>, t: RawTick, key: string)
    ensures VolumeOf(Own(ticks + [t], key)) == VolumeOf(Own(ticks, key)) + (if KeyOf(t) == key then t.volume else 0)
  {
    AppendFrontLast(ticks, t);
    AppendFrontLast(Own(ticks, key), t);
  }

  function TokenVolume(symbols: map<int, (string, string)>, entries: seq<RawEntry>, token: int): int {
    VolumeOf(Own(Delivered(symbols, map[], entries), TokenKey(symbols, token)))
  }

  /** The reference of a token is its last cumulative volume with a positive price. */
  lemma {:induction false} ReferenceIsLast(entries: seq<RawEntry>, token: int)
    ensures var prev, vs := PrevVolumes(map[], entries), Cumulative(entries, token);
            (token in prev <==> vs != []) && (vs != [] ==> prev[token] == Last(vs))
  {
    if entries != [] {
      ReferenceIsLast(Front(entries), token);
    }
  }

  /** An entry without a positive price is skipped. Any other delivers one tick, under the token's symbol and exchange
      or else its number on NSE, with its price, its time and the growth of the cumulative volume since the token's
      last entry with a positive price: zero for the first one and after a fall. */
  lemma {:induction false} DeliversOne(symbols: map<int, (string, string)>, entries: seq<RawEntry>)
    requires entries != []
    ensures var e, before := Last(entries), Delivered(symbols, map[], Front(entries));
            var vs, all := Cumulative(Front(entries), e.token), Delivered(symbols, map[], entries);
            if e.lastPrice <= 0.0 then all == before
            else
              && |all| == |before| + 1 && all[..|before|] == before
              && var t := all[|before|];
              && t.ltp == e.lastPrice && t.timestampMs == e.timestampMs
              && (if e.token in symbols then t.symbol == symbols[e.token].0 && t.exchange == symbols[e.token].1
                  else t.symbol == IntText(e.token) && t.exchange == "NSE")
              && t.volume == if vs == [] || e.cumVolume <= Last(vs) then 0 else e.cumVolume - Last(vs)
  {
    ReferenceIsLast(Front(entries), Last(entries).token);
    hide IntText, Cumulative;
  }

  /** The number a text of decimal digits stands for. */
  ghost function Decimal(text: string): int {
    if text == "" then 0 else 10 * Decimal(text[..|text| - 1]) + (text[|text| - 1] as int - '0' as int)
  }

  lemma {:induction false} DigitsAreDecimal(n: nat)
    ensures Decimal(Digits(n)) == n
    ensures forall i :: 0 <= i < |Digits(n)| ==> '0' <= Digits(n)[i] <= '9'
    ensures Digits(n) != "" && (n > 0 ==> Digits(n)[0] != '0')
  {
    if n < 10 {
      assert Decimal("") == 0 && Digits(n)[..0] == "";
    } else {
      DigitsAreDecimal(n / 10);
      assert Digits(n) == Digits(n / 10) + Digits(n % 10);
      assert Digits(n)[..|Digits(n)| - 1] == Digits(n / 10);
    }
  }

  lemma {:induction false} DeltasTelescope(symbols: map<int, (string, string)>, entries: seq<RawEntry>, token: int)
    requires OnlyToken(symbols, entries, token)
    ensures Telescoped(Cumulative(entries, token), PrevVolumes(map[], entries), token,
        TokenVolume(symbols, entries, token))
  {
    if entries != [] {
      var before, e := Front(entries), Last(entries);
      assert OnlyToken(symbols, before, token) by {
        assert forall i :: 0 <= i < |before| ==> before[i] == entries[i];
      }
      DeltasTelescope(symbols, before, token);
      if e.lastPrice > 0.0 {
        var prev := PrevVolumes(map[], before);
        OwnVolumeSnoc(Delivered(symbols, map[], before), TickOf(symbols, prev, e), TokenKey(symbols, token));
        if e.token == token {
          TelescopedStep(Cumulative(before, token), prev, e, TokenVolume(symbols, before, token));
        } else {
          assert entries[|entries| - 1] == e;
        }
      }
    }
  }

  /** Through the adapter and one aggregator, emitted plus flushed candle volume of a token
      is its last cumulative volume minus its first, plus every fall in between; so it
      telescopes exactly when the cumulative volume never falls. */
  lemma {:induction false} VolumeTelescopes(symbols: map<int, (string, string)>, entries: seq<RawEntry>, token: int,
      interval: int)
    requires interval > 0 && OnlyToken(symbols, entries, token)
    requires PlainExchanges(Delivered(symbols, map[], entries))
    requires Cumulative(entries, token) != []
    ensures var vs := Cumulative(entries, token);
            var key := TokenKey(symbols, token);
            var ticks := Delivered(symbols, map[], entries);
            var volume := CandleVolume(CandlesFor(Emitted(ticks, interval), key)
                                       + Listed(FlushedFor(OpenBars(ticks, interval), key, interval)));
            && volume == Last(vs) - vs[0] + TotalFall(vs)
            && (volume == Last(vs) - vs[0] <==> NonDecreasing(vs))
  {
    var ticks := Delivered(symbols, map[], entries);
    DeltasTelescope(symbols, entries, token);
    VolumeConserved(ticks, TokenKey(symbols, token), interval);
    NoFallIffNonDecreasing(Cumulative(entries, token));
  }

  // ---- With the validator in between ----

  function TicksOf(feed: seq<Arrival>): seq<RawTick> {
    if feed == [] then [] else TicksOf(Front(feed)) + [Last(feed).tick]
  }

  /** The ticks of the feed that the validator refuses. */
  function Refused(feed: seq<Arrival>): seq<RawTick> {
    if feed == [] then []
    else if Verdict(LastSeen(Front(feed)), Last(feed).tick, Last(feed).nowMs).Some?
    then Refused(Front(feed)) + [Last(feed).tick]
    else Refused(Front(feed))
  }

  lemma {:induction false} AcceptedOrRefused(feed: seq<Arrival>, key: string)
    ensures VolumeOf(Own(TicksOf(feed), key)) == VolumeOf(Own(Accepted(feed), key)) + VolumeOf(Own(Refused(feed), key))
    ensures PlainExchanges(TicksOf(feed)) ==> PlainExchanges(Accepted(feed))
  {
    if feed != [] {
      var front, t := Front(feed), Last(feed).tick;
      AcceptedOrRefused(front, key);
      OwnVolumeSnoc(TicksOf(front), t, key);
      OwnVolumeSnoc(Accepted(front), t, key);
      OwnVolumeSnoc(Refused(front), t, key);
      if PlainExchanges(TicksOf(feed)) {
        PlainSnoc(TicksOf(front), t);
        PlainSnoc(Accepted(front), t);
      }
      hide Own, VolumeOf, Verdict, PlainExchanges;
    }
  }

  lemma PlainSnoc(ticks: seq<RawTick>, t: RawTick)
    ensures PlainExchanges(ticks + [t]) <==> PlainExchanges(ticks) && ':' !in t.exchange
  {
    if PlainExchanges(ticks + [t]) {
      assert (ticks + [t])[|ticks|] == t;
      assert forall i :: 0 <= i < |ticks| ==> ticks[i] == (ticks + [t])[i];
    }
  }

  /** The adapter moves its reference before the validator can refuse a tick, so the volume of a refused tick is lost:
      candle volume is last minus first plus falls, minus the refused deltas. Without falls it telescopes exactly when
      the refused ticks of the token carry no volume. */
  lemma {:induction false} RefusedVolumeIsLost(symbols: map<int, (string, string)>, entries: seq<RawEntry>,
      feed: seq<Arrival>,
                                               token: int, interval: int)
    requires interval > 0 && OnlyToken(symbols, entries, token)
    requires TicksOf(feed) == Delivered(symbols, map[], entries) && PlainExchanges(TicksOf(feed))
    requires Cumulative(entries, token) != []
    ensures var vs := Cumulative(entries, token);
            var key := TokenKey(symbols, token);
            var ticks := Accepted(feed);
            var refused := VolumeOf(Own(Refused(feed), key));
            var volume := CandleVolume(CandlesFor(Emitted(ticks, interval), key)
                                       + Listed(FlushedFor(OpenBars(ticks, interval), key, interval)));
            && volume == Last(vs) - vs[0] + TotalFall(vs) - refused
            && (NonDecreasing(vs) ==> (volume == Last(vs) - vs[0] <==> refused == 0))
  {
    hide Emitted, OpenBars, Own, VolumeOf, CandlesFor, CandleVolume, Accepted, Refused, TicksOf, OnlyToken,
        PlainExchanges;
    DeltasTelescope(symbols, entries, token);
    AcceptedOrRefused(feed, TokenKey(symbols, token));
    VolumeConserved(Accepted(feed), TokenKey(symbols, token), interval);
    NoFallIffNonDecreasing(Cumulative(entries, token));
  }
}
