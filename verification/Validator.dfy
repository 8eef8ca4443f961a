/** The tick sequence validator: price, volume, clock-skew and per-key order checks. */
module Validator {
  import opened Common
  import opened Ticks

  const TICK_MAX_BACKWARD_MS := 500
  const TICK_MAX_FUTURE_MS := 2000

  datatype TickError = NonPositivePrice | NegativeVolume | FutureTimestamp | OutOfSequence

  /** Why a tick is refused, if it is, given the last accepted timestamp of each key. */
  function Verdict(lastTs: map<string, int>, t: RawTick, nowMs: int): Option<TickError> {
    if t.ltp <= 0.0 then Some(NonPositivePrice)
    else if t.volume < 0 then Some(NegativeVolume)
    else if t.timestampMs > nowMs + TICK_MAX_FUTURE_MS then Some(FutureTimestamp)
    else if KeyOf(t) in lastTs && t.timestampMs < lastTs[KeyOf(t)] - TICK_MAX_BACKWARD_MS then Some(OutOfSequence)
    else None
  }

  predicate EndsWith(s: string, suffix: string) {
    |suffix| <= |s| && s[|s| - |suffix|..] == suffix
  }

  class TickSequenceValidator {
    var lastTs: map<string, int>

    constructor ()
      ensures lastTs == map[]
    {
      lastTs := map[];
    }

    /** Reports the failed rule, or accepts and moves the last-seen timestamp to this
        tick, even when the tick went backwards within tolerance. */
    method Validate(tick: RawTick, nowMs: int) returns (error: Option<TickError>)
      modifies this
      ensures error == Verdict(old(lastTs), tick, nowMs)
      ensures error == None <==>
              && tick.ltp > 0.0 && tick.volume >= 0 && tick.timestampMs <= nowMs + 2000
              && (KeyOf(tick) in old(lastTs) ==> tick.timestampMs >= old(lastTs)[KeyOf(tick)] - 500)
      ensures error == Some(NonPositivePrice) <==> tick.ltp <= 0.0
      ensures error == Some(NegativeVolume) <==> tick.ltp > 0.0 && tick.volume < 0
      ensures error == Some(FutureTimestamp) <==>
              tick.ltp > 0.0 && tick.volume >= 0 && tick.timestampMs > nowMs + 2000
      ensures lastTs == if error.Some? then old(lastTs) else old(lastTs)[KeyOf(tick) := tick.timestampMs]
    {
      var key := Key(tick.exchange, tick.symbol);
      if tick.ltp <= 0.0 {
        return Some(NonPositivePrice);
      }
      if tick.volume < 0 {
        return Some(NegativeVolume);
      }
      if tick.timestampMs > nowMs + TICK_MAX_FUTURE_MS {
        return Some(FutureTimestamp);
      }
      if key in lastTs {
        var last := lastTs[key];
        if tick.timestampMs < last - TICK_MAX_BACKWARD_MS {
          return Some(OutOfSequence);
        }
      }
      lastTs := lastTs[key := tick.timestampMs];
      return None;
    }

    /** Forgets one key, or with an empty exchange every key of the symbol. */
    method Reset(symbol: string, exchange: string)
      modifies this
      ensures exchange != "" ==> lastTs == old(lastTs) - {Key(exchange, symbol)}
      ensures exchange == "" ==>
                && (forall k :: k in lastTs <==> k in old(lastTs) && !EndsWith(k, ":" + symbol))
                && (forall k :: k in lastTs ==> lastTs[k] == old(lastTs)[k])
    {
      if exchange != "" {
        lastTs := lastTs - {Key(exchange, symbol)};
      } else {
        var keys := set k | k in lastTs && EndsWith(k, ":" + symbol);
        while keys != {}
          invariant forall k :: k in lastTs <==> k in old(lastTs) && (k in keys || !EndsWith(k, ":" + symbol))
          invariant forall k :: k in keys ==> k in old(lastTs) && EndsWith(k, ":" + symbol)
          invariant forall k :: k in lastTs ==> lastTs[k] == old(lastTs)[k]
          decreases keys
        {
          var k :| k in keys;
          lastTs := lastTs - {k};
          keys := keys - {k};
        }
      }
    }
  }

  // ---- Whole feeds ----

  /** A tick together with the wall clock at the time it is validated. */
  datatype Arrival = Arrival(tick: RawTick, nowMs: int)

  function LastSeen(feed: seq<Arrival>): map<string, int> {
    if feed == [] then map[]
    else
      var seen, a := LastSeen(Front(feed)), Last(feed);
      if Verdict(seen, a.tick, a.nowMs).None? then seen[KeyOf(a.tick) := a.tick.timestampMs] else seen
  }

  function Accepted(feed: seq<Arrival>): seq<RawTick> {
    if feed == [] then []
    else if Verdict(LastSeen(Front(feed)), Last(feed).tick, Last(feed).nowMs).None?
    then Accepted(Front(feed)) + [Last(feed).tick]
    else Accepted(Front(feed))
  }

  ghost predicate BoundedDrift(ts: seq<RawTick>) {
    forall i, j :: 0 <= i <= j < |ts| ==>
      ts[j].timestampMs >= ts[i].timestampMs - TICK_MAX_BACKWARD_MS * (j - i)
  }

  lemma DriftSnoc(ts: seq<RawTick>, t: RawTick)
    requires BoundedDrift(ts)
    requires ts != [] ==> t.timestampMs >= Last(ts).timestampMs - TICK_MAX_BACKWARD_MS
    ensures BoundedDrift(ts + [t])
  {
    forall i | 0 <= i < |ts|
      ensures t.timestampMs >= ts[i].timestampMs - TICK_MAX_BACKWARD_MS * (|ts| - i)
    {
      assert Last(ts).timestampMs >= ts[i].timestampMs - TICK_MAX_BACKWARD_MS * (|ts| - 1 - i);
    }
  }

  lemma AcceptStep(feed: seq<Arrival>, key: string)
    requires feed != []
    ensures var a := Last(feed);
            if Verdict(LastSeen(Front(feed)), a.tick, a.nowMs).None? && KeyOf(a.tick) == key
            then Own(Accepted(feed), key) == Own(Accepted(Front(feed)), key) + [a.tick]
            else Own(Accepted(feed), key) == Own(Accepted(Front(feed)), key)
  {
    AppendFrontLast(Accepted(Front(feed)), Last(feed).tick);
  }

  /** An accepted tick becomes the last seen of its key, and goes back by the tolerance at most. */
  lemma SeenStep(feed: seq<Arrival>)
    requires feed != []
    ensures var seen, a := LastSeen(Front(feed)), Last(feed);
            if Verdict(seen, a.tick, a.nowMs).None? then
              && LastSeen(feed) == seen[KeyOf(a.tick) := a.tick.timestampMs]
              && (KeyOf(a.tick) in seen ==> a.tick.timestampMs >= seen[KeyOf(a.tick)] - TICK_MAX_BACKWARD_MS)
            else LastSeen(feed) == seen
  {
  }

  /** The last-seen timestamp is that of the last accepted tick of the key, and over the
      accepted ticks of a key the clock slips back at most the tolerance per tick. */
  lemma {:induction false} DriftIsBounded(feed: seq<Arrival>, key: string)
    ensures var own := Own(Accepted(feed), key);
            && (key in LastSeen(feed) <==> own != [])
            && (own != [] ==> LastSeen(feed)[key] == Last(own).timestampMs)
            && BoundedDrift(own)
  {
    if feed != [] {
      DriftIsBounded(Front(feed), key);
      AcceptStep(feed, key);
      SeenStep(feed);
      hide Own, Accepted, LastSeen, BoundedDrift, Verdict;
      var own, a := Own(Accepted(Front(feed)), key), Last(feed);
      if Verdict(LastSeen(Front(feed)), a.tick, a.nowMs).None? && KeyOf(a.tick) == key {
        DriftSnoc(own, a.tick);
        AppendFrontLast(own, a.tick);
      }
    }
  }

  /** A feed's last tick is accepted exactly when its price is positive, its volume not negative, its time at most
      2 seconds ahead of the clock and at most 500 ms behind the last accepted tick of its key. */
  lemma {:induction false} AcceptsExactly(feed: seq<Arrival>)
    requires feed != []
    ensures var t := Last(feed).tick;
            var own := Own(Accepted(Front(feed)), KeyOf(t));
            var ok := && t.ltp > 0.0 && t.volume >= 0 && t.timestampMs <= Last(feed).nowMs + 2000
                      && (own != [] ==> t.timestampMs >= Last(own).timestampMs - 500);
            Accepted(feed) == if ok then Accepted(Front(feed)) + [t] else Accepted(Front(feed))
  {
    DriftIsBounded(Front(feed), KeyOf(Last(feed).tick));
    hide Own;
  }

  /** A feed that steps back by the whole tolerance every tick. */
  function Receding(t: RawTick, n: nat): seq<Arrival> {
    var step := Arrival(t.(timestampMs := t.timestampMs - TICK_MAX_BACKWARD_MS * n), t.timestampMs);
    if n == 0 then [step] else Receding(t, n - 1) + [step]
  }

  /** The bound is tight: per-tick tolerance does not bound the total drift, because the
      reference timestamp follows every accepted tick backwards. */
  lemma {:induction false} DriftIsUnbounded(t: RawTick, n: nat)
    requires t.ltp > 0.0 && t.volume >= 0
    ensures |Accepted(Receding(t, n))| == n + 1
    ensures Last(Accepted(Receding(t, n))).timestampMs == t.timestampMs - TICK_MAX_BACKWARD_MS * n
    ensures KeyOf(t) in LastSeen(Receding(t, n))
    ensures LastSeen(Receding(t, n))[KeyOf(t)] == t.timestampMs - TICK_MAX_BACKWARD_MS * n
  {
    var step := Arrival(t.(timestampMs := t.timestampMs - TICK_MAX_BACKWARD_MS * n), t.timestampMs);
    if n > 0 {
      DriftIsUnbounded(t, n - 1);
      AppendFrontLast(Receding(t, n - 1), step);
    } else {
      assert Front([step]) == [];
    }
  }
}
