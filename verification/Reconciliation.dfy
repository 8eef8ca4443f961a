/** Per-symbol entry blocks kept over an unbounded run of reconciliation cycles, with a Redis that may fail. */
module Reconciliation {
  import opened Common
  import opened Ticks
  import opened Differ

  // ---- The block set as a value ----

  /** Redis flags (absent without a client) and the in-process fallback set. */
  datatype Blocks = Blocks(redis: Option<set<string>>, memory: set<string>)

  function InRedis(b: Blocks): set<string> {
    if b.redis.Some? then b.redis.value else {}
  }

  /** Everything recorded as blocked, in either store. */
  function Recorded(b: Blocks): set<string> {
    b.memory + InRedis(b)
  }

  /** What a check sees; a failed Redis read counts as "not blocked". */
  predicate Sees(b: Blocks, key: string, getOk: bool) {
    key in b.memory || (getOk && key in InRedis(b))
  }

  function Blocked(b: Blocks, key: string, setOk: bool): Blocks {
    if b.redis.Some? && setOk then b.(redis := Some(b.redis.value + {key})) else b.(memory := b.memory + {key})
  }

  function Cleared(b: Blocks, key: string, deleteOk: bool): Blocks {
    Blocks(if b.redis.Some? && deleteOk then Some(b.redis.value - {key}) else b.redis, b.memory - {key})
  }

  // ---- One cycle as a value ----

  /** Which Redis calls of one cycle succeed: reads and writes per mismatch, deletions per stale key. */
  datatype Calls = Calls(getOk: nat -> bool, setOk: nat -> bool, deleteOk: string -> bool)

  datatype State = State(blocks: Blocks, last: set<string>)

  /** One cycle's input: the keys of its mismatches, in report order, and the Redis outcomes. */
  datatype Round = Round(keys: seq<string>, calls: Calls)

  function BlockAll(b: Blocks, keys: seq<string>, calls: Calls): Blocks {
    if keys == [] then b
    else
      var before, n := BlockAll(b, Front(keys), calls), |keys| - 1;
      if Sees(before, Last(keys), calls.getOk(n)) then before
      else Blocked(before, Last(keys), calls.setOk(n))
  }

  /** The keys reported as newly blocked. */
  function NewlyBlocked(b: Blocks, keys: seq<string>, calls: Calls): seq<string> {
    if keys == [] then []
    else
      var before, n := BlockAll(b, Front(keys), calls), |keys| - 1;
      NewlyBlocked(b, Front(keys), calls) + (if Sees(before, Last(keys), calls.getOk(n)) then [] else [Last(keys)])
  }

  function ClearAll(b: Blocks, stale: set<string>, calls: Calls): Blocks {
    Blocks(if b.redis.Some? then Some(set k | k in b.redis.value && !(k in stale && calls.deleteOk(k))) else None,
           b.memory - stale)
  }

  function Stale(s: State, r: Round): set<string> {
    s.last - Elements(r.keys)
  }

  function Cycle(s: State, r: Round): State {
    State(ClearAll(BlockAll(s.blocks, r.keys, r.calls), Stale(s, r), r.calls), Elements(r.keys))
  }

  function Run(s: State, rounds: seq<Round>): State {
    if rounds == [] then s else Cycle(Run(s, Front(rounds)), Last(rounds))
  }

  /** No block is recorded and no cycle has run; with or without a Redis client. */
  predicate Fresh(s: State) {
    s.last == {} && Recorded(s.blocks) == {}
  }

  // ---- The stateful parts ----

  /** Redis flags; a call that fails changes nothing. */
  class RedisFlags {
    var keys: set<string>

    constructor ()
      ensures keys == {}
    {
      keys := {};
    }

    method Set(key: string, ok: bool) returns (raised: bool)
      modifies this
      ensures raised == !ok
      ensures keys == if ok then old(keys) + {key} else old(keys)
    {
      if ok {
        keys := keys + {key};
      }
      raised := !ok;
    }

    method Delete(key: string, ok: bool) returns (raised: bool)
      modifies this
      ensures raised == !ok
      ensures keys == if ok then old(keys) - {key} else old(keys)
    {
      if ok {
        keys := keys - {key};
      }
      raised := !ok;
    }

    method Get(key: string, ok: bool) returns (found: Option<bool>)
      ensures found == if ok then Some(key in keys) else None
    {
      if ok {
        found := Some(key in keys);
      } else {
        found := None;
      }
    }
  }

  class BlockRegistry {
    const redis: RedisFlags?
    var memory: set<string>

    ghost function Value(): Blocks
      reads this, redis
    {
      Blocks(if redis == null then None else Some(redis.keys), memory)
    }

    constructor (redis: RedisFlags?)
      ensures this.redis == redis && memory == {}
    {
      this.redis := redis;
      memory := {};
    }

    method Block(symbol: string, exchange: string, setOk: bool)
      modifies this, redis
      ensures Value() == Blocked(old(Value()), Key(exchange, symbol), setOk)
      ensures if redis != null && setOk then
                redis.keys == old(redis.keys) + {Key(exchange, symbol)} && memory == old(memory)
              else
                && memory == old(memory) + {Key(exchange, symbol)}
                && (redis != null ==> redis.keys == old(redis.keys))
    {
      var key := Key(exchange, symbol);
      if redis != null {
        var raised := redis.Set(key, setOk);
        if !raised {
          return;
        }
      }
      memory := memory + {key};
    }

    method Clear(symbol: string, exchange: string, deleteOk: bool)
      modifies this, redis
      ensures Value() == Cleared(old(Value()), Key(exchange, symbol), deleteOk)
      ensures memory == old(memory) - {Key(exchange, symbol)}
      ensures redis != null ==>
                redis.keys == if deleteOk then old(redis.keys) - {Key(exchange, symbol)} else old(redis.keys)
    {
      var key := Key(exchange, symbol);
      if redis != null {
        var _ := redis.Delete(key, deleteOk);
      }
      memory := memory - {key};
    }

    method IsBlocked(symbol: string, exchange: string, getOk: bool) returns (blocked: bool)
      ensures blocked == Sees(Value(), Key(exchange, symbol), getOk)
      ensures blocked <==> Key(exchange, symbol) in memory
                           || (redis != null && getOk && Key(exchange, symbol) in redis.keys)
    {
      var key := Key(exchange, symbol);
      if key in memory {
        return true;
      }
      if redis != null {
        var found := redis.Get(key, getOk);
        if found.Some? {
          return found.value;
        }
      }
      blocked := false;
    }
  }

  datatype CycleResult = CycleResult(mismatches: seq<Mismatch>, symbolsBlocked: seq<string>,
      symbolsCleared: seq<string>)

  function KeysOf(ms: seq<Mismatch>): (keys: seq<string>)
    ensures |keys| == |ms| && forall i :: 0 <= i < |ms| ==> keys[i] == MismatchKey(ms[i])
  {
    if ms == [] then [] else KeysOf(Front(ms)) + [MismatchKey(Last(ms))]
  }

  lemma HasColon(m: Mismatch)
    ensures ':' in MismatchKey(m)
  {
    assert MismatchKey(m)[|m.exchange|] == ':';
  }

  lemma BlockNone(b: Blocks, calls: Calls)
    ensures BlockAll(b, [], calls) == b && NewlyBlocked(b, [], calls) == []
  {
  }

  /** One more mismatch. */
  lemma BlockNext(b: Blocks, keys: seq<string>, n: nat, calls: Calls)
    requires n < |keys|
    ensures Elements(keys[..n + 1]) == Elements(keys[..n]) + {keys[n]}
    ensures var before, newly := BlockAll(b, keys[..n], calls), NewlyBlocked(b, keys[..n], calls);
            if Sees(before, keys[n], calls.getOk(n))
            then BlockAll(b, keys[..n + 1], calls) == before && NewlyBlocked(b, keys[..n + 1], calls) == newly
            else BlockAll(b, keys[..n + 1], calls) == Blocked(before, keys[n], calls.setOk(n))
                 && NewlyBlocked(b, keys[..n + 1], calls) == newly + [keys[n]]
  {
    hide Sees, Blocked;
    assert keys[..n + 1] == keys[..n] + [keys[n]];
    AppendFrontLast(keys[..n], keys[n]);
    AppendElements(keys[..n], keys[n]);
  }

  class ReconciliationAgent {
    const blocks: BlockRegistry
    var lastMismatchKeys: set<string>

    /** Every remembered key was built from an exchange and a symbol. */
    ghost predicate Valid()
      reads this
    {
      forall k :: k in lastMismatchKeys ==> ':' in k
    }

    ghost function Value(): State
      reads this, blocks, blocks.redis
    {
      State(blocks.Value(), lastMismatchKeys)
    }

    constructor (blocks: BlockRegistry)
      ensures Valid() && this.blocks == blocks && lastMismatchKeys == {}
    {
      this.blocks := blocks;
      lastMismatchKeys := {};
    }

    method BlockMismatches(ms: seq<Mismatch>, calls: Calls) returns (current: set<string>, symbolsBlocked: seq<string>)
      modifies blocks, blocks.redis
      ensures blocks.Value() == BlockAll(old(blocks.Value()), KeysOf(ms), calls)
      ensures current == Elements(KeysOf(ms)) && (forall k :: k in current ==> ':' in k)
      ensures symbolsBlocked == NewlyBlocked(old(blocks.Value()), KeysOf(ms), calls)
    {
      ghost var start, keys := blocks.Value(), KeysOf(ms);
      current, symbolsBlocked := {}, [];
      hide BlockAll, NewlyBlocked, Sees, Blocked;
      BlockNone(start, calls);
      for n := 0 to |ms|
        invariant blocks.Value() == BlockAll(start, keys[..n], calls)
        invariant symbolsBlocked == NewlyBlocked(start, keys[..n], calls)
        invariant current == Elements(keys[..n]) && (forall k :: k in current ==> ':' in k)
      {
        var key := MismatchKey(ms[n]);
        HasColon(ms[n]);
        BlockNext(start, keys, n, calls);
        var seen := blocks.IsBlocked(ms[n].symbol, ms[n].exchange, calls.getOk(n));
        if !seen {
          blocks.Block(ms[n].symbol, ms[n].exchange, calls.setOk(n));
          symbolsBlocked := symbolsBlocked + [key];
        }
        current := current + {key};
      }
      assert keys[..|ms|] == keys;
    }

    /** The stale keys are visited in an arbitrary order. */
    method ClearStale(stale: set<string>, calls: Calls) returns (symbolsCleared: seq<string>)
      requires forall k :: k in stale ==> ':' in k
      modifies blocks, blocks.redis
      ensures blocks.Value() == ClearAll(old(blocks.Value()), stale, calls)
      ensures NoDuplicates(symbolsCleared) && Elements(symbolsCleared) == stale
    {
      symbolsCleared := [];
      var rest := stale;
      ClearNone(blocks.Value(), calls);
      assert stale - rest == {};
      while rest != {}
        invariant rest <= stale
        invariant blocks.Value() == ClearAll(old(blocks.Value()), stale - rest, calls)
        invariant NoDuplicates(symbolsCleared) && Elements(symbolsCleared) == stale - rest
        decreases |rest|
      {
        var key :| key in rest;
        SplitRejoins(key);
        var (exchange, symbol) := SplitKey(key);
        ClearOneMore(old(blocks.Value()), stale - rest, key, calls);
        assert stale - (rest - {key}) == (stale - rest) + {key};
        assert forall i :: 0 <= i < |symbolsCleared| ==> symbolsCleared[i] in Elements(symbolsCleared);
        blocks.Clear(symbol, exchange, calls.deleteOk(key));
        rest := rest - {key};
        symbolsCleared := symbolsCleared + [key];
      }
      assert stale - {} == stale;
    }

    method RunCycle(brokerPositions: seq<BrokerPosition>, internalPositions: seq<InternalPosition>,
                    brokerOrders: seq<BrokerOrder>, internalOrders: seq<InternalOrder>, nowMs: int, calls: Calls)
      returns (result: CycleResult)
      requires Valid()
      modifies this, blocks, blocks.redis
      ensures Valid()
      ensures result.mismatches ==
              PositionReport(brokerPositions, internalPositions, nowMs)
                  + OrderReport(brokerOrders, internalOrders, nowMs)
      ensures var round := Round(KeysOf(result.mismatches), calls);
              && Value() == Cycle(old(Value()), round)
              && result.symbolsBlocked == NewlyBlocked(old(Value()).blocks, round.keys, calls)
              && NoDuplicates(result.symbolsCleared)
              && Elements(result.symbolsCleared) == old(lastMismatchKeys) - Elements(round.keys)
    {
      var positionMismatches := DiffPositions(brokerPositions, internalPositions, nowMs);
      var orderMismatches := DiffOrders(brokerOrders, internalOrders, nowMs);
      var mismatches := positionMismatches + orderMismatches;
      var current, symbolsBlocked := BlockMismatches(mismatches, calls);
      var symbolsCleared := ClearStale(lastMismatchKeys - current, calls);
      lastMismatchKeys := current;
      result := CycleResult(mismatches, symbolsBlocked, symbolsCleared);
    }
  }

  lemma ClearNone(b: Blocks, calls: Calls)
    ensures ClearAll(b, {}, calls) == b
  {
    assert b.memory - {} == b.memory;
    if b.redis.Some? {
      assert ClearAll(b, {}, calls).redis.value == b.redis.value;
    }
  }

  lemma ClearOneMore(b: Blocks, done: set<string>, key: string, calls: Calls)
    ensures ClearAll(b, done + {key}, calls) == Cleared(ClearAll(b, done, calls), key, calls.deleteOk(key))
  {
    var l, r := ClearAll(b, done + {key}, calls), Cleared(ClearAll(b, done, calls), key, calls.deleteOk(key));
    assert l.memory == r.memory;
    if b.redis.Some? {
      assert l.redis.value == r.redis.value;
    }
  }

  // ---- What one cycle does to the recorded blocks ----

  /** Blocking records exactly the mismatched keys on top of what was there; Redis only gains such keys. */
  lemma {:induction false} BlockAllRecords(b: Blocks, keys: seq<string>, calls: Calls)
    ensures Recorded(BlockAll(b, keys, calls)) == Recorded(b) + Elements(keys)
    ensures InRedis(b) <= InRedis(BlockAll(b, keys, calls)) <= InRedis(b) + Elements(keys)
    ensures b.memory <= BlockAll(b, keys, calls).memory
    ensures BlockAll(b, keys, calls).redis.Some? <==> b.redis.Some?
  {
    if keys != [] {
      BlockAllRecords(b, Front(keys), calls);
      FrontLast(keys);
      assert Elements(keys) == Elements(Front(keys)) + {Last(keys)};
    }
  }

  /** The blocks a cycle fails to lift: stale, flagged in Redis, and the deletion failed. */
  function Unlifted(s: State, r: Round): set<string> {
    set k | k in InRedis(s.blocks) && k in Stale(s, r) && !r.calls.deleteOk(k)
  }

  /**
   * After a cycle, from any state and under any Redis failures, the recorded blocks are the current
   * mismatches, the earlier blocks that were not stale, and the stale ones whose Redis deletion failed.
   */
  lemma {:induction false} CycleRecords(s: State, r: Round)
    ensures Recorded(Cycle(s, r).blocks) == Elements(r.keys) + (Recorded(s.blocks) - Stale(s, r)) + Unlifted(s, r)
  {
    BlockAllRecords(s.blocks, r.keys, r.calls);
    var mid, after := BlockAll(s.blocks, r.keys, r.calls), Cycle(s, r).blocks;
    assert InRedis(after) == set k | k in InRedis(mid) && !(k in Stale(s, r) && r.calls.deleteOk(k));
    forall k
      ensures k in Recorded(after) <==> k in Elements(r.keys) + (Recorded(s.blocks) - Stale(s, r)) + Unlifted(s, r)
    {
      assert k in Recorded(mid) <==> k in mid.memory || k in InRedis(mid);
    }
  }

  /** Each currently mismatched symbol is recorded as blocked, whatever failed before or during the run. */
  lemma {:induction false} MismatchedIsRecorded(s: State, rounds: seq<Round>)
    requires rounds != []
    ensures Elements(Last(rounds).keys) <= Recorded(Run(s, rounds).blocks)
    ensures Run(s, rounds).last == Elements(Last(rounds).keys)
  {
    CycleRecords(Run(s, Front(rounds)), Last(rounds));
  }

  // ---- Which blocks survive a run ----

  /** The last time this key stopped being mismatched, its Redis flag could not be deleted. */
  ghost predicate Stuck(s: State, rounds: seq<Round>, key: string) {
    rounds != []
    && key !in Last(rounds).keys
    && var before := Run(s, Front(rounds));
       if key in before.last then key in InRedis(before.blocks) && !Last(rounds).calls.deleteOk(key)
       else Stuck(s, Front(rounds), key)
  }

  /** From a fresh start, a key is recorded exactly when it is mismatched now or stuck. */
  lemma {:induction false} RecordedIffMismatchedOrStuck(s: State, rounds: seq<Round>, key: string)
    requires Fresh(s)
    ensures key in Recorded(Run(s, rounds).blocks) <==> key in Run(s, rounds).last || Stuck(s, rounds, key)
  {
    if rounds != [] {
      RecordedIffMismatchedOrStuck(s, Front(rounds), key);
      CycleRecords(Run(s, Front(rounds)), Last(rounds));
    }
  }

  /** Once stuck, a block outlives every later cycle that does not mismatch its key: no deletion is retried. */
  lemma {:induction false} StuckStays(s: State, rounds: seq<Round>, later: seq<Round>, key: string)
    requires Stuck(s, rounds, key)
    requires forall r :: r in later ==> key !in r.keys
    ensures Stuck(s, rounds + later, key)
    ensures key !in Run(s, rounds + later).last
  {
    if later == [] {
      assert rounds + later == rounds;
    } else {
      StuckStays(s, rounds, Front(later), key);
      FrontLast(later);
      assert rounds + later == (rounds + Front(later)) + [Last(later)];
      AppendFrontLast(rounds + Front(later), Last(later));
    }
  }

  /** Every deletion attempted during the run succeeds. */
  predicate DeletesSucceed(rounds: seq<Round>) {
    forall n :: 1 <= n < |rounds| ==>
      forall k :: k in rounds[n - 1].keys && k !in rounds[n].keys ==> rounds[n].calls.deleteOk(k)
  }

  lemma {:induction false} NothingStuck(s: State, rounds: seq<Round>, key: string)
    requires Fresh(s)
    requires s.blocks.redis.None? || DeletesSucceed(rounds)
    ensures !Stuck(s, rounds, key)
    ensures Run(s, rounds).blocks.redis.Some? <==> s.blocks.redis.Some?
  {
    if rounds != [] {
      var n := |rounds| - 1;
      NothingStuck(s, Front(rounds), key);
      var before := Run(s, Front(rounds));
      BlockAllRecords(before.blocks, Last(rounds).keys, Last(rounds).calls);
      if n > 0 && key in before.last {
        assert before.last == Elements(rounds[n - 1].keys);
      }
    }
  }

  /**
   * Without Redis, or when every deletion the run attempts succeeds, the blocked set after each cycle is
   * exactly the set of currently mismatched keys, however reads and writes fail.
   */
  lemma {:induction false} BlockedIsMismatched(s: State, rounds: seq<Round>)
    requires Fresh(s)
    requires s.blocks.redis.None? || DeletesSucceed(rounds)
    ensures Recorded(Run(s, rounds).blocks) == Run(s, rounds).last
  {
    forall key
      ensures key in Recorded(Run(s, rounds).blocks) <==> key in Run(s, rounds).last
    {
      RecordedIffMismatchedOrStuck(s, rounds, key);
      NothingStuck(s, rounds, key);
    }
  }

  /** A failed deletion leaves a block on a symbol that reconciles, and the next cycles leave it there. */
  lemma {:induction false} FailedDeleteLeavesBlock()
    ensures exists s: State, rounds: seq<Round> ::
      Fresh(s) && Run(s, rounds).last == {} && "NSE:INFY" in Recorded(Run(s, rounds).blocks)
  {
    var works := Calls(n => true, n => true, k => true);
    var failed := works.(deleteOk := k => false);
    var s := State(Blocks(Some({}), {}), {});
    var r1, r2, r3 := Round(["NSE:INFY"], works), Round([], failed), Round([], works);
    var s1 := Cycle(s, r1);
    assert Run(s, [r1]) == s1 by {
      assert Front([r1]) == [];
    }
    assert s1.last == {"NSE:INFY"} && s1.blocks == Blocks(Some({"NSE:INFY"}), {}) by {
      assert Front(["NSE:INFY"]) == [];
      assert Stale(s, r1) == {};
      assert BlockAll(s.blocks, [], works) == s.blocks;
      assert !Sees(s.blocks, "NSE:INFY", true);
      assert {} + {"NSE:INFY"} == {"NSE:INFY"};
      assert BlockAll(s.blocks, r1.keys, works) == Blocks(Some({"NSE:INFY"}), {});
      ClearNone(Blocks(Some({"NSE:INFY"}), {}), works);
    }
    assert Run(s, [r1, r2]) == Cycle(s1, r2) by {
      assert Front([r1, r2]) == [r1];
    }
    assert Stuck(s, [r1, r2], "NSE:INFY") by {
      assert Front([r1, r2]) == [r1];
    }
    StuckStays(s, [r1, r2], [r3], "NSE:INFY");
    var rounds := [r1, r2, r3];
    assert [r1, r2] + [r3] == rounds;
    RecordedIffMismatchedOrStuck(s, rounds, "NSE:INFY");
    assert Run(s, rounds).last == {};
  }

  // ---- What a cycle reports ----

  lemma AppendElements(s: seq<string>, x: string)
    ensures Elements(s + [x]) == Elements(s) + {x}
  {
  }

  lemma NewlyBlockedStep(b: Blocks, keys: seq<string>, calls: Calls)
    requires keys != []
    ensures var front, last := Front(keys), Last(keys);
            var seen := Sees(BlockAll(b, front, calls), last, calls.getOk(|front|));
            var newly := Elements(NewlyBlocked(b, front, calls));
            Elements(NewlyBlocked(b, keys, calls)) == if seen then newly else newly + {last}
  {
    AppendElements(NewlyBlocked(b, Front(keys), calls), Last(keys));
    assert NewlyBlocked(b, Front(keys), calls) + [] == NewlyBlocked(b, Front(keys), calls);
  }

  /** Every key that was not recorded before is reported as newly blocked, and only mismatched keys are. */
  lemma {:induction false} ReportsNewBlocks(b: Blocks, keys: seq<string>, calls: Calls)
    ensures Elements(keys) - Recorded(b) <= Elements(NewlyBlocked(b, keys, calls)) <= Elements(keys)
  {
    if keys != [] {
      var front, last := Front(keys), Last(keys);
      ReportsNewBlocks(b, front, calls);
      BlockAllRecords(b, front, calls);
      FrontLast(keys);
      AppendElements(front, last);
      NewlyBlockedStep(b, keys, calls);
      assert Sees(BlockAll(b, front, calls), last, calls.getOk(|front|)) ==> last in Recorded(b) + Elements(front);
    }
  }

  /** When no read fails, the reported keys are exactly the set difference, each once. */
  lemma {:induction false} ReportsExactlyNewBlocks(b: Blocks, keys: seq<string>, calls: Calls)
    requires b.redis.None? || forall n: nat :: n < |keys| ==> calls.getOk(n)
    ensures Elements(NewlyBlocked(b, keys, calls)) == Elements(keys) - Recorded(b)
    ensures NoDuplicates(NewlyBlocked(b, keys, calls))
  {
    if keys != [] {
      var front, last := Front(keys), Last(keys);
      ReportsExactlyNewBlocks(b, front, calls);
      BlockAllRecords(b, front, calls);
      FrontLast(keys);
      AppendElements(front, last);
      NewlyBlockedStep(b, keys, calls);
      var earlier := NewlyBlocked(b, front, calls);
      assert forall i :: 0 <= i < |earlier| ==> earlier[i] in Elements(earlier);
      assert Sees(BlockAll(b, front, calls), last, calls.getOk(|front|)) <==> last in Recorded(b) + Elements(front);
    }
  }
}
