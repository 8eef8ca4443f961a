/** The two-store tick queue: Redis first, memory when a Redis call fails. A failed
    call has no effect; which calls fail is chosen by the caller's `...Ok` flags. */
module Buffer {
  import opened Common
  import opened Ticks

  /** A queued payload: a serialized tick; text that is skipped, for it is not JSON, lacks a field or has a field that
      is no number; or JSON of another shape, such as `null` or a list, whose parsing raises past the handler that
      skips. */
  datatype Payload = Json(tick: RawTick) | Malformed(text: string) | Misshapen(text: string)

  /** What the buffer serialized itself, which always parses back. */
  type OwnPayload = p: Payload | p.Json? witness Json(RawTick("", "", 0.0, 0, 0))

  /** The ticks among the payloads. */
  function Decoded(ps: seq<Payload>): seq<RawTick> {
    if ps == [] then []
    else if Last(ps).Json? then Decoded(Front(ps)) + [Last(ps).tick]
    else Decoded(Front(ps))
  }

  lemma {:induction false} DecodedConcat(a: seq<Payload>, b: seq<Payload>)
    ensures Decoded(a + b) == Decoded(a) + Decoded(b)
  {
    if b == [] {
      assert a + b == a;
    } else {
      assert Front(a + b) == a + Front(b);
      DecodedConcat(a, Front(b));
    }
  }

  lemma {:induction false} DecodedLength(ps: seq<Payload>)
    ensures |Decoded(ps)| <= |ps|
  {
    if ps != [] {
      DecodedLength(Front(ps));
    }
  }

  /** The ticks parsed before a misshapen payload, if there is one, ends the parsing. */
  function Parsed(ps: seq<Payload>): seq<RawTick> {
    if ps == [] || ps[0].Misshapen? then []
    else (if ps[0].Json? then [ps[0].tick] else []) + Parsed(ps[1..])
  }

  lemma ParsedNone()
    ensures Parsed([]) == []
  {
  }

  lemma ParsedNext(ps: seq<Payload>, n: nat)
    requires n < |ps|
    ensures Parsed(ps[n..]) == if ps[n].Misshapen? then []
                               else (if ps[n].Json? then [ps[n].tick] else []) + Parsed(ps[n + 1..])
  {
    assert ps[n..][0] == ps[n] && ps[n..][1..] == ps[n + 1..];
  }

  /** The ticks behind the first misshapen payload. */
  function Hidden(ps: seq<Payload>): seq<RawTick> {
    if ps == [] then []
    else if ps[0].Misshapen? then Decoded(ps[1..]) else Hidden(ps[1..])
  }

  predicate HidesTick(ps: seq<Payload>) {
    exists i, j :: 0 <= i < j < |ps| && ps[i].Misshapen? && ps[j].Json?
  }

  lemma DecodedOne(p: Payload)
    ensures Decoded([p]) == if p.Json? then [p.tick] else []
  {
    assert Front([p]) == [];
  }

  lemma {:induction false} ParsedThenHidden(ps: seq<Payload>)
    ensures Decoded(ps) == Parsed(ps) + Hidden(ps)
  {
    if ps != [] {
      assert ps == [ps[0]] + ps[1..];
      DecodedConcat([ps[0]], ps[1..]);
      DecodedOne(ps[0]);
      ParsedThenHidden(ps[1..]);
    }
  }

  lemma {:induction false} NoneDecoded(ps: seq<Payload>)
    ensures Decoded(ps) == [] <==> forall i :: 0 <= i < |ps| ==> !ps[i].Json?
  {
    if ps != [] {
      NoneDecoded(Front(ps));
    }
  }

  lemma {:induction false} HiddenIff(ps: seq<Payload>)
    ensures Hidden(ps) != [] <==> HidesTick(ps)
  {
    if ps != [] {
      var rest := ps[1..];
      if ps[0].Misshapen? {
        NoneDecoded(rest);
        if j :| 0 <= j < |rest| && rest[j].Json? {
          assert ps[0].Misshapen? && ps[j + 1].Json?;
        }
        if i, j :| 0 <= i < j < |ps| && ps[i].Misshapen? && ps[j].Json? {
          assert rest[j - 1].Json?;
        }
      } else {
        HiddenIff(rest);
        if i, j :| 0 <= i < j < |ps| && ps[i].Misshapen? && ps[j].Json? {
          assert rest[i - 1].Misshapen? && rest[j - 1].Json?;
        }
        if i, j :| 0 <= i < j < |rest| && rest[i].Misshapen? && rest[j].Json? {
          assert ps[i + 1].Misshapen? && ps[j + 1].Json?;
        }
      }
    }
  }

  /** Payloads of the buffer's own making all parse. */
  lemma {:induction false} OwnParsed(ps: seq<OwnPayload>)
    ensures Parsed(ps) == Decoded(ps) && |Decoded(ps)| == |ps|
  {
    HiddenIff(ps);
    ParsedThenHidden(ps);
    OwnLength(ps);
  }

  lemma {:induction false} OwnLength(ps: seq<OwnPayload>)
    ensures |Decoded(ps)| == |ps|
  {
    if ps != [] {
      OwnLength(Front(ps));
    }
  }

  /** Where the slices `xs[:k]` and `xs[k:]` cut a list; negative `k` counts from the end. */
  function CutAt(k: int, length: nat): (r: nat)
    ensures r <= length
  {
    if k >= length then length
    else if k >= 0 then k
    else if length + k >= 0 then length + k
    else 0
  }

  /** The calls of one drain that Redis answers. */
  datatype DrainCalls = DrainCalls(llenOk: bool, lrangeOk: bool, ltrimOk: bool)

  datatype Queues = Queues(memory: seq<OwnPayload>, redis: Option<seq<Payload>>)

  function Pending(q: Queues, llenOk: bool): nat {
    |q.memory| + (if q.redis.Some? && llenOk then |q.redis.value| else 0)
  }

  function AfterPush(q: Queues, t: RawTick, rpushOk: bool): Queues {
    if q.redis.Some? && rpushOk then q.(redis := Some(q.redis.value + [Json(t)]))
    else q.(memory := q.memory + [Json(t)])
  }

  function Limit(q: Queues, n: Option<int>, calls: DrainCalls): int {
    if n.Some? then n.value else Pending(q, calls.llenOk)
  }

  /** How many payloads a drain removes from each store. */
  function FromMemory(q: Queues, n: Option<int>, calls: DrainCalls): (r: nat)
    ensures r <= |q.memory|
  {
    CutAt(if Limit(q, n, calls) < |q.memory| then Limit(q, n, calls) else |q.memory|, |q.memory|)
  }

  function FromRedis(q: Queues, n: Option<int>, calls: DrainCalls): (r: nat)
    ensures q.redis.None? ==> r == 0
    ensures q.redis.Some? ==> r <= |q.redis.value|
  {
    var wanted := Limit(q, n, calls) - |Decoded(q.memory[..FromMemory(q, n, calls)])|;
    if q.redis.None? || wanted <= 0 || !calls.lrangeOk || !calls.ltrimOk then 0
    else CutAt(wanted, |q.redis.value|)
  }

  function AfterDrain(q: Queues, n: Option<int>, calls: DrainCalls): Queues {
    Queues(q.memory[FromMemory(q, n, calls)..],
           if q.redis.None? then None else Some(q.redis.value[FromRedis(q, n, calls)..]))
  }

  function Drained(q: Queues, n: Option<int>, calls: DrainCalls): seq<RawTick> {
    Decoded(q.memory[..FromMemory(q, n, calls)])
    + (if q.redis.None? then [] else Parsed(q.redis.value[..FromRedis(q, n, calls)]))
  }

  /** The remote list. Every call may fail instead of answering. */
  class RedisQueue {
    var items: seq<Payload>

    method RPush(p: Payload, ok: bool) returns (raised: bool)
      modifies this
      ensures raised == !ok
      ensures items == if ok then old(items) + [p] else old(items)
    {
      if ok {
        items := items + [p];
      }
      raised := !ok;
    }

    /** The items at positions 0 to `end` inclusive. */
    method LRange(end: nat, ok: bool) returns (raised: bool, found: seq<Payload>)
      ensures raised == !ok
      ensures found == if ok then items[..CutAt(end + 1, |items|)] else []
    {
      found := if ok then items[..CutAt(end + 1, |items|)] else [];
      raised := !ok;
    }

    /** Keeps the items from position `start` on. */
    method LTrim(start: nat, ok: bool) returns (raised: bool)
      modifies this
      ensures raised == !ok
      ensures items == if ok then old(items)[CutAt(start, |old(items)|)..] else old(items)
    {
      if ok {
        items := items[CutAt(start, |items|)..];
      }
      raised := !ok;
    }
  }

  /** Parses payloads in order, skipping malformed ones; raises at the first misshapen one, keeping what came before. */
  method Deserialize(raws: seq<Payload>) returns (ticks: seq<RawTick>, raised: bool)
    ensures ticks == Parsed(raws)
    ensures raised <==> exists i :: 0 <= i < |raws| && raws[i].Misshapen?
  {
    ticks := [];
    ParsedNone();
    hide Parsed;
    assert raws[0..] == raws && raws[|raws|..] == [];
    for i := 0 to |raws|
      invariant forall k :: 0 <= k < i ==> !raws[k].Misshapen?
      invariant ticks + Parsed(raws[i..]) == Parsed(raws)
    {
      ParsedNext(raws, i);
      if raws[i].Misshapen? {
        return ticks, true;
      }
      if raws[i].Json? {
        ticks := ticks + [raws[i].tick];
      }
    }
    raised := false;
  }

  class TickBuffer {
    const redis: RedisQueue?
    var memory: seq<OwnPayload>

    ghost function State(): Queues
      reads this, redis
    {
      Queues(memory, if redis == null then None else Some(redis.items))
    }

    constructor (redis: RedisQueue?)
      ensures this.redis == redis
      ensures State() == Queues([], if redis == null then None else Some(redis.items))
    {
      this.redis, memory := redis, [];
    }

    method Push(tick: RawTick, rpushOk: bool)
      modifies this, redis
      ensures State() == AfterPush(old(State()), tick, rpushOk)
      ensures if redis != null && rpushOk then
                redis.items == old(redis.items) + [Json(tick)] && memory == old(memory)
              else
                memory == old(memory) + [Json(tick)] && (redis != null ==> redis.items == old(redis.items))
    {
      var payload := Json(tick);
      if redis != null {
        var raised := redis.RPush(payload, rpushOk);
        if !raised {
          return;
        }
      }
      memory := memory + [payload];
    }

    method PendingCount(llenOk: bool) returns (count: nat)
      ensures count == Pending(State(), llenOk)
      ensures count == |memory| + (if redis != null && llenOk then |redis.items| else 0)
    {
      count := |memory|;
      if redis != null && llenOk {
        count := count + |redis.items|;
      }
    }

    method Drain(n: Option<int>, calls: DrainCalls) returns (ticks: seq<RawTick>)
      modifies this, redis
      ensures State() == AfterDrain(old(State()), n, calls)
      ensures ticks == Drained(old(State()), n, calls)
    {
      ghost var q := State();
      ParsedNone();
      hide Decoded, Parsed;
      var limit;
      if n.Some? {
        limit := n.value;
      } else {
        limit := PendingCount(calls.llenOk);
      }
      var memoryTake := if limit < |memory| then limit else |memory|;
      var rawMemory := memory[..CutAt(memoryTake, |memory|)];
      memory := memory[CutAt(memoryTake, |memory|)..];
      var raised;
      ticks, raised := Deserialize(rawMemory);
      OwnParsed(rawMemory);
      var remaining := limit - |ticks|;
      if remaining > 0 && redis != null {
        var rawRedis;
        raised, rawRedis := redis.LRange(remaining - 1, calls.lrangeOk);
        if !raised && rawRedis != [] {
          raised := redis.LTrim(|rawRedis|, calls.ltrimOk);
        }
        if !raised {
          var more;
          more, raised := Deserialize(rawRedis);
          ticks := ticks + more;
        }
      }
      if redis != null {
        assert q.redis.value[0..] == q.redis.value;
      }
    }
  }

  // ---- Any run of pushes and drains, with any calls failing ----

  datatype Op = Push(tick: RawTick, rpushOk: bool) | Drain(n: Option<int>, calls: DrainCalls)

  /** Everything queued per store, what was returned from memory, the batches taken from Redis, and the queues now. */
  datatype Ledger = Ledger(q: Queues, pushed: seq<RawTick>, drained: seq<RawTick>,
    intoMemory: seq<RawTick>, intoRedis: seq<Payload>, outOfMemory: seq<RawTick>, batches: seq<seq<Payload>>)

  function Start(redis: Option<seq<Payload>>): Ledger {
    Ledger(Queues([], redis), [], [], [], [], [], [])
  }

  function RedisPart(q: Queues): seq<Payload> {
    if q.redis.None? then [] else q.redis.value
  }

  function Apply(l: Ledger, op: Op): Ledger {
    match op
    case Push(t, ok) =>
      var next := l.(q := AfterPush(l.q, t, ok), pushed := l.pushed + [t]);
      if l.q.redis.Some? && ok then next.(intoRedis := l.intoRedis + [Json(t)])
      else next.(intoMemory := l.intoMemory + [t])
    case Drain(n, calls) =>
      l.(q := AfterDrain(l.q, n, calls), drained := l.drained + Drained(l.q, n, calls),
         outOfMemory := l.outOfMemory + Decoded(l.q.memory[..FromMemory(l.q, n, calls)]),
         batches := l.batches + [RedisPart(l.q)[..FromRedis(l.q, n, calls)]])
  }

  function RunOps(redis: Option<seq<Payload>>, ops: seq<Op>): Ledger {
    if ops == [] then Start(redis) else Apply(RunOps(redis, Front(ops)), Last(ops))
  }

  /** What the remote list held at the start. */
  function Initial(redis: Option<seq<Payload>>): seq<Payload> {
    RedisPart(Queues([], redis))
  }

  function Flat(batches: seq<seq<Payload>>): seq<Payload> {
    if batches == [] then [] else Flat(Front(batches)) + Last(batches)
  }

  /** What the drains returned of the batches, and what they dropped. */
  function Returned(batches: seq<seq<Payload>>): seq<RawTick> {
    if batches == [] then [] else Returned(Front(batches)) + Parsed(Last(batches))
  }

  function Dropped(batches: seq<seq<Payload>>): seq<RawTick> {
    if batches == [] then [] else Dropped(Front(batches)) + Hidden(Last(batches))
  }

  ghost predicate Balanced(start: seq<Payload>, l: Ledger) {
    && l.intoMemory == l.outOfMemory + Decoded(l.q.memory)
    && start + l.intoRedis == Flat(l.batches) + RedisPart(l.q)
    && multiset(l.pushed) == multiset(l.intoMemory) + multiset(Decoded(l.intoRedis))
    && multiset(l.drained) == multiset(l.outOfMemory) + multiset(Returned(l.batches))
  }

  lemma QueuePut<T>(start: seq<T>, put: seq<T>, taken: seq<T>, left: seq<T>, x: T)
    requires start + put == taken + left
    ensures start + (put + [x]) == taken + (left + [x])
  {
    assert start + (put + [x]) == (start + put) + [x];
    assert taken + (left + [x]) == (taken + left) + [x];
  }

  lemma QueueTake<T>(start: seq<T>, put: seq<T>, taken: seq<T>, got: seq<T>, left: seq<T>)
    requires start + put == taken + (got + left)
    ensures start + put == (taken + got) + left
  {
    assert taken + (got + left) == (taken + got) + left;
  }

  lemma PushBalanced(start: seq<Payload>, l: Ledger, t: RawTick, ok: bool)
    requires Balanced(start, l)
    ensures Balanced(start, Apply(l, Push(t, ok)))
  {
    DecodedSnoc(l.intoRedis, t);
    DecodedSnoc(l.q.memory, t);
    hide Decoded, Flat, Returned;
    if l.q.redis.Some? && ok {
      QueuePut(start, l.intoRedis, Flat(l.batches), RedisPart(l.q), Json(t));
    } else {
      QueuePut([], l.intoMemory, l.outOfMemory, Decoded(l.q.memory), t);
    }
  }

  lemma BatchAdded(batches: seq<seq<Payload>>, batch: seq<Payload>)
    ensures Flat(batches + [batch]) == Flat(batches) + batch
    ensures Returned(batches + [batch]) == Returned(batches) + Parsed(batch)
    ensures Dropped(batches + [batch]) == Dropped(batches) + Hidden(batch)
  {
    AppendFrontLast(batches, batch);
  }

  lemma DrainApplied(l: Ledger, n: Option<int>, calls: DrainCalls)
    ensures var j, k, left := FromMemory(l.q, n, calls), FromRedis(l.q, n, calls), RedisPart(l.q);
            var m := Apply(l, Drain(n, calls));
            && k <= |left| && m.q.memory == l.q.memory[j..] && RedisPart(m.q) == left[k..]
            && m.pushed == l.pushed && m.intoMemory == l.intoMemory && m.intoRedis == l.intoRedis
            && m.outOfMemory == l.outOfMemory + Decoded(l.q.memory[..j])
            && m.batches == l.batches + [left[..k]]
            && m.drained == l.drained + (Decoded(l.q.memory[..j]) + Parsed(left[..k]))
  {
    assert Parsed([]) == [];
    hide Decoded, Parsed, FromMemory, FromRedis;
  }

  lemma DrainBalanced(start: seq<Payload>, l: Ledger, n: Option<int>, calls: DrainCalls)
    requires Balanced(start, l)
    ensures Balanced(start, Apply(l, Drain(n, calls)))
  {
    hide Decoded, Parsed, Flat, Returned, FromMemory, FromRedis, Apply, RedisPart;
    var j, k := FromMemory(l.q, n, calls), FromRedis(l.q, n, calls);
    var left := RedisPart(l.q);
    DrainApplied(l, n, calls);
    SplitDecoded(l.q.memory, j);
    BatchAdded(l.batches, left[..k]);
    assert left == left[..k] + left[k..];
    QueueTake([], l.intoMemory, l.outOfMemory, Decoded(l.q.memory[..j]), Decoded(l.q.memory[j..]));
    QueueTake(start, l.intoRedis, Flat(l.batches), left[..k], left[k..]);
    MultisetAppend(l.drained, l.outOfMemory, Returned(l.batches), Decoded(l.q.memory[..j]), Parsed(left[..k]));
  }

  lemma MultisetAppend<T>(all: seq<T>, a: seq<T>, b: seq<T>, x: seq<T>, y: seq<T>)
    requires multiset(all) == multiset(a) + multiset(b)
    ensures multiset(all + (x + y)) == multiset(a + x) + multiset(b + y)
  {
  }

  lemma DecodedSnoc(ps: seq<Payload>, t: RawTick)
    ensures Decoded(ps + [Json(t)]) == Decoded(ps) + [t]
  {
    AppendFrontLast(ps, Json(t));
  }

  lemma SplitDecoded(ps: seq<Payload>, k: nat)
    requires k <= |ps|
    ensures Decoded(ps) == Decoded(ps[..k]) + Decoded(ps[k..])
  {
    DecodedConcat(ps[..k], ps[k..]);
    assert ps[..k] + ps[k..] == ps;
  }

  lemma {:induction false} RunBalanced(redis: Option<seq<Payload>>, ops: seq<Op>)
    ensures Balanced(Initial(redis), RunOps(redis, ops))
  {
    if ops != [] {
      RunBalanced(redis, Front(ops));
      var before := RunOps(redis, Front(ops));
      match Last(ops)
      case Push(t, ok) => PushBalanced(Initial(redis), before, t, ok);
      case Drain(n, calls) => DrainBalanced(Initial(redis), before, n, calls);
    }
  }

  /** The ticks of the batches are those returned and those dropped. */
  lemma {:induction false} BatchesAddUp(batches: seq<seq<Payload>>)
    ensures multiset(Decoded(Flat(batches))) == multiset(Returned(batches)) + multiset(Dropped(batches))
  {
    if batches != [] {
      var front, last := Front(batches), Last(batches);
      BatchesAddUp(front);
      DecodedConcat(Flat(front), last);
      ParsedThenHidden(last);
      hide Decoded, Parsed, Hidden, Flat;
      assert multiset(Decoded(last)) == multiset(Parsed(last)) + multiset(Hidden(last));
    }
  }

  lemma {:induction false} DroppedIff(batches: seq<seq<Payload>>)
    ensures Dropped(batches) == [] <==> forall b :: b in batches ==> !HidesTick(b)
  {
    if batches != [] {
      DroppedIff(Front(batches));
      HiddenIff(Last(batches));
      FrontLast(batches);
    }
  }

  lemma AddUp<T>(start: multiset<T>, intoA: multiset<T>, outA: multiset<T>, lost: multiset<T>, a: multiset<T>,
                 intoB: multiset<T>, outB: multiset<T>, b: multiset<T>)
    requires start + intoA == (outA + lost) + a && intoB == outB + b
    ensures start + (intoB + intoA) == ((outB + outA) + b + a) + lost
  {
    assert start + (intoB + intoA) == (start + intoA) + intoB;
  }

  /** Every tick is accounted for. */
  lemma BalanceAddsUp(start: seq<Payload>, l: Ledger)
    requires Balanced(start, l)
    ensures multiset(Decoded(start)) + multiset(l.pushed)
         == (multiset(l.drained) + multiset(Decoded(l.q.memory)) + multiset(Decoded(RedisPart(l.q))))
            + multiset(Dropped(l.batches))
  {
    DecodedConcat(start, l.intoRedis);
    DecodedConcat(Flat(l.batches), RedisPart(l.q));
    BatchesAddUp(l.batches);
    hide Decoded, Flat, Returned, Dropped;
    assert multiset(Decoded(start)) + multiset(Decoded(l.intoRedis)) == multiset(Decoded(start + l.intoRedis));
    assert multiset(Decoded(Flat(l.batches))) + multiset(Decoded(RedisPart(l.q)))
        == multiset(Decoded(Flat(l.batches) + RedisPart(l.q)));
    AddUp(multiset(Decoded(start)), multiset(Decoded(l.intoRedis)), multiset(Returned(l.batches)),
          multiset(Dropped(l.batches)), multiset(Decoded(RedisPart(l.q))),
          multiset(l.intoMemory), multiset(l.outOfMemory), multiset(Decoded(l.q.memory)));
  }

  /** Drained plus queued ticks are a permutation of the pushed ones and of what the remote list held at the start. */
  ghost predicate NoTickLost(redis: Option<seq<Payload>>, l: Ledger) {
    multiset(Decoded(Initial(redis))) + multiset(l.pushed)
      == multiset(l.drained) + multiset(Decoded(l.q.memory)) + multiset(Decoded(RedisPart(l.q)))
  }

  lemma EqualUpTo<T>(all: multiset<T>, kept: multiset<T>, lost: seq<T>)
    requires all == kept + multiset(lost)
    ensures all == kept <==> lost == []
  {
    if all == kept {
      assert |all| == |kept| + |multiset(lost)|;
    }
  }

  /** Whichever Redis calls fail: each store gives up its payloads in the order it received them, the rest still being
      queued there; the ticks drained, queued and dropped behind a misshapen payload are all there ever were, so nothing
      is lost exactly when no batch taken from Redis had a tick behind a misshapen payload. */
  lemma {:induction false} NothingLost(redis: Option<seq<Payload>>, ops: seq<Op>)
    ensures var l := RunOps(redis, ops);
            && l.intoMemory == l.outOfMemory + Decoded(l.q.memory)
            && Initial(redis) + l.intoRedis == Flat(l.batches) + RedisPart(l.q)
            && multiset(l.drained) == multiset(l.outOfMemory) + multiset(Returned(l.batches))
            && multiset(Decoded(Initial(redis))) + multiset(l.pushed)
               == (multiset(l.drained) + multiset(Decoded(l.q.memory)) + multiset(Decoded(RedisPart(l.q))))
                  + multiset(Dropped(l.batches))
            && (NoTickLost(redis, l) <==> forall b :: b in l.batches ==> !HidesTick(b))
  {
    var l := RunOps(redis, ops);
    RunBalanced(redis, ops);
    BalanceAddsUp(Initial(redis), l);
    DroppedIff(l.batches);
    hide RunOps, Decoded, Dropped, Flat, Returned, HidesTick;
    EqualUpTo(multiset(Decoded(Initial(redis))) + multiset(l.pushed),
              multiset(l.drained) + multiset(Decoded(l.q.memory)) + multiset(Decoded(RedisPart(l.q))),
              Dropped(l.batches));
  }

  predicate Shapely(ps: seq<Payload>) {
    forall p :: p in ps ==> !p.Misshapen?
  }

  lemma {:induction false} InFlat(batches: seq<seq<Payload>>, b: seq<Payload>, p: Payload)
    requires b in batches && p in b
    ensures p in Flat(batches)
  {
    FrontLast(batches);
    if b != Last(batches) {
      InFlat(Front(batches), b, p);
    }
  }

  lemma {:induction false} PushedAreJson(redis: Option<seq<Payload>>, ops: seq<Op>)
    ensures Shapely(RunOps(redis, ops).intoRedis)
  {
    if ops != [] {
      PushedAreJson(redis, Front(ops));
    }
  }

  /** When the remote list holds nothing misshapen to begin with, no tick is ever lost. */
  lemma {:induction false} ShapelyNeverLost(redis: Option<seq<Payload>>, ops: seq<Op>)
    requires Shapely(Initial(redis))
    ensures NoTickLost(redis, RunOps(redis, ops))
  {
    var l := RunOps(redis, ops);
    NothingLost(redis, ops);
    PushedAreJson(redis, ops);
    hide RunOps, NoTickLost, Flat;
    forall b | b in l.batches
      ensures !HidesTick(b)
    {
      forall p | p in b
        ensures !p.Misshapen?
      {
        InFlat(l.batches, b, p);
        assert p in Initial(redis) + l.intoRedis;
      }
    }
  }

  /** A tick queued behind `null` is taken from Redis and never returned. */
  lemma {:induction false} MisshapenLosesTick(t: RawTick)
    ensures var q, calls := Queues([], Some([Misshapen("null"), Json(t)])), DrainCalls(true, true, true);
            Drained(q, Some(2), calls) == [] && AfterDrain(q, Some(2), calls) == Queues([], Some([]))
  {
    var batch := [Misshapen("null"), Json(t)];
    var q, calls := Queues([], Some(batch)), DrainCalls(true, true, true);
    assert FromMemory(q, Some(2), calls) == 0;
    assert q.memory[..0] == [] && q.memory[0..] == [];
    assert FromRedis(q, Some(2), calls) == 2;
    assert batch[..2] == batch && batch[2..] == [];
  }

  lemma {:induction false} ParsedLength(ps: seq<Payload>)
    ensures |Parsed(ps)| <= |ps|
  {
    ParsedThenHidden(ps);
    DecodedLength(ps);
  }

  /** A drain of n >= 0 returns at most n ticks. A negative n slices from the end of the memory list: it takes all but
      the last -n payloads of memory and nothing from Redis, so it is empty exactly when memory holds at most -n. */
  lemma {:induction false} DrainLimit(q: Queues, n: int, calls: DrainCalls)
    ensures n >= 0 ==> |Drained(q, Some(n), calls)| <= n
    ensures n < 0 ==>
      var k := if |q.memory| + n > 0 then |q.memory| + n else 0;
      && Drained(q, Some(n), calls) == Decoded(q.memory[..k])
      && AfterDrain(q, Some(n), calls) == q.(memory := q.memory[k..])
      && (Drained(q, Some(n), calls) == [] <==> |q.memory| <= -n)
  {
    var k, r := FromMemory(q, Some(n), calls), FromRedis(q, Some(n), calls);
    OwnLength(q.memory[..k]);
    assert Parsed([]) == [];
    if q.redis.Some? {
      ParsedLength(q.redis.value[..r]);
      assert r == 0 ==> q.redis.value[..r] == [] && q.redis.value[r..] == q.redis.value;
    }
  }

  /** What a drain of n >= 0 takes: the oldest payloads of memory up to n, and as many of the oldest in Redis as n
      still leaves, unless a Redis call fails. What it takes is gone from the store and its ticks are returned. */
  lemma {:induction false} DrainExact(q: Queues, n: nat, calls: DrainCalls)
    ensures var j := if n < |q.memory| then n else |q.memory|;
            && j == |Decoded(q.memory[..j])| <= |Drained(q, Some(n), calls)|
            && Drained(q, Some(n), calls)[..j] == Decoded(q.memory[..j])
            && AfterDrain(q, Some(n), calls).memory == q.memory[j..]
            && match q.redis
               case None => AfterDrain(q, Some(n), calls).redis == None && |Drained(q, Some(n), calls)| == j
               case Some(items) =>
                 var k := if !calls.lrangeOk || !calls.ltrimOk then 0 else if n - j < |items| then n - j else |items|;
                 && Drained(q, Some(n), calls)[j..] == Parsed(items[..k])
                 && AfterDrain(q, Some(n), calls).redis == Some(items[k..])
  {
    var j := if n < |q.memory| then n else |q.memory|;
    OwnLength(q.memory[..j]);
    ParsedNone();
    hide Decoded, Parsed;
    assert FromMemory(q, Some(n), calls) == j;
    if q.redis.Some? {
      var items := q.redis.value;
      assert items[..0] == [] && items[0..] == items;
    }
  }

  /** A drain without a limit is one of as many payloads as the queue reports; when Redis cannot say, that is memory. */
  lemma {:induction false} UnlimitedDrain(q: Queues, calls: DrainCalls)
    ensures var n := |q.memory| + if q.redis.Some? && calls.llenOk then |q.redis.value| else 0;
            && Drained(q, None, calls) == Drained(q, Some(n), calls)
            && AfterDrain(q, None, calls) == AfterDrain(q, Some(n), calls)
  {
    hide Decoded, Parsed;
  }

  /** Asked for -1, a drain returns the older of two ticks in memory. */
  lemma {:induction false} NegativeDrainReturns(t: RawTick, u: RawTick, calls: DrainCalls)
    ensures Drained(Queues([Json(t), Json(u)], None), Some(-1), calls) == [t]
  {
    var q := Queues([Json(t), Json(u)], None);
    DrainLimit(q, -1, calls);
    assert q.memory[..1] == [Json(t)];
    DecodedOne(Json(t));
  }

  /** When every call succeeds, an unlimited drain empties both stores, memory first. */
  lemma {:induction false} DrainAll(q: Queues)
    ensures var calls := DrainCalls(true, true, true);
            && Drained(q, None, calls) == Decoded(q.memory) + Parsed(RedisPart(q))
            && AfterDrain(q, None, calls) == Queues([], if q.redis.None? then None else Some([]))
  {
    OwnLength(q.memory);
    assert q.memory[..|q.memory|] == q.memory;
    assert RedisPart(q)[..|RedisPart(q)|] == RedisPart(q);
    assert Parsed([]) == [];
    if q.redis.Some? {
      assert q.redis.value[|q.redis.value|..] == [];
    }
  }
}
