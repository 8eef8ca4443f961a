/** The alert dispatcher: a sliding 60-second window with a bypass for safety alerts. */
module Dispatcher {
  import opened Common

  datatype AlertType = Signal | Fill | Error | Pnl | CircuitBreaker | KillSwitch
    | ReconciliationMismatch | LlmCost | DeadLetter | Heartbeat

  const WINDOW := 60.0

  predicate Bypasses(t: AlertType) {
    t == KillSwitch || t == CircuitBreaker
  }

  /** Drops the times at the front that are older than the window. */
  function Pruned(times: seq<real>, now: real): seq<real> {
    if times != [] && times[0] < now - WINDOW then Pruned(times[1..], now) else times
  }

  /** One dispatch: when the limit is checked, whether the channel accepts, when that is recorded. */
  datatype Attempt = Attempt(alert: AlertType, checkedAt: real, channelOk: bool, sentAt: real)

  class AlertDispatcher {
    const hasChannel: bool
    const rateLimit: int
    var sendTimes: seq<real>

    constructor (hasChannel: bool, rateLimit: int)
      ensures this.hasChannel == hasChannel && this.rateLimit == rateLimit && sendTimes == []
    {
      this.hasChannel, this.rateLimit, sendTimes := hasChannel, rateLimit, [];
    }

    method IsRateLimited(now: real) returns (limited: bool)
      modifies this
      ensures sendTimes == Pruned(old(sendTimes), now)
      ensures limited <==> |sendTimes| >= rateLimit
    {
      while sendTimes != [] && sendTimes[0] < now - WINDOW
        invariant Pruned(sendTimes, now) == Pruned(old(sendTimes), now)
        decreases |sendTimes|
      {
        sendTimes := sendTimes[1..];
      }
      limited := |sendTimes| >= rateLimit;
    }

    method Dispatch(a: Attempt) returns (ok: bool)
      modifies this
      ensures ok == Accepts(old(sendTimes), a, hasChannel, rateLimit)
      ensures sendTimes == TimesAfter(old(sendTimes), a, hasChannel, rateLimit)
    {
      if !Bypasses(a.alert) {
        var limited := IsRateLimited(a.checkedAt);
        if limited {
          return false;
        }
      }
      if !hasChannel {
        return false;
      }
      ok := a.channelOk;
      if ok {
        sendTimes := sendTimes + [a.sentAt];
      }
    }
  }

  function Checked(times: seq<real>, a: Attempt): seq<real> {
    if Bypasses(a.alert) then times else Pruned(times, a.checkedAt)
  }

  predicate Accepts(times: seq<real>, a: Attempt, hasChannel: bool, rateLimit: int) {
    (Bypasses(a.alert) || |Checked(times, a)| < rateLimit) && hasChannel && a.channelOk
  }

  function TimesAfter(times: seq<real>, a: Attempt, hasChannel: bool, rateLimit: int): seq<real> {
    if Accepts(times, a, hasChannel, rateLimit) then Checked(times, a) + [a.sentAt] else Checked(times, a)
  }

  // ---- Any run under a clock that does not go back ----

  function Deque(run: seq<Attempt>, hasChannel: bool, rateLimit: int): seq<real> {
    if run == [] then [] else TimesAfter(Deque(Front(run), hasChannel, rateLimit), Last(run), hasChannel, rateLimit)
  }

  predicate AcceptedLast(run: seq<Attempt>, hasChannel: bool, rateLimit: int)
    requires run != []
  {
    Accepts(Deque(Front(run), hasChannel, rateLimit), Last(run), hasChannel, rateLimit)
  }

  /** The times of all accepted alerts, bypassing ones included. */
  function AllSent(run: seq<Attempt>, hasChannel: bool, rateLimit: int): seq<real> {
    if run == [] then []
    else if AcceptedLast(run, hasChannel, rateLimit) then
      AllSent(Front(run), hasChannel, rateLimit) + [Last(run).sentAt]
    else AllSent(Front(run), hasChannel, rateLimit)
  }

  /** The times of the accepted alerts that are subject to the limit. */
  function LimitedSent(run: seq<Attempt>, hasChannel: bool, rateLimit: int): seq<real> {
    if run == [] then []
    else if AcceptedLast(run, hasChannel, rateLimit) && !Bypasses(Last(run).alert)
    then LimitedSent(Front(run), hasChannel, rateLimit) + [Last(run).sentAt]
    else LimitedSent(Front(run), hasChannel, rateLimit)
  }

  function CountIn(times: seq<real>, from: real, to: real): nat {
    if times == [] then 0
    else CountIn(Front(times), from, to) + (if from <= Last(times) <= to then 1 else 0)
  }

  function CountSince(times: seq<real>, from: real): nat {
    if times == [] then 0 else CountSince(Front(times), from) + (if from <= Last(times) then 1 else 0)
  }

  /** Each alert is checked no later than it is recorded, and only after the previous one was. */
  ghost predicate ClockRuns(run: seq<Attempt>) {
    && (forall i :: 0 <= i < |run| ==> run[i].checkedAt <= run[i].sentAt)
    && (forall i :: 0 < i < |run| ==> run[i - 1].sentAt <= run[i].checkedAt)
  }

  ghost predicate Sorted(times: seq<real>) {
    forall i, j :: 0 <= i < j < |times| ==> times[i] <= times[j]
  }

  /** `kept` is `all` without its first n entries, all of which are older than `from`. */
  ghost predicate KeepsSince(kept: seq<real>, all: seq<real>, n: nat, from: real) {
    n <= |all| && kept == all[n..] && forall i :: 0 <= i < n ==> all[i] < from
  }

  lemma {:induction false} PruneKeeps(kept: seq<real>, all: seq<real>, n: nat, from: real, now: real) returns (m: nat)
    requires KeepsSince(kept, all, n, from) && from <= now - WINDOW
    ensures KeepsSince(Pruned(kept, now), all, m, now - WINDOW)
    ensures Pruned(kept, now) == [] || Pruned(kept, now)[0] >= now - WINDOW
    decreases |kept|
  {
    m := n;
    if kept != [] && kept[0] < now - WINDOW {
      m := PruneKeeps(kept[1..], all, n + 1, now - WINDOW, now);
    }
  }

  lemma {:induction false} CountSinceSuffix(all: seq<real>, n: nat, from: real)
    requires n <= |all| && (forall i :: 0 <= i < n ==> all[i] < from) && (forall i :: n <= i < |all| ==> all[i] >= from)
    ensures CountSince(all, from) == |all| - n
  {
    if all != [] {
      CountSinceSuffix(Front(all), if n < |all| then n else n - 1, from);
    }
  }

  /** No recorded time is later than the clock. */
  ghost predicate Bounded(times: seq<real>, now: real) {
    forall i :: 0 <= i < |times| ==> times[i] <= now
  }

  /** The deque holds every accepted time but some older than the window. */
  ghost predicate Tracks(times: seq<real>, all: seq<real>, n: nat, clock: real) {
    Sorted(all) && Bounded(all, clock) && KeepsSince(times, all, n, clock - WINDOW)
  }

  lemma KeepsLater(kept: seq<real>, all: seq<real>, n: nat, from: real, later: real)
    requires KeepsSince(kept, all, n, from) && from <= later
    ensures KeepsSince(kept, all, n, later)
  {
  }

  lemma TracksAppend(kept: seq<real>, all: seq<real>, n: nat, clock: real, t: real)
    requires Sorted(all) && Bounded(all, clock) && clock <= t && KeepsSince(kept, all, n, t - WINDOW)
    ensures Tracks(kept, all, n, t) && Tracks(kept + [t], all + [t], n, t)
  {
    assert kept + [t] == (all + [t])[n..];
    assert forall i :: 0 <= i < |all| ==> (all + [t])[i] == all[i];
  }

  lemma TracksStep(times: seq<real>, all: seq<real>, n: nat, clock: real, a: Attempt, hasChannel: bool, rateLimit: int)
      returns (m: nat)
    requires Tracks(times, all, n, clock) && clock <= a.checkedAt <= a.sentAt
    ensures Tracks(TimesAfter(times, a, hasChannel, rateLimit),
                   if Accepts(times, a, hasChannel, rateLimit) then all + [a.sentAt] else all, m, a.sentAt)
  {
    var kept := Checked(times, a);
    if Bypasses(a.alert) {
      m := n;
      KeepsLater(kept, all, m, clock - WINDOW, a.sentAt - WINDOW);
    } else {
      m := PruneKeeps(times, all, n, clock - WINDOW, a.checkedAt);
      KeepsLater(kept, all, m, a.checkedAt - WINDOW, a.sentAt - WINDOW);
    }
    TracksAppend(kept, all, m, clock, a.sentAt);
    hide Tracks, KeepsSince, Checked;
  }

  lemma {:induction false} DequeTracks(run: seq<Attempt>, now: real, hasChannel: bool, rateLimit: int) returns (n: nat)
    requires ClockRuns(run) && (run != [] ==> Last(run).sentAt <= now)
    ensures Tracks(Deque(run, hasChannel, rateLimit), AllSent(run, hasChannel, rateLimit), n, now)
  {
    if run == [] {
      n := 0;
    } else {
      n := DequeTracks(Front(run), Last(run).checkedAt, hasChannel, rateLimit);
      n := TracksStep(Deque(Front(run), hasChannel, rateLimit), AllSent(Front(run), hasChannel, rateLimit), n,
                      Last(run).checkedAt, Last(run), hasChannel, rateLimit);
    }
  }

  /** The limit is exact: an alert subject to it is refused by the limit if and only if at
      least `rateLimit` alerts were sent in the 60 seconds up to its check, although the
      deque is pruned lazily and bypassing alerts are in it too. */
  lemma {:induction false} LimitedIffWindowFull(run: seq<Attempt>, now: real, hasChannel: bool, rateLimit: int)
    requires ClockRuns(run) && (run != [] ==> Last(run).sentAt <= now)
    ensures |Pruned(Deque(run, hasChannel, rateLimit), now)| >= rateLimit
       <==> CountSince(AllSent(run, hasChannel, rateLimit), now - WINDOW) >= rateLimit
  {
    PrunedIsWindow(run, now, hasChannel, rateLimit);
  }

  lemma PrunedIsWindow(run: seq<Attempt>, now: real, hasChannel: bool, rateLimit: int)
    requires ClockRuns(run) && (run != [] ==> Last(run).sentAt <= now)
    ensures |Pruned(Deque(run, hasChannel, rateLimit), now)|
        == CountSince(AllSent(run, hasChannel, rateLimit), now - WINDOW)
  {
    var n := DequeTracks(run, now, hasChannel, rateLimit);
    var all, times := AllSent(run, hasChannel, rateLimit), Deque(run, hasChannel, rateLimit);
    hide Deque, AllSent, Pruned, CountSince;
    n := PruneKeeps(times, all, n, now - WINDOW, now);
    CountSinceSuffix(all, n, now - WINDOW);
  }

  /** An alert goes out exactly when there is a channel that takes it and either it is a safety alert or fewer than
      `rateLimit` alerts went out in the 60 seconds up to its check. */
  lemma {:induction false} DispatchExact(run: seq<Attempt>, hasChannel: bool, rateLimit: int)
    requires run != [] && ClockRuns(run)
    ensures var a, sent := Last(run), AllSent(Front(run), hasChannel, rateLimit);
            AcceptedLast(run, hasChannel, rateLimit) <==>
            && hasChannel && a.channelOk
            && (a.alert == CircuitBreaker || a.alert == KillSwitch
                || CountSince(sent, a.checkedAt - 60.0) < rateLimit)
  {
    ClockRan(run);
    hide ClockRuns;
    PrunedIsWindow(Front(run), Last(run).checkedAt, hasChannel, rateLimit);
    hide Deque, AllSent, Pruned, CountSince;
  }

  lemma CountsSnoc(times: seq<real>, t: real, from: real, to: real)
    ensures CountIn(times + [t], from, to) == CountIn(times, from, to) + (if from <= t <= to then 1 else 0)
    ensures CountSince(times + [t], from) == CountSince(times, from) + (if from <= t then 1 else 0)
  {
    AppendFrontLast(times, t);
  }

  /** One more attempt adds its recorded time to both lists, to one, or to none. */
  lemma SentStep(run: seq<Attempt>, hasChannel: bool, rateLimit: int)
    requires run != []
    ensures var all := AllSent(Front(run), hasChannel, rateLimit);
            var limited := LimitedSent(Front(run), hasChannel, rateLimit);
            var a, ok := Last(run), AcceptedLast(run, hasChannel, rateLimit);
            && AllSent(run, hasChannel, rateLimit) == (if ok then all + [a.sentAt] else all)
            && LimitedSent(run, hasChannel, rateLimit) ==
               (if ok && !Bypasses(a.alert) then limited + [a.sentAt] else limited)
            && (ok && !Bypasses(a.alert) ==>
                  |Pruned(Deque(Front(run), hasChannel, rateLimit), a.checkedAt)| < rateLimit)
  {
  }

  lemma {:induction false} LimitedAreSent(run: seq<Attempt>, hasChannel: bool, rateLimit: int, from: real, to: real)
    ensures CountIn(LimitedSent(run, hasChannel, rateLimit), from, to)
        <= CountSince(AllSent(run, hasChannel, rateLimit), from)
  {
    if run != [] {
      var all, limited := AllSent(Front(run), hasChannel, rateLimit), LimitedSent(Front(run), hasChannel, rateLimit);
      LimitedAreSent(Front(run), hasChannel, rateLimit, from, to);
      SentStep(run, hasChannel, rateLimit);
      hide AllSent, LimitedSent, CountIn, CountSince, Deque, Pruned, AcceptedLast;
      CountsSnoc(all, Last(run).sentAt, from, to);
      CountsSnoc(limited, Last(run).sentAt, from, to);
    }
  }

  lemma {:induction false} CountSinceMonotone(times: seq<real>, from: real, earlier: real)
    requires earlier <= from
    ensures CountSince(times, from) <= CountSince(times, earlier)
  {
    if times != [] {
      CountSinceMonotone(Front(times), from, earlier);
    }
  }

  lemma NoneSent(hasChannel: bool, rateLimit: int, from: real)
    ensures CountIn(LimitedSent([], hasChannel, rateLimit), from, from + WINDOW) == 0
  {
  }

  /** The clock of a run without its last attempt, and of that attempt. */
  lemma ClockRan(run: seq<Attempt>)
    requires ClockRuns(run) && run != []
    ensures ClockRuns(Front(run)) && Last(run).checkedAt <= Last(run).sentAt
    ensures Front(run) != [] ==> Last(Front(run)).sentAt <= Last(run).checkedAt
  {
  }

  /** The limited alerts of a window that reaches past an alert are among the times counted when it was checked. */
  lemma RoomLeft(before: seq<Attempt>, a: Attempt, from: real, hasChannel: bool, rateLimit: int)
    requires ClockRuns(before) && (before != [] ==> Last(before).sentAt <= a.checkedAt) && a.checkedAt <= a.sentAt
    requires a.sentAt <= from + WINDOW
    ensures CountIn(LimitedSent(before, hasChannel, rateLimit), from, from + WINDOW)
         <= |Pruned(Deque(before, hasChannel, rateLimit), a.checkedAt)|
  {
    PrunedIsWindow(before, a.checkedAt, hasChannel, rateLimit);
    LimitedAreSent(before, hasChannel, rateLimit, from, from + WINDOW);
    CountSinceMonotone(AllSent(before, hasChannel, rateLimit), from, a.checkedAt - WINDOW);
    hide *;
  }

  /** Any closed 60-second window holds at most `rateLimit` accepted alerts that are subject
      to the limit, over any run, wherever the window lies. */
  lemma {:induction false} WindowNeverOverfull(run: seq<Attempt>, from: real, hasChannel: bool, rateLimit: nat)
    requires ClockRuns(run)
    ensures CountIn(LimitedSent(run, hasChannel, rateLimit), from, from + WINDOW) <= rateLimit
  {
    if run == [] {
      NoneSent(hasChannel, rateLimit, from);
    } else {
      ClockRan(run);
      WindowNeverOverfull(Front(run), from, hasChannel, rateLimit);
      SentStep(run, hasChannel, rateLimit);
      CountsSnoc(LimitedSent(Front(run), hasChannel, rateLimit), Last(run).sentAt, from, from + WINDOW);
      if Last(run).sentAt <= from + WINDOW {
        RoomLeft(Front(run), Last(run), from, hasChannel, rateLimit);
      }
      hide *;
    }
  }
}
