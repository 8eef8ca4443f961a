/** The submission protocol: halt flag, compliance, then place with query-before-retry. */
module Execution {
  import opened Common
  import opened Orders

  /** One read of the halt key: no client, a failed call, or a stored value if any. */
  datatype FlagRead = NoRedis | Raised | Stored(value: Option<string>)

  function IsHalted(f: FlagRead): bool {
    f.Stored? && f.value == Some("true")
  }

  /** How one attempt ends. */
  datatype Step = Done(report: FillReport) | GiveUp(error: string) | TryAgain(error: string)

  function PlaceStep(outcome: PlaceOutcome): Step {
    match outcome
    case Accept(report, _) => Done(report)
    case PlaceTransient(m, _) => TryAgain(m)
    case PlacePermanent(m, _) => GiveUp(m)
  }

  /** One attempt against a broker holding `book`: the book after it, the calls made, how it ends. */
  function Attempt(book: seq<TaggedOrder>, tagged: TaggedOrder, attempt: int, move: Move)
    : (seq<TaggedOrder>, seq<Event>, Step)
  {
    var answer := Answered(book, tagged.original.clientOrderId, move.query);
    var asked := if attempt > 1 then [Queried(attempt, answer)] else [];
    if attempt > 1 && answer != NotFound then
      (book, asked, match move.query
                    case Answer(report) => Done(report)
                    case QueryTransient(m) => TryAgain(m)
                    case QueryPermanent(m) => GiveUp(m))
    else
      (AfterPlace(book, tagged, move.place.landed),
       asked + [PlacedOrder(attempt, tagged, move.place.landed)],
       PlaceStep(move.place))
  }

  datatype Result = Fill(report: FillReport, attempt: int) | NoFill(lastError: string, attempts: int)

  /** A run of the retry loop: the broker's book after it, the calls made, the result. */
  datatype Trace = Trace(book: seq<TaggedOrder>, calls: seq<Event>, result: Result)

  function After(calls: seq<Event>, rest: Trace): Trace {
    rest.(calls := calls + rest.calls)
  }

  lemma AfterAfter(a: seq<Event>, b: seq<Event>, rest: Trace)
    ensures After(a, After(b, rest)) == After(a + b, rest)
  {
    assert a + (b + rest.calls) == (a + b) + rest.calls;
  }

  /** The retry loop after `attempt` attempts, against any broker. */
  function Retry(book: seq<TaggedOrder>, tagged: TaggedOrder, moves: nat -> Move, attempt: nat, maxRetries: int,
      lastError: string): Trace
    decreases maxRetries + 1 - attempt
  {
    if attempt > maxRetries then Trace(book, [], NoFill(lastError, attempt))
    else
      var (book', calls, step) := Attempt(book, tagged, attempt + 1, moves(attempt + 1));
      match step
      case Done(report) => Trace(book', calls, Fill(report, attempt + 1))
      case GiveUp(e) => Trace(book', calls, NoFill(e, attempt + 1))
      case TryAgain(e) =>
        After(calls, Retry(book', tagged, moves, attempt + 1, maxRetries, e))
  }

  function Submission(book: seq<TaggedOrder>, tagged: TaggedOrder, moves: nat -> Move, maxRetries: int): Trace {
    Retry(book, tagged, moves, 0, maxRetries, "")
  }

  function RejectedFill(order: OrderIntent, reason: string, tag: string, auditId: string, attempts: int,
      nowMs: int): FillReport {
    FillReport(order.clientOrderId, None, order.symbol, order.exchange, order.direction,
               0, order.quantity, None, Rejected, Some(reason), nowMs, None, None, false, 0,
               attempts, tag, auditId)
  }

  /** A rejection of this order: nothing was filled and nothing came from the broker. */
  predicate Refuses(r: FillReport, order: OrderIntent, nowMs: int) {
    && r.clientOrderId == order.clientOrderId && r.symbol == order.symbol && r.exchange == order.exchange
    && r.direction == order.direction && r.requestedQuantity == order.quantity
    && r.status == Rejected && r.filledQuantity == 0 && r.slQuantity == 0 && !r.isPartial && r.placedAtMs == nowMs
    && r.brokerOrderId.None? && r.filledPrice.None? && r.filledAtMs.None? && r.slippagePct.None?
  }

  function Finalized(fill: FillReport, auditId: string, attempt: int): FillReport {
    fill.(attemptCount := attempt, complianceAuditId := auditId)
  }

  function Joined(parts: seq<string>): string {
    if parts == [] then "" else if |parts| == 1 then parts[0] else parts[0] + "; " + Joined(parts[1..])
  }

  /** One unrolling of the loop, after the calls made before it. */
  lemma UnrollRetry(before: seq<Event>, book: seq<TaggedOrder>, tagged: TaggedOrder, moves: nat -> Move, attempt: nat,
      maxRetries: int, e: string)
    requires attempt <= maxRetries
    ensures var (book', calls, step) := Attempt(book, tagged, attempt + 1, moves(attempt + 1));
            After(before, Retry(book, tagged, moves, attempt, maxRetries, e))
            == match step
               case Done(report) => Trace(book', before + calls, Fill(report, attempt + 1))
               case GiveUp(e') => Trace(book', before + calls, NoFill(e', attempt + 1))
               case TryAgain(e') => After(before + calls, Retry(book', tagged, moves, attempt + 1, maxRetries, e'))
  {
    var (book', calls, step) := Attempt(book, tagged, attempt + 1, moves(attempt + 1));
    if step.TryAgain? {
      AfterAfter(before, calls, Retry(book', tagged, moves, attempt + 1, maxRetries, step.error));
    }
  }

  lemma SubmissionStarts(book: seq<TaggedOrder>, tagged: TaggedOrder, moves: nat -> Move, maxRetries: int)
    ensures Submission(book, tagged, moves, maxRetries) == After([], Retry(book, tagged, moves, 0, maxRetries, ""))
  {
  }

  lemma RetryOver(book: seq<TaggedOrder>, tagged: TaggedOrder, moves: nat -> Move, attempt: nat, maxRetries: int,
      e: string)
    requires attempt > maxRetries
    ensures Retry(book, tagged, moves, attempt, maxRetries, e) == Trace(book, [], NoFill(e, attempt))
  {
  }

  class ExecutionEngine {
    const broker: Broker
    const deadLetters: DeadLetterQueue
    const maxRetries: int

    constructor (broker: Broker, deadLetters: DeadLetterQueue, maxRetries: int)
      ensures this.broker == broker && this.deadLetters == deadLetters && this.maxRetries == maxRetries
    {
      this.broker, this.deadLetters, this.maxRetries := broker, deadLetters, maxRetries;
    }

    /** One pass of the try block: query first on a retry, place unless the order was found. */
    method TryOnce(tagged: TaggedOrder, attempt: int, move: Move) returns (step: Step)
      modifies broker
      ensures var (book, calls, s) := Attempt(old(broker.book), tagged, attempt, move);
              broker.book == book && broker.log == old(broker.log) + calls && step == s
    {
      var reply := NoOrder;
      if attempt > 1 {
        reply := broker.QueryOrder(tagged.original.clientOrderId, attempt, move.query);
      }
      if reply.NoOrder? {
        reply := broker.PlaceOrder(tagged, attempt, move.place);
      }
      match reply
      case Report(report) => step := Done(report);
      case Transient(e) => step := TryAgain(e);
      case Permanent(e) => step := GiveUp(e);
    }

    /** The retry loop: ends with a fill, on a permanent error, or when the attempts run out. */
    method PlaceWithRetry(tagged: TaggedOrder, moves: nat -> Move) returns (result: Result)
      modifies broker
      ensures var run := Submission(old(broker.book), tagged, moves, maxRetries);
              broker.book == run.book && broker.log == old(broker.log) + run.calls && result == run.result
    {
      hide Attempt, Retry, Submission;
      ghost var run, calls := Submission(broker.book, tagged, moves, maxRetries), [];
      SubmissionStarts(broker.book, tagged, moves, maxRetries);
      var lastError := "";
      var attempt: nat := 0;
      while attempt <= maxRetries
        invariant broker.log == old(broker.log) + calls
        invariant run == After(calls, Retry(broker.book, tagged, moves, attempt, maxRetries, lastError))
        decreases maxRetries - attempt
      {
        attempt := attempt + 1;
        UnrollRetry(calls, broker.book, tagged, moves, attempt - 1, maxRetries, lastError);
        calls := calls + Attempt(broker.book, tagged, attempt, moves(attempt)).1;
        var step := TryOnce(tagged, attempt, moves(attempt));
        match step
        case Done(report) =>
          return Fill(report, attempt);
        case GiveUp(e) =>
          return NoFill(e, attempt);
        case TryAgain(e) =>
          lastError := e;
      }
      RetryOver(broker.book, tagged, moves, attempt, maxRetries, lastError);
      result := NoFill(lastError, attempt);
    }

    /** A halted, non-priority order or one compliance refuses reaches neither the broker
        nor the dead-letter queue. Otherwise the retry loop runs, and exactly one
        dead-letter entry is appended, exactly when it ends without a fill. */
    method Submit(order: OrderIntent, flag: FlagRead, decision: ComplianceDecision, moves: nat -> Move, nowMs: int)
      returns (r: FillReport)
      requires ComplianceContract(order, decision)
      modifies broker, deadLetters
      ensures var halted := flag == Stored(Some("true")) && !order.isPriority;
              if halted || !decision.approved then
                && unchanged(broker) && deadLetters.entries == old(deadLetters.entries)
                && Refuses(r, order, nowMs) && r.attemptCount == 0 && r.strategyTag == ""
                && r.complianceAuditId == (if halted then "" else decision.auditId)
                && r.rejectionReason == Some(if halted then "System is halted" else Joined(decision.violations))
              else
                var run := Submission(old(broker.book), decision.tagged.value, moves, maxRetries);
                && broker.book == run.book && broker.log == old(broker.log) + run.calls
                && match run.result
                   case Fill(report, attempt) =>
                     && r == report.(attemptCount := attempt, complianceAuditId := decision.auditId)
                     && deadLetters.entries == old(deadLetters.entries)
                   case NoFill(error, attempts) =>
                     && Refuses(r, order, nowMs) && r.rejectionReason == Some(error) && r.attemptCount == attempts
                     && r.strategyTag == decision.tagged.value.strategyTag && r.complianceAuditId == decision.auditId
                     && deadLetters.entries == old(deadLetters.entries)
                          + [DeadLetterEntry(order.clientOrderId, order.symbol, order.exchange, error, attempts, nowMs,
                                             decision.tagged.value.strategyTag)]
    {
      if !order.isPriority && IsHalted(flag) {
        return RejectedFill(order, "System is halted", "", "", 0, nowMs);
      }
      if !decision.approved {
        return RejectedFill(order, Joined(decision.violations), "", decision.auditId, 0, nowMs);
      }
      var tagged := decision.tagged.value;
      var result := PlaceWithRetry(tagged, moves);
      if result.Fill? {
        return Finalized(result.report, decision.auditId, result.attempt);
      }
      var NoFill(lastError, attempt) := result;
      deadLetters.Enqueue(DeadLetterEntry(order.clientOrderId, order.symbol, order.exchange, lastError, attempt, nowMs,
          tagged.strategyTag));
      r := RejectedFill(order, lastError, tagged.strategyTag, decision.auditId, attempt, nowMs);
    }
  }

  // ---- What every run keeps ----

  /** Entry i, if a placement, places this order, on the first attempt or directly after a
      query of the same attempt that found nothing. */
  ghost predicate PlacedWell(calls: seq<Event>, i: nat, tagged: TaggedOrder)
    requires i < |calls|
  {
    calls[i].PlacedOrder? ==>
      && calls[i].tagged == tagged
      && (calls[i].attempt == 1 || (i > 0 && calls[i - 1] == Queried(calls[i].attempt, NotFound)))
  }

  /** Call discipline of attempts `first` to `last`. */
  ghost predicate Disciplined(calls: seq<Event>, tagged: TaggedOrder, first: int, last: int) {
    forall i :: 0 <= i < |calls| ==> first <= calls[i].attempt <= last && PlacedWell(calls, i, tagged)
  }

  lemma DisciplinedConcat(a: seq<Event>, b: seq<Event>, tagged: TaggedOrder, first: int, last: int)
    requires Disciplined(a, tagged, first, last) && Disciplined(b, tagged, first + 1, last) && first >= 1
    ensures Disciplined(a + b, tagged, first, last)
  {
    forall i | 0 <= i < |a + b|
      ensures first <= (a + b)[i].attempt <= last && PlacedWell(a + b, i, tagged)
    {
      if i < |a| {
        assert PlacedWell(a, i, tagged);
      } else {
        assert PlacedWell(b, i - |a|, tagged);
      }
    }
  }

  lemma {:induction false} RetryDisciplined(book: seq<TaggedOrder>, tagged: TaggedOrder, moves: nat -> Move,
      attempt: nat, maxRetries: int, e: string)
    ensures Disciplined(Retry(book, tagged, moves, attempt, maxRetries, e).calls, tagged, attempt + 1, maxRetries + 1)
    decreases maxRetries + 1 - attempt
  {
    if attempt <= maxRetries {
      var (book', calls, step) := Attempt(book, tagged, attempt + 1, moves(attempt + 1));
      if step.TryAgain? {
        RetryDisciplined(book', tagged, moves, attempt + 1, maxRetries, step.error);
        var rest := Retry(book', tagged, moves, attempt + 1, maxRetries, step.error).calls;
        DisciplinedConcat(calls, rest, tagged, attempt + 1, maxRetries + 1);
      }
    }
  }

  // ---- What each call leads to ----

  /** A call the loop goes on after: a query that found nothing, or a transient error. */
  ghost predicate GoesOn(call: Event, moves: nat -> Move) {
    call.attempt >= 0 &&
    match call
    case Queried(k, answer) =>
      if moves(k).query.Answer? then answer == NotFound else answer == Failed && moves(k).query.QueryTransient?
    case PlacedOrder(k, _, _) => moves(k).place.PlaceTransient?
  }

  /** A query that found nothing is followed by the placement of its attempt, a failed call by the next query. */
  ghost predicate Follows(call: Event, next: Event) {
    if call.Queried? && call.answer == NotFound then next.PlacedOrder? && next.attempt == call.attempt
    else next.Queried? && next.attempt == call.attempt + 1
  }

  /** The last call decides: a report ends the loop with a fill, a permanent error or the last attempt without one. */
  ghost predicate Decides(call: Event, moves: nat -> Move, limit: int, result: Result) {
    call.attempt >= 0 &&
    match call
    case Queried(k, answer) =>
      (match moves(k).query
       case Answer(report) => answer == Found && result == Fill(report, k)
       case QueryTransient(m) => answer == Failed && k == limit && result == NoFill(m, k)
       case QueryPermanent(m) => answer == Failed && result == NoFill(m, k))
    case PlacedOrder(k, _, _) =>
      (match moves(k).place
       case Accept(report, _) => result == Fill(report, k)
       case PlaceTransient(m, _) => k == limit && result == NoFill(m, k)
       case PlacePermanent(m, _) => result == NoFill(m, k))
  }

  ghost predicate CallsLead(calls: seq<Event>, moves: nat -> Move, first: int, limit: int, result: Result) {
    && calls != []
    && calls[0].attempt == first && (calls[0].PlacedOrder? <==> first == 1)
    && (forall i :: 0 <= i < |calls| - 1 ==> GoesOn(calls[i], moves) && Follows(calls[i], calls[i + 1]))
    && Decides(calls[|calls| - 1], moves, limit, result)
  }

  lemma CallsLeadOn(a: seq<Event>, b: seq<Event>, moves: nat -> Move, first: int, limit: int, result: Result)
    requires a != [] && CallsLead(b, moves, first + 1, limit, result) && first >= 1
    requires a[0].attempt == first && (a[0].PlacedOrder? <==> first == 1)
    requires forall i :: 0 <= i < |a| ==> GoesOn(a[i], moves)
    requires forall i :: 0 <= i < |a| - 1 ==> Follows(a[i], a[i + 1])
    requires Follows(a[|a| - 1], b[0])
    ensures CallsLead(a + b, moves, first, limit, result)
  {
    var calls := a + b;
    hide GoesOn, Follows, Decides;
    forall i | 0 <= i < |calls| - 1
      ensures GoesOn(calls[i], moves) && Follows(calls[i], calls[i + 1])
    {
      if i >= |a| {
        assert calls[i] == b[i - |a|] && calls[i + 1] == b[i + 1 - |a|];
      } else if i < |a| - 1 {
        assert calls[i] == a[i] && calls[i + 1] == a[i + 1];
      } else {
        assert calls[i] == a[|a| - 1] && calls[i + 1] == b[0];
      }
    }
    assert calls[|calls| - 1] == b[|b| - 1];
  }

  ghost predicate AttemptLeads(calls: seq<Event>, step: Step, moves: nat -> Move, k: nat, limit: int) {
    && calls != []
    && calls[0].attempt == k && (calls[0].PlacedOrder? <==> k == 1)
    && (forall i :: 0 <= i < |calls| - 1 ==> GoesOn(calls[i], moves) && Follows(calls[i], calls[i + 1]))
    && var last := calls[|calls| - 1];
    match step
    case Done(report) => Decides(last, moves, limit, Fill(report, k))
    case GiveUp(e) => Decides(last, moves, limit, NoFill(e, k))
    case TryAgain(e) =>
      && GoesOn(last, moves) && last.attempt == k && !(last.Queried? && last.answer == NotFound)
      && (k == limit ==> Decides(last, moves, limit, NoFill(e, k)))
  }

  lemma OneAttemptLeads(book: seq<TaggedOrder>, tagged: TaggedOrder, moves: nat -> Move, k: nat, limit: int)
    requires k >= 1
    ensures var (_, calls, step) := Attempt(book, tagged, k, moves(k)); AttemptLeads(calls, step, moves, k, limit)
  {
  }

  /**
   * The loop stops where it should and nowhere else: it goes on only after a query that found nothing or a transient
   * error, from attempt to attempt without gaps, and its last call's report, permanent error or last transient error
   * is its result. In particular nothing is called after a permanent error.
   */
  lemma {:induction false} CallsDecideResult(book: seq<TaggedOrder>, tagged: TaggedOrder, moves: nat -> Move,
      attempt: nat, maxRetries: int, e: string)
    requires attempt <= maxRetries
    ensures var run := Retry(book, tagged, moves, attempt, maxRetries, e);
            CallsLead(run.calls, moves, attempt + 1, maxRetries + 1, run.result)
    decreases maxRetries + 1 - attempt
  {
    hide Attempt, GoesOn, Decides;
    var (book', calls, step) := Attempt(book, tagged, attempt + 1, moves(attempt + 1));
    OneAttemptLeads(book, tagged, moves, attempt + 1, maxRetries + 1);
    if step.TryAgain? {
      var rest := Retry(book', tagged, moves, attempt + 1, maxRetries, step.error);
      if attempt < maxRetries {
        CallsDecideResult(book', tagged, moves, attempt + 1, maxRetries, step.error);
        CallsLeadOn(calls, rest.calls, moves, attempt + 1, maxRetries + 1, rest.result);
      } else {
        RetryOver(book', tagged, moves, attempt + 1, maxRetries, step.error);
        assert calls + [] == calls;
      }
    }
  }

  /** The message of the permanent error a call met, if it met one. */
  ghost function PermanentError(call: Event, moves: nat -> Move): Option<string> {
    if call.attempt < 0 then None
    else
      match call
      case Queried(k, _) => if moves(k).query.QueryPermanent? then Some(moves(k).query.message) else None
      case PlacedOrder(k, _, _) => if moves(k).place.PlacePermanent? then Some(moves(k).place.message) else None
  }

  /** A permanent error is final: the call that meets it is the last one, and its message is the result. */
  lemma {:induction false} PermanentErrorIsFinal(book: seq<TaggedOrder>, tagged: TaggedOrder, moves: nat -> Move,
      maxRetries: int, i: nat)
    requires maxRetries >= 0 && i < |Submission(book, tagged, moves, maxRetries).calls|
    requires PermanentError(Submission(book, tagged, moves, maxRetries).calls[i], moves).Some?
    ensures var run := Submission(book, tagged, moves, maxRetries);
            && i == |run.calls| - 1
            && run.result == NoFill(PermanentError(run.calls[i], moves).value, run.calls[i].attempt)
  {
    CallsDecideResult(book, tagged, moves, 0, maxRetries, "");
    var calls := Submission(book, tagged, moves, maxRetries).calls;
    assert i < |calls| - 1 ==> GoesOn(calls[i], moves);
    assert i == |calls| - 1 ==> calls[i] == calls[|calls| - 1];
  }

  /** The first call is the placement of attempt 1; a permanent error there leaves the order rejected after one call. */
  lemma {:induction false} FirstErrorRejects(book: seq<TaggedOrder>, tagged: TaggedOrder, moves: nat -> Move,
      maxRetries: int, m: string, landed: bool)
    requires maxRetries >= 0 && moves(1).place == PlacePermanent(m, landed)
    ensures var run := Submission(book, tagged, moves, maxRetries);
            run.result == NoFill(m, 1) && |run.calls| == 1
  {
    CallsDecideResult(book, tagged, moves, 0, maxRetries, "");
    PermanentErrorIsFinal(book, tagged, moves, maxRetries, 0);
  }

  // ---- What each call says ----

  /** One of the first n calls placed the order with effect. */
  ghost predicate Landed(calls: seq<Event>, n: int) {
    exists j :: 0 <= j < n <= |calls| && calls[j].PlacedOrder? && calls[j].landed
  }

  /** A placement has the effect the broker chose; an answered query finds the order exactly when the broker held the
      id before the run or an earlier placement took effect. */
  ghost predicate Truthful(book: seq<TaggedOrder>, tagged: TaggedOrder, moves: nat -> Move, calls: seq<Event>, i: nat)
    requires i < |calls|
  {
    calls[i].attempt >= 0 &&
    match calls[i]
    case Queried(k, answer) =>
      if !moves(k).query.Answer? then answer == Failed
      else answer == if Holds(book, tagged.original.clientOrderId) || Landed(calls, i) then Found else NotFound
    case PlacedOrder(k, placed, landed) => placed == tagged && landed == moves(k).place.landed
  }

  lemma TruthfulConcat(book: seq<TaggedOrder>, book': seq<TaggedOrder>, tagged: TaggedOrder, moves: nat -> Move,
      a: seq<Event>, b: seq<Event>)
    requires forall i :: 0 <= i < |a| ==> Truthful(book, tagged, moves, a, i)
    requires forall i :: 0 <= i < |b| ==> Truthful(book', tagged, moves, b, i)
    requires book' == if Landed(a, |a|) then book + [tagged] else book
    ensures forall i :: 0 <= i < |a + b| ==> Truthful(book, tagged, moves, a + b, i)
    ensures Landed(a + b, |a + b|) <==> Landed(a, |a|) || Landed(b, |b|)
  {
    HoldsNew(book, tagged);
    forall n | 0 <= n <= |a + b|
      ensures Landed(a + b, n) <==> if n <= |a| then Landed(a, n) else Landed(a, |a|) || Landed(b, n - |a|)
    {
      LandedConcat(a, b, n);
    }
    forall i | 0 <= i < |a + b|
      ensures Truthful(book, tagged, moves, a + b, i)
    {
      if i < |a| {
        assert Truthful(book, tagged, moves, a, i);
      } else {
        assert Truthful(book', tagged, moves, b, i - |a|);
      }
    }
    LandedConcat(a, b, |a + b|);
  }

  lemma LandedConcat(a: seq<Event>, b: seq<Event>, n: nat)
    requires n <= |a + b|
    ensures Landed(a + b, n) <==> if n <= |a| then Landed(a, n) else Landed(a, |a|) || Landed(b, n - |a|)
  {
    if j :| 0 <= j < n && (a + b)[j].PlacedOrder? && (a + b)[j].landed {
      if j < |a| {
        assert a[j] == (a + b)[j];
      } else {
        assert b[j - |a|] == (a + b)[j];
      }
    }
    var end := if n <= |a| then n else |a|;
    if j :| 0 <= j < end && a[j].PlacedOrder? && a[j].landed {
      assert (a + b)[j] == a[j];
    }
    if j :| 0 <= j < n - |a| && b[j].PlacedOrder? && b[j].landed {
      assert (a + b)[|a| + j] == b[j];
    }
  }

  /** Every call is truthful, and the run leaves the tagged order at the broker exactly when a placement took effect. */
  lemma {:induction false} CallsAreTruthful(book: seq<TaggedOrder>, tagged: TaggedOrder, moves: nat -> Move,
      attempt: nat, maxRetries: int, e: string)
    ensures var run := Retry(book, tagged, moves, attempt, maxRetries, e);
            && (forall i :: 0 <= i < |run.calls| ==> Truthful(book, tagged, moves, run.calls, i))
            && run.book == if Landed(run.calls, |run.calls|) then book + [tagged] else book
    decreases maxRetries + 1 - attempt
  {
    if attempt <= maxRetries {
      var (book', calls, step) := Attempt(book, tagged, attempt + 1, moves(attempt + 1));
      AttemptIsTruthful(book, tagged, moves, attempt + 1);
      if step.TryAgain? {
        var rest := Retry(book', tagged, moves, attempt + 1, maxRetries, step.error);
        CallsAreTruthful(book', tagged, moves, attempt + 1, maxRetries, step.error);
        TruthfulConcat(book, book', tagged, moves, calls, rest.calls);
        RetryAddsAtMostOne(book', tagged, moves, attempt + 1, maxRetries, step.error);
        HoldsNew(book, tagged);
        AtLongest(book', tagged);
      }
    }
  }

  lemma AttemptIsTruthful(book: seq<TaggedOrder>, tagged: TaggedOrder, moves: nat -> Move, k: nat)
    requires k >= 1
    ensures var (book', calls, _) := Attempt(book, tagged, k, moves(k));
            && (forall i :: 0 <= i < |calls| ==> Truthful(book, tagged, moves, calls, i))
            && book' == if Landed(calls, |calls|) then book + [tagged] else book
  {
    var (book', calls, _) := Attempt(book, tagged, k, moves(k));
    if calls[|calls| - 1].PlacedOrder? && moves(k).place.landed {
      assert Landed(calls, |calls|);
    }
  }

  lemma HoldsNew(book: seq<TaggedOrder>, tagged: TaggedOrder)
    ensures Holds(book + [tagged], tagged.original.clientOrderId)
  {
    assert (book + [tagged])[|book|] == tagged;
  }

  /** The book grows by at most this one tagged order; not at all once the broker holds the id. */
  lemma {:induction false} RetryAddsAtMostOne(book: seq<TaggedOrder>, tagged: TaggedOrder, moves: nat -> Move,
      attempt: nat, maxRetries: int, e: string)
    ensures var after := Retry(book, tagged, moves, attempt, maxRetries, e).book;
            && (after == book || after == book + [tagged])
            && (attempt >= 1 && Holds(book, tagged.original.clientOrderId) ==> after == book)
    decreases maxRetries + 1 - attempt
  {
    if attempt <= maxRetries {
      var (book', _, step) := Attempt(book, tagged, attempt + 1, moves(attempt + 1));
      HoldsNew(book, tagged);
      if step.TryAgain? {
        RetryAddsAtMostOne(book', tagged, moves, attempt + 1, maxRetries, step.error);
      }
    }
  }

  /** One submission, however the broker fails: at most one order recorded and nothing else
      touched; every re-place follows a query of the same attempt that found nothing; only
      the approved tagged order is placed; at most maxRetries + 1 attempts are made. */
  lemma {:induction false} SubmitIsSafe(book: seq<TaggedOrder>, order: OrderIntent, decision: ComplianceDecision,
      moves: nat -> Move, maxRetries: int)
    requires ComplianceContract(order, decision) && decision.approved
    ensures var tagged := decision.tagged.value;
            var run := Submission(book, tagged, moves, maxRetries);
            && tagged.original == order
            && (run.book == book || run.book == book + [tagged])
            && Disciplined(run.calls, tagged, 1, maxRetries + 1)
  {
    RetryAddsAtMostOne(book, decision.tagged.value, moves, 0, maxRetries, "");
    RetryDisciplined(book, decision.tagged.value, moves, 0, maxRetries, "");
  }

  // ---- Runs of submissions ----

  /** One approved submission: its tagged order and the broker's choices. */
  datatype Request = Request(tagged: TaggedOrder, moves: nat -> Move)

  function SubmitAll(book: seq<TaggedOrder>, reqs: seq<Request>, maxRetries: int): seq<TaggedOrder> {
    if reqs == [] then book
    else Submission(SubmitAll(book, Front(reqs), maxRetries), Last(reqs).tagged, Last(reqs).moves, maxRetries).book
  }

  function IdOf(r: Request): string {
    r.tagged.original.clientOrderId
  }

  /** How many orders with this id the broker holds. */
  function Copies(book: seq<TaggedOrder>, id: string): nat {
    if book == [] then 0 else Copies(Front(book), id) + (if Last(book).original.clientOrderId == id then 1 else 0)
  }

  /** The submissions of this id whose first attempt, which no query precedes, takes effect although the id is held. */
  function BlindDuplicates(book: seq<TaggedOrder>, reqs: seq<Request>, maxRetries: int, id: string): nat {
    if reqs == [] then 0
    else
      BlindDuplicates(book, Front(reqs), maxRetries, id) +
      (if IdOf(Last(reqs)) == id && Holds(SubmitAll(book, Front(reqs), maxRetries), id)
          && 0 <= maxRetries && Last(reqs).moves(1).place.landed then 1 else 0)
  }

  lemma {:induction false} CopiesHeld(book: seq<TaggedOrder>, id: string)
    ensures Copies(book, id) > 0 <==> Holds(book, id)
  {
    if book != [] {
      CopiesHeld(Front(book), id);
      if Holds(Front(book), id) {
        var i :| 0 <= i < |Front(book)| && Front(book)[i].original.clientOrderId == id;
        assert book[i].original.clientOrderId == id;
      }
    }
  }

  lemma CopiesAdded(book: seq<TaggedOrder>, tagged: TaggedOrder, id: string)
    ensures Copies(book + [tagged], id) == Copies(book, id) + (if tagged.original.clientOrderId == id then 1 else 0)
  {
    AppendFrontLast(book, tagged);
  }

  /** Submitting an id the broker already holds adds another order exactly when the blind first attempt takes effect. */
  lemma {:induction false} ResubmissionDuplicates(book: seq<TaggedOrder>, tagged: TaggedOrder, moves: nat -> Move,
      maxRetries: int)
    requires Holds(book, tagged.original.clientOrderId)
    ensures Submission(book, tagged, moves, maxRetries).book ==
            if 0 <= maxRetries && moves(1).place.landed then book + [tagged] else book
  {
    if 0 <= maxRetries {
      var (book', _, step) := Attempt(book, tagged, 1, moves(1));
      HoldsNew(book, tagged);
      if step.TryAgain? {
        RetryAddsAtMostOne(book', tagged, moves, 1, maxRetries, step.error);
      }
    }
  }

  /** Over any run of submissions the broker gains, of each id, one order if it did not hold the id before and does
      after, and one for each blind duplicate. */
  lemma {:induction false} RunRecordsCopies(book: seq<TaggedOrder>, reqs: seq<Request>, maxRetries: int, id: string)
    ensures var after := SubmitAll(book, reqs, maxRetries);
            Copies(after, id) == Copies(book, id) + (if !Holds(book, id) && Holds(after, id) then 1 else 0)
                                 + BlindDuplicates(book, reqs, maxRetries, id)
    ensures Holds(book, id) ==> Holds(SubmitAll(book, reqs, maxRetries), id)
  {
    CopiesHeld(book, id);
    if reqs != [] {
      var before, r := SubmitAll(book, Front(reqs), maxRetries), Last(reqs);
      var after := SubmitAll(book, reqs, maxRetries);
      RunRecordsCopies(book, Front(reqs), maxRetries, id);
      CopiesHeld(before, id);
      CopiesHeld(after, id);
      CopiesAdded(before, r.tagged, id);
      RetryAddsAtMostOne(before, r.tagged, r.moves, 0, maxRetries, "");
      if IdOf(r) == id && Holds(before, id) {
        ResubmissionDuplicates(before, r.tagged, r.moves, maxRetries);
        AtLongest(before, r.tagged);
      }
      hide Retry, Copies, Holds;
    }
  }

  lemma AtLongest(book: seq<TaggedOrder>, tagged: TaggedOrder)
    ensures book != book + [tagged]
  {
    assert |book + [tagged]| == |book| + 1;
  }

  predicate DistinctIds(reqs: seq<Request>) {
    forall i, j :: 0 <= i < j < |reqs| ==> IdOf(reqs[i]) != IdOf(reqs[j])
  }

  predicate Submits(reqs: seq<Request>, id: string) {
    exists i :: 0 <= i < |reqs| && IdOf(reqs[i]) == id
  }

  /** The broker only gains ids that are submitted. */
  lemma {:induction false} OnlySubmittedIds(book: seq<TaggedOrder>, reqs: seq<Request>, maxRetries: int, id: string)
    requires !Submits(reqs, id)
    ensures Copies(SubmitAll(book, reqs, maxRetries), id) == Copies(book, id)
  {
    if reqs != [] {
      var before, r := SubmitAll(book, Front(reqs), maxRetries), Last(reqs);
      assert !Submits(Front(reqs), id) by {
        assert forall i :: 0 <= i < |Front(reqs)| ==> Front(reqs)[i] == reqs[i];
      }
      assert IdOf(reqs[|reqs| - 1]) != id;
      OnlySubmittedIds(book, Front(reqs), maxRetries, id);
      CopiesAdded(before, r.tagged, id);
      RetryAddsAtMostOne(before, r.tagged, r.moves, 0, maxRetries, "");
      hide Retry, Copies;
    }
  }

  /** Distinct ids that the broker does not hold are each recorded at most once, over the whole run. */
  lemma {:induction false} DistinctIdsOnce(book: seq<TaggedOrder>, reqs: seq<Request>, maxRetries: int, id: string)
    requires DistinctIds(reqs) && !Holds(book, id)
    ensures Copies(SubmitAll(book, reqs, maxRetries), id) <= 1
  {
    CopiesHeld(book, id);
    if reqs != [] {
      var before, r := SubmitAll(book, Front(reqs), maxRetries), Last(reqs);
      assert DistinctIds(Front(reqs)) by {
        assert forall i :: 0 <= i < |Front(reqs)| ==> Front(reqs)[i] == reqs[i];
      }
      CopiesAdded(before, r.tagged, id);
      RetryAddsAtMostOne(before, r.tagged, r.moves, 0, maxRetries, "");
      if IdOf(r) == id {
        forall i | 0 <= i < |Front(reqs)|
          ensures IdOf(Front(reqs)[i]) != id
        {
          assert IdOf(reqs[i]) != IdOf(reqs[|reqs| - 1]);
        }
        OnlySubmittedIds(book, Front(reqs), maxRetries, id);
      } else {
        DistinctIdsOnce(book, Front(reqs), maxRetries, id);
      }
      hide Retry, Copies;
    }
  }

  // ---- What a missing fill means ----

  ghost predicate FailedQuery(e: Event) {
    e.Queried? && e.answer == Failed
  }

  /** Call i is a placement that took effect, and only failed queries come after it. */
  ghost predicate LostPlacement(calls: seq<Event>, i: int) {
    && 0 <= i < |calls| && calls[i].PlacedOrder? && calls[i].landed
    && forall j :: i < j < |calls| ==> FailedQuery(calls[j])
  }

  ghost predicate HasLostPlacement(calls: seq<Event>) {
    exists i :: LostPlacement(calls, i)
  }

  /** Calls before the last placement do not matter. */
  lemma LostAppend(first: seq<Event>, rest: seq<Event>)
    requires forall i :: 0 <= i < |first| && first[i].PlacedOrder? ==> !first[i].landed
    ensures HasLostPlacement(first + rest) <==> HasLostPlacement(rest)
  {
    if i :| LostPlacement(rest, i) {
      assert LostPlacement(first + rest, |first| + i);
    }
    if i :| LostPlacement(first + rest, i) {
      assert i >= |first|;
      assert forall j :: 0 <= j < |rest| ==> rest[j] == (first + rest)[|first| + j];
      assert LostPlacement(rest, i - |first|);
    }
  }

  /** Once the broker holds the id, a loop that ends without a fill makes failed queries only. */
  lemma {:induction false} HeldMeansFailedQueries(book: seq<TaggedOrder>, tagged: TaggedOrder, moves: nat -> Move,
      attempt: nat, maxRetries: int, e: string)
    requires attempt >= 1 && Holds(book, tagged.original.clientOrderId)
    requires Retry(book, tagged, moves, attempt, maxRetries, e).result.NoFill?
    ensures forall c :: c in Retry(book, tagged, moves, attempt, maxRetries, e).calls ==> FailedQuery(c)
    decreases maxRetries + 1 - attempt
  {
    if attempt <= maxRetries {
      var (book', calls, step) := Attempt(book, tagged, attempt + 1, moves(attempt + 1));
      if step.TryAgain? {
        HeldMeansFailedQueries(book, tagged, moves, attempt + 1, maxRetries, step.error);
      }
    }
  }

  lemma {:induction false} LostMeansRecorded(book: seq<TaggedOrder>, tagged: TaggedOrder, moves: nat -> Move,
      attempt: nat, maxRetries: int, e: string)
    requires Retry(book, tagged, moves, attempt, maxRetries, e).result.NoFill?
    ensures var run := Retry(book, tagged, moves, attempt, maxRetries, e);
            run.book != book <==> HasLostPlacement(run.calls)
    decreases maxRetries + 1 - attempt
  {
    if attempt <= maxRetries {
      var (book', calls, step) := Attempt(book, tagged, attempt + 1, moves(attempt + 1));
      HoldsNew(book, tagged);
      if book' != book {
        assert LostPlacement(calls, |calls| - 1);
      }
      if step.TryAgain? {
        var rest := Retry(book', tagged, moves, attempt + 1, maxRetries, step.error);
        RetryAddsAtMostOne(book', tagged, moves, attempt + 1, maxRetries, step.error);
        if book' != book {
          HeldMeansFailedQueries(book', tagged, moves, attempt + 1, maxRetries, step.error);
          assert LostPlacement(calls + rest.calls, |calls| - 1);
        } else {
          LostMeansRecorded(book', tagged, moves, attempt + 1, maxRetries, step.error);
          LostAppend(calls, rest.calls);
        }
      }
    }
  }

  /** A dead-lettered order is nevertheless at the broker exactly when some placement took
      effect although it raised and every later query failed: no query follows the last attempt. */
  lemma {:induction false} DeadLetterMayHoldOrder(book: seq<TaggedOrder>, tagged: TaggedOrder, moves: nat -> Move,
      maxRetries: int)
    requires Submission(book, tagged, moves, maxRetries).result.NoFill?
    requires !Holds(book, tagged.original.clientOrderId)
    ensures var run := Submission(book, tagged, moves, maxRetries);
            Holds(run.book, tagged.original.clientOrderId) <==> HasLostPlacement(run.calls)
  {
    LostMeansRecorded(book, tagged, moves, 0, maxRetries, "");
    RetryAddsAtMostOne(book, tagged, moves, 0, maxRetries, "");
    HoldsNew(book, tagged);
  }

  /** It does happen: a single timeout on the last attempt. */
  lemma {:induction false} DeadLetteredButPlaced(tagged: TaggedOrder, report: FillReport)
    ensures var moves := (n: nat) => Move(Answer(report), PlaceTransient("timeout", true));
            var run := Submission([], tagged, moves, 0);
            run.result == NoFill("timeout", 1) && Holds(run.book, tagged.original.clientOrderId)
  {
    var moves := (n: nat) => Move(Answer(report), PlaceTransient("timeout", true));
    HoldsNew([], tagged);
    assert [] + [tagged] == [tagged];
    assert Retry([tagged], tagged, moves, 1, 0, "timeout").result == NoFill("timeout", 1);
  }

  /** Progress: if some attempt within the budget is answered and no earlier one raises a
      permanent error, the submission returns a fill. */
  lemma {:induction false} EventuallyFills(book: seq<TaggedOrder>, tagged: TaggedOrder, moves: nat -> Move,
      attempt: nat, maxRetries: int, e: string, good: nat)
    requires attempt < good <= maxRetries + 1
    requires moves(good).query.Answer? && moves(good).place.Accept?
    requires forall k: nat :: attempt < k < good ==> !moves(k).query.QueryPermanent? && !moves(k).place.PlacePermanent?
    ensures Retry(book, tagged, moves, attempt, maxRetries, e).result.Fill?
    ensures Retry(book, tagged, moves, attempt, maxRetries, e).result.attempt <= good
    decreases maxRetries + 1 - attempt
  {
    var (book', _, step) := Attempt(book, tagged, attempt + 1, moves(attempt + 1));
    if step.TryAgain? {
      EventuallyFills(book', tagged, moves, attempt + 1, maxRetries, step.error, good);
    }
  }
}
