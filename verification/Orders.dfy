/** Orders, fills, the dead-letter queue and the broker as an adversary. */
module Orders {
  import opened Common

  datatype OrderIntent = OrderIntent(
    clientOrderId: string, symbol: string, exchange: string, direction: string, orderType: string,
    quantity: int, stopLoss: real, strategyName: string, isExit: bool, isPriority: bool)

  datatype TaggedOrder = TaggedOrder(original: OrderIntent, strategyTag: string, effectiveOrderType: string,
      mppPrice: Option<real>)

  datatype ComplianceDecision = ComplianceDecision(approved: bool, violations: seq<string>,
      tagged: Option<TaggedOrder>, auditId: string)

  /** What the compliance engine promises: an approval carries the tagged form of this very order. */
  predicate ComplianceContract(order: OrderIntent, d: ComplianceDecision) {
    d.approved ==> d.violations == [] && d.tagged.Some? && d.tagged.value.original == order
  }

  datatype OrderStatus = Pending | Placed | Filled | PartiallyFilled | Rejected | Cancelled

  datatype FillReport = FillReport(
    clientOrderId: string, brokerOrderId: Option<string>, symbol: string, exchange: string, direction: string,
    filledQuantity: int, requestedQuantity: int, filledPrice: Option<real>, status: OrderStatus,
    rejectionReason: Option<string>, placedAtMs: int, filledAtMs: Option<int>, slippagePct: Option<real>,
    isPartial: bool, slQuantity: int, attemptCount: int, strategyTag: string, complianceAuditId: string)

  datatype DeadLetterEntry = DeadLetterEntry(
    clientOrderId: string, symbol: string, exchange: string, lastError: string,
    attemptCount: int, enqueuedAtMs: int, strategyTag: string)

  class DeadLetterQueue {
    var entries: seq<DeadLetterEntry>

    constructor ()
      ensures entries == []
    {
      entries := [];
    }

    method Enqueue(entry: DeadLetterEntry)
      modifies this
      ensures entries == old(entries) + [entry]
    {
      entries := entries + [entry];
    }

    /** The slice from `-count`: the last `count` entries, every entry for zero, all but the first ones for a negative
        count. */
    method Peek(count: int) returns (tail: seq<DeadLetterEntry>)
      ensures exists front :: front + tail == entries
      ensures |tail| == if count > 0 then (if count < |entries| then count else |entries|)
                        else if |entries| + count > 0 then |entries| + count else 0
    {
      var cut := if count > 0 then |entries| - count else -count;
      cut := if cut < 0 then 0 else if cut > |entries| then |entries| else cut;
      tail := entries[cut..];
      assert entries[..cut] + tail == entries;
    }
  }

  // ---- The broker ----

  /** What the broker does with a place call: answer or raise, and whether the order took
      effect. A raised error says nothing about the effect. */
  datatype PlaceOutcome = Accept(report: FillReport, landed: bool)
    | PlaceTransient(message: string, landed: bool)
    | PlacePermanent(message: string, landed: bool)

  /** What it does with a query: a truthful answer (with this report if the order is there) or an error. */
  datatype QueryOutcome = Answer(report: FillReport) | QueryTransient(message: string) | QueryPermanent(message: string)

  /** The broker's choices for one attempt. */
  datatype Move = Move(query: QueryOutcome, place: PlaceOutcome)

  datatype QueryAnswer = Found | NotFound | Failed

  datatype Event = Queried(attempt: int, answer: QueryAnswer)
      | PlacedOrder(attempt: int, tagged: TaggedOrder, landed: bool)

  predicate Holds(book: seq<TaggedOrder>, id: string) {
    exists i :: 0 <= i < |book| && book[i].original.clientOrderId == id
  }

  function AfterPlace(book: seq<TaggedOrder>, tagged: TaggedOrder, landed: bool): seq<TaggedOrder> {
    if landed then book + [tagged] else book
  }

  function Answered(book: seq<TaggedOrder>, id: string, q: QueryOutcome): QueryAnswer {
    if !q.Answer? then Failed else if Holds(book, id) then Found else NotFound
  }

  datatype Reply = Report(report: FillReport) | NoOrder | Transient(message: string) | Permanent(message: string)

  /** The orders the broker holds, and every call made to it. */
  class Broker {
    var book: seq<TaggedOrder>
    ghost var log: seq<Event>

    constructor (book: seq<TaggedOrder>)
      ensures this.book == book && log == []
    {
      this.book, log := book, [];
    }

    method PlaceOrder(tagged: TaggedOrder, attempt: int, outcome: PlaceOutcome) returns (r: Reply)
      modifies this
      ensures book == AfterPlace(old(book), tagged, outcome.landed)
      ensures log == old(log) + [PlacedOrder(attempt, tagged, outcome.landed)]
      ensures r == match outcome
                   case Accept(report, _) => Report(report)
                   case PlaceTransient(m, _) => Transient(m)
                   case PlacePermanent(m, _) => Permanent(m)
    {
      log := log + [PlacedOrder(attempt, tagged, outcome.landed)];
      if outcome.landed {
        book := book + [tagged];
      }
      match outcome
      case Accept(report, _) => r := Report(report);
      case PlaceTransient(m, _) => r := Transient(m);
      case PlacePermanent(m, _) => r := Permanent(m);
    }

    method QueryOrder(id: string, attempt: int, outcome: QueryOutcome) returns (r: Reply)
      modifies this`log
      ensures log == old(log) + [Queried(attempt, Answered(book, id, outcome))]
      ensures r == match outcome
                   case Answer(report) => if Holds(book, id) then Report(report) else NoOrder
                   case QueryTransient(m) => Transient(m)
                   case QueryPermanent(m) => Permanent(m)
    {
      log := log + [Queried(attempt, Answered(book, id, outcome))];
      match outcome
      case Answer(report) => r := if Holds(book, id) then Report(report) else NoOrder;
      case QueryTransient(m) => r := Transient(m);
      case QueryPermanent(m) => r := Permanent(m);
    }
  }
}
