/** Restart: replaying the interleaved order events of the journal
    (`unresolved_local_orders`, src/app.rs). */
module Replay {
  import opened Common
  import opened Orders
  import opened Journals

  datatype RecoveryError =
    | IntentChanged
    | LegacyWithoutOperationId
    | OrphanState
    | InvalidState(state: Violation)
    | InvalidStateTransition(transition: Violation)
    | UnknownWithoutIntent
    | UnknownChangedIntent
    | UnknownAfterTerminal
    | ExposureWithoutIntent
    | InvalidExposure(exposure: Violation)
    | IncoherentExposure

  // ----- one event at a time, over the maps the program keeps -----

  datatype OrderBook = OrderBook(
    requests: map<string, OrderRequest>,
    latest: map<string, OrderExecution>,
    pending: set<string>)

  const EmptyBook := OrderBook(map[], map[], {})

  /** An order that needs no reconciliation any more. */
  predicate Resolves(execution: OrderExecution) {
    || execution.status.Executed?
    || execution.status.Rejected?
    || (execution.status.Cancelled? && execution.filledQuantity == 0)
  }

  function LegacyRequest(operationId: string, event: EventKind): OrderRequest
    requires event.OrderSubmitted?
  {
    OrderRequest(operationId, event.symbol, event.quantity, event.limitPrice, event.limitPrice, event.side)
  }

  function RecordIntent(book: OrderBook, request: OrderRequest): Result<OrderBook, RecoveryError> {
    var id := request.operationId;
    if id in book.requests && book.requests[id] != request then Err(IntentChanged)
    else Ok(book.(requests := book.requests[id := request], pending := book.pending + {id}))
  }

  function RecordState(book: OrderBook, execution: OrderExecution): Result<OrderBook, RecoveryError> {
    var id := execution.operationId;
    if id !in book.requests then Err(OrphanState)
    else if ValidateOrderExecution(book.requests[id], execution).Some? then
      Err(InvalidState(ValidateOrderExecution(book.requests[id], execution).value))
    else if id in book.latest && book.latest[id] != execution
            && ValidateOrderTransition(book.latest[id], execution).Some? then
      Err(InvalidStateTransition(ValidateOrderTransition(book.latest[id], execution).value))
    else
      Ok(book.(latest := book.latest[id := execution],
               pending := if Resolves(execution) then book.pending - {id} else book.pending + {id}))
  }

  function RecordUnknown(book: OrderBook, request: OrderRequest): Result<OrderBook, RecoveryError> {
    var id := request.operationId;
    if id !in book.requests then Err(UnknownWithoutIntent)
    else if book.requests[id] != request then Err(UnknownChangedIntent)
    else if id in book.latest && IsTerminal(book.latest[id]) then Err(UnknownAfterTerminal)
    else Ok(book.(pending := book.pending + {id}))
  }

  function RecordExposure(book: OrderBook, execution: OrderExecution, requested: u32, remaining: u32)
    : Result<OrderBook, RecoveryError>
  {
    var id := execution.operationId;
    if id !in book.requests then Err(ExposureWithoutIntent)
    else if ValidateOrderExecution(book.requests[id], execution).Some? then
      Err(InvalidExposure(ValidateOrderExecution(book.requests[id], execution).value))
    else if book.requests[id].quantity != requested
            || execution.RemainingQuantity(requested) != remaining
            || !(id in book.latest && book.latest[id] == execution) then Err(IncoherentExposure)
    else Ok(book.(pending := book.pending + {id}))
  }

  function ApplyOrderEvent(book: OrderBook, event: JournalEvent): Result<OrderBook, RecoveryError> {
    match event.kind
    case OrderIntentCreated(request) => RecordIntent(book, request)
    case OrderSubmitted(_, _, _, _) =>
      if event.operationId.None? then Err(LegacyWithoutOperationId)
      else RecordIntent(book, LegacyRequest(event.operationId.value, event.kind))
    case OrderAccepted(execution) => RecordState(book, execution)
    case OrderUpdated(execution) => RecordState(book, execution)
    case OrderUnknown(request, _) => RecordUnknown(book, request)
    case PartialFillExposure(execution, requested, remaining) => RecordExposure(book, execution, requested, remaining)
    case _ => Ok(book)
  }

  function ReplayAll(events: seq<JournalEvent>): Result<OrderBook, RecoveryError> {
    if events == [] then Ok(EmptyBook)
    else
      var before := ReplayAll(events[..|events| - 1]);
      if before.Err? then before else ApplyOrderEvent(before.value, events[|events| - 1])
  }

  predicate Accepted(events: seq<JournalEvent>) {
    ReplayAll(events).Ok?
  }

  function PendingOrders(events: seq<JournalEvent>): set<string>
    requires Accepted(events)
  {
    ReplayAll(events).value.pending
  }

  /** The loop of the program: three collections, first error wins. */
  method UnresolvedLocalOrders(events: seq<JournalEvent>) returns (result: Result<set<string>, RecoveryError>)
    ensures result.Ok? <==> Accepted(events)
    ensures result.Ok? ==> result.value == PendingOrders(events)
    ensures result.Err? ==> exists n | 0 <= n < |events| ::
              && Accepted(events[..n])
              && ReplayAll(events[..n + 1]) == Err(result.error)
  {
    var requests: map<string, OrderRequest> := map[];
    var latest: map<string, OrderExecution> := map[];
    var pending: set<string> := {};
    for n := 0 to |events|
      invariant ReplayAll(events[..n]) == Ok(OrderBook(requests, latest, pending))
    {
      var event := events[n];
      assert events[..n + 1][..n] == events[..n];
      if !Accepted(events[..n + 1]) {
        RejectedPrefix(events, n + 1);
      }
      match event.kind {
        case OrderIntentCreated(request) =>
          if request.operationId in requests && requests[request.operationId] != request {
            return Err(IntentChanged);
          }
          requests := requests[request.operationId := request];
          pending := pending + {request.operationId};
        case OrderSubmitted(_, _, _, _) =>
          if event.operationId.None? {
            return Err(LegacyWithoutOperationId);
          }
          var id := event.operationId.value;
          var request := LegacyRequest(id, event.kind);
          if id in requests && requests[id] != request {
            return Err(IntentChanged);
          }
          requests := requests[id := request];
          pending := pending + {id};
        case OrderAccepted(execution) =>
          var recorded := RecordState(OrderBook(requests, latest, pending), execution);
          if recorded.Err? {
            return Err(recorded.error);
          }
          latest := latest[execution.operationId := execution];
          if Resolves(execution) {
            pending := pending - {execution.operationId};
          } else {
            pending := pending + {execution.operationId};
          }
        case OrderUpdated(execution) =>
          var recorded := RecordState(OrderBook(requests, latest, pending), execution);
          if recorded.Err? {
            return Err(recorded.error);
          }
          latest := latest[execution.operationId := execution];
          if Resolves(execution) {
            pending := pending - {execution.operationId};
          } else {
            pending := pending + {execution.operationId};
          }
        case OrderUnknown(request, _) =>
          var recorded := RecordUnknown(OrderBook(requests, latest, pending), request);
          if recorded.Err? {
            return Err(recorded.error);
          }
          pending := pending + {request.operationId};
        case PartialFillExposure(execution, requested, remaining) =>
          var recorded := RecordExposure(OrderBook(requests, latest, pending), execution, requested, remaining);
          if recorded.Err? {
            return Err(recorded.error);
          }
          pending := pending + {execution.operationId};
        case _ =>
      }
    }
    assert events[..|events|] == events;
    result := Ok(pending);
  }

  /** An error is final: no later event repairs the replay. */
  lemma {:induction false} RejectedPrefix(events: seq<JournalEvent>, n: nat)
    requires n <= |events| && !Accepted(events[..n])
    ensures !Accepted(events)
    ensures ReplayAll(events) == ReplayAll(events[..n])
    decreases |events|
  {
    if n < |events| {
      assert events[..|events| - 1][..n] == events[..n];
      RejectedPrefix(events[..|events| - 1], n);
    } else {
      assert events[..n] == events;
    }
  }
}
