/** What the replay means: it treats every operation on its own, its verdict is a
    condition on pairs of events, and its answer can be read off the last event
    of each operation. */
module ReplayLaws {
  import opened Common
  import opened Orders
  import opened Journals
  import opened Replay

  // ----- reading one event -----

  function IntentOf(event: JournalEvent): Option<OrderRequest> {
    match event.kind
    case OrderIntentCreated(request) => Some(request)
    case OrderSubmitted(_, _, _, _) =>
      if event.operationId.None? then None else Some(LegacyRequest(event.operationId.value, event.kind))
    case _ => None
  }

  function StateOf(event: JournalEvent): Option<OrderExecution> {
    match event.kind
    case OrderAccepted(execution) => Some(execution)
    case OrderUpdated(execution) => Some(execution)
    case _ => None
  }

  /** The operation an order event is about. */
  function Subject(event: JournalEvent): Option<string> {
    match event.kind
    case OrderIntentCreated(request) => Some(request.operationId)
    case OrderSubmitted(_, _, _, _) => event.operationId
    case OrderAccepted(execution) => Some(execution.operationId)
    case OrderUpdated(execution) => Some(execution.operationId)
    case OrderUnknown(request, _) => Some(request.operationId)
    case PartialFillExposure(execution, _, _) => Some(execution.operationId)
    case _ => None
  }

  predicate AnonymousLegacy(event: JournalEvent) {
    event.kind.OrderSubmitted? && event.operationId.None?
  }

  predicate ResolvingEvent(event: JournalEvent) {
    StateOf(event).Some? && Resolves(StateOf(event).value)
  }

  predicate IsIntent(events: seq<JournalEvent>, i: nat, id: string)
    requires i < |events|
  {
    IntentOf(events[i]).Some? && IntentOf(events[i]).value.operationId == id
  }

  predicate IsState(events: seq<JournalEvent>, i: nat, id: string)
    requires i < |events|
  {
    StateOf(events[i]).Some? && StateOf(events[i]).value.operationId == id
  }

  // ----- 1. operations do not interfere -----

  function SubJournal(events: seq<JournalEvent>, id: string): seq<JournalEvent> {
    if events == [] then []
    else
      var rest := SubJournal(events[..|events| - 1], id);
      var last := events[|events| - 1];
      if Subject(last) == Some(id) then rest + [last] else rest
  }

  function Project(book: OrderBook, id: string): OrderBook {
    OrderBook(
      if id in book.requests then map[id := book.requests[id]] else map[],
      if id in book.latest then map[id := book.latest[id]] else map[],
      if id in book.pending then {id} else {})
  }

  /** What every order event does to the book of another operation: nothing. */
  lemma OtherOperationsUntouched(book: OrderBook, event: JournalEvent, id: string)
    requires Subject(event) != Some(id) && ApplyOrderEvent(book, event).Ok?
    ensures Project(ApplyOrderEvent(book, event).value, id) == Project(book, id)
  {
    var after := ApplyOrderEvent(book, event).value;
    assert id in after.requests <==> id in book.requests;
    assert id in after.latest <==> id in book.latest;
    assert id in after.pending <==> id in book.pending;
  }

  lemma ProjectIntent(book: OrderBook, request: OrderRequest)
    ensures var id := request.operationId;
            var own, whole := RecordIntent(Project(book, id), request), RecordIntent(book, request);
            (own.Ok? <==> whole.Ok?) && (whole.Ok? ==> own.value == Project(whole.value, id))
  {
  }

  lemma ProjectState(book: OrderBook, execution: OrderExecution)
    ensures var id := execution.operationId;
            var own, whole := RecordState(Project(book, id), execution), RecordState(book, execution);
            (own.Ok? <==> whole.Ok?) && (whole.Ok? ==> own.value == Project(whole.value, id))
  {
  }

  lemma ProjectUnknown(book: OrderBook, request: OrderRequest)
    ensures var id := request.operationId;
            var own, whole := RecordUnknown(Project(book, id), request), RecordUnknown(book, request);
            (own.Ok? <==> whole.Ok?) && (whole.Ok? ==> own.value == Project(whole.value, id))
  {
  }

  lemma ProjectExposure(book: OrderBook, execution: OrderExecution, requested: u32, remaining: u32)
    ensures var id := execution.operationId;
            var own := RecordExposure(Project(book, id), execution, requested, remaining);
            var whole := RecordExposure(book, execution, requested, remaining);
            (own.Ok? <==> whole.Ok?) && (whole.Ok? ==> own.value == Project(whole.value, id))
  {
  }

  lemma OwnStepProjects(book: OrderBook, event: JournalEvent, id: string)
    requires Subject(event) == Some(id)
    ensures var own, whole := ApplyOrderEvent(Project(book, id), event), ApplyOrderEvent(book, event);
            (own.Ok? <==> whole.Ok?) && (whole.Ok? ==> own.value == Project(whole.value, id))
  {
    match event.kind
    case OrderIntentCreated(request) => ProjectIntent(book, request);
    case OrderSubmitted(_, _, _, _) => ProjectIntent(book, LegacyRequest(id, event.kind));
    case OrderAccepted(execution) => ProjectState(book, execution);
    case OrderUpdated(execution) => ProjectState(book, execution);
    case OrderUnknown(request, _) => ProjectUnknown(book, request);
    case PartialFillExposure(execution, requested, remaining) => ProjectExposure(book, execution, requested, remaining);
  }

  lemma {:induction false} ReplayProjects(events: seq<JournalEvent>, id: string)
    requires Accepted(events)
    ensures ReplayAll(SubJournal(events, id)) == Ok(Project(ReplayAll(events).value, id))
  {
    if events != [] {
      var rest, last := events[..|events| - 1], events[|events| - 1];
      ReplayProjects(rest, id);
      var own := SubJournal(rest, id);
      if Subject(last) == Some(id) {
        OwnStepProjects(ReplayAll(rest).value, last, id);
      } else {
        OtherOperationsUntouched(ReplayAll(rest).value, last, id);
      }
      assert (own + [last])[..|own|] == own;
    }
  }

  lemma SubJournalPrefix(events: seq<JournalEvent>, id: string)
    requires events != [] && Accepted(SubJournal(events, id))
    ensures Accepted(SubJournal(events[..|events| - 1], id))
  {
    var rest := SubJournal(events[..|events| - 1], id);
    if !Accepted(rest) {
      assert SubJournal(events, id)[..|rest|] == rest;
      RejectedPrefix(SubJournal(events, id), |rest|);
    }
  }

  /** Every operation replays on its own, and no legacy event is anonymous. */
  ghost predicate EachOperationAccepted(events: seq<JournalEvent>) {
    && (forall i | 0 <= i < |events| :: !AnonymousLegacy(events[i]))
    && (forall id :: Accepted(SubJournal(events, id)))
  }

  /** The interleaved journal replays exactly when each operation does alone, and
      then each operation is pending exactly when it is pending alone. */
  lemma {:induction false} ReplayDecomposes(events: seq<JournalEvent>)
    ensures Accepted(events) <==> EachOperationAccepted(events)
    ensures Accepted(events) ==> forall id ::
              var own := SubJournal(events, id);
              id in PendingOrders(events) <==> Accepted(own) && id in PendingOrders(own)
  {
    if EachOperationAccepted(events) {
      Recompose(events);
    }
    if Accepted(events) {
      NoAnonymousLegacy(events);
      forall id
        ensures Accepted(SubJournal(events, id))
        ensures id in PendingOrders(events) <==> id in PendingOrders(SubJournal(events, id))
      {
        ReplayProjects(events, id);
      }
      assert EachOperationAccepted(events);
    }
  }

  lemma {:induction false} NoAnonymousLegacy(events: seq<JournalEvent>)
    requires Accepted(events)
    ensures forall i | 0 <= i < |events| :: !AnonymousLegacy(events[i])
  {
    if events != [] {
      NoAnonymousLegacy(events[..|events| - 1]);
    }
  }

  lemma {:induction false} Recompose(events: seq<JournalEvent>)
    requires forall i | 0 <= i < |events| :: !AnonymousLegacy(events[i])
    requires forall id :: Accepted(SubJournal(events, id))
    ensures Accepted(events)
  {
    if events != [] {
      var rest, last := events[..|events| - 1], events[|events| - 1];
      forall id ensures Accepted(SubJournal(rest, id)) {
        SubJournalPrefix(events, id);
      }
      Recompose(rest);
      assert !AnonymousLegacy(last);
      if Subject(last).Some? {
        var id := Subject(last).value;
        var own := SubJournal(rest, id);
        assert (own + [last])[..|own|] == own;
        assert Accepted(SubJournal(events, id));
        ReplayProjects(rest, id);
        OwnStepProjects(ReplayAll(rest).value, last, id);
      }
    }
  }

  // ----- 2. the answer is the last event of each operation -----

  /** An operation needs reconciliation exactly when it has order events and the
      last of them is not a full fill, a rejection or a zero-fill cancel. */
  lemma {:induction false} PendingIsLastEvent(events: seq<JournalEvent>, id: string)
    requires Accepted(events)
    ensures id in PendingOrders(events) <==>
              var own := SubJournal(events, id);
              own != [] && !ResolvingEvent(own[|own| - 1])
  {
    if events != [] {
      var rest, last := events[..|events| - 1], events[|events| - 1];
      PendingIsLastEvent(rest, id);
      StepSetsPending(ReplayAll(rest).value, last, id);
    }
  }

  lemma StepSetsPending(book: OrderBook, event: JournalEvent, id: string)
    requires ApplyOrderEvent(book, event).Ok?
    ensures var after := ApplyOrderEvent(book, event).value;
            id in after.pending <==> if Subject(event) == Some(id) then !ResolvingEvent(event) else id in book.pending
  {
  }

  /** The same over the fields of the last event: an operation is pending unless that
      event is a report of a full fill, of a rejection, or of a cancel with nothing
      filled. */
  lemma {:induction false} PendingExactly(events: seq<JournalEvent>, id: string)
    requires Accepted(events)
    ensures var own := SubJournal(events, id);
            id in PendingOrders(events) <==>
              && own != []
              && var last := own[|own| - 1].kind;
              !((last.OrderAccepted? || last.OrderUpdated?)
                && (last.execution.status in {Executed, Rejected}
                    || (last.execution.status == Cancelled && last.execution.filledQuantity == 0)))
  {
    PendingIsLastEvent(events, id);
  }

  /** What settles an order: a full fill, or an end without any. */
  ghost predicate HoldsNoPart(execution: OrderExecution) {
    execution.status == Executed || execution.filledQuantity == 0
  }

  ghost predicate SettledHoldNoPart(book: OrderBook) {
    && (forall id | id in book.latest :: id in book.requests && ValidExecution(book.requests[id], book.latest[id]))
    && (forall id | id in book.latest && id !in book.pending :: HoldsNoPart(book.latest[id]))
  }

  lemma {:induction false} NoPartIsDropped(events: seq<JournalEvent>)
    requires Accepted(events)
    ensures SettledHoldNoPart(ReplayAll(events).value)
  {
    if events != [] {
      NoPartIsDropped(events[..|events| - 1]);
      StepDropsNoPart(ReplayAll(events[..|events| - 1]).value, events[|events| - 1]);
    }
  }

  lemma StepDropsNoPart(book: OrderBook, event: JournalEvent)
    requires SettledHoldNoPart(book) && ApplyOrderEvent(book, event).Ok?
    ensures SettledHoldNoPart(ApplyOrderEvent(book, event).value)
  {
    hide ValidateOrderExecution, ValidateOrderTransition;
    var after := ApplyOrderEvent(book, event).value;
    if StateOf(event).Some? {
      var execution := StateOf(event).value;
      ValidReportExactly(book.requests[execution.operationId], execution);
      assert ValidExecution(book.requests[execution.operationId], execution);
    }
    assert forall id | id in after.latest && (StateOf(event).None? || id != StateOf(event).value.operationId) ::
      id in book.latest && after.latest[id] == book.latest[id];
    assert forall id | id in book.requests :: id in after.requests && after.requests[id] == book.requests[id];
  }

  /** No money is dropped: an order whose last report filled some but not all of it is
      in the list, whatever happened after that report. */
  lemma {:induction false} PartFilledIsPending(events: seq<JournalEvent>, id: string)
    requires Accepted(events)
    ensures var book := ReplayAll(events).value;
            id in book.latest ==>
              && id in book.requests
              && (0 < book.latest[id].filledQuantity < book.requests[id].quantity ==> id in PendingOrders(events))
  {
    NoPartIsDropped(events);
    var book := ReplayAll(events).value;
    if id in book.latest {
      ValidReportExactly(book.requests[id], book.latest[id]);
    }
  }

  /** A legacy submission stands for an intent at its limit. */
  lemma {:induction false} LegacyIsIntent(events: seq<JournalEvent>, i: nat)
    requires Accepted(events) && i < |events| && events[i].kind.OrderSubmitted?
    ensures events[i].operationId.Some?
    ensures var id := events[i].operationId.value;
            var submitted, requests := events[i].kind, ReplayAll(events).value.requests;
            && id in requests && requests[id].operationId == id
            && requests[id].symbol == submitted.symbol && requests[id].side == submitted.side
            && requests[id].quantity == submitted.quantity
            && requests[id].marketPrice == requests[id].limitPrice == submitted.limitPrice
  {
    ReplayRemembers(events);
    AcceptanceIsPairwise(events);
    assert LegalAfter(events[..i], events[i]);
    assert IntentOf(events[i]).Some?;
  }

  // ----- 3. the verdict is a condition on pairs of events -----

  ghost predicate LegalIntent(past: seq<JournalEvent>, request: OrderRequest) {
    forall j | 0 <= j < |past| && IsIntent(past, j, request.operationId) :: IntentOf(past[j]).value == request
  }

  ghost predicate RequestedAs(past: seq<JournalEvent>, request: OrderRequest) {
    exists j :: 0 <= j < |past| && IntentOf(past[j]) == Some(request)
  }

  ghost predicate ValidForIntent(past: seq<JournalEvent>, execution: OrderExecution) {
    exists j :: 0 <= j < |past| && IntentOf(past[j]).Some? && ValidExecution(IntentOf(past[j]).value, execution)
  }

  ghost predicate RequestedQuantity(past: seq<JournalEvent>, id: string, quantity: u32) {
    exists j :: 0 <= j < |past| && IsIntent(past, j, id) && IntentOf(past[j]).value.quantity == quantity
  }

  ghost predicate LastStateIs(past: seq<JournalEvent>, execution: OrderExecution) {
    exists j :: 0 <= j < |past| && StateOf(past[j]) == Some(execution)
                && forall k | j < k < |past| :: !IsState(past, k, execution.operationId)
  }

  ghost predicate FollowsAll(past: seq<JournalEvent>, execution: OrderExecution) {
    forall j | 0 <= j < |past| && IsState(past, j, execution.operationId) :: Follows(StateOf(past[j]).value, execution)
  }

  ghost predicate NoTerminalState(past: seq<JournalEvent>, id: string) {
    forall j | 0 <= j < |past| && IsState(past, j, id) :: !IsTerminal(StateOf(past[j]).value)
  }

  /** The event is legal after `past`, judged against earlier events only: no
      replay state appears here. */
  ghost predicate LegalAfter(past: seq<JournalEvent>, event: JournalEvent) {
    match event.kind
    case OrderIntentCreated(request) => LegalIntent(past, request)
    case OrderSubmitted(_, _, _, _) =>
      event.operationId.Some? && LegalIntent(past, LegacyRequest(event.operationId.value, event.kind))
    case OrderAccepted(execution) => ValidForIntent(past, execution) && FollowsAll(past, execution)
    case OrderUpdated(execution) => ValidForIntent(past, execution) && FollowsAll(past, execution)
    case OrderUnknown(request, _) => RequestedAs(past, request) && NoTerminalState(past, request.operationId)
    case PartialFillExposure(execution, requested, remaining) =>
      && ValidForIntent(past, execution)
      && RequestedQuantity(past, execution.operationId, requested)
      && execution.RemainingQuantity(requested) == remaining
      && LastStateIs(past, execution)
    case _ => true
  }

  /** The book remembers exactly the intents and the last reports of the journal. */
  ghost predicate Remembers(book: OrderBook, events: seq<JournalEvent>) {
    && (forall j | 0 <= j < |events| && IntentOf(events[j]).Some? ::
          var request := IntentOf(events[j]).value;
          request.operationId in book.requests && book.requests[request.operationId] == request)
    && (forall id | id in book.requests :: RequestedAs(events, book.requests[id]) && book.requests[id].operationId == id)
    && (forall j | 0 <= j < |events| && StateOf(events[j]).Some? ::
          var execution := StateOf(events[j]).value;
          && execution.operationId in book.latest && execution.operationId in book.requests
          && Follows(execution, book.latest[execution.operationId])
          && ValidExecution(book.requests[execution.operationId], execution))
    && (forall id | id in book.latest :: book.latest[id].operationId == id && LastStateIs(events, book.latest[id]))
  }

  lemma {:induction false} ReplayRemembers(events: seq<JournalEvent>)
    requires Accepted(events)
    ensures Remembers(ReplayAll(events).value, events)
  {
    if events != [] {
      var rest, last := events[..|events| - 1], events[|events| - 1];
      ReplayRemembers(rest);
      var book, after := ReplayAll(rest).value, ReplayAll(events).value;
      assert Effect(book, last, after) by {
        AcceptedStepHasEffect(book, last);
      }
      StepRemembers(book, rest, last, after);
      assert rest + [last] == events;
    }
  }

  /** What one accepted event does to the memory of requests and last reports. */
  ghost predicate Effect(before: OrderBook, last: JournalEvent, after: OrderBook) {
    && (match IntentOf(last)
        case None => after.requests == before.requests
        case Some(request) =>
          && after.requests == before.requests[request.operationId := request]
          && (request.operationId in before.requests ==> before.requests[request.operationId] == request))
    && (match StateOf(last)
        case None => after.latest == before.latest
        case Some(execution) =>
          var id := execution.operationId;
          && after.latest == before.latest[id := execution]
          && id in before.requests && ValidExecution(before.requests[id], execution)
          && (id in before.latest ==> Follows(before.latest[id], execution)))
  }

  lemma AcceptedStepHasEffect(book: OrderBook, last: JournalEvent)
    requires ApplyOrderEvent(book, last).Ok?
    ensures Effect(book, last, ApplyOrderEvent(book, last).value)
  {
  }

  lemma StepRemembers(book: OrderBook, rest: seq<JournalEvent>, last: JournalEvent, after: OrderBook)
    requires Remembers(book, rest) && Effect(book, last, after)
    ensures Remembers(after, rest + [last])
  {
    forall id | id in after.requests
      ensures RequestedAs(rest + [last], after.requests[id]) && after.requests[id].operationId == id
    {
      StepRemembersRequest(book, rest, last, after, id);
    }
    forall id | id in after.latest
      ensures after.latest[id].operationId == id && LastStateIs(rest + [last], after.latest[id])
    {
      StepRemembersLast(book, rest, last, after, id);
    }
    StepRemembersEvents(book, rest, last, after);
  }

  lemma StepRemembersRequest(book: OrderBook, rest: seq<JournalEvent>, last: JournalEvent, after: OrderBook, id: string)
    requires Remembers(book, rest) && Effect(book, last, after) && id in after.requests
    ensures RequestedAs(rest + [last], after.requests[id]) && after.requests[id].operationId == id
  {
    var events := rest + [last];
    if IntentOf(last).Some? && IntentOf(last).value.operationId == id {
      assert IntentOf(events[|rest|]) == Some(after.requests[id]);
    } else {
      var j :| 0 <= j < |rest| && IntentOf(rest[j]) == Some(book.requests[id]);
      assert IntentOf(events[j]) == Some(after.requests[id]);
    }
  }

  lemma StepRemembersEvents(book: OrderBook, rest: seq<JournalEvent>, last: JournalEvent, after: OrderBook)
    requires Remembers(book, rest) && Effect(book, last, after)
    ensures var events := rest + [last];
            && (forall j | 0 <= j < |events| && IntentOf(events[j]).Some? ::
                  var request := IntentOf(events[j]).value;
                  request.operationId in after.requests && after.requests[request.operationId] == request)
            && (forall j | 0 <= j < |events| && StateOf(events[j]).Some? ::
                  var execution := StateOf(events[j]).value;
                  && execution.operationId in after.latest && execution.operationId in after.requests
                  && Follows(execution, after.latest[execution.operationId])
                  && ValidExecution(after.requests[execution.operationId], execution))
  {
    var events := rest + [last];
    forall j | 0 <= j < |events| && StateOf(events[j]).Some?
      ensures var execution := StateOf(events[j]).value;
              && execution.operationId in after.latest && execution.operationId in after.requests
              && Follows(execution, after.latest[execution.operationId])
              && ValidExecution(after.requests[execution.operationId], execution)
    {
      var execution := StateOf(events[j]).value;
      if j < |rest| {
        assert StateOf(rest[j]) == Some(execution);
        FollowsIsTransitive(execution, book.latest[execution.operationId], after.latest[execution.operationId]);
      }
    }
    forall j | 0 <= j < |events| && IntentOf(events[j]).Some?
      ensures var request := IntentOf(events[j]).value;
              request.operationId in after.requests && after.requests[request.operationId] == request
    {
      if j < |rest| {
        assert IntentOf(rest[j]).Some?;
      }
    }
  }

  lemma StepRemembersLast(book: OrderBook, rest: seq<JournalEvent>, last: JournalEvent, after: OrderBook, id: string)
    requires Remembers(book, rest) && Effect(book, last, after) && id in after.latest
    ensures after.latest[id].operationId == id && LastStateIs(rest + [last], after.latest[id])
  {
    var events := rest + [last];
    if StateOf(last).Some? && StateOf(last).value.operationId == id {
      assert StateOf(events[|rest|]) == Some(after.latest[id]);
    } else {
      var j :| 0 <= j < |rest| && StateOf(rest[j]) == Some(book.latest[id])
               && forall k | j < k < |rest| :: !IsState(rest, k, id);
      assert StateOf(events[j]) == Some(after.latest[id]);
      forall k | j < k < |events| ensures !IsState(events, k, id) {
        if k < |rest| {
          assert !IsState(rest, k, id);
        }
      }
    }
  }

  lemma IntentVerdict(book: OrderBook, rest: seq<JournalEvent>, request: OrderRequest)
    requires Remembers(book, rest)
    ensures RecordIntent(book, request).Ok? <==> LegalIntent(rest, request)
  {
    var id := request.operationId;
    if id in book.requests {
      var j :| 0 <= j < |rest| && IntentOf(rest[j]) == Some(book.requests[id]);
      assert IsIntent(rest, j, id);
    }
  }

  lemma ValidityVerdict(book: OrderBook, rest: seq<JournalEvent>, execution: OrderExecution)
    requires Remembers(book, rest)
    ensures ValidForIntent(rest, execution) <==>
              execution.operationId in book.requests && ValidExecution(book.requests[execution.operationId], execution)
  {
    var id := execution.operationId;
    if id in book.requests {
      var j :| 0 <= j < |rest| && IntentOf(rest[j]) == Some(book.requests[id]);
      assert IntentOf(rest[j]).Some?;
    }
  }

  lemma StateVerdict(book: OrderBook, rest: seq<JournalEvent>, execution: OrderExecution)
    requires Remembers(book, rest)
    ensures RecordState(book, execution).Ok? <==>
              && ValidForIntent(rest, execution)
              && FollowsAll(rest, execution)
  {
    var id := execution.operationId;
    ValidityVerdict(book, rest, execution);
    if id in book.latest {
      var last := book.latest[id];
      var j :| 0 <= j < |rest| && StateOf(rest[j]) == Some(last);
      assert IsState(rest, j, id);
      forall k | 0 <= k < |rest| && IsState(rest, k, id) && Follows(last, execution)
        ensures Follows(StateOf(rest[k]).value, execution)
      {
        FollowsIsTransitive(StateOf(rest[k]).value, last, execution);
      }
    }
  }

  lemma UnknownVerdict(book: OrderBook, rest: seq<JournalEvent>, request: OrderRequest)
    requires Remembers(book, rest)
    ensures RecordUnknown(book, request).Ok? <==>
              && RequestedAs(rest, request)
              && NoTerminalState(rest, request.operationId)
  {
    var id := request.operationId;
    if id in book.latest {
      var last := book.latest[id];
      var j :| 0 <= j < |rest| && StateOf(rest[j]) == Some(last);
      assert IsState(rest, j, id);
      forall k | 0 <= k < |rest| && IsState(rest, k, id) && !IsTerminal(last)
        ensures !IsTerminal(StateOf(rest[k]).value)
      {
        TerminalIsFrozen(StateOf(rest[k]).value, last);
      }
    }
  }

  lemma LastStateVerdict(book: OrderBook, rest: seq<JournalEvent>, execution: OrderExecution)
    requires Remembers(book, rest)
    ensures LastStateIs(rest, execution) <==>
              execution.operationId in book.latest && book.latest[execution.operationId] == execution
  {
    var id := execution.operationId;
    if LastStateIs(rest, execution) {
      var j :| 0 <= j < |rest| && StateOf(rest[j]) == Some(execution)
               && forall k | j < k < |rest| :: !IsState(rest, k, id);
      var last := book.latest[id];
      var i :| 0 <= i < |rest| && StateOf(rest[i]) == Some(last)
               && forall k | i < k < |rest| :: !IsState(rest, k, id);
      assert IsState(rest, i, id) && IsState(rest, j, id);
    }
  }

  lemma ExposureVerdict(book: OrderBook, rest: seq<JournalEvent>, execution: OrderExecution, requested: u32, remaining: u32)
    requires Remembers(book, rest)
    ensures RecordExposure(book, execution, requested, remaining).Ok? <==>
              && ValidForIntent(rest, execution)
              && RequestedQuantity(rest, execution.operationId, requested)
              && execution.RemainingQuantity(requested) == remaining
              && LastStateIs(rest, execution)
  {
    var id := execution.operationId;
    ValidityVerdict(book, rest, execution);
    LastStateVerdict(book, rest, execution);
    if id in book.requests {
      var j :| 0 <= j < |rest| && IntentOf(rest[j]) == Some(book.requests[id]);
      assert IsIntent(rest, j, id);
    }
  }

  lemma StepVerdict(book: OrderBook, rest: seq<JournalEvent>, last: JournalEvent)
    requires Remembers(book, rest)
    ensures ApplyOrderEvent(book, last).Ok? <==> LegalAfter(rest, last)
  {
    match last.kind
    case OrderIntentCreated(request) => IntentVerdict(book, rest, request);
    case OrderSubmitted(_, _, _, _) =>
      if last.operationId.Some? {
        IntentVerdict(book, rest, LegacyRequest(last.operationId.value, last.kind));
      }
    case OrderAccepted(execution) => StateVerdict(book, rest, execution);
    case OrderUpdated(execution) => StateVerdict(book, rest, execution);
    case OrderUnknown(request, _) => UnknownVerdict(book, rest, request);
    case PartialFillExposure(execution, requested, remaining) => ExposureVerdict(book, rest, execution, requested, remaining);
    case _ =>
  }

  ghost predicate EveryEventLegal(events: seq<JournalEvent>) {
    forall i | 0 <= i < |events| :: LegalAfter(events[..i], events[i])
  }

  lemma EveryEventLegalSnoc(rest: seq<JournalEvent>, last: JournalEvent)
    ensures EveryEventLegal(rest + [last]) <==> EveryEventLegal(rest) && LegalAfter(rest, last)
  {
    var events := rest + [last];
    assert forall i | 0 <= i < |rest| :: events[..i] == rest[..i] && events[i] == rest[i];
    assert events[..|rest|] == rest;
    if EveryEventLegal(events) {
      assert LegalAfter(events[..|rest|], events[|rest|]);
      forall i | 0 <= i < |rest| ensures LegalAfter(rest[..i], rest[i]) {
        assert LegalAfter(events[..i], events[i]);
      }
    }
    if EveryEventLegal(rest) && LegalAfter(rest, last) {
      forall i | 0 <= i < |events| ensures LegalAfter(events[..i], events[i]) {
        if i < |rest| {
          assert LegalAfter(rest[..i], rest[i]);
        }
      }
    }
  }

  /** The replay accepts exactly the journals in which every event is legal after
      the ones before it. */
  lemma {:induction false} AcceptanceIsPairwise(events: seq<JournalEvent>)
    ensures Accepted(events) <==> EveryEventLegal(events)
  {
    if events != [] {
      var rest, last := events[..|events| - 1], events[|events| - 1];
      AcceptanceIsPairwise(rest);
      assert events == rest + [last];
      EveryEventLegalSnoc(rest, last);
      if Accepted(rest) {
        ReplayRemembers(rest);
        StepVerdict(ReplayAll(rest).value, rest, last);
      }
    }
  }

  // ----- 4. what an accepted journal says about one order -----

  /** Reports about one order only advance: the fill never falls and never
      exceeds the request, a broker id never changes, a terminal report is final,
      and there is one request behind all of them. */
  lemma ReportsOnlyAdvance(events: seq<JournalEvent>, i: nat, j: nat)
    requires Accepted(events) && i < j < |events|
    requires StateOf(events[i]).Some? && StateOf(events[j]).Some?
    requires StateOf(events[i]).value.operationId == StateOf(events[j]).value.operationId
    ensures var earlier, later := StateOf(events[i]).value, StateOf(events[j]).value;
            && earlier.filledQuantity <= later.filledQuantity
            && (earlier.brokerOrderId.Some? ==> later.brokerOrderId == earlier.brokerOrderId)
            && (IsTerminal(earlier) ==> later == earlier)
            && exists r :: 0 <= r < i && IsIntent(events, r, earlier.operationId)
                           && later.filledQuantity <= IntentOf(events[r]).value.quantity
                           && ValidExecution(IntentOf(events[r]).value, earlier)
                           && ValidExecution(IntentOf(events[r]).value, later)
  {
    AcceptanceIsPairwise(events);
    var earlier, later := StateOf(events[i]).value, StateOf(events[j]).value;
    var past := events[..j];
    assert LegalAfter(past, events[j]) && IsState(past, i, earlier.operationId);
    assert LegalAfter(events[..i], events[i]);
    var r :| 0 <= r < i && IntentOf(events[..i][r]).Some? && ValidExecution(IntentOf(events[..i][r]).value, earlier);
    var s :| 0 <= s < j && IntentOf(past[s]).Some? && ValidExecution(IntentOf(past[s]).value, later);
    OneIntent(events, r, s);
    assert IsIntent(events, r, earlier.operationId);
  }

  lemma OneIntent(events: seq<JournalEvent>, r: nat, s: nat)
    requires Accepted(events) && r < |events| && s < |events|
    requires IntentOf(events[r]).Some? && IntentOf(events[s]).Some?
    requires IntentOf(events[r]).value.operationId == IntentOf(events[s]).value.operationId
    ensures IntentOf(events[r]) == IntentOf(events[s])
  {
    AcceptanceIsPairwise(events);
    var a, b := if r < s then r else s, if r < s then s else r;
    if a < b {
      assert LegalAfter(events[..b], events[b]);
      assert IsIntent(events[..b], a, IntentOf(events[b]).value.operationId);
    }
  }
}
