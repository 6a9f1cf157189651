/** The events one order leaves in the journal, and why any crash in the middle of
    them can be recovered from. */
module OrderTrail {
  import opened Common
  import opened Orders
  import opened Journals
  import opened Replay
  import opened ReplayLaws

  /** A crash keeps a prefix, and every prefix of an accepted journal is accepted. */
  lemma CrashAnywhereReplays(events: seq<JournalEvent>, n: nat)
    requires Accepted(events) && n <= |events|
    ensures Accepted(events[..n])
  {
    if !Accepted(events[..n]) {
      RejectedPrefix(events, n);
    }
  }

  /** No order event speaks about this operation yet. */
  predicate Fresh(events: seq<JournalEvent>, id: string) {
    forall i | 0 <= i < |events| :: Subject(events[i]) != Some(id)
  }

  predicate IsIntentOf(request: OrderRequest, event: JournalEvent) {
    event.kind == OrderIntentCreated(request)
  }

  predicate IsUnknownOf(request: OrderRequest, event: JournalEvent) {
    event.kind.OrderUnknown? && event.kind.request == request
  }

  predicate IsExposureOf(request: OrderRequest, last: OrderExecution, event: JournalEvent) {
    && event.kind == PartialFillExposure(last, request.quantity, last.RemainingQuantity(request.quantity))
    && 0 < last.filledQuantity < request.quantity
  }

  /** One more event in the life of an order that was requested as `request`; the
      last report before it is `last`. */
  predicate TrailStep(request: OrderRequest, last: Option<OrderExecution>, event: JournalEvent) {
    match event.kind
    case OrderAccepted(execution) => ValidExecution(request, execution) && last.None?
    case OrderUpdated(execution) =>
      ValidExecution(request, execution) && (last.Some? ==> Follows(last.value, execution))
    case OrderUnknown(_, _) => IsUnknownOf(request, event) && (last.Some? ==> !IsTerminal(last.value))
    case PartialFillExposure(_, _, _) => last.Some? && IsExposureOf(request, last.value, event)
    case _ => false
  }

  function LastReportOf(trail: seq<JournalEvent>): Option<OrderExecution> {
    if trail == [] then None
    else
      var event := trail[|trail| - 1];
      if StateOf(event).Some? then StateOf(event) else LastReportOf(trail[..|trail| - 1])
  }

  /** The intent comes first; then only events that the protocol can add. */
  predicate Trail(request: OrderRequest, trail: seq<JournalEvent>) {
    trail == [] ||
    var before := trail[..|trail| - 1];
    var event := trail[|trail| - 1];
    Trail(request, before) &&
    if before == [] then IsIntentOf(request, event) else TrailStep(request, LastReportOf(before), event)
  }

  lemma TrailSnoc(request: OrderRequest, trail: seq<JournalEvent>, event: JournalEvent)
    requires Trail(request, trail)
    requires if trail == [] then IsIntentOf(request, event) else TrailStep(request, LastReportOf(trail), event)
    ensures Trail(request, trail + [event])
    ensures LastReportOf(trail + [event]) == if StateOf(event).Some? then StateOf(event) else LastReportOf(trail)
  {
    assert (trail + [event])[..|trail|] == trail;
  }

  lemma {:induction false} FreshIsUnknownToTheBook(events: seq<JournalEvent>, id: string)
    requires Accepted(events) && Fresh(events, id)
    ensures var book := ReplayAll(events).value;
            id !in book.requests && id !in book.latest && id !in book.pending
  {
    if events != [] {
      var rest := events[..|events| - 1];
      assert forall i | 0 <= i < |rest| :: Subject(rest[i]) == Subject(events[i]);
      FreshIsUnknownToTheBook(rest, id);
      assert Subject(events[|events| - 1]) != Some(id);
      OtherOperationsUntouched(ReplayAll(rest).value, events[|events| - 1], id);
      assert Project(ReplayAll(events).value, id) == Project(ReplayAll(rest).value, id);
      UnknownProjection(ReplayAll(events).value, ReplayAll(rest).value, id);
    }
  }

  lemma UnknownProjection(a: OrderBook, b: OrderBook, id: string)
    requires Project(a, id) == Project(b, id)
    ensures (id in a.requests <==> id in b.requests) && (id in a.latest <==> id in b.latest)
    ensures id in a.pending <==> id in b.pending
    ensures id in a.requests ==> a.requests[id] == b.requests[id]
    ensures id in a.latest ==> a.latest[id] == b.latest[id]
  {
    var pa, pb := Project(a, id), Project(b, id);
    assert (id in pa.requests <==> id in a.requests) && (id in pb.requests <==> id in b.requests);
    assert (id in pa.latest <==> id in a.latest) && (id in pb.latest <==> id in b.latest);
    assert (id in pa.pending <==> id in a.pending) && (id in pb.pending <==> id in b.pending);
    assert id in a.requests ==> pa.requests[id] == a.requests[id] && pb.requests[id] == b.requests[id];
    assert id in a.latest ==> pa.latest[id] == a.latest[id] && pb.latest[id] == b.latest[id];
  }

  // ----- when an operation id may be used -----

  /** A report that binds nothing yet: open, unfilled and without a broker id. */
  predicate Unbinding(execution: OrderExecution) {
    execution.status.Pending? && execution.brokerOrderId.None?
  }

  /** The id is unused, or it stands for this very request and the broker has said
      nothing about it that binds. */
  predicate MayOrder(events: seq<JournalEvent>, request: OrderRequest)
    requires Accepted(events)
  {
    var book := ReplayAll(events).value;
    var id := request.operationId;
    id in book.requests ==>
      book.requests[id] == request && (id in book.latest ==> Unbinding(book.latest[id]))
  }

  lemma FreshMayOrder(events: seq<JournalEvent>, request: OrderRequest)
    requires Accepted(events) && Fresh(events, request.operationId)
    ensures MayOrder(events, request)
  {
    FreshIsUnknownToTheBook(events, request.operationId);
  }

  /** The last reports a replay remembers are valid for the requests it remembers. */
  ghost predicate LatestValid(book: OrderBook) {
    && (forall id | id in book.latest :: id in book.requests && ValidExecution(book.requests[id], book.latest[id]))
    && forall id | id in book.requests :: book.requests[id].operationId == id
  }

  lemma {:induction false} LatestIsValid(events: seq<JournalEvent>)
    requires Accepted(events)
    ensures LatestValid(ReplayAll(events).value)
  {
    if events != [] {
      var rest := events[..|events| - 1];
      LatestIsValid(rest);
      StepKeepsLatestValid(ReplayAll(rest).value, events[|events| - 1]);
    }
  }

  lemma StepKeepsLatestValid(book: OrderBook, event: JournalEvent)
    requires LatestValid(book) && ApplyOrderEvent(book, event).Ok?
    ensures LatestValid(ApplyOrderEvent(book, event).value)
  {
    match event.kind
    case OrderIntentCreated(request) => IntentKeepsLatestValid(book, request);
    case OrderSubmitted(_, _, _, _) => IntentKeepsLatestValid(book, LegacyRequest(event.operationId.value, event.kind));
    case OrderAccepted(execution) => StateKeepsLatestValid(book, execution);
    case OrderUpdated(execution) => StateKeepsLatestValid(book, execution);
    case _ =>
  }

  lemma IntentKeepsLatestValid(book: OrderBook, request: OrderRequest)
    requires LatestValid(book) && RecordIntent(book, request).Ok?
    ensures LatestValid(RecordIntent(book, request).value)
  {
  }

  lemma StateKeepsLatestValid(book: OrderBook, execution: OrderExecution)
    requires LatestValid(book) && RecordState(book, execution).Ok?
    ensures LatestValid(RecordState(book, execution).value)
  {
  }

  /** Whether the trail leaves the order open. */
  predicate LeavesPending(trail: seq<JournalEvent>) {
    trail != [] && !ResolvingEvent(trail[|trail| - 1])
  }

  /** The book after a trail: it knows the request and the last report, and it
      holds the order open unless the last event resolved it. */
  ghost predicate BookAfterTrail(book: OrderBook, request: OrderRequest, trail: seq<JournalEvent>) {
    var id := request.operationId;
    && id in book.requests && book.requests[id] == request
    && (match LastReportOf(trail)
        case None => id in book.latest ==> Unbinding(book.latest[id]) && ValidExecution(request, book.latest[id])
        case Some(execution) => id in book.latest && book.latest[id] == execution)
    && (id in book.pending <==> LeavesPending(trail))
  }

  lemma IntentStep(book: OrderBook, request: OrderRequest, event: JournalEvent)
    requires var id := request.operationId;
             id in book.requests ==> book.requests[id] == request
    requires var id := request.operationId;
             id in book.latest ==> Unbinding(book.latest[id]) && ValidExecution(request, book.latest[id])
    requires IsIntentOf(request, event)
    ensures ApplyOrderEvent(book, event).Ok?
    ensures BookAfterTrail(ApplyOrderEvent(book, event).value, request, [event])
  {
    assert [event][..0] == [];
    assert LastReportOf([event][..0]) == None;
  }

  lemma LaterStep(book: OrderBook, request: OrderRequest, trail: seq<JournalEvent>, event: JournalEvent)
    requires trail != [] && Trail(request, trail) && BookAfterTrail(book, request, trail)
    requires TrailStep(request, LastReportOf(trail), event)
    ensures ApplyOrderEvent(book, event).Ok?
    ensures BookAfterTrail(ApplyOrderEvent(book, event).value, request, trail + [event])
  {
    TrailSnoc(request, trail, event);
    if LastReportOf(trail).Some? && event.kind.PartialFillExposure? {
      LastReportIsValid(request, trail);
    }
  }

  lemma {:induction false} LastReportIsValid(request: OrderRequest, trail: seq<JournalEvent>)
    requires Trail(request, trail) && LastReportOf(trail).Some?
    ensures ValidExecution(request, LastReportOf(trail).value)
  {
    if StateOf(trail[|trail| - 1]).None? {
      LastReportIsValid(request, trail[..|trail| - 1]);
    }
  }

  lemma {:induction false} TrailIsAboutOneOrder(request: OrderRequest, trail: seq<JournalEvent>)
    requires Trail(request, trail)
    ensures forall i | 0 <= i < |trail| :: Subject(trail[i]) == Some(request.operationId)
  {
    if trail != [] {
      var before := trail[..|trail| - 1];
      TrailIsAboutOneOrder(request, before);
      assert forall i | 0 <= i < |before| :: trail[i] == before[i];
      if before != [] && trail[|trail| - 1].kind.PartialFillExposure? {
        LastReportIsValid(request, before);
      }
    }
  }

  /** Whatever the broker does and wherever the program stops: the journal that
      the order leaves behind replays, the order is pending there unless its last
      event is a full fill, a rejection or a zero-fill cancel, and no other order
      is affected. */
  lemma {:induction false} TrailReplays(events: seq<JournalEvent>, request: OrderRequest, trail: seq<JournalEvent>)
    requires Accepted(events) && MayOrder(events, request) && Trail(request, trail)
    ensures Accepted(events + trail)
    ensures trail != [] ==> BookAfterTrail(ReplayAll(events + trail).value, request, trail)
    ensures PendingOrders(events + trail) ==
            if trail == [] then PendingOrders(events)
            else if LeavesPending(trail) then PendingOrders(events) + {request.operationId}
            else PendingOrders(events) - {request.operationId}
  {
    if trail == [] {
      assert events + trail == events;
    } else {
      var before, event := trail[..|trail| - 1], trail[|trail| - 1];
      TrailReplays(events, request, before);
      assert (events + trail)[..|events + trail| - 1] == events + before;
      TrailStepReplays(events, request, before, event);
      assert trail == before + [event];
      PendingAfterStep(PendingOrders(events), ReplayAll(events + before).value.pending,
                       PendingOrders(events + trail), request.operationId);
    }
  }

  lemma PendingAfterStep(start: set<string>, before: set<string>, after: set<string>, id: string)
    requires before in {start, start + {id}, start - {id}} && after - {id} == before - {id}
    ensures id in after ==> after == start + {id}
    ensures id !in after ==> after == start - {id}
  {
    forall other ensures other in after <==> if other == id then id in after else other in start {
      assert other != id ==> (other in after <==> other in after - {id});
      assert other != id ==> (other in before <==> other in before - {id});
    }
  }

  lemma TrailStepReplays(events: seq<JournalEvent>, request: OrderRequest, before: seq<JournalEvent>, event: JournalEvent)
    requires Accepted(events) && MayOrder(events, request) && Trail(request, before + [event]) && Trail(request, before)
    requires Accepted(events + before)
    requires before == [] ==> IsIntentOf(request, event)
    requires before != [] ==> TrailStep(request, LastReportOf(before), event)
                              && BookAfterTrail(ReplayAll(events + before).value, request, before)
    ensures var book := ReplayAll(events + before).value;
            && ApplyOrderEvent(book, event).Ok?
            && BookAfterTrail(ApplyOrderEvent(book, event).value, request, before + [event])
            && ApplyOrderEvent(book, event).value.pending - {request.operationId} == book.pending - {request.operationId}
  {
    var book := ReplayAll(events + before).value;
    if before == [] {
      assert before + [event] == [event] && events + before == events;
      LatestIsValid(events);
      assert request.operationId in book.latest ==> request.operationId in book.requests;
      IntentStep(book, request, event);
    } else {
      LaterStep(book, request, before, event);
    }
    TrailIsAboutOneOrder(request, before + [event]);
    assert (before + [event])[|before|] == event;
    OthersStayPending(book, event, request.operationId);
  }

  lemma OthersStayPending(book: OrderBook, event: JournalEvent, id: string)
    requires Subject(event) == Some(id) && ApplyOrderEvent(book, event).Ok?
    ensures ApplyOrderEvent(book, event).value.pending - {id} == book.pending - {id}
  {
  }

  lemma ReplaySnoc(events: seq<JournalEvent>, event: JournalEvent)
    requires Accepted(events)
    ensures ReplayAll(events + [event]) == ApplyOrderEvent(ReplayAll(events).value, event)
  {
    assert (events + [event])[..|events|] == events;
  }

  // ----- retrying under the same operation id -----

  /** A report that no journal takes after `last`, although the broker may answer
      a second order with it. */
  function Contradiction(id: string, last: OrderExecution): OrderExecution {
    if last.status.Pending? && last.brokerOrderId.Some? then
      OrderExecution(id, OrderStatus.Pending, 0, None, Some(if last.brokerOrderId.value == "A" then "B" else "A"), None)
    else OrderExecution(id, OrderStatus.Pending, 0, None, None, None)
  }

  lemma ContradictionIsRejected(request: OrderRequest, last: OrderExecution)
    requires ValidExecution(request, last) && !Unbinding(last)
    ensures var next := Contradiction(request.operationId, last);
            ValidExecution(request, next) && !Follows(last, next)
  {
    assert "A"[0] == 'A' && "B"[0] == 'B';
    StatusDeterminesFill(request, last);
  }

  function IntentEvent(request: OrderRequest): JournalEvent {
    JournalEvent(0, Some(request.operationId), OrderIntentCreated(request))
  }

  /** The trail of a second order that the journal cannot take. */
  function BadTrail(events: seq<JournalEvent>, request: OrderRequest): seq<JournalEvent>
    requires Accepted(events) && !MayOrder(events, request)
  {
    var book := ReplayAll(events).value;
    var id := request.operationId;
    if book.requests[id] != request then [IntentEvent(request)]
    else [IntentEvent(request), JournalEvent(0, Some(id), OrderAccepted(Contradiction(id, book.latest[id])))]
  }

  lemma BadTrailIsRejected(events: seq<JournalEvent>, request: OrderRequest)
    requires Accepted(events) && !MayOrder(events, request)
    ensures Trail(request, BadTrail(events, request)) && !Accepted(events + BadTrail(events, request))
  {
    var book := ReplayAll(events).value;
    var id := request.operationId;
    var intent := IntentEvent(request);
    TrailSnoc(request, [], intent);
    assert [] + [intent] == [intent];
    ReplaySnoc(events, intent);
    if book.requests[id] == request {
      LatestIsValid(events);
      ContradictionIsRejected(request, book.latest[id]);
      var answer := BadTrail(events, request)[1];
      TrailSnoc(request, [intent], answer);
      assert BadTrail(events, request) == [intent] + [answer];
      SecondEventIsRejected(events, intent, answer);
    }
  }

  lemma SecondEventIsRejected(events: seq<JournalEvent>, first: JournalEvent, second: JournalEvent)
    requires Accepted(events + [first]) ==> ApplyOrderEvent(ReplayAll(events + [first]).value, second).Err?
    ensures !Accepted(events + ([first] + [second]))
  {
    assert events + ([first] + [second]) == (events + [first]) + [second];
    if Accepted(events + [first]) {
      ReplaySnoc(events + [first], second);
    } else {
      assert ((events + [first]) + [second])[..|events| + 1] == events + [first];
      RejectedPrefix((events + [first]) + [second], |events| + 1);
    }
  }

  /** An order can be journaled to its end whatever the broker answers if and only
      if its id is unused, or stands for the same request with no report that
      binds. The condition is read off the journal before the order. */
  lemma OrderIsSafeExactly(events: seq<JournalEvent>, request: OrderRequest)
    requires Accepted(events)
    ensures MayOrder(events, request) <==> forall trail | Trail(request, trail) :: Accepted(events + trail)
  {
    if MayOrder(events, request) {
      forall trail | Trail(request, trail) ensures Accepted(events + trail) {
        TrailReplays(events, request, trail);
      }
    } else {
      BadTrailIsRejected(events, request);
    }
  }

  /** What the order path leaves of a close that was accepted and then cancelled
      without a fill. */
  function CancelledClose(request: OrderRequest, brokerId: string): seq<JournalEvent> {
    var id := request.operationId;
    [IntentEvent(request),
     JournalEvent(0, Some(id), OrderAccepted(OrderExecution(id, OrderStatus.Pending, 0, None, Some(brokerId), None))),
     JournalEvent(0, Some(id), OrderUpdated(OrderExecution(id, OrderStatus.Cancelled, 0, None, Some(brokerId), None)))]
  }

  /** The close of a position is retried under the same `-close` id, at a limit half
      a percent below whatever the market shows. After one cancelled attempt the
      journal is accepted with nothing pending, and no retry is safe: one at
      another price is refused at its intent, one at the same price at the new
      broker's answer. */
  lemma RetriedCloseCannotBeRecovered(retryPrice: real)
    ensures var first := OrderRequest("op-close", "GAL-C-100", 1, 2.0, 2.0 * 0.995, Sell);
            var retry := OrderRequest("op-close", "GAL-C-100", 1, retryPrice, retryPrice * 0.995, Sell);
            var events := CancelledClose(first, "77");
            && Trail(first, events) && Accepted(events) && PendingOrders(events) == {} && !MayOrder(events, retry)
            && (retryPrice != 2.0 ==> !Accepted(events + [IntentEvent(retry)]))
  {
    var first := OrderRequest("op-close", "GAL-C-100", 1, 2.0, 2.0 * 0.995, Sell);
    var retry := OrderRequest("op-close", "GAL-C-100", 1, retryPrice, retryPrice * 0.995, Sell);
    var events := CancelledClose(first, "77");
    assert "77"[0] == '7';
    CancelledCloseIsATrail(first, "77");
    TrailReplays([], first, events);
    assert [] + events == events;
    ReplaySnoc(events, IntentEvent(retry));
  }

  lemma CancelledCloseIsATrail(request: OrderRequest, brokerId: string)
    requires request.quantity > 0 && !IsBlank(brokerId)
    ensures Trail(request, CancelledClose(request, brokerId))
    ensures LastReportOf(CancelledClose(request, brokerId)) == StateOf(CancelledClose(request, brokerId)[2])
  {
    var all := CancelledClose(request, brokerId);
    TrailSnoc(request, [], all[0]);
    assert [] + [all[0]] == [all[0]];
    TrailSnoc(request, [all[0]], all[1]);
    assert [all[0]] + [all[1]] == [all[0], all[1]];
    TrailSnoc(request, [all[0], all[1]], all[2]);
    assert [all[0], all[1]] + [all[2]] == all;
  }
}
