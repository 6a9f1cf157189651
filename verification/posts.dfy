/** What is known after a crash about the orders that were sent: each POST left
    with its intent already on the disk, so no crash can forget it (src/app.rs). */
module Posts {
  import opened Common
  import opened Orders
  import opened Journals
  import opened Replay
  import opened ReplayLaws
  import opened OrderTrail
  import opened Tracking

  /** When this POST left, what was synced was a part of the journal that ended
      with its intent. */
  ghost predicate Backed(call: BrokerCall, events: seq<JournalEvent>, durable: nat) {
    call.Post? ==>
      && call.durable != [] && IsIntentOf(call.request, call.durable[|call.durable| - 1])
      && |call.durable| <= durable
      && call.durable <= events
  }

  ghost predicate AllBacked(calls: seq<BrokerCall>, events: seq<JournalEvent>, durable: nat) {
    forall i | 0 <= i < |calls| :: Backed(calls[i], events, durable)
  }

  lemma BackedGrows(calls: seq<BrokerCall>, before: seq<JournalEvent>, synced: nat, after: seq<JournalEvent>, durable: nat)
    requires AllBacked(calls, before, synced) && before <= after && synced <= durable
    ensures AllBacked(calls, after, durable)
  {
    forall i | 0 <= i < |calls| ensures Backed(calls[i], after, durable) {
      assert Backed(calls[i], before, synced);
    }
  }

  lemma BackedConcat(a: seq<BrokerCall>, b: seq<BrokerCall>, events: seq<JournalEvent>, durable: nat)
    requires AllBacked(a, events, durable) && AllBacked(b, events, durable)
    ensures AllBacked(a + b, events, durable)
  {
    forall i | 0 <= i < |a + b| ensures Backed((a + b)[i], events, durable) {
      assert (a + b)[i] == if i < |a| then a[i] else b[i - |a|];
    }
  }

  /** A crash that keeps what was synced keeps every POST backed. */
  lemma BackedSurvives(calls: seq<BrokerCall>, events: seq<JournalEvent>, durable: nat, keep: nat)
    requires AllBacked(calls, events, durable) && durable <= keep <= |events|
    ensures AllBacked(calls, events[..keep], durable)
  {
    forall i | 0 <= i < |calls| ensures Backed(calls[i], events[..keep], durable) {
      assert Backed(calls[i], events, durable);
    }
  }

  predicate LastEventResolves(events: seq<JournalEvent>, id: string) {
    var own := SubJournal(events, id);
    own != [] && ResolvingEvent(own[|own| - 1])
  }

  /** The replay knows the order by its request, and holds it for reconciliation
      unless the last event about it resolves it. */
  ghost predicate OrderIsKnown(events: seq<JournalEvent>, request: OrderRequest)
    requires Accepted(events)
  {
    var id := request.operationId;
    && id in ReplayAll(events).value.requests && ReplayAll(events).value.requests[id] == request
    && (id in PendingOrders(events) <==> !LastEventResolves(events, id))
  }

  lemma {:induction false} OwnEventsExist(events: seq<JournalEvent>, i: nat, id: string)
    requires i < |events| && Subject(events[i]) == Some(id)
    ensures SubJournal(events, id) != []
  {
    if i < |events| - 1 {
      OwnEventsExist(events[..|events| - 1], i, id);
    }
  }

  lemma IntentIsRemembered(events: seq<JournalEvent>, i: nat, request: OrderRequest)
    requires Accepted(events) && i < |events| && IsIntentOf(request, events[i])
    ensures var requests := ReplayAll(events).value.requests;
            request.operationId in requests && requests[request.operationId] == request
  {
    ReplayRemembers(events);
    assert IsIntent(events, i, request.operationId);
  }

  /** An order whose POST left is known to whatever process comes next. */
  lemma BackedOrderIsKnown(call: BrokerCall, events: seq<JournalEvent>, durable: nat)
    requires Accepted(events) && call.Post? && Backed(call, events, durable)
    ensures OrderIsKnown(events, call.request)
  {
    hide ReplayAll, SubJournal;
    var i := |call.durable| - 1;
    assert events[i] == call.durable[i];
    IntentIsRemembered(events, i, call.request);
    PendingIsLastEvent(events, call.request.operationId);
    OwnEventsExist(events, i, call.request.operationId);
  }

  /** The same for one order and any crash after its POST left: the kept part of its
      trail says whether it is pending. */
  lemma PostedOrderSurvives(start: seq<JournalEvent>, request: OrderRequest, trail: seq<JournalEvent>, kept: nat)
    requires Accepted(start) && MayOrder(start, request) && Trail(request, trail)
    requires |start| < kept <= |start + trail|
    ensures var journal := (start + trail)[..kept];
            && Accepted(journal)
            && request.operationId in ReplayAll(journal).value.requests
            && ReplayAll(journal).value.requests[request.operationId] == request
            && (request.operationId in PendingOrders(journal) <==> !ResolvingEvent(journal[kept - 1]))
  {
    hide ReplayAll, MayOrder;
    var part := trail[..kept - |start|];
    TrailPrefix(request, trail, kept - |start|);
    TrailReplays(start, request, part);
    assert (start + trail)[..kept] == start + part;
  }

  lemma {:induction false} TrailPrefix(request: OrderRequest, trail: seq<JournalEvent>, n: nat)
    requires Trail(request, trail) && n <= |trail|
    ensures Trail(request, trail[..n])
    decreases |trail|
  {
    if n < |trail| {
      TrailPrefix(request, trail[..|trail| - 1], n);
      assert trail[..|trail| - 1][..n] == trail[..n];
    } else {
      assert trail[..n] == trail;
    }
  }
}
