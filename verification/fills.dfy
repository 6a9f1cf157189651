/** A whole fill and the position event that follows it. They are two appends with
    fallible steps between them, so a fill can end up in neither list: its order is
    settled and no position knows of it (src/app.rs). */
module Fills {
  import opened Common
  import opened Orders
  import opened Journals
  import opened Replay
  import opened ReplayLaws
  import opened OrderTrail
  import opened Posts
  import opened Recovery
  import opened Trading
  import opened LiveBook

  predicate ReportsWholeFill(event: JournalEvent) {
    StateOf(event).Some? && StateOf(event).value.status.Executed?
  }

  predicate EndsInFill(events: seq<JournalEvent>) {
    events != [] && ReportsWholeFill(events[|events| - 1])
  }

  /** The trail of an order that was filled whole. */
  predicate FilledTrail(request: OrderRequest, trail: seq<JournalEvent>) {
    Trail(request, trail) && LastReportOf(trail).Some? && LastReportOf(trail).value.status.Executed?
  }

  // ----- inside a filled trail -----

  lemma {:induction false} TrailAdvances(request: OrderRequest, trail: seq<JournalEvent>, n: nat)
    requires Trail(request, trail) && n <= |trail| && LastReportOf(trail[..n]).Some?
    ensures LastReportOf(trail).Some? && Follows(LastReportOf(trail[..n]).value, LastReportOf(trail).value)
    decreases |trail|
  {
    if n == |trail| {
      assert trail[..n] == trail;
    } else {
      var before, event := trail[..|trail| - 1], trail[|trail| - 1];
      assert before[..n] == trail[..n];
      TrailAdvances(request, before, n);
      if StateOf(event).Some? {
        FollowsIsTransitive(LastReportOf(trail[..n]).value, LastReportOf(before).value, StateOf(event).value);
      }
    }
  }

  /** The only event of such a trail that settles the order is the report of the fill. */
  lemma OnlyTheFillSettles(request: OrderRequest, trail: seq<JournalEvent>, n: nat)
    requires FilledTrail(request, trail) && 0 < n <= |trail|
    ensures ResolvingEvent(trail[n - 1]) <==> ReportsWholeFill(trail[n - 1])
  {
    var part := trail[..n];
    assert part[n - 1] == trail[n - 1];
    if StateOf(trail[n - 1]).Some? {
      TrailAdvances(request, trail, n);
      TerminalIsFrozen(LastReportOf(part).value, LastReportOf(trail).value);
    }
  }

  // ----- what a cut knows -----

  lemma CutOfTrail(base: Ledger, from: nat, start: seq<JournalEvent>, request: OrderRequest, trail: seq<JournalEvent>, n: nat)
    requires Accepted(start) && MayOrder(start, request) && FilledTrail(request, trail) && 0 < n <= |trail|
    requires from <= |start| && Consistent(base) && RecoverFrom(base, start[from..]).Ok?
    ensures var journal := start + trail[..n];
            && Accepted(journal)
            && (request.operationId in PendingOrders(journal) <==> !EndsInFill(journal))
            && RecoverFrom(base, journal[from..]) == RecoverFrom(base, start[from..])
  {
    hide ReplayAll, RecoverFrom, MayOrder;
    var part := trail[..n];
    TrailPrefix(request, trail, n);
    TrailReplays(start, request, part);
    OnlyTheFillSettles(request, trail, n);
    TrailIsAboutOneOrder(request, part);
    OtherEventsAreInvisible(base, start[from..], part);
    assert (start + part)[from..] == start[from..] + part;
  }

  lemma PositionEventSettlesNothing(events: seq<JournalEvent>, event: JournalEvent)
    requires Accepted(events) && IsPositionEvent(event)
    ensures Accepted(events + [event]) && PendingOrders(events + [event]) == PendingOrders(events)
  {
    ReplaySnoc(events, event);
  }

  /** The fill of an entry is in neither list: not pending, and no position. */
  ghost predicate EntryIsForgotten(base: Ledger, from: nat, events: seq<JournalEvent>, id: string) {
    && Accepted(events) && from <= |events| && RecoverFrom(base, events[from..]).Ok?
    && id !in PendingOrders(events) && RecoverFrom(base, events[from..]).value.position.None?
  }

  /** The fill of an exit is in neither list: not pending, and the position that was
      sold is still open. */
  ghost predicate ExitIsForgotten(base: Ledger, from: nat, events: seq<JournalEvent>, id: string) {
    && Accepted(events) && from <= |events| && RecoverFrom(base, events[from..]).Ok?
    && id !in PendingOrders(events) && RecoverFrom(base, events[from..]).value.position.Some?
  }

  /** Wherever the program stops on the way from the intent of an entry to its
      position event: the next process, replaying from any ledger it may start with,
      forgets the fill if and only if the journal ends at its report. The position
      event restores it. */
  lemma EntryIsForgottenExactly(base: Ledger, from: nat, start: seq<JournalEvent>, request: OrderRequest,
                                trail: seq<JournalEvent>, timestampSecs: int, position: Position, kept: nat)
    requires Accepted(start) && MayOrder(start, request) && FilledTrail(request, trail)
    requires from <= |start| && Consistent(base) && RecoverFrom(base, start[from..]).Ok?
    requires RecoverFrom(base, start[from..]).value.position.None? && OpenablePosition(position)
    requires |start| < kept <= |start| + |trail| + 1
    ensures var journal := (start + trail + [OpenEvent(timestampSecs, position)])[..kept];
            && Accepted(journal) && RecoverFrom(base, journal[from..]).Ok?
            && (EntryIsForgotten(base, from, journal, request.operationId) <==> EndsInFill(journal))
            && (kept == |start| + |trail| + 1 ==>
                  && request.operationId !in PendingOrders(journal)
                  && RecoverFrom(base, journal[from..]) == Ok(LedgerOpened(RecoverFrom(base, start[from..]).value, position)))
  {
    hide ReplayAll, RecoverFrom, Trail, MayOrder;
    var event := OpenEvent(timestampSecs, position);
    var all := start + trail + [event];
    if kept <= |start| + |trail| {
      CutOfTrail(base, from, start, request, trail, kept - |start|);
      assert all[..kept] == start + trail[..kept - |start|];
    } else {
      FilledJournalContinues(base, from, start, request, trail, event);
      OpenCounts(RecoverFrom(base, start[from..]).value, timestampSecs, position);
      assert all[..kept] == start + trail + [event];
    }
  }

  /** The same for an exit: the sale is forgotten if and only if the journal ends at
      its report, and the close event settles it. */
  lemma ExitIsForgottenExactly(base: Ledger, from: nat, start: seq<JournalEvent>, request: OrderRequest,
                               trail: seq<JournalEvent>, timestampSecs: int, exitPrice: real, netPnl: real,
                               reason: ExitReason, stage: LiveStage, trade: Option<ValidationTrade>, kept: nat)
    requires Accepted(start) && MayOrder(start, request) && FilledTrail(request, trail)
    requires from <= |start| && Consistent(base) && RecoverFrom(base, start[from..]).Ok?
    requires RecoverFrom(base, start[from..]).value.position.Some?
    requires |start| < kept <= |start| + |trail| + 1
    ensures var before := RecoverFrom(base, start[from..]).value;
            var id := before.position.value.operationId;
            var journal := (start + trail + [CloseEvent(timestampSecs, id, exitPrice, netPnl, reason, stage, trade)])[..kept];
            && Accepted(journal) && RecoverFrom(base, journal[from..]).Ok?
            && (ExitIsForgotten(base, from, journal, request.operationId) <==> EndsInFill(journal))
            && (kept == |start| + |trail| + 1 ==>
                  && request.operationId !in PendingOrders(journal)
                  && RecoverFrom(base, journal[from..]) == Ok(LedgerClosed(before, timestampSecs, exitPrice, netPnl, reason)))
  {
    hide ReplayAll, RecoverFrom, Trail, MayOrder;
    var before := RecoverFrom(base, start[from..]).value;
    var event := CloseEvent(timestampSecs, before.position.value.operationId, exitPrice, netPnl, reason, stage, trade);
    var all := start + trail + [event];
    if kept <= |start| + |trail| {
      CutOfTrail(base, from, start, request, trail, kept - |start|);
      assert all[..kept] == start + trail[..kept - |start|];
    } else {
      FilledJournalContinues(base, from, start, request, trail, event);
      CloseCounts(before, timestampSecs, exitPrice, netPnl, reason, stage, trade);
      assert all[..kept] == start + trail + [event];
    }
  }

  lemma FilledJournalContinues(base: Ledger, from: nat, start: seq<JournalEvent>, request: OrderRequest,
                               trail: seq<JournalEvent>, event: JournalEvent)
    requires Accepted(start) && MayOrder(start, request) && FilledTrail(request, trail)
    requires from <= |start| && Consistent(base) && RecoverFrom(base, start[from..]).Ok? && IsPositionEvent(event)
    ensures var journal := start + trail + [event];
            && Accepted(journal) && request.operationId !in PendingOrders(journal)
            && RecoverFrom(base, journal[from..]) == LedgerStep(RecoverFrom(base, start[from..]).value, event)
            && Consistent(RecoverFrom(base, start[from..]).value)
  {
    hide ReplayAll, RecoverFrom, Trail, MayOrder;
    FillEndsTheTrail(request, trail);
    CutOfTrail(base, from, start, request, trail, |trail|);
    assert trail[..|trail|] == trail;
    var journal := start + trail;
    PositionEventSettlesNothing(journal, event);
    RecoverSnoc(base, journal[from..], event);
    assert (journal + [event])[from..] == journal[from..] + [event];
    EveryPrefixRecovers(base, start[from..], |start| - from);
    assert start[from..][..|start| - from] == start[from..];
  }

  /** Nothing is journaled about an order behind the report of its whole fill. */
  lemma {:induction false} FillEndsTheTrail(request: OrderRequest, trail: seq<JournalEvent>)
    requires FilledTrail(request, trail)
    ensures EndsInFill(trail)
  {
    var before := trail[..|trail| - 1];
    if StateOf(trail[|trail| - 1]).None? {
      LastReportIsValid(request, before);
    }
  }

  // ----- contracts are conserved -----

  /** What a request adds to an account when it is filled whole. */
  function Signed(request: OrderRequest): int {
    match request.side
    case Buy => request.quantity
    case Sell => -(request.quantity as int)
  }

  function Held(ledger: Ledger): nat {
    if ledger.position.Some? then ledger.position.value.contracts else 0
  }

  /** The first report of a whole fill of this order. */
  predicate FillsNow(book: OrderBook, event: JournalEvent) {
    ReportsWholeFill(event) &&
    var id := StateOf(event).value.operationId;
    id in book.requests && !(id in book.latest && book.latest[id].status.Executed?)
  }

  /** The contracts bought less those sold by the whole fills of a journal. */
  ghost function NetFilled(events: seq<JournalEvent>): int
    requires Accepted(events)
  {
    if events == [] then 0
    else
      var book, last := ReplayAll(events[..|events| - 1]).value, events[|events| - 1];
      NetFilled(events[..|events| - 1])
      + if FillsNow(book, last) then Signed(book.requests[StateOf(last).value.operationId]) else 0
  }

  lemma NetOfNoReport(events: seq<JournalEvent>, event: JournalEvent)
    requires Accepted(events) && Accepted(events + [event]) && StateOf(event).None?
    ensures NetFilled(events + [event]) == NetFilled(events)
  {
    assert (events + [event])[..|events|] == events;
  }

  ghost function FillOf(request: OrderRequest, trail: seq<JournalEvent>): int {
    if FilledTrail(request, trail) then Signed(request) else 0
  }

  /** A trail adds its order if that was filled whole, once, and else nothing. */
  lemma {:induction false} NetAfterTrail(start: seq<JournalEvent>, request: OrderRequest, trail: seq<JournalEvent>)
    requires Accepted(start) && MayOrder(start, request) && Trail(request, trail)
    ensures Accepted(start + trail) && NetFilled(start + trail) == NetFilled(start) + FillOf(request, trail)
  {
    TrailReplays(start, request, trail);
    if trail == [] {
      assert start + trail == start;
    } else {
      var before, event := trail[..|trail| - 1], trail[|trail| - 1];
      NetAfterTrail(start, request, before);
      assert (start + trail)[..|start + trail| - 1] == start + before;
      NetAfterStep(start, request, before, event);
      assert trail == before + [event];
    }
  }

  lemma NetAfterStep(start: seq<JournalEvent>, request: OrderRequest, before: seq<JournalEvent>, event: JournalEvent)
    requires Accepted(start) && MayOrder(start, request) && Trail(request, before + [event]) && Trail(request, before)
    requires Accepted(start + before)
    requires if before == [] then IsIntentOf(request, event) else TrailStep(request, LastReportOf(before), event)
    ensures FillOf(request, before + [event]) ==
            FillOf(request, before) + if FillsNow(ReplayAll(start + before).value, event) then Signed(request) else 0
    ensures FillsNow(ReplayAll(start + before).value, event) ==>
              ReplayAll(start + before).value.requests[StateOf(event).value.operationId] == request
  {
    hide ReplayAll, MayOrder;
    TrailReplays(start, request, before);
    TrailSnoc(request, before, event);
    if before != [] && StateOf(event).Some? {
      StatusDeterminesFill(request, StateOf(event).value);
    }
  }

  /** The input: an entry that the broker reports filled above its limit, which the
      report validation allows. The journal is accepted and ends at the report; the
      order is settled, and there is no position. */
  lemma FilledAboveLimitIsForgotten()
    ensures var request := OrderRequest("op", "GAL-C-100", 1, 2.0, 2.0 * 1.005, Buy);
            var fill := OrderExecution("op", OrderStatus.Executed, 1, Some(3.0), Some("77"), None);
            var trail := [IntentEvent(request), JournalEvent(0, Some("op"), OrderUpdated(fill))];
            && ValidExecution(request, fill) && fill.fillPrice.value > request.limitPrice
            && FilledTrail(request, trail) && EntryIsForgotten(EmptyLedger, 0, trail, "op")
  {
    var request := OrderRequest("op", "GAL-C-100", 1, 2.0, 2.0 * 1.005, Buy);
    var fill := OrderExecution("op", OrderStatus.Executed, 1, Some(3.0), Some("77"), None);
    var intent, report := IntentEvent(request), JournalEvent(0, Some("op"), OrderUpdated(fill));
    assert "77"[0] == '7';
    TrailSnoc(request, [], intent);
    assert [] + [intent] == [intent];
    TrailSnoc(request, [intent], report);
    assert [intent] + [report] == [intent, report];
    CutOfTrail(EmptyLedger, 0, [], request, [intent, report], 2);
    assert [] + [intent, report][..2] == [intent, report] && [intent, report][0..] == [intent, report];
  }
}
