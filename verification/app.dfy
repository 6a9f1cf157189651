/** The order path of the running program: journal the intent, send it once, track
    it, journal the outcome, and open or close the position (src/app.rs). */
module App {
  import opened Common
  import opened Orders
  import opened Journals
  import opened Replay
  import opened ReplayLaws
  import opened OrderTrail
  import opened Posts
  import opened Fills
  import opened Tracking
  import opened PaperBrokers
  import opened Trading
  import opened Recovery
  import opened LiveBook
  import opened StageHistory
  import opened Stages

  datatype AppError = OrderRefused | ExternalFailure | JournalFailure | RecoveryFailure | TelemetryFailure

  /** What an order reads from configuration, disk and market metadata. */
  datatype OrderInput = OrderInput(
    multiplierVerified: bool,
    orderingReady: bool,
    currentDigest: Option<string>,
    orderPathConfigured: bool,
    trackingTimeout: nat,
    pollInterval: nat,
    cancelTimeout: nat,
    telemetryFails: bool)

  function EventOf(timestampSecs: int, id: string, kind: EventKind): JournalEvent {
    JournalEvent(timestampSecs, Some(id), kind)
  }

  /** The calls of one order: nothing, or one POST that left when its intent was the
      last synced event, followed by a disciplined tracking of the order that the
      broker named in its answer. */
  ghost predicate OneOrderSent(request: OrderRequest, calls: seq<BrokerCall>) {
    calls != [] ==>
      && calls[0].Post? && calls[0].request == request
      && calls[0].durable != [] && IsIntentOf(request, calls[0].durable[|calls[0].durable| - 1])
      && (forall i, j | 1 <= i < j < |calls| :: !(calls[i].Cancel? && calls[j].Cancel?))
      && (forall i | 1 <= i < |calls| - 1 :: !TerminalRead(calls[i]))
      && (|calls| > 1 ==> calls[0].answer.Ok? && calls[0].answer.value.brokerOrderId.Some?)
      && (forall i | 1 <= i < |calls| ::
            (calls[i].StatusRead? || calls[i].Cancel?) && calls[i].brokerOrderId == calls[0].answer.value.brokerOrderId.value)
  }

  function ExposureEvent(timestampSecs: int, request: OrderRequest, execution: OrderExecution): JournalEvent {
    EventOf(timestampSecs, request.operationId,
            PartialFillExposure(execution, request.quantity, execution.RemainingQuantity(request.quantity)))
  }

  /** A sale of exactly this position, half a percent below the market. */
  ghost predicate IsSaleOf(request: OrderRequest, position: Position, marketPrice: real) {
    && request.side == Sell && request.quantity == position.contracts && request.symbol == position.optionSymbol
    && request.operationId == position.operationId + "-close"
    && request.marketPrice == marketPrice && request.limitPrice == marketPrice * 0.995
  }

  /** The order that closes a position; its id is the same on every attempt. */
  function CloseRequest(position: Position, marketPrice: real): OrderRequest {
    OrderRequest(position.operationId + "-close", position.optionSymbol, position.contracts,
                 marketPrice, marketPrice * 0.995, Sell)
  }

  class TradingApp {
    const control: LiveControl
    const book: Book
    const client: IolClient
    const paper: PaperBroker
    const sourceIsIol: bool
    var localPendingOrders: set<string>
    var reconciliationBlocked: bool
    var realAccountClear: bool
    var operationalHalt: bool

    ghost predicate Valid()
      reads this, control, book, book.journal, book.engine, book.portfolio, paper
    {
      && control.book == book
      && control.Valid()
      && paper.Valid()
      && Accepted(book.journal.events)
    }

    /** Every POST that ever left is backed by the synced journal. */
    ghost predicate PostsBacked()
      reads this, book, book.journal, client
    {
      AllBacked(client.calls, book.journal.events, book.journal.durable)
    }

    /** Contracts that whole fills left in the account and the ledger does not hold. */
    ghost function Unaccounted(): int
      reads this, control, book, book.journal, book.engine, book.portfolio, paper
      requires Valid()
    {
      NetFilled(book.journal.events) - Held(book.Current())
    }

    /** `requires_real_order_route`. */
    predicate RealRoute()
      reads control
    {
      control.mode == LiveMode && IsReal(control.stage) && sourceIsIol
    }

    constructor (mode: Mode, config: StageLimits, sourceIsIol: bool, slippageBps: real)
      ensures Valid() && book.Faithful() && PostsBacked() && book.journal.events == [] && localPendingOrders == {}
      ensures Unaccounted() == 0 && !reconciliationBlocked && !realAccountClear && !operationalHalt
    {
      var journal := new Journal();
      var newBook := new Book(journal);
      book := newBook;
      this.sourceIsIol := sourceIsIol;
      client := new IolClient();
      paper := new PaperBroker(slippageBps);
      localPendingOrders, reconciliationBlocked, realAccountClear, operationalHalt := {}, false, false, false;
      control := new LiveControl(mode, config, newBook);
    }

    /** The flags that stop further real orders until someone reconciles. */
    method Block()
      modifies this`reconciliationBlocked, this`realAccountClear, this`operationalHalt, book.engine`state
      ensures reconciliationBlocked && !realAccountClear && operationalHalt && book.engine.state == Halted
    {
      reconciliationBlocked, realAccountClear, operationalHalt := true, false, true;
      book.engine.Halt();
    }

    method AddPending(id: string)
      modifies this`localPendingOrders
      ensures localPendingOrders == old(localPendingOrders) + {id}
    {
      localPendingOrders := localPendingOrders + {id};
    }

    /** A new process over the same disk, after a crash that kept `keep` events and
        with them everything that was synced; the process before it may be any one,
        also one that had lost events itself. Every order whose POST ever left is
        known, and in the list exactly when its last surviving event leaves it open. */
    method Restart(keep: nat, strategyChanged: bool, pending: bool, reportEligible: bool, recovered: seq<real>)
      returns (ok: bool)
      requires Valid() && PostsBacked() && book.journal.durable <= keep <= |book.journal.events|
      modifies this, control, book`riskCloses, book.journal, book.engine, book.portfolio, paper
      ensures PostsBacked() && book.journal.events == old(book.journal.events)[..keep] && Accepted(book.journal.events)
      ensures forall i | 0 <= i < |client.calls| && client.calls[i].Post? ::
                OrderIsKnown(book.journal.events, client.calls[i].request)
      ensures ok <==> LedgerAfter(book.snapshot, book.journal.events).Ok?
      ensures old(book.Faithful()) || old(book.Anchored()) ==> ok
      ensures ok ==> && Valid() && control.authorized.None? && paper.orders == map[]
                     && localPendingOrders == PendingOrders(book.journal.events)
                     && !reconciliationBlocked && !realAccountClear
                     && control.stage == old(control.RestartStage(keep, strategyChanged))
                     && LedgerAfter(book.snapshot, book.journal.events) == Ok(book.Current())
                     && (book.Anchored() <==> book.snapshot.Some? && !book.SnapshotIsAhead())
      ensures old(book.Faithful()) ==>
                && (RecoverFrom(EmptyLedger, book.journal.events) == Ok(book.Current())
                    <==> CrashIsHarmless(old(book.journal.events), book.snapshot, keep))
                && (book.Faithful() <==> CrashIsHarmless(old(book.journal.events), book.snapshot, keep) && !book.SnapshotIsAhead())
    {
      hide RecoverFrom, LegalHistory, View, FaithfulTo, AnchoredTo;
      CrashAnywhereReplays(book.journal.events, keep);
      BackedSurvives(client.calls, book.journal.events, book.journal.durable, keep);
      ok := control.Restart(keep, strategyChanged, pending, reportEligible, recovered);
      forall i | 0 <= i < |client.calls| && client.calls[i].Post?
        ensures OrderIsKnown(book.journal.events, client.calls[i].request)
      {
        BackedOrderIsKnown(client.calls[i], book.journal.events, book.journal.durable);
      }
      if ok {
        paper.Forget();
        var unresolved := UnresolvedLocalOrders(book.journal.events);
        localPendingOrders := unresolved.value;
        reconciliationBlocked, realAccountClear := false, false;
      }
    }

    /** The step of the stage machine. It journals nothing about orders. */
    method Promote(timestampSecs: int, input: PromotionInput) returns (ok: bool)
      requires Valid()
      requires input.accountPosition.Some? ==> OpenablePosition(input.accountPosition.value)
      modifies control, book, book.journal, book.engine, book.portfolio
      ensures Valid() && book.Keeps() && (old(PostsBacked()) ==> PostsBacked())
      ensures PendingOrders(book.journal.events) == old(PendingOrders(book.journal.events))
      ensures control.stage == old(control.PromotionTarget(input)) || (!ok && control.stage == old(control.stage))
      // No order is filled; a position found in the account enters the ledger alone.
      ensures NetFilled(book.journal.events) == old(NetFilled(book.journal.events))
    {
      ghost var before, synced := book.journal.events, book.journal.durable;
      ok := control.MaybePromoteLive(timestampSecs, input);
      SilentEventsReplay(before, book.journal.events);
      NetOfSilence(before, book.journal.events);
      if AllBacked(client.calls, before, synced) {
        BackedGrows(client.calls, before, synced, book.journal.events, book.journal.durable);
      }
    }

    /** The snapshot at the end of a step. It anchors the ledger, also that of a
        process whose snapshot was ahead of its journal. */
    method SaveSnapshot() returns (ok: bool)
      requires Valid()
      modifies control`snapshotStage, control`history, book`snapshot
      ensures Valid() && book.Keeps() && (ok ==> book.Anchored())
      ensures book.Current() == old(book.Current()) && (old(PostsBacked()) ==> PostsBacked())
      ensures Unaccounted() == old(Unaccounted())
    {
      ok := control.Snapshot();
    }

    /** Appends one order event of `trail`. */
    method NoteOrderEvent(request: OrderRequest, event: JournalEvent,
                          ghost start: seq<JournalEvent>, ghost trail: seq<JournalEvent>)
      returns (ok: bool, ghost longer: seq<JournalEvent>)
      requires Valid() && OnTrail(request, start, trail, book.journal.events)
      requires if trail == [] then IsIntentOf(request, event) else TrailStep(request, LastReportOf(trail), event)
      modifies book.journal
      ensures Valid() && book.Keeps() && book.Current() == old(book.Current()) && book.journal.durable == old(book.journal.durable)
      ensures longer == if ok then trail + [event] else trail
      ensures OnTrail(request, start, longer, book.journal.events)
      ensures LastReportOf(longer) == if ok && StateOf(event).Some? then StateOf(event) else LastReportOf(trail)
      ensures book.journal.failed == old(book.journal.failed) + if ok then 0 else 1
    {
      longer := trail;
      TrailGrows(request, start, trail, event);
      control.NoteKeepsStages(event);
      ok := book.Note(event);
      if ok {
        longer := trail + [event];
      }
    }

    /** What is refused before anything is journaled: a real order without a verified
        multiplier, and a real buy without the standing authorization. */
    predicate Refuses(request: OrderRequest, input: OrderInput)
      reads control
    {
      RealRoute() && (!input.multiplierVerified
                      || (request.side.Buy? && !control.EntryAuthorized(input.orderingReady, input.currentDigest)))
    }

    /** The checks before anything is journaled. */
    method Gate(timestampSecs: int, request: OrderRequest, input: OrderInput) returns (ok: bool)
      requires Valid()
      modifies this`reconciliationBlocked, this`realAccountClear, this`operationalHalt,
               control, book, book.journal, book.engine`state
      ensures Valid() && book.Keeps() && book.Current() == old(book.Current())
      ensures ok <==> !old(Refuses(request, input))
      // In fields: a real order without a verified multiplier, or a real buy without the
      // authorization that stands.
      ensures !ok <==>
                old(&& control.mode == LiveMode && control.stage in {Canary, Live} && sourceIsIol
                    && (|| !input.multiplierVerified
                        || (request.side == Buy
                            && !(input.orderingReady && input.currentDigest.Some? && control.authorized == input.currentDigest))))
      ensures ok ==> && book.journal.events == old(book.journal.events) && control.history == old(control.history)
                     && book.journal.failed == old(book.journal.failed)
                     && RealRoute() == old(RealRoute()) && !Refuses(request, input) && control.stage == old(control.stage)
      ensures !ok ==> && old(RealRoute()) && GrewWithout(old(control.history), control.history)
                      && OnlyStageEventsAdded(old(book.journal.events), book.journal.events)
      ensures old(RealRoute()) && !input.multiplierVerified ==> reconciliationBlocked
      ensures book.journal.durable >= old(book.journal.durable)
      ensures !ok && input.multiplierVerified ==> control.returnPending || control.stage == Learning
    {
      if RealRoute() && !input.multiplierVerified {
        Block();
        return false;
      }
      if RealRoute() && request.side.Buy? && !control.EntryAuthorized(input.orderingReady, input.currentDigest) {
        control.returnPending := true;
        var returned := control.ApplyPendingLearningReturn(timestampSecs);
        SilentEventsReplay(old(book.journal.events), book.journal.events);
        return false;
      }
      ok := true;
    }

    /** Write-ahead: the intent, synced before a real order can be sent. */
    method JournalIntent(timestampSecs: int, request: OrderRequest, input: OrderInput)
      returns (ok: bool, ghost trail: seq<JournalEvent>)
      requires Valid() && MayOrder(book.journal.events, request)
      requires RealRoute() && request.side.Buy? ==> control.EntryAuthorized(input.orderingReady, input.currentDigest)
      modifies book.journal, control`history
      ensures Valid() && book.Keeps() && book.Current() == old(book.Current())
      ensures OnTrail(request, old(book.journal.events), trail, book.journal.events)
      ensures LastReportOf(trail) == None && |trail| <= 1
      ensures ok ==> |trail| == 1 && (RealRoute() ==> book.journal.durable == |book.journal.events|)
      ensures book.journal.durable >= old(book.journal.durable)
      ensures control.history == old(control.history)
                + if RealRoute() && request.side.Buy? && trail != [] then [BuyIntent(input.currentDigest.value)] else []
      ensures book.journal.failed == old(book.journal.failed) + if ok then 0 else 1
    {
      hide ReplayAll, RecoverFrom, LegalHistory, View, FaithfulTo, AnchoredTo;
      ok, trail := NoteIntent(timestampSecs, request);
      if ok && RealRoute() {
        ok := CommitIntent(request, input);
      }
    }

    method NoteIntent(timestampSecs: int, request: OrderRequest) returns (ok: bool, ghost trail: seq<JournalEvent>)
      requires Valid() && MayOrder(book.journal.events, request)
      modifies book.journal
      ensures Valid() && book.Keeps() && book.Current() == old(book.Current()) && book.journal.durable == old(book.journal.durable)
      ensures OnTrail(request, old(book.journal.events), trail, book.journal.events)
      ensures LastReportOf(trail) == None && |trail| == if ok then 1 else 0
      ensures book.journal.failed == old(book.journal.failed) + if ok then 0 else 1
    {
      ghost var start := book.journal.events;
      assert start + [] == start;
      ok, trail := NoteOrderEvent(request, EventOf(timestampSecs, request.operationId, OrderIntentCreated(request)), start, []);
    }

    /** The intent of a real order reaches the disk. */
    method CommitIntent(request: OrderRequest, input: OrderInput) returns (ok: bool)
      requires Valid() && RealRoute()
      requires request.side.Buy? ==> control.EntryAuthorized(input.orderingReady, input.currentDigest)
      modifies book.journal, control`history
      ensures Valid() && book.Keeps() && book.Current() == old(book.Current()) && book.journal.events == old(book.journal.events)
      ensures ok ==> book.journal.durable == |book.journal.events|
      ensures book.journal.durable >= old(book.journal.durable)
      ensures control.history == old(control.history)
                + if request.side.Buy? then [BuyIntent(input.currentDigest.value)] else []
      ensures book.journal.failed == old(book.journal.failed) + if ok then 0 else 1
    {
      if request.side.Buy? {
        control.RecordRealBuy(input.currentDigest.value);
      }
      ok := SyncJournal();
    }

    method SyncJournal() returns (ok: bool)
      requires Valid()
      modifies book.journal
      ensures Valid() && book.Keeps() && book.Current() == old(book.Current()) && book.journal.events == old(book.journal.events)
      ensures book.journal.durable == if ok then |book.journal.events| else old(book.journal.durable)
      ensures book.journal.failed == old(book.journal.failed) + if ok then 0 else 1
    {
      ok := book.journal.Sync();
    }

    method RecordUnknownOrder(timestampSecs: int, request: OrderRequest,
                              ghost start: seq<JournalEvent>, ghost trail: seq<JournalEvent>)
      returns (ok: bool, ghost longer: seq<JournalEvent>)
      requires Valid() && OnTrail(request, start, trail, book.journal.events) && trail != []
      requires LastReportOf(trail).Some? ==> !IsTerminal(LastReportOf(trail).value)
      modifies this`localPendingOrders, this`reconciliationBlocked, this`realAccountClear, this`operationalHalt,
               book.journal, book.engine`state
      ensures Valid() && book.Keeps() && book.Current() == old(book.Current()) && book.journal.durable >= old(book.journal.durable)
      ensures OnTrail(request, start, longer, book.journal.events) && trail <= longer
      ensures LeavesPending(trail) ==> LeavesPending(longer)
      ensures (EndsInOutcome(longer) ==> EndsInOutcome(trail)) && book.journal.failed >= old(book.journal.failed)
      ensures ok ==> && IsUnknownOf(request, longer[|longer| - 1]) && book.journal.durable == |book.journal.events|
                     && request.operationId in localPendingOrders
                     && reconciliationBlocked && operationalHalt && book.engine.state == Halted
    {
      ok, longer := JournalUnknown(timestampSecs, request, start, trail);
      if ok {
        AddPending(request.operationId);
        Block();
      }
    }

    method JournalUnknown(timestampSecs: int, request: OrderRequest,
                          ghost start: seq<JournalEvent>, ghost trail: seq<JournalEvent>)
      returns (ok: bool, ghost longer: seq<JournalEvent>)
      requires Valid() && OnTrail(request, start, trail, book.journal.events) && trail != []
      requires LastReportOf(trail).Some? ==> !IsTerminal(LastReportOf(trail).value)
      modifies book.journal
      ensures Valid() && book.Keeps() && book.Current() == old(book.Current()) && book.journal.durable >= old(book.journal.durable)
      ensures OnTrail(request, start, longer, book.journal.events) && trail <= longer
      ensures LeavesPending(trail) ==> LeavesPending(longer)
      ensures (EndsInOutcome(longer) ==> EndsInOutcome(trail)) && book.journal.failed >= old(book.journal.failed)
      ensures ok ==> IsUnknownOf(request, longer[|longer| - 1]) && book.journal.durable == |book.journal.events|
    {
      var event := EventOf(timestampSecs, request.operationId, OrderUnknown(request, "resultado desconocido"));
      ok, longer := NoteOrderEvent(request, event, start, trail);
      if ok {
        ok := SyncJournal();
      }
    }

    /** One POST, then tracking. Either a terminal report or an order in doubt. */
    method SendAndTrack(timestampSecs: int, request: OrderRequest, input: OrderInput,
                         ghost start: seq<JournalEvent>, ghost trail: seq<JournalEvent>)
      returns (r: Result<OrderExecution, AppError>, ghost longer: seq<JournalEvent>, ghost sent: seq<BrokerCall>)
      requires Valid() && OnTrail(request, start, trail, book.journal.events)
      requires |trail| == 1 && LastReportOf(trail) == None && book.journal.durable == |book.journal.events|
      modifies this`localPendingOrders, this`reconciliationBlocked, this`realAccountClear, this`operationalHalt,
               book.journal, book.engine`state, client
      ensures Valid() && book.Keeps() && book.Current() == old(book.Current()) && book.journal.durable >= old(book.journal.durable)
      ensures OnTrail(request, start, longer, book.journal.events) && trail <= longer
      ensures client.calls == old(client.calls) + sent && OneOrderSent(request, sent)
      ensures sent != [] ==> sent[0].durable == old(book.journal.events)
      ensures EndedAs(request, longer, r)
      ensures book.journal.failed >= old(book.journal.failed)
      ensures r.Ok? ==> && input.orderPathConfigured && book.journal.failed == old(book.journal.failed)
                        && OutcomeOf(sent) == Some(r.value)
      ensures book.journal.failed == old(book.journal.failed) && r.Err? ==> !input.orderPathConfigured || OutcomeOf(sent).None?
      ensures input.orderPathConfigured ==> (sent == [] <==> client.unsent > old(client.unsent))
      ensures |sent| > 1 ==> sent[0].answer.Ok? && AcceptedIsSynced(longer, sent[0].answer.value, |start|, book.journal.durable)
    {
      if input.orderPathConfigured {
        r, longer, sent := PostAndFollow(timestampSecs, request, input, start, trail);
      } else {
        r, longer, sent := Err(ExternalFailure), trail, [];
      }
    }

    method PostAndFollow(timestampSecs: int, request: OrderRequest, input: OrderInput,
                         ghost start: seq<JournalEvent>, ghost trail: seq<JournalEvent>)
      returns (r: Result<OrderExecution, AppError>, ghost longer: seq<JournalEvent>, ghost sent: seq<BrokerCall>)
      requires Valid() && OnTrail(request, start, trail, book.journal.events)
      requires |trail| == 1 && LastReportOf(trail) == None && book.journal.durable == |book.journal.events|
      modifies this`localPendingOrders, this`reconciliationBlocked, this`realAccountClear, this`operationalHalt,
               book.journal, book.engine`state, client
      ensures Valid() && book.Keeps() && book.Current() == old(book.Current()) && book.journal.durable >= old(book.journal.durable)
      ensures OnTrail(request, start, longer, book.journal.events) && trail <= longer
      ensures client.calls == old(client.calls) + sent && OneOrderSent(request, sent)
      ensures sent != [] ==> sent[0].durable == old(book.journal.events)
      ensures EndedAs(request, longer, r)
      ensures book.journal.failed >= old(book.journal.failed)
      ensures r.Ok? ==> book.journal.failed == old(book.journal.failed) && OutcomeOf(sent) == Some(r.value)
      ensures book.journal.failed == old(book.journal.failed) && r.Err? ==> OutcomeOf(sent).None?
      ensures (sent == [] <==> client.unsent > old(client.unsent))
      ensures |sent| > 1 ==> sent[0].answer.Ok? && AcceptedIsSynced(longer, sent[0].answer.value, |start|, book.journal.durable)
    {
      hide ReplayAll, RecoverFrom, LegalHistory, View, FaithfulTo, AnchoredTo, LiveControl.Coherent;
      hide PaperBroker.Valid, Book.Valid;
      hide Trail, MayOrder, Disciplined, OneOrderSent, OutcomeOf, ReachesTerminal;
      ghost var posted, more;
      var submitted;
      LoneIntent(request, start, trail);
      ghost var journal := book.journal.events;
      submitted, posted := PostOrder(request);
      r, longer, more := FollowAnswer(timestampSecs, request, submitted, input, start, trail);
      JoinCalls(request, journal, submitted, posted, more);
      JoinedOutcome(posted, submitted, more);
      sent := posted + more;
    }

    /** The POST leaves when everything journaled is on the disk, the intent last. */
    method PostOrder(request: OrderRequest) returns (r: Result<OrderExecution, ClientError>, ghost posted: seq<BrokerCall>)
      requires book.journal.events != [] && IsIntentOf(request, book.journal.events[|book.journal.events| - 1])
      requires book.journal.durable == |book.journal.events|
      modifies client
      ensures client.calls == old(client.calls) + posted
      ensures posted == if client.unsent > old(client.unsent) then [] else [Post(request, book.journal.events, r)]
      ensures r.Ok? ==> posted != [] && ValidExecution(request, r.value)
    {
      assert book.journal.events[..book.journal.durable] == book.journal.events;
      ghost var raw;
      r, raw := client.SubmitOrder(request, book.journal.events[..book.journal.durable]);
      posted := client.calls[|old(client.calls)|..];
    }

    /** A POST without an answer may have left: the order is recorded as unknown. */
    method FollowAnswer(timestampSecs: int, request: OrderRequest, submitted: Result<OrderExecution, ClientError>,
                        input: OrderInput, ghost start: seq<JournalEvent>, ghost trail: seq<JournalEvent>)
      returns (r: Result<OrderExecution, AppError>, ghost longer: seq<JournalEvent>, ghost more: seq<BrokerCall>)
      requires Valid() && OnTrail(request, start, trail, book.journal.events)
      requires |trail| == 1 && LastReportOf(trail) == None && (submitted.Ok? ==> ValidExecution(request, submitted.value))
      modifies this`localPendingOrders, this`reconciliationBlocked, this`realAccountClear, this`operationalHalt,
               book.journal, book.engine`state, client
      ensures Valid() && book.Keeps() && book.Current() == old(book.Current()) && book.journal.durable >= old(book.journal.durable)
      ensures OnTrail(request, start, longer, book.journal.events) && trail <= longer
      ensures client.unsent == old(client.unsent)
      ensures client.calls == old(client.calls) + more && Disciplined(more) && (submitted.Err? ==> more == [])
      ensures EndedAs(request, longer, r)
      ensures book.journal.failed >= old(book.journal.failed)
      ensures r.Ok? ==> && book.journal.failed == old(book.journal.failed) && submitted.Ok? && ReachesTerminal(submitted.value, more)
                        && r.value == LastReport(submitted.value, Reports(more))
      ensures book.journal.failed == old(book.journal.failed) && r.Err? ==> !(submitted.Ok? && ReachesTerminal(submitted.value, more))
      ensures more != [] ==> submitted.Ok? && submitted.value.brokerOrderId.Some? && Addressed(more, submitted.value.brokerOrderId.value)
      ensures more != [] ==> submitted.Ok? && AcceptedIsSynced(longer, submitted.value, |start|, book.journal.durable)
    {
      if submitted.Ok? {
        r, longer, more := TrackAccepted(timestampSecs, request, submitted.value, input, start, trail);
      } else {
        more := [];
        var recorded;
        recorded, longer := RecordUnknownOrder(timestampSecs, request, start, trail);
        r := Err(ExternalFailure);
      }
    }

    method TrackAccepted(timestampSecs: int, request: OrderRequest, initial: OrderExecution, input: OrderInput,
                         ghost start: seq<JournalEvent>, ghost trail: seq<JournalEvent>)
      returns (r: Result<OrderExecution, AppError>, ghost longer: seq<JournalEvent>, ghost more: seq<BrokerCall>)
      requires Valid() && OnTrail(request, start, trail, book.journal.events)
      requires |trail| == 1 && LastReportOf(trail) == None && ValidExecution(request, initial)
      modifies this`localPendingOrders, this`reconciliationBlocked, this`realAccountClear, this`operationalHalt,
               book.journal, book.engine`state, client
      ensures Valid() && book.Keeps() && book.Current() == old(book.Current()) && book.journal.durable >= old(book.journal.durable)
      ensures OnTrail(request, start, longer, book.journal.events) && trail <= longer
      ensures client.unsent == old(client.unsent)
      ensures client.calls == old(client.calls) + more && Disciplined(more)
      ensures EndedAs(request, longer, r)
      ensures book.journal.failed >= old(book.journal.failed)
      ensures r.Ok? ==> && book.journal.failed == old(book.journal.failed) && ReachesTerminal(initial, more)
                        && r.value == LastReport(initial, Reports(more))
      ensures book.journal.failed == old(book.journal.failed) && r.Err? ==> !(ReachesTerminal(initial, more))
      ensures more != [] ==> initial.brokerOrderId.Some? && Addressed(more, initial.brokerOrderId.value)
      ensures more != [] ==> AcceptedIsSynced(longer, initial, |start|, book.journal.durable)
    {
      more := [];
      var ok;
      ok, longer := NoteOrderEvent(request, EventOf(timestampSecs, request.operationId, OrderAccepted(initial)), start, trail);
      if ok {
        ok := SyncJournal();
      }
      if !ok {
        return Err(JournalFailure), longer, more;
      }
      r, longer, more := TrackToEnd(timestampSecs, request, initial, input, start, longer);
    }

    method TrackToEnd(timestampSecs: int, request: OrderRequest, initial: OrderExecution, input: OrderInput,
                      ghost start: seq<JournalEvent>, ghost trail: seq<JournalEvent>)
      returns (r: Result<OrderExecution, AppError>, ghost longer: seq<JournalEvent>, ghost more: seq<BrokerCall>)
      requires Valid() && OnTrail(request, start, trail, book.journal.events) && trail != []
      requires AcceptedIsSynced(trail, initial, |start|, book.journal.durable)
      requires LastReportOf(trail) == Some(initial) && ValidExecution(request, initial)
      requires (!IsTerminal(initial) ==> LeavesPending(trail)) && !EndsInOutcome(trail)
      modifies this`localPendingOrders, this`reconciliationBlocked, this`realAccountClear, this`operationalHalt,
               book.journal, book.engine`state, client
      ensures Valid() && book.Keeps() && book.Current() == old(book.Current()) && book.journal.durable >= old(book.journal.durable)
      ensures OnTrail(request, start, longer, book.journal.events) && trail <= longer
      ensures client.unsent == old(client.unsent)
      ensures client.calls == old(client.calls) + more && Disciplined(more)
      ensures EndedAs(request, longer, r)
      ensures book.journal.failed >= old(book.journal.failed)
      ensures r.Ok? <==> ReachesTerminal(initial, more)
      ensures r.Ok? ==> book.journal.failed == old(book.journal.failed) && r.value == LastReport(initial, Reports(more))
      ensures more != [] ==> initial.brokerOrderId.Some? && Addressed(more, initial.brokerOrderId.value)
    {
      var tracked;
      tracked, more := FollowOrder(request, initial, input);
      if tracked.Ok? {
        return Ok(tracked.value), trail, more;
      }
      var recorded;
      recorded, longer := RecordUnknownOrder(timestampSecs, request, start, trail);
      r := Err(ExternalFailure);
    }

    /** What the application relies on: the tracked outcome is one legal step after
        the accepted report, and tracking can fail only before a terminal report. */
    method FollowOrder(request: OrderRequest, initial: OrderExecution, input: OrderInput)
      returns (r: Result<OrderExecution, ClientError>, ghost more: seq<BrokerCall>)
      requires ValidExecution(request, initial)
      modifies client
      ensures client.unsent == old(client.unsent)
      ensures client.calls == old(client.calls) + more && Disciplined(more)
      ensures r.Ok? <==> ReachesTerminal(initial, more)
      ensures r.Ok? ==> && r.value == LastReport(initial, Reports(more))
                        && ValidExecution(request, r.value) && IsTerminal(r.value) && Follows(initial, r.value)
      ensures r.Err? ==> !IsTerminal(initial)
      ensures more != [] ==> initial.brokerOrderId.Some? && Addressed(more, initial.brokerOrderId.value)
    {
      ghost var signals;
      r, more, signals :=
        client.TrackOrderToTerminal(request, initial, input.trackingTimeout, input.pollInterval, input.cancelTimeout);
      if r.Ok? {
        ChainIsOneStep(initial, Reports(more));
      }
      assert IsTerminal(initial) ==> ReachesTerminal(initial, []);
    }

    /** The paper route: the fixed-limit fill of the paper broker. */
    method PaperOrder(request: OrderRequest) returns (r: Result<OrderExecution, AppError>)
      requires Valid()
      modifies paper
      ensures Valid()
      ensures r.Ok? <==> old(paper.Accepts(request))
      ensures r.Ok? ==> ValidExecution(request, r.value) && (r.value.status.Executed? <==> old(paper.WouldFill(request)))
      ensures r.Ok? ==> paper.Answers(request, old(request.operationId !in paper.orders), r.value)
    {
      var submitted := paper.SubmitLimit(request);
      if submitted.Err? {
        return Err(OrderRefused);
      }
      r := Ok(submitted.value);
    }

    /** Once the gate is passed: the intent, the order, its outcome. */
    method PlaceOrder(timestampSecs: int, request: OrderRequest, input: OrderInput, realRoute: bool,
                      ghost start: seq<JournalEvent>, ghost history: seq<StageRecord>)
      returns (r: Result<OrderExecution, AppError>, ghost trail: seq<JournalEvent>, ghost sent: seq<BrokerCall>)
      requires Valid() && start == book.journal.events && history == control.history && realRoute == RealRoute()
      requires MayOrder(start, request)
      requires realRoute && request.side.Buy? ==> control.EntryAuthorized(input.orderingReady, input.currentDigest)
      modifies this`localPendingOrders, this`reconciliationBlocked, this`realAccountClear, this`operationalHalt,
               control`history, book.journal, book.engine`state, client, paper
      ensures Valid() && book.Keeps() && book.Current() == old(book.Current()) && book.journal.durable >= old(book.journal.durable)
      ensures OnTrail(request, start, trail, book.journal.events)
      ensures client.calls == old(client.calls) + sent && OneOrderSent(request, sent)
      ensures sent != [] ==> realRoute && trail != [] && SentAfter(sent, start + [trail[0]], book.journal.durable)
      ensures control.history ==
                history + if realRoute && request.side.Buy? && trail != [] then [BuyIntent(input.currentDigest.value)] else []
      ensures r.Ok? ==> Reported(request, trail, r.value) && (realRoute ==> IsTerminal(r.value) && book.journal.durable == |book.journal.events|)
      ensures r.Err? ==> LeavesPending(trail) || r.error.JournalFailure? || r.error.TelemetryFailure?
      ensures r.Ok? <==> EndsInOutcome(trail) && !input.telemetryFails && book.journal.failed == old(book.journal.failed)
      ensures book.journal.failed >= old(book.journal.failed)
      ensures book.journal.failed == old(book.journal.failed) ==>
                trail != [] && (EndsInOutcome(trail) <==>
                   if realRoute then input.orderPathConfigured && OutcomeOf(sent).Some? else old(paper.Accepts(request)))
      ensures realRoute && input.orderPathConfigured && book.journal.failed == old(book.journal.failed) ==> (sent == [] <==> client.unsent > old(client.unsent))
      ensures realRoute && EndsInOutcome(trail) ==> OutcomeOf(sent) == Some(trail[|trail| - 1].kind.execution)
      ensures !realRoute && EndsInOutcome(trail) ==> (ReportsFill(trail) <==> old(paper.WouldFill(request)))
      ensures !realRoute && EndsInOutcome(trail) ==> paper.Answers(request, old(request.operationId !in paper.orders), trail[|trail| - 1].kind.execution)
      ensures realRoute ==> paper.orders == old(paper.orders)
      ensures |sent| > 1 ==> sent[0].answer.Ok? && AcceptedIsSynced(trail, sent[0].answer.value, |start|, book.journal.durable)
    {
      hide ReplayAll, RecoverFrom, LegalHistory, View, FaithfulTo, AnchoredTo, LiveControl.Coherent;
      hide PaperBroker.Valid, Book.Valid, Trail, MayOrder, OutcomeOf;
      var ok;
      ok, trail := JournalIntent(timestampSecs, request, input);
      if ok {
        r, trail, sent := CarryOut(timestampSecs, request, input, start, trail);
      } else {
        r, sent := Err(JournalFailure), [];
      }
    }

    method CarryOut(timestampSecs: int, request: OrderRequest, input: OrderInput,
                    ghost start: seq<JournalEvent>, ghost trail: seq<JournalEvent>)
      returns (r: Result<OrderExecution, AppError>, ghost longer: seq<JournalEvent>, ghost sent: seq<BrokerCall>)
      requires Valid() && OnTrail(request, start, trail, book.journal.events)
      requires |trail| == 1 && LastReportOf(trail) == None
      requires RealRoute() ==> book.journal.durable == |book.journal.events|
      modifies this`localPendingOrders, this`reconciliationBlocked, this`realAccountClear, this`operationalHalt,
               book.journal, book.engine`state, client, paper
      ensures Valid() && book.Keeps() && book.Current() == old(book.Current()) && book.journal.durable >= old(book.journal.durable)
      ensures OnTrail(request, start, longer, book.journal.events) && longer != [] && longer[0] == trail[0]
      ensures client.calls == old(client.calls) + sent && OneOrderSent(request, sent)
      ensures sent != [] ==> RealRoute() && SentAfter(sent, start + [trail[0]], book.journal.durable)
      ensures r.Ok? ==> Reported(request, longer, r.value) && (RealRoute() ==> IsTerminal(r.value) && book.journal.durable == |book.journal.events|)
      ensures r.Err? ==> LeavesPending(longer) || r.error.JournalFailure? || r.error.TelemetryFailure?
      ensures r.Ok? <==> EndsInOutcome(longer) && !input.telemetryFails && book.journal.failed == old(book.journal.failed)
      ensures book.journal.failed >= old(book.journal.failed)
      ensures book.journal.failed == old(book.journal.failed) ==>
                (EndsInOutcome(longer) <==>
                   if RealRoute() then input.orderPathConfigured && OutcomeOf(sent).Some? else old(paper.Accepts(request)))
      ensures RealRoute() && input.orderPathConfigured ==> (sent == [] <==> client.unsent > old(client.unsent))
      ensures RealRoute() && EndsInOutcome(longer) ==> OutcomeOf(sent) == Some(longer[|longer| - 1].kind.execution)
      ensures !RealRoute() && EndsInOutcome(longer) ==> (ReportsFill(longer) <==> old(paper.WouldFill(request)))
      ensures !RealRoute() && EndsInOutcome(longer) ==> paper.Answers(request, old(request.operationId !in paper.orders), longer[|longer| - 1].kind.execution)
      ensures RealRoute() ==> paper.orders == old(paper.orders)
      ensures |sent| > 1 ==> sent[0].answer.Ok? && AcceptedIsSynced(longer, sent[0].answer.value, |start|, book.journal.durable)
    {
      hide ReplayAll, RecoverFrom, LegalHistory, View, FaithfulTo, AnchoredTo, LiveControl.Coherent;
      hide PaperBroker.Valid, Book.Valid, Trail, MayOrder, OneOrderSent, OutcomeOf, StateOf;
      var executed;
      executed, longer, sent := RouteOrder(timestampSecs, request, input, start, trail);
      if executed.Err? {
        return Err(executed.error), longer, sent;
      }
      var execution := executed.value;
      if RealRoute() && execution.status.Executed? && (execution.brokerOrderId.None? || execution.brokerOrderId.value == []) {
        assert false; // a valid full fill names its broker order
      }
      ghost var before := longer;
      r, longer := RecordTerminal(timestampSecs, request, execution, RealRoute(), input.telemetryFails, start, before);
      assert longer[0] == before[0];
    }

    /** The real route or the paper one. */
    method RouteOrder(timestampSecs: int, request: OrderRequest, input: OrderInput,
                      ghost start: seq<JournalEvent>, ghost trail: seq<JournalEvent>)
      returns (r: Result<OrderExecution, AppError>, ghost longer: seq<JournalEvent>, ghost sent: seq<BrokerCall>)
      requires Valid() && OnTrail(request, start, trail, book.journal.events)
      requires |trail| == 1 && LastReportOf(trail) == None
      requires RealRoute() ==> book.journal.durable == |book.journal.events|
      modifies this`localPendingOrders, this`reconciliationBlocked, this`realAccountClear, this`operationalHalt,
               book.journal, book.engine`state, client, paper
      ensures Valid() && book.Keeps() && book.Current() == old(book.Current()) && book.journal.durable >= old(book.journal.durable)
      ensures OnTrail(request, start, longer, book.journal.events) && trail <= longer
      ensures client.calls == old(client.calls) + sent && OneOrderSent(request, sent)
      ensures sent != [] ==> RealRoute() && SentAfter(sent, start + trail, book.journal.durable)
      ensures r.Ok? ==> && ValidExecution(request, r.value) && (RealRoute() ==> IsTerminal(r.value))
                        && (LastReportOf(longer).Some? ==> Follows(LastReportOf(longer).value, r.value))
      ensures r.Err? ==> LeavesPending(longer) || r.error.JournalFailure?
      ensures (r.Ok? ==> book.journal.failed == old(book.journal.failed)) && !EndsInOutcome(longer)
      ensures book.journal.failed >= old(book.journal.failed)
      ensures book.journal.failed == old(book.journal.failed) ==>
                (r.Ok? <==>
                   if RealRoute() then input.orderPathConfigured && OutcomeOf(sent).Some? else old(paper.Accepts(request)))
      ensures RealRoute() && input.orderPathConfigured ==> (sent == [] <==> client.unsent > old(client.unsent))
      ensures RealRoute() && r.Ok? ==> OutcomeOf(sent) == Some(r.value)
      ensures !RealRoute() && r.Ok? ==> (r.value.status.Executed? <==> old(paper.WouldFill(request)))
      ensures !RealRoute() && r.Ok? ==> paper.Answers(request, old(request.operationId !in paper.orders), r.value)
      ensures RealRoute() ==> paper.orders == old(paper.orders)
      ensures |sent| > 1 ==> sent[0].answer.Ok? && AcceptedIsSynced(longer, sent[0].answer.value, |start|, book.journal.durable)
    {
      hide ReplayAll, RecoverFrom, LegalHistory, View, FaithfulTo, AnchoredTo, LiveControl.Coherent;
      hide PaperBroker.Valid, Book.Valid;
      if RealRoute() {
        r, longer, sent := SendAndTrack(timestampSecs, request, input, start, trail);
      } else {
        longer, sent := trail, [];
        NoReportYet(trail);
        r := PaperOrder(request);
      }
    }

    /** For an id that may be used. A POST is sent at most once, after its intent was
        synced; the journal gains the trail of this order, or stage events of a
        refused one; and the answer is the last report of the journal, or the order
        is in doubt there. */
    method ExecuteOrder(timestampSecs: int, request: OrderRequest, input: OrderInput)
      returns (r: Result<OrderExecution, AppError>, ghost trail: seq<JournalEvent>, ghost sent: seq<BrokerCall>)
      requires Valid() && MayOrder(book.journal.events, request)
      modifies this`localPendingOrders, this`reconciliationBlocked, this`realAccountClear, this`operationalHalt,
               control, book, book.journal, book.engine`state, client, paper
      ensures Valid() && book.Keeps() && book.Current() == old(book.Current())
      ensures old(PostsBacked()) ==> PostsBacked()
      ensures client.calls == old(client.calls) + sent && OneOrderSent(request, sent)
      ensures sent != [] ==> && old(RealRoute()) && input.multiplierVerified && trail != []
                             && SentAfter(sent, old(book.journal.events) + [trail[0]], book.journal.durable)
      ensures trail != [] ==> OnTrail(request, old(book.journal.events), trail, book.journal.events)
                              && control.stage == old(control.stage)
      ensures trail == [] ==> r.Err? && OnlyStageEventsAdded(old(book.journal.events), book.journal.events)
      // A real buy is journaled only with the authorization that stands.
      ensures trail != [] && old(RealRoute()) && request.side.Buy? ==>
                && input.orderingReady && input.currentDigest.Some?
                && control.history == old(control.history) + [BuyIntent(input.currentDigest.value)]
      ensures !(trail != [] && old(RealRoute()) && request.side.Buy?) ==> GrewWithout(old(control.history), control.history)
      ensures Extends(old(control.history), control.history)
      ensures r.Ok? ==> && Reported(request, trail, r.value)
                        && (old(RealRoute()) ==> IsTerminal(r.value) && book.journal.durable == |book.journal.events|)
      ensures r.Err? && trail != [] ==> LeavesPending(trail) || r.error.JournalFailure? || r.error.TelemetryFailure?
      // It is refused exactly when the gate says so, and else carried out.
      ensures old(Refuses(request, input)) ==> r == Err(OrderRefused) && trail == [] && sent == []
      ensures !old(Refuses(request, input)) && book.journal.failed == old(book.journal.failed) ==>
                && trail != []
                && (EndsInOutcome(trail) <==>
                      if old(RealRoute()) then input.orderPathConfigured && OutcomeOf(sent).Some? else old(paper.Accepts(request)))
                && (old(RealRoute()) && input.orderPathConfigured ==> (sent == [] <==> client.unsent > old(client.unsent)))
      ensures old(RealRoute()) && EndsInOutcome(trail) ==> OutcomeOf(sent) == Some(trail[|trail| - 1].kind.execution)
      ensures !old(Refuses(request, input)) && book.journal.failed == old(book.journal.failed) ==>
                (ReportsFill(trail) <==>
                   FillIsDue(old(RealRoute()), input.orderPathConfigured, sent, old(paper.WouldFill(request))))
      ensures !old(RealRoute()) && EndsInOutcome(trail) ==> (ReportsFill(trail) <==> old(paper.WouldFill(request)))
      ensures r.Ok? <==> EndsInOutcome(trail) && !input.telemetryFails && book.journal.failed == old(book.journal.failed)
      ensures trail != [] ==> book.journal.failed >= old(book.journal.failed)
      // A real order is one of a live process in Canary or Live on the broker's own feed;
      // any other is answered by the paper broker, whose execution is the one journaled.
      ensures sent != [] ==> old(control.mode == LiveMode && control.stage in {Canary, Live} && sourceIsIol)
      ensures old(control.mode == LiveMode && control.stage in {Canary, Live} && sourceIsIol) ==> paper.orders == old(paper.orders)
      ensures !old(RealRoute()) && EndsInOutcome(trail) ==>
                && request.operationId in paper.orders
                && paper.orders[request.operationId] == trail[|trail| - 1].kind.execution
                && paper.Answers(request, old(request.operationId !in paper.orders), trail[|trail| - 1].kind.execution)
      // A journaled whole fill settles the order, and it is the order's share of the account.
      ensures ReportsFill(trail) ==> IsForgottenFill(request, book.journal.events, trail) && FillPrice(trail).Some?
      ensures NetFilled(book.journal.events) == old(NetFilled(book.journal.events)) + FillOf(request, trail)
      // What the broker accepted, with its id, is on the disk before the first read.
      ensures |sent| > 1 ==> sent[0].answer.Ok? && AcceptedIsSynced(trail, sent[0].answer.value, |old(book.journal.events)|, book.journal.durable)
    {
      hide ReplayAll, RecoverFrom, LegalHistory, View, FaithfulTo, AnchoredTo, LiveControl.Coherent;
      hide PaperBroker.Valid, Book.Valid, NetFilled, FillOf, Trail, MayOrder;
      ghost var start, history, calls, synced := book.journal.events, control.history, client.calls, book.journal.durable;
      var realRoute := RealRoute();
      var allowed := Gate(timestampSecs, request, input);
      if allowed {
        r, trail, sent := PlaceOrder(timestampSecs, request, input, realRoute, start, history);
      } else {
        r, trail, sent := Err(OrderRefused), [], [];
      }
      PostsStayBacked(calls, start, synced, request, sent, trail, book.journal.events, book.journal.durable);
      NetAfterOrder(request, start, trail, book.journal.events);
      if trail != [] {
        FillIsSettled(request, start, trail);
      }
    }

    method RecordTerminal(timestampSecs: int, request: OrderRequest, execution: OrderExecution, durable: bool,
                          telemetryFails: bool, ghost start: seq<JournalEvent>, ghost trail: seq<JournalEvent>)
      returns (r: Result<OrderExecution, AppError>, ghost longer: seq<JournalEvent>)
      requires Valid() && OnTrail(request, start, trail, book.journal.events) && trail != []
      requires ValidExecution(request, execution)
      requires LastReportOf(trail).Some? ==> Follows(LastReportOf(trail).value, execution)
      modifies book.journal
      ensures Valid() && book.Keeps() && book.Current() == old(book.Current())
      ensures OnTrail(request, start, longer, book.journal.events) && trail <= longer
      ensures r.Ok? ==> && r.value == execution && longer[|longer| - 1].kind == OrderUpdated(execution)
                        && LastReportOf(longer) == Some(execution)
                        && (durable ==> book.journal.durable == |book.journal.events|)
      ensures r.Err? ==> r.error.JournalFailure? || r.error.TelemetryFailure?
      ensures book.journal.durable >= old(book.journal.durable)
      ensures longer == trail || longer == trail + [EventOf(timestampSecs, request.operationId, OrderUpdated(execution))]
      ensures book.journal.failed >= old(book.journal.failed)
      ensures book.journal.failed == old(book.journal.failed) ==> longer != trail
      ensures r.Ok? <==> !telemetryFails && book.journal.failed == old(book.journal.failed)
    {
      var ok;
      ok, longer := NoteOrderEvent(request, EventOf(timestampSecs, request.operationId, OrderUpdated(execution)), start, trail);
      if ok && durable {
        ok := SyncJournal();
      }
      if !ok {
        return Err(JournalFailure), longer;
      }
      r := if telemetryFails then Err(TelemetryFailure) else Ok(execution);
    }

    /** What follows an order that did not fill completely. */
    method HandleUnfilledOrder(timestampSecs: int, request: OrderRequest, execution: OrderExecution, realTrading: bool,
                               ghost start: seq<JournalEvent>, ghost trail: seq<JournalEvent>)
      returns (ok: bool, ghost longer: seq<JournalEvent>)
      requires Valid() && OnTrail(request, start, trail, book.journal.events)
      requires LastReportOf(trail) == Some(execution) && ValidExecution(request, execution)
      requires !execution.status.Executed?
      modifies this`localPendingOrders, this`reconciliationBlocked, this`realAccountClear, this`operationalHalt,
               book.journal, book.engine`state
      ensures Valid() && book.Keeps() && book.Current() == old(book.Current())
      ensures OnTrail(request, start, longer, book.journal.events) && book.journal.durable == old(book.journal.durable)
      ensures execution.filledQuantity == 0 ==> ok && longer == trail
      ensures execution.filledQuantity > 0 ==>
                longer == trail + if ok then [ExposureEvent(timestampSecs, request, execution)] else []
      ensures ok && execution.filledQuantity > 0 ==>
                longer[|longer| - 1] ==
                JournalEvent(timestampSecs, Some(request.operationId),
                             PartialFillExposure(execution, request.quantity, request.quantity - execution.filledQuantity))
      ensures ok && realTrading && (execution.filledQuantity > 0 || execution.status.Pending?) ==>
                && request.operationId in localPendingOrders && reconciliationBlocked
                && operationalHalt && book.engine.state == Halted
      ensures book.journal.failed >= old(book.journal.failed) && (ok <==> book.journal.failed == old(book.journal.failed))
      // Without money at stake, or in doubt, the engine goes on.
      ensures ok && (!realTrading || (execution.filledQuantity == 0 && !execution.status.Pending?)) ==>
                && reconciliationBlocked == old(reconciliationBlocked) && operationalHalt == old(operationalHalt)
                && book.engine.state == ActiveState(book.engine.position)
    {
      StatusDeterminesFill(request, execution);
      ok, longer := true, trail;
      if execution.filledQuantity > 0 {
        ok, longer := NoteOrderEvent(request, ExposureEvent(timestampSecs, request, execution), start, trail);
      }
      if ok {
        AfterUnfilled(request, execution, realTrading);
      }
    }

    method AfterUnfilled(request: OrderRequest, execution: OrderExecution, realTrading: bool)
      modifies this`localPendingOrders, this`reconciliationBlocked, this`realAccountClear, this`operationalHalt,
               book.engine`state
      ensures realTrading && (execution.filledQuantity > 0 || execution.status.Pending? || execution.status.PartiallyExecuted?) ==>
                && request.operationId in localPendingOrders && reconciliationBlocked
                && operationalHalt && book.engine.state == Halted
      ensures !realTrading || (execution.filledQuantity == 0 && !execution.status.Pending? && !execution.status.PartiallyExecuted?) ==>
                && localPendingOrders == old(localPendingOrders) && reconciliationBlocked == old(reconciliationBlocked)
                && realAccountClear == old(realAccountClear) && operationalHalt == old(operationalHalt)
                && book.engine.state == ActiveState(book.engine.position)
    {
      if realTrading && (execution.filledQuantity > 0 || execution.status.Pending? || execution.status.PartiallyExecuted?) {
        AddPending(request.operationId);
        Block();
      } else {
        book.engine.Resume();
      }
    }

    /** Execute, then either a whole fill at a price or the handling of the rest. The
        price comes back exactly for a journaled whole fill behind which nothing
        failed. */
    method ExecuteAndSettle(timestampSecs: int, request: OrderRequest, input: OrderInput)
      returns (outcome: Result<Option<real>, AppError>, ghost trail: seq<JournalEvent>, ghost sent: seq<BrokerCall>)
      requires Valid() && MayOrder(book.journal.events, request) && request.quantity > 0
      modifies this`localPendingOrders, this`reconciliationBlocked, this`realAccountClear, this`operationalHalt,
               control, book, book.journal, book.engine`state, client, paper
      ensures Valid() && book.Keeps() && book.Current() == old(book.Current())
      ensures Extends(old(control.history), control.history) && (old(PostsBacked()) ==> PostsBacked())
      ensures if trail == [] then outcome.Err? && OnlyStageEventsAdded(old(book.journal.events), book.journal.events)
              else OnTrail(request, old(book.journal.events), trail, book.journal.events) && control.stage == old(control.stage)
      ensures client.calls == old(client.calls) + sent && OneOrderSent(request, sent)
      ensures !old(Refuses(request, input)) && book.journal.failed == old(book.journal.failed) ==>
                && trail != []
                && (ReportsFill(trail) <==>
                      FillIsDue(old(RealRoute()), input.orderPathConfigured, sent, old(paper.WouldFill(request))))
                && (old(RealRoute()) && input.orderPathConfigured ==> (sent == [] <==> client.unsent > old(client.unsent)))
      ensures outcome.Ok? && outcome.value.Some? <==> WholeFill(trail, input, old(book.journal.failed), book.journal.failed)
      ensures outcome.Ok? && outcome.value.Some? ==> outcome.value == FillPrice(trail) && outcome.value.value > 0.0
      ensures ReportsFill(trail) ==> IsForgottenFill(request, book.journal.events, trail)
      ensures trail != [] ==> book.journal.failed >= old(book.journal.failed)
      ensures !old(RealRoute()) && ReportsFill(trail) ==>
                paper.Answers(request, old(request.operationId !in paper.orders), trail[|trail| - 1].kind.execution)
      ensures NetFilled(book.journal.events) == old(NetFilled(book.journal.events)) + FillOf(request, trail)
      ensures outcome.Ok? ==> !input.telemetryFails && book.journal.failed == old(book.journal.failed)
    {
      hide ReplayAll, RecoverFrom, LegalHistory, View, FaithfulTo, AnchoredTo, LiveControl.Coherent;
      hide PaperBroker.Valid, Book.Valid, Trail, MayOrder, OneOrderSent, OutcomeOf;
      hide NetFilled, FillOf, AllBacked, FillIsDue, IsForgottenFill, FilledTrail, Extends;
      hide OnlyStageEventsAdded, GrewWithout;
      ghost var start := book.journal.events;
      var r;
      r, trail, sent := ExecuteOrder(timestampSecs, request, input);
      if r.Ok? {
        outcome, trail := Settle(timestampSecs, request, r.value, RealRoute() && input.multiplierVerified, start, trail);
      } else {
        outcome := Err(r.error);
      }
    }

    /** A whole fill has a price; anything else is handled as unfilled. */
    method Settle(timestampSecs: int, request: OrderRequest, execution: OrderExecution, realTrading: bool,
                  ghost start: seq<JournalEvent>, ghost trail: seq<JournalEvent>)
      returns (outcome: Result<Option<real>, AppError>, ghost longer: seq<JournalEvent>)
      requires Valid() && OnTrail(request, start, trail, book.journal.events) && Reported(request, trail, execution)
      requires request.quantity > 0
      modifies this`localPendingOrders, this`reconciliationBlocked, this`realAccountClear, this`operationalHalt,
               book.journal, book.engine`state
      ensures Valid() && book.Keeps() && book.Current() == old(book.Current()) && (old(PostsBacked()) ==> PostsBacked())
      ensures OnTrail(request, start, longer, book.journal.events) && longer != []
      ensures execution.status.Executed? ==>
                && longer == trail && outcome == Ok(execution.fillPrice) && execution.fillPrice.Some?
                && execution.fillPrice.value > 0.0 && book.journal.failed == old(book.journal.failed)
      ensures !execution.status.Executed? ==>
                && !ReportsFill(longer)
                && outcome == if book.journal.failed == old(book.journal.failed) then Ok(None) else Err(JournalFailure)
      ensures book.journal.failed >= old(book.journal.failed)
      ensures NetFilled(book.journal.events) == old(NetFilled(book.journal.events)) && FillOf(request, longer) == FillOf(request, trail)
    {
      hide ReplayAll, RecoverFrom, LegalHistory, View, FaithfulTo, AnchoredTo, LiveControl.Coherent;
      hide PaperBroker.Valid, Book.Valid, NetFilled, FillOf, MayOrder;
      StatusDeterminesFill(request, execution);
      LastOfTrail(trail);
      longer := trail;
      if execution.status != OrderStatus.Executed || execution.filledQuantity != request.quantity || execution.fillPrice.None? {
        var handled;
        handled, longer := HandleUnfilledOrder(timestampSecs, request, execution, realTrading, start, trail);
        StillBacked(client.calls, start, trail, longer, book.journal.durable);
        NoFillAdded(request, start, trail, longer);
        assert trail + [] == trail;
        assert longer == trail || longer[|longer| - 1].kind.PartialFillExposure?;
        return if handled then Ok(None) else Err(JournalFailure), longer;
      }
      outcome := Ok(execution.fillPrice);
    }

    /** The ordering tail of an entry: execute, then open exactly what was filled.
        `economicsOf` prices the position at its fill, or refuses it. A position opens
        if and only if the order was filled whole, its economics are accepted, and
        nothing failed on the way; a fill without a position is neither pending nor
        in the ledger. */
    method EnterPosition(timestampSecs: int, request: OrderRequest, kind: PositionKind, multiplier: u32,
                         economicsOf: real -> Option<string>, input: OrderInput)
      returns (outcome: Result<bool, AppError>, ghost trail: seq<JournalEvent>, ghost sent: seq<BrokerCall>)
      requires Valid() && book.engine.position.None? && request.side.Buy?
      requires MayOrder(book.journal.events, request)
      requires !IsBlank(request.operationId) && !IsBlank(request.symbol) && multiplier > 0 && request.quantity > 0
      modifies this`localPendingOrders, this`reconciliationBlocked, this`realAccountClear, this`operationalHalt,
               control, book, book.journal, book.engine, book.portfolio, client, paper
      ensures Valid() && book.Keeps()
      ensures Extends(old(control.history), control.history) && (old(PostsBacked()) ==> PostsBacked())
      ensures client.calls == old(client.calls) + sent && OneOrderSent(request, sent)
      ensures !old(Refuses(request, input)) && book.journal.failed == old(book.journal.failed) ==>
                && trail != []
                && (ReportsFill(trail) <==>
                      FillIsDue(old(RealRoute()), input.orderPathConfigured, sent, old(paper.WouldFill(request))))
                && (old(RealRoute()) && input.orderPathConfigured ==> (sent == [] <==> client.unsent > old(client.unsent)))
      ensures outcome == Ok(true) <==>
                && WholeFill(trail, input, old(book.journal.failed), book.journal.failed)
                && economicsOf(FillPrice(trail).value).Some?
      ensures outcome == Ok(true) ==>
                var price := FillPrice(trail).value;
                var position := Position(request.operationId, request.symbol, kind, price, request.quantity, multiplier,
                                         timestampSecs, economicsOf(price).value);
                && book.Current() == LedgerOpened(old(book.Current()), position)
                && OnTrail(request, old(book.journal.events), trail, old(book.journal.events) + trail)
                && book.journal.events == old(book.journal.events) + trail + [OpenEvent(timestampSecs, position)]
                && request.operationId !in PendingOrders(book.journal.events)
      ensures outcome != Ok(true) ==> book.Current() == old(book.Current())
      ensures outcome != Ok(true) && trail != [] ==> OnTrail(request, old(book.journal.events), trail, book.journal.events)
      ensures outcome != Ok(true) && ReportsFill(trail) ==> IsForgottenFill(request, book.journal.events, trail)
      // On the paper route, under a new id, the entry price is the market moved up.
      ensures outcome == Ok(true) && !old(RealRoute()) && old(request.operationId !in paper.orders) ==>
                book.engine.position.value.entryPrice == request.marketPrice * (1.0 + paper.slippageBps / 10_000.0)
      ensures Unaccounted() == old(Unaccounted()) + if FilledTrail(request, trail) && outcome != Ok(true) then request.quantity else 0
    {
      hide ReplayAll, RecoverFrom, LegalHistory, View, FaithfulTo, AnchoredTo, LiveControl.Coherent;
      hide PaperBroker.Valid, Book.Valid, Trail, MayOrder, OneOrderSent, OutcomeOf;
      hide NetFilled, AllBacked, FillIsDue, GrewWithout, SlippedPrice, OnTrail, IsForgottenFill, FilledTrail;
      outcome, trail, sent := ExecuteEntry(timestampSecs, request, kind, multiplier, economicsOf, input);
      SlippedPriceExactly(request, paper.slippageBps);
      EntryAccounts(request, trail);
    }

    /** The entry without the ledger of contracts. */
    method ExecuteEntry(timestampSecs: int, request: OrderRequest, kind: PositionKind, multiplier: u32,
                         economicsOf: real -> Option<string>, input: OrderInput)
      returns (outcome: Result<bool, AppError>, ghost trail: seq<JournalEvent>, ghost sent: seq<BrokerCall>)
      requires Valid() && book.engine.position.None? && request.side.Buy?
      requires MayOrder(book.journal.events, request)
      requires !IsBlank(request.operationId) && !IsBlank(request.symbol) && multiplier > 0 && request.quantity > 0
      modifies this`localPendingOrders, this`reconciliationBlocked, this`realAccountClear, this`operationalHalt,
               control, book, book.journal, book.engine, book.portfolio, client, paper
      ensures Valid() && book.Keeps()
      ensures Extends(old(control.history), control.history) && (old(PostsBacked()) ==> PostsBacked())
      ensures client.calls == old(client.calls) + sent && OneOrderSent(request, sent)
      ensures !old(Refuses(request, input)) && book.journal.failed == old(book.journal.failed) ==>
                && trail != []
                && (ReportsFill(trail) <==>
                      FillIsDue(old(RealRoute()), input.orderPathConfigured, sent, old(paper.WouldFill(request))))
                && (old(RealRoute()) && input.orderPathConfigured ==> (sent == [] <==> client.unsent > old(client.unsent)))
      ensures outcome == Ok(true) <==>
                && WholeFill(trail, input, old(book.journal.failed), book.journal.failed)
                && economicsOf(FillPrice(trail).value).Some?
      ensures outcome == Ok(true) ==>
                var price := FillPrice(trail).value;
                var position := Position(request.operationId, request.symbol, kind, price, request.quantity, multiplier,
                                         timestampSecs, economicsOf(price).value);
                && book.Current() == LedgerOpened(old(book.Current()), position)
                && OnTrail(request, old(book.journal.events), trail, old(book.journal.events) + trail)
                && book.journal.events == old(book.journal.events) + trail + [OpenEvent(timestampSecs, position)]
                && request.operationId !in PendingOrders(book.journal.events)
      ensures outcome != Ok(true) ==> book.Current() == old(book.Current())
      ensures outcome != Ok(true) && trail != [] ==> OnTrail(request, old(book.journal.events), trail, book.journal.events)
      ensures outcome != Ok(true) && ReportsFill(trail) ==> IsForgottenFill(request, book.journal.events, trail)
      ensures !old(RealRoute()) && ReportsFill(trail) ==>
                paper.Answers(request, old(request.operationId !in paper.orders), trail[|trail| - 1].kind.execution)
      ensures NetFilled(book.journal.events) == old(NetFilled(book.journal.events)) + FillOf(request, trail)
      ensures outcome == Ok(true) ==> FilledTrail(request, trail)
    {
      hide ReplayAll, RecoverFrom, LegalHistory, View, FaithfulTo, AnchoredTo, LiveControl.Coherent;
      hide PaperBroker.Valid, Book.Valid, Trail, MayOrder, OneOrderSent, OutcomeOf;
      hide NetFilled, FillOf, AllBacked, FillIsDue;
      var settled;
      settled, trail, sent := ExecuteAndSettle(timestampSecs, request, input);
      if settled.Err? || settled.value.None? {
        return if settled.Err? then Err(settled.error) else Ok(false), trail, sent;
      }
      var price := settled.value.value;
      var economics := economicsOf(price);
      if economics.None? {
        return Err(OrderRefused), trail, sent;
      }
      outcome := RecordOpen(timestampSecs, Position(request.operationId, request.symbol, kind, price,
                                                    request.quantity, multiplier, timestampSecs, economics.value));
    }

    method RecordOpen(timestampSecs: int, position: Position) returns (outcome: Result<bool, AppError>)
      requires Valid() && book.engine.position.None? && OpenablePosition(position)
      modifies book.journal, book.engine, book.portfolio
      ensures Valid() && book.Keeps() && PendingOrders(book.journal.events) == old(PendingOrders(book.journal.events))
      ensures outcome == if book.journal.failed == old(book.journal.failed) then Ok(true) else Err(JournalFailure)
      ensures book.journal.failed >= old(book.journal.failed) && book.journal.durable == old(book.journal.durable)
      ensures book.journal.events ==
                if outcome.Ok? then old(book.journal.events) + [OpenEvent(timestampSecs, position)] else old(book.journal.events)
      ensures book.Current() == if outcome.Ok? then LedgerOpened(old(book.Current()), position) else old(book.Current())
      ensures NetFilled(book.journal.events) == old(NetFilled(book.journal.events))
      ensures old(PostsBacked()) ==> PostsBacked()
    {
      hide ReplayAll, RecoverFrom, LegalHistory, View, FaithfulTo, AnchoredTo;
      var event := OpenEvent(timestampSecs, position);
      PositionEventsReplay(book.journal.events, event);
      NetOfNoReport(book.journal.events, event);
      control.NoteKeepsStages(event);
      var recorded := book.OpenRecorded(timestampSecs, position);
      StayBacked(client.calls, old(book.journal.events), book.journal.durable, book.journal.events);
      return if recorded then Ok(true) else Err(JournalFailure);
    }

    /** The ordering tail of an exit. The position closes if and only if the order was
        filled whole and nothing failed on the way; a sale without a close event is
        not pending, and the position stays open. */
    method ClosePosition(timestampSecs: int, marketPrice: real, netPnlAt: real -> real, reason: ExitReason,
                         trade: Option<ValidationTrade>, realizedToday: real, reportEligible: bool, input: OrderInput)
      returns (outcome: Result<bool, AppError>, ghost trail: seq<JournalEvent>, ghost sent: seq<BrokerCall>)
      requires Valid() && book.engine.position.Some?
      requires MayOrder(book.journal.events, CloseRequest(book.engine.position.value, marketPrice))
      modifies this`localPendingOrders, this`reconciliationBlocked, this`realAccountClear, this`operationalHalt,
               control, book, book.journal, book.engine, book.portfolio, client, paper
      ensures Valid() && book.Keeps()
      ensures Extends(old(control.history), control.history) && (old(PostsBacked()) ==> PostsBacked())
      ensures var request := CloseRequest(old(book.engine.position).value, marketPrice);
              && client.calls == old(client.calls) + sent && OneOrderSent(request, sent)
              && (!old(Refuses(CloseRequest(book.engine.position.value, marketPrice), input)) && book.journal.failed == old(book.journal.failed) ==>
                    && trail != []
                    && (ReportsFill(trail) <==>
                          FillIsDue(old(RealRoute()), input.orderPathConfigured, sent,
                                    old(paper.WouldFill(CloseRequest(book.engine.position.value, marketPrice)))))
                    && (old(RealRoute()) && input.orderPathConfigured ==> (sent == [] <==> client.unsent > old(client.unsent))))
      ensures outcome == Ok(true) <==> WholeFill(trail, input, old(book.journal.failed), book.journal.failed)
      ensures outcome == Ok(true) ==>
                var position, price := old(book.engine.position).value, FillPrice(trail).value;
                && book.Current() == LedgerClosed(old(book.Current()), timestampSecs, price, netPnlAt(price), reason)
                && OnTrail(CloseRequest(position, marketPrice), old(book.journal.events), trail, old(book.journal.events) + trail)
                && book.journal.events == old(book.journal.events) + trail
                     + [CloseEvent(timestampSecs, position.operationId, price, netPnlAt(price), reason, old(control.stage), trade)]
                && position.operationId + "-close" !in PendingOrders(book.journal.events)
      ensures outcome != Ok(true) ==> book.Current() == old(book.Current())
      ensures outcome != Ok(true) && trail != [] ==>
                OnTrail(CloseRequest(old(book.engine.position).value, marketPrice), old(book.journal.events), trail, book.journal.events)
      ensures outcome != Ok(true) && ReportsFill(trail) ==>
                IsForgottenFill(CloseRequest(old(book.engine.position).value, marketPrice), book.journal.events, trail)
      // The order is a sale of exactly the position, and a paper fill of a new id is at
      // the market moved down.
      ensures trail != [] ==> trail[0].kind.OrderIntentCreated?
                              && IsSaleOf(trail[0].kind.request, old(book.engine.position).value, marketPrice)
      ensures sent != [] ==> IsSaleOf(sent[0].request, old(book.engine.position).value, marketPrice)
      ensures outcome == Ok(true) && !old(RealRoute())
              && old(book.engine.position.value.operationId + "-close" !in paper.orders) ==>
                FillPrice(trail).value == marketPrice * (1.0 - paper.slippageBps / 10_000.0)
      ensures Unaccounted() == old(Unaccounted())
                - if FilledTrail(CloseRequest(old(book.engine.position).value, marketPrice), trail) && outcome != Ok(true)
                  then old(book.engine.position).value.contracts else 0
    {
      hide ReplayAll, RecoverFrom, LegalHistory, View, FaithfulTo, AnchoredTo, LiveControl.Coherent;
      hide PaperBroker.Valid, Book.Valid, Trail, MayOrder, OneOrderSent, OutcomeOf;
      hide FillIsDue, GrewWithout, NetFilled, AllBacked, SlippedPrice, IsForgottenFill, FilledTrail, OnTrail;
      hide Extends, CloseEvent;
      book.OpenPositionHasContracts();
      var position := book.engine.position.value;
      var request := CloseRequest(position, marketPrice);
      ghost var start := book.journal.events;
      outcome, trail, sent := ExecuteExit(timestampSecs, request, netPnlAt, reason, trade, realizedToday, reportEligible, input);
      SlippedPriceExactly(request, paper.slippageBps);
      ExitAccounts(request, start, trail, book.journal.events);
      SentIsOrdered(request, sent);
    }

    /** The exit without the ledger of contracts, for the order it is given. */
    method ExecuteExit(timestampSecs: int, request: OrderRequest, netPnlAt: real -> real, reason: ExitReason,
                       trade: Option<ValidationTrade>, realizedToday: real, reportEligible: bool, input: OrderInput)
      returns (outcome: Result<bool, AppError>, ghost trail: seq<JournalEvent>, ghost sent: seq<BrokerCall>)
      requires Valid() && book.engine.position.Some? && request.quantity > 0
      requires MayOrder(book.journal.events, request)
      modifies this`localPendingOrders, this`reconciliationBlocked, this`realAccountClear, this`operationalHalt,
               control, book, book.journal, book.engine, book.portfolio, client, paper
      ensures Valid() && book.Keeps()
      ensures Extends(old(control.history), control.history) && (old(PostsBacked()) ==> PostsBacked())
      ensures client.calls == old(client.calls) + sent && OneOrderSent(request, sent)
      ensures !old(Refuses(request, input)) && book.journal.failed == old(book.journal.failed) ==>
                && trail != []
                && (ReportsFill(trail) <==>
                      FillIsDue(old(RealRoute()), input.orderPathConfigured, sent, old(paper.WouldFill(request))))
                && (old(RealRoute()) && input.orderPathConfigured ==> (sent == [] <==> client.unsent > old(client.unsent)))
      ensures outcome == Ok(true) <==> WholeFill(trail, input, old(book.journal.failed), book.journal.failed)
      ensures outcome == Ok(true) ==>
                var position, price := old(book.engine.position).value, FillPrice(trail).value;
                && book.Current() == LedgerClosed(old(book.Current()), timestampSecs, price, netPnlAt(price), reason)
                && OnTrail(request, old(book.journal.events), trail, old(book.journal.events) + trail)
                && book.journal.events == old(book.journal.events) + trail
                     + [CloseEvent(timestampSecs, position.operationId, price, netPnlAt(price), reason, old(control.stage), trade)]
                && request.operationId !in PendingOrders(book.journal.events)
      ensures outcome != Ok(true) ==> book.Current() == old(book.Current())
      ensures outcome != Ok(true) && trail != [] ==> OnTrail(request, old(book.journal.events), trail, book.journal.events)
      ensures outcome != Ok(true) && ReportsFill(trail) ==> IsForgottenFill(request, book.journal.events, trail)
      ensures !old(RealRoute()) && ReportsFill(trail) ==>
                paper.Answers(request, old(request.operationId !in paper.orders), trail[|trail| - 1].kind.execution)
      ensures NetFilled(book.journal.events) == old(NetFilled(book.journal.events)) + FillOf(request, trail)
      ensures outcome == Ok(true) ==> FilledTrail(request, trail)
    {
      hide ReplayAll, RecoverFrom, LegalHistory, View, FaithfulTo, AnchoredTo, LiveControl.Coherent;
      hide PaperBroker.Valid, Trail, MayOrder, OneOrderSent, OutcomeOf;
      hide LedgerClosed, FillIsDue, GrewWithout, NetFilled, FillOf, AllBacked;
      book.engine.MarkSelling();
      var settled;
      settled, trail, sent := ExecuteAndSettle(timestampSecs, request, input);
      if settled.Err? || settled.value.None? {
        return if settled.Err? then Err(settled.error) else Ok(false), trail, sent;
      }
      outcome := SettleClose(timestampSecs, settled.value.value, netPnlAt(settled.value.value), reason, trade,
                             realizedToday, reportEligible);
    }

    method SettleClose(timestampSecs: int, price: real, netPnl: real, reason: ExitReason,
                       trade: Option<ValidationTrade>, realizedToday: real, reportEligible: bool)
      returns (outcome: Result<bool, AppError>)
      requires Valid() && book.engine.position.Some?
      modifies control`returnPending, control`approved, control`performance, book`riskCloses, book.journal, book.engine, book.portfolio
      ensures Valid() && book.Keeps() && PendingOrders(book.journal.events) == old(PendingOrders(book.journal.events))
      ensures outcome == if book.journal.failed == old(book.journal.failed) then Ok(true) else Err(JournalFailure)
      ensures book.journal.failed >= old(book.journal.failed) && book.journal.durable == old(book.journal.durable)
      ensures outcome.Err? ==> book.journal.events == old(book.journal.events)
      ensures outcome.Ok? ==>
                book.journal.events == old(book.journal.events)
                  + [CloseEvent(timestampSecs, old(book.engine.position).value.operationId, price, netPnl, reason,
                                old(control.stage), trade)]
      ensures outcome.Ok? ==> book.Current() == LedgerClosed(old(book.Current()), timestampSecs, price, netPnl, reason)
      ensures outcome.Err? ==> book.Current() == old(book.Current())
      ensures control.stage != Learning && outcome == Ok(true) && |control.performance| <= U32_MAX ==>
                (control.returnPending <==> old(control.returnPending) || control.TradeEndsStage(realizedToday + netPnl))
      ensures NetFilled(book.journal.events) == old(NetFilled(book.journal.events))
      ensures old(PostsBacked()) ==> PostsBacked()
    {
      hide ReplayAll, RecoverFrom, LegalHistory, View, FaithfulTo, AnchoredTo, PaperBroker.Valid, Book.Valid;
      hide LegalRecord, StagesCovered, JournaledMovesAreLegal;
      outcome := RecordClose(timestampSecs, price, netPnl, reason, trade);
      if outcome.Ok? {
        control.RecordStageTrade(netPnl, realizedToday, reportEligible);
      }
    }

    method RecordClose(timestampSecs: int, price: real, netPnl: real, reason: ExitReason,
                       trade: Option<ValidationTrade>)
      returns (outcome: Result<bool, AppError>)
      requires Valid() && book.engine.position.Some?
      modifies book`riskCloses, book.journal, book.engine, book.portfolio
      ensures Valid() && book.Keeps() && PendingOrders(book.journal.events) == old(PendingOrders(book.journal.events))
      ensures outcome == if book.journal.failed == old(book.journal.failed) then Ok(true) else Err(JournalFailure)
      ensures book.journal.failed >= old(book.journal.failed) && book.journal.durable == old(book.journal.durable)
      ensures outcome.Err? ==> book.journal.events == old(book.journal.events)
      ensures outcome.Ok? ==>
                book.journal.events == old(book.journal.events)
                  + [CloseEvent(timestampSecs, old(book.engine.position).value.operationId, price, netPnl, reason,
                                old(control.stage), trade)]
      ensures outcome.Ok? ==> book.Current() == LedgerClosed(old(book.Current()), timestampSecs, price, netPnl, reason)
      ensures outcome.Err? ==> book.Current() == old(book.Current())
      ensures NetFilled(book.journal.events) == old(NetFilled(book.journal.events))
      ensures old(PostsBacked()) ==> PostsBacked()
    {
      hide ReplayAll, RecoverFrom, LegalHistory, View, FaithfulTo, AnchoredTo;
      var id := book.engine.position.value.operationId;
      var event := CloseEvent(timestampSecs, id, price, netPnl, reason, control.stage, trade);
      PositionEventsReplay(book.journal.events, event);
      NetOfNoReport(book.journal.events, event);
      control.NoteKeepsStages(event);
      var closed := book.CloseRecorded(timestampSecs, price, netPnl, reason, control.stage, trade);
      StayBacked(client.calls, old(book.journal.events), book.journal.durable, book.journal.events);
      if !closed {
        return Err(JournalFailure);
      }
      outcome := Ok(true);
    }
  }

  /** The order ended in `execution`, which the journal can take as its next report. */
  ghost predicate Concluded(request: OrderRequest, trail: seq<JournalEvent>, execution: OrderExecution) {
    && ValidExecution(request, execution) && IsTerminal(execution)
    && (LastReportOf(trail).Some? ==> Follows(LastReportOf(trail).value, execution))
  }

  /** How sending and tracking end: with an outcome to journal, or with an order in doubt. */
  ghost predicate EndedAs(request: OrderRequest, trail: seq<JournalEvent>, r: Result<OrderExecution, AppError>) {
    !EndsInOutcome(trail) &&
    match r
    case Ok(execution) => Concluded(request, trail, execution)
    case Err(error) => LeavesPending(trail) || error.JournalFailure?
  }

  /** The outcome of the order is in the journal. */
  predicate EndsInOutcome(trail: seq<JournalEvent>) {
    trail != [] && trail[|trail| - 1].kind.OrderUpdated?
  }

  /** The journaled outcome is a whole fill. */
  predicate ReportsFill(trail: seq<JournalEvent>) {
    EndsInOutcome(trail) && trail[|trail| - 1].kind.execution.status.Executed?
  }

  function FillPrice(trail: seq<JournalEvent>): Option<real> {
    if EndsInOutcome(trail) then trail[|trail| - 1].kind.execution.fillPrice else None
  }

  /** The journaled outcome is a whole fill, and neither the disk (from `before` to
      `after` failures) nor the telemetry failed. */
  ghost predicate WholeFill(trail: seq<JournalEvent>, input: OrderInput, before: nat, after: nat) {
    ReportsFill(trail) && FillPrice(trail).Some? && !input.telemetryFails && before == after
  }

  /** The fill is the end of an accepted journal, and the order is not pending in it. */
  ghost predicate IsForgottenFill(request: OrderRequest, events: seq<JournalEvent>, trail: seq<JournalEvent>) {
    && FilledTrail(request, trail) && EndsInFill(events)
    && Accepted(events) && request.operationId !in PendingOrders(events)
  }

  /** The order must have been filled whole: its calls show it, or the paper broker
      fills such a request. */
  ghost predicate FillIsDue(realRoute: bool, configured: bool, sent: seq<BrokerCall>, paperFills: bool) {
    if realRoute then configured && OutcomeOf(sent).Some? && OutcomeOf(sent).value.status.Executed? else paperFills
  }

  /** The outcome that the calls of an order show: the POST was answered, and
      validated reads led from its answer to a terminal report. */
  ghost function OutcomeOf(sent: seq<BrokerCall>): Option<OrderExecution> {
    if sent != [] && sent[0].Post? && sent[0].answer.Ok? && ReachesTerminal(sent[0].answer.value, sent)
    then Some(LastReport(sent[0].answer.value, Reports(sent)))
    else None
  }

  /** The last event of the trail reports this execution. */
  ghost predicate Reported(request: OrderRequest, trail: seq<JournalEvent>, execution: OrderExecution) {
    trail != [] && trail[|trail| - 1].kind == OrderUpdated(execution) && ValidExecution(request, execution)
  }

  /** The second event of the trail is the accepted report, and it is synced. */
  ghost predicate AcceptedIsSynced(trail: seq<JournalEvent>, accepted: OrderExecution, start: nat, durable: nat) {
    |trail| > 1 && trail[1].kind == OrderAccepted(accepted) && durable >= start + 2
  }

  /** What was synced when the POST left, and is still counted as synced. */
  ghost predicate SentAfter(sent: seq<BrokerCall>, journal: seq<JournalEvent>, durable: nat) {
    sent != [] && sent[0].Post? && sent[0].durable == journal && |journal| <= durable
  }

  /** The journal is an accepted one followed by the trail of an order that it may
      take. */
  ghost predicate OnTrail(request: OrderRequest, start: seq<JournalEvent>, trail: seq<JournalEvent>, events: seq<JournalEvent>) {
    && Accepted(start) && MayOrder(start, request)
    && Trail(request, trail) && events == start + trail
  }

  lemma {:induction false} SilentEventsReplay(before: seq<JournalEvent>, after: seq<JournalEvent>)
    requires Accepted(before) && SilentEventsAdded(before, after)
    ensures ReplayAll(after) == ReplayAll(before)
    decreases |after|
  {
    if |after| > |before| {
      var rest := after[..|after| - 1];
      assert rest[..|before|] == before;
      SilentEventsReplay(before, rest);
    } else {
      assert after == before;
    }
  }

  /** Stage changes and position events report no fill. */
  lemma {:induction false} NetOfSilence(before: seq<JournalEvent>, after: seq<JournalEvent>)
    requires Accepted(before) && SilentEventsAdded(before, after)
    ensures Accepted(after) && NetFilled(after) == NetFilled(before)
    decreases |after|
  {
    SilentEventsReplay(before, after);
    if |after| > |before| {
      var rest := after[..|after| - 1];
      assert rest[..|before|] == before;
      NetOfSilence(before, rest);
    } else {
      assert after == before;
    }
  }

  lemma NetAfterOrder(request: OrderRequest, start: seq<JournalEvent>, trail: seq<JournalEvent>, events: seq<JournalEvent>)
    requires Accepted(start)
    requires if trail == [] then OnlyStageEventsAdded(start, events) else OnTrail(request, start, trail, events)
    ensures Accepted(events) && NetFilled(events) == NetFilled(start) + FillOf(request, trail)
  {
    if trail == [] {
      NetOfSilence(start, events);
    } else {
      NetAfterTrail(start, request, trail);
    }
  }

  lemma EntryAccounts(request: OrderRequest, trail: seq<JournalEvent>)
    requires request.side.Buy?
    ensures FillOf(request, trail) == if FilledTrail(request, trail) then request.quantity else 0
  {
  }

  lemma ExitAccounts(request: OrderRequest, start: seq<JournalEvent>, trail: seq<JournalEvent>,
                     events: seq<JournalEvent>)
    requires request.side.Sell?
    requires trail != [] ==> OnTrail(request, start, trail, start + trail) || OnTrail(request, start, trail, events)
    ensures FillOf(request, trail) == if FilledTrail(request, trail) then -(request.quantity as int) else 0
    ensures trail != [] ==> IsIntentOf(request, trail[0])
  {
    if trail != [] {
      FirstIsIntent(request, start, trail);
    }
  }

  lemma StayBacked(calls: seq<BrokerCall>, before: seq<JournalEvent>, durable: nat, after: seq<JournalEvent>)
    requires before <= after
    ensures AllBacked(calls, before, durable) ==> AllBacked(calls, after, durable)
  {
    if AllBacked(calls, before, durable) {
      BackedGrows(calls, before, durable, after, durable);
    }
  }

  /** What is journaled behind an outcome that is no whole fill fills nothing. */
  lemma NoFillAdded(request: OrderRequest, start: seq<JournalEvent>, trail: seq<JournalEvent>, longer: seq<JournalEvent>)
    requires OnTrail(request, start, trail, start + trail) && OnTrail(request, start, longer, start + longer)
    requires trail != [] && EndsInOutcome(trail) && !ReportsFill(trail)
    requires longer == trail || (trail <= longer && |longer| == |trail| + 1 && StateOf(longer[|trail|]).None?)
    ensures FillOf(request, longer) == FillOf(request, trail)
    ensures Accepted(start + longer) && Accepted(start + trail) && NetFilled(start + longer) == NetFilled(start + trail)
  {
    LastOfTrail(trail);
    assert longer[..|trail|] == trail;
    NetAfterTrail(start, request, trail);
    NetAfterTrail(start, request, longer);
  }

  lemma SentIsOrdered(request: OrderRequest, sent: seq<BrokerCall>)
    requires OneOrderSent(request, sent)
    ensures sent != [] ==> sent[0].Post? && sent[0].request == request
  {
  }

  lemma FirstIsIntent(request: OrderRequest, start: seq<JournalEvent>, trail: seq<JournalEvent>)
    requires Trail(request, trail) && trail != []
    ensures IsIntentOf(request, trail[0])
  {
    TrailPrefix(request, trail, 1);
    assert trail[..1][..0] == [] && trail[..1] == [trail[0]];
  }

  lemma PositionEventsReplay(events: seq<JournalEvent>, event: JournalEvent)
    requires Accepted(events) && IsPositionEvent(event)
    ensures ReplayAll(events + [event]) == ReplayAll(events)
  {
    ReplaySnoc(events, event);
  }

  lemma TrailGrows(request: OrderRequest, start: seq<JournalEvent>, trail: seq<JournalEvent>, event: JournalEvent)
    requires OnTrail(request, start, trail, start + trail)
    requires if trail == [] then IsIntentOf(request, event) else TrailStep(request, LastReportOf(trail), event)
    ensures OnTrail(request, start, trail + [event], (start + trail) + [event])
    ensures Accepted((start + trail) + [event])
    ensures LastReportOf(trail + [event]) == if StateOf(event).Some? then StateOf(event) else LastReportOf(trail)
    ensures !IsPositionEvent(event) && !event.kind.LiveStageChanged?
  {
    var longer := trail + [event];
    TrailSnoc(request, trail, event);
    assert start + longer == (start + trail) + [event];
    LongerTrailReplays(request, start, longer);
    OrderEventKind(request, trail, event);
  }

  lemma LoneIntent(request: OrderRequest, start: seq<JournalEvent>, trail: seq<JournalEvent>)
    requires OnTrail(request, start, trail, start + trail) && |trail| == 1
    ensures IsIntentOf(request, trail[0]) && (start + trail)[|start|] == trail[0]
  {
  }

  lemma JoinCalls(request: OrderRequest, journal: seq<JournalEvent>, answer: Result<OrderExecution, ClientError>,
                  posted: seq<BrokerCall>, more: seq<BrokerCall>)
    requires journal != [] && IsIntentOf(request, journal[|journal| - 1])
    requires posted == [] || posted == [Post(request, journal, answer)]
    requires Disciplined(more) && (posted == [] ==> more == [])
    requires more != [] ==> answer.Ok? && answer.value.brokerOrderId.Some? && Addressed(more, answer.value.brokerOrderId.value)
    ensures OneOrderSent(request, posted + more)
    ensures posted + more != [] ==> (posted + more)[0].durable == journal
  {
    if posted != [] {
      assert forall i | 1 <= i < |posted + more| :: (posted + more)[i] == more[i - 1];
    }
  }

  /** The POST itself leaves no report. */
  lemma JoinedOutcome(posted: seq<BrokerCall>, answer: Result<OrderExecution, ClientError>, more: seq<BrokerCall>)
    requires posted == [] || (|posted| == 1 && posted[0].Post? && posted[0].answer == answer)
    requires posted == [] ==> more == []
    ensures OutcomeOf(posted + more) ==
              if posted != [] && answer.Ok? && ReachesTerminal(answer.value, more)
              then Some(LastReport(answer.value, Reports(more))) else None
  {
    hide Reports, ValidatedChain;
    if posted != [] {
      assert posted == [posted[0]];
      PostLeavesNoReport(posted[0]);
      ReportsConcat(posted, more);
      assert [] + Reports(more) == Reports(more);
    }
  }

  lemma PostLeavesNoReport(post: BrokerCall)
    requires post.Post?
    ensures Reports([post]) == []
  {
    assert [post][..0] == [];
  }

  lemma SentIsBacked(request: OrderRequest, sent: seq<BrokerCall>, start: seq<JournalEvent>, trail: seq<JournalEvent>,
                     events: seq<JournalEvent>, durable: nat)
    requires OneOrderSent(request, sent) && events == start + trail
    requires sent != [] ==> trail != [] && SentAfter(sent, start + [trail[0]], durable)
    ensures AllBacked(sent, events, durable)
  {
    forall i | 0 <= i < |sent| ensures Backed(sent[i], events, durable) {
    }
  }

  lemma PostsStayBacked(calls: seq<BrokerCall>, before: seq<JournalEvent>, synced: nat, request: OrderRequest,
                        sent: seq<BrokerCall>, trail: seq<JournalEvent>, after: seq<JournalEvent>, durable: nat)
    requires before <= after && synced <= durable && OneOrderSent(request, sent)
    requires sent != [] ==> trail != [] && after == before + trail && SentAfter(sent, before + [trail[0]], durable)
    ensures AllBacked(calls, before, synced) ==> AllBacked(calls + sent, after, durable)
  {
    if AllBacked(calls, before, synced) {
      if sent != [] {
        SentIsBacked(request, sent, before, trail, after, durable);
      }
      BackedGrows(calls, before, synced, after, durable);
      BackedConcat(calls, sent, after, durable);
    }
  }

  lemma StillBacked(calls: seq<BrokerCall>, start: seq<JournalEvent>, trail: seq<JournalEvent>, longer: seq<JournalEvent>,
                    durable: nat)
    requires trail <= longer
    ensures AllBacked(calls, start + trail, durable) ==> AllBacked(calls, start + longer, durable)
  {
    if AllBacked(calls, start + trail, durable) {
      BackedGrows(calls, start + trail, durable, start + longer, durable);
    }
  }

  lemma LongerTrailReplays(request: OrderRequest, start: seq<JournalEvent>, trail: seq<JournalEvent>)
    requires Accepted(start) && MayOrder(start, request) && Trail(request, trail)
    ensures Accepted(start + trail)
  {
    TrailReplays(start, request, trail);
  }

  lemma OrderEventKind(request: OrderRequest, trail: seq<JournalEvent>, event: JournalEvent)
    requires if trail == [] then IsIntentOf(request, event) else TrailStep(request, LastReportOf(trail), event)
    ensures !IsPositionEvent(event) && !event.kind.LiveStageChanged?
  {
  }

  lemma FillIsSettled(request: OrderRequest, start: seq<JournalEvent>, trail: seq<JournalEvent>)
    requires OnTrail(request, start, trail, start + trail) && trail != []
    ensures ReportsFill(trail) ==> IsForgottenFill(request, start + trail, trail) && FillPrice(trail).Some?
  {
    if ReportsFill(trail) {
      LastOfTrail(trail);
      LastReportIsValid(request, trail);
      ResolvedAfterTrail(start, request, trail);
    }
  }

  lemma ResolvedAfterTrail(start: seq<JournalEvent>, request: OrderRequest, trail: seq<JournalEvent>)
    requires OnTrail(request, start, trail, start + trail) && trail != [] && ResolvingEvent(trail[|trail| - 1])
    ensures Accepted(start + trail) && request.operationId !in PendingOrders(start + trail)
  {
    TrailReplays(start, request, trail);
  }

  lemma NoReportYet(trail: seq<JournalEvent>)
    requires LastReportOf(trail) == None
    ensures !EndsInOutcome(trail)
  {
  }

  lemma LastOfTrail(trail: seq<JournalEvent>)
    requires trail != [] && trail[|trail| - 1].kind.OrderUpdated?
    ensures LastReportOf(trail) == Some(trail[|trail| - 1].kind.execution)
  {
  }
}
