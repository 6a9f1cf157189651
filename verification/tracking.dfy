/** The broker client: one POST per order, then tracking to a terminal report
    against a broker that may answer anything (src/iol_client.rs). */
module Tracking {
  import opened Common
  import opened Orders
  import opened Journals

  datatype ClientError = Http | InvalidResponse | AmbiguousOrder | Authentication

  predicate IsRetryable(error: ClientError) {
    error.Http?
  }

  /** A decoded order body, before it is checked against the request. */
  datatype Payload = Payload(
    status: OrderStatus,
    filledQuantity: u32,
    fillPrice: Option<real>,
    brokerOrderId: Option<string>,
    message: Option<string>)

  /** What the broker does with a GET on the order. */
  datatype StatusAnswer = Body(payload: Payload) | Failure(error: ClientError)

  /** What happens to the POST: it may never leave, and its answer may be lost. */
  datatype PostAnswer =
    | NotSent(error: ClientError)
    | Unauthorized(refreshError: Option<ClientError>)
    | Failed(error: ClientError)
    | Answered(payload: Payload)

  /** What the movement stream delivers while the client waits. */
  datatype StreamAnswer =
    | NoStream
    | Movement(orderNumber: Option<string>)
    | OtherActivity
    | StreamClosed
    | NothingInTime

  function NonEmptyTrimmed(id: Option<string>): Option<string> {
    if id.None? || Trim(id.value) == [] then None else Some(Trim(id.value))
  }

  function ParseOrderExecution(request: OrderRequest, payload: Payload): (r: Result<OrderExecution, ClientError>)
    ensures r.Ok? ==> ValidExecution(request, r.value)
    ensures r.Ok? ==> && r.value.operationId == request.operationId && r.value.status == payload.status
                      && r.value.filledQuantity == payload.filledQuantity && r.value.fillPrice == payload.fillPrice
                      && r.value.message == payload.message && r.value.brokerOrderId == NonEmptyTrimmed(payload.brokerOrderId)
    ensures r.Err? ==> forall execution: OrderExecution | execution.operationId == request.operationId && execution.status == payload.status
                                          && execution.filledQuantity == payload.filledQuantity
                                          && execution.fillPrice == payload.fillPrice
                                          && execution.brokerOrderId == NonEmptyTrimmed(payload.brokerOrderId) ::
                         !ValidExecution(request, execution)
  {
    var execution := OrderExecution(
      request.operationId, payload.status, payload.filledQuantity, payload.fillPrice,
      NonEmptyTrimmed(payload.brokerOrderId), payload.message);
    if ValidExecution(request, execution) then Ok(execution) else Err(InvalidResponse)
  }

  /** What is left of a broker id: nothing of a blank one, else what trimming leaves. */
  lemma TrimmedIdExactly(id: string)
    ensures NonEmptyTrimmed(Some(id)) == if IsBlank(id) then None else Some(Trim(id))
  {
    var a, b := TrimExactly(id);
  }

  /** What the client asked the broker to do, in order. */
  datatype BrokerCall =
    | Post(request: OrderRequest, durable: seq<JournalEvent>, // what was synced when it left
           answer: Result<OrderExecution, ClientError>)
    | StatusRead(brokerOrderId: string, answer: Result<OrderExecution, ClientError>)
    | Cancel(brokerOrderId: string, acknowledged: bool)

  /** The reports that were read, in order; failed reads leave none. */
  function Reports(calls: seq<BrokerCall>): seq<OrderExecution> {
    if calls == [] then []
    else
      var last := calls[|calls| - 1];
      Reports(calls[..|calls| - 1]) + if last.StatusRead? && last.answer.Ok? then [last.answer.value] else []
  }

  function LastReport(initial: OrderExecution, reports: seq<OrderExecution>): OrderExecution {
    if reports == [] then initial else reports[|reports| - 1]
  }

  /** Each report is a validated successor of the one before it. */
  predicate ValidatedChain(initial: OrderExecution, reports: seq<OrderExecution>) {
    reports == [] ||
    var before := reports[..|reports| - 1];
    ValidatedChain(initial, before) && ValidTransition(LastReport(initial, before), reports[|reports| - 1])
  }

  predicate TerminalRead(call: BrokerCall) {
    call.StatusRead? && call.answer.Ok? && IsTerminal(call.answer.value)
  }

  /** At most one cancel, and nothing at all is sent after a terminal answer. */
  ghost predicate Disciplined(calls: seq<BrokerCall>) {
    && (forall i, j | 0 <= i < j < |calls| :: !(calls[i].Cancel? && calls[j].Cancel?))
    && (forall i | 0 <= i < |calls| - 1 :: !TerminalRead(calls[i]))
    && (forall i | 0 <= i < |calls| :: !calls[i].Post?)
  }

  /** Every call reads or cancels this order of the broker. */
  ghost predicate Addressed(calls: seq<BrokerCall>, brokerOrderId: string) {
    forall i | 0 <= i < |calls| :: (calls[i].StatusRead? || calls[i].Cancel?) && calls[i].brokerOrderId == brokerOrderId
  }

  /** Failed reads that tracking goes on after: transport errors alone. */
  ghost predicate Tolerated(calls: seq<BrokerCall>) {
    forall i | 0 <= i < |calls| :: calls[i].StatusRead? && calls[i].answer.Err? ==> calls[i].answer.error == Http
  }

  /** The last read is one that tracking must not go on after: an error that is not of
      transport, or a report that may not follow the one before it. */
  ghost predicate EndsFatally(initial: OrderExecution, calls: seq<BrokerCall>) {
    && calls != []
    && var last := calls[|calls| - 1];
    && last.StatusRead?
    && match last.answer
       case Err(error) => error != Http
       case Ok(report) => !ValidTransition(LastReport(initial, Reports(calls[..|calls| - 1])), report)
  }

  ghost predicate WasCancelled(calls: seq<BrokerCall>) {
    exists i :: 0 <= i < |calls| && calls[i].Cancel?
  }

  ghost predicate CancelWasAcknowledged(calls: seq<BrokerCall>) {
    exists i :: 0 <= i < |calls| && calls[i].Cancel? && calls[i].acknowledged
  }

  ghost predicate OnlyReads(calls: seq<BrokerCall>) {
    forall i | 0 <= i < |calls| :: calls[i].StatusRead?
  }

  lemma ReportsAppend(calls: seq<BrokerCall>, call: BrokerCall)
    ensures Reports(calls + [call]) ==
            Reports(calls) + if call.StatusRead? && call.answer.Ok? then [call.answer.value] else []
  {
    assert (calls + [call])[..|calls|] == calls;
  }

  lemma {:induction false} ReportsConcat(a: seq<BrokerCall>, b: seq<BrokerCall>)
    ensures Reports(a + b) == Reports(a) + Reports(b)
  {
    if b == [] {
      assert a + b == a;
    } else {
      var n := |b| - 1;
      assert (a + b)[..|a + b| - 1] == a + b[..n];
      ReportsConcat(a, b[..n]);
    }
  }

  lemma {:induction false} ChainConcat(initial: OrderExecution, a: seq<OrderExecution>, b: seq<OrderExecution>)
    requires ValidatedChain(initial, a)
    ensures ValidatedChain(initial, a + b) <==> ValidatedChain(LastReport(initial, a), b)
    ensures LastReport(initial, a + b) == LastReport(LastReport(initial, a), b)
  {
    if b == [] {
      assert a + b == a;
    } else {
      var n := |b| - 1;
      assert (a + b)[..|a| + n] == a + b[..n];
      ChainConcat(initial, a, b[..n]);
    }
  }

  /** A whole chain is one legal step: nothing is lost by journaling only its
      ends, and the identity of the order never changes along it. */
  lemma {:induction false} ChainIsOneStep(initial: OrderExecution, reports: seq<OrderExecution>)
    requires ValidatedChain(initial, reports)
    ensures Follows(initial, LastReport(initial, reports))
    ensures initial.brokerOrderId.Some? ==> LastReport(initial, reports).brokerOrderId == initial.brokerOrderId
    ensures initial.filledQuantity <= LastReport(initial, reports).filledQuantity
  {
    if reports != [] {
      var n := |reports| - 1;
      ChainIsOneStep(initial, reports[..n]);
      FollowsIsTransitive(initial, LastReport(initial, reports[..n]), reports[n]);
    }
  }

  datatype OrderTrackingMetrics = OrderTrackingMetrics(
    restPolls: u32, websocketSignals: u32, cancellationRequested: bool)

  class IolClient {
    var metrics: OrderTrackingMetrics
    /** The monotone clock, in ticks. */
    var clock: nat
    ghost var calls: seq<BrokerCall>
    /** POSTs that never left. */
    ghost var unsent: nat

    constructor ()
      ensures calls == []
    {
      metrics := OrderTrackingMetrics(0, 0, false);
      clock := 0;
      calls, unsent := [], 0;
    }

    /** One POST at most. `raw` is what happened to it. */
    method SubmitOrder(request: OrderRequest, ghost durable: seq<JournalEvent>)
      returns (r: Result<OrderExecution, ClientError>, ghost raw: PostAnswer)
      modifies this`clock, this`calls, this`unsent
      ensures if unsent == old(unsent) then calls == old(calls) + [Post(request, durable, r)]
              else unsent == old(unsent) + 1 && calls == old(calls) && r.Err?
      ensures r.Ok? ==> ValidExecution(request, r.value)
      ensures unsent == old(unsent) <==> !raw.NotSent?
      ensures if raw.Answered? then r == ParseOrderExecution(request, raw.payload) else r.Err?
    {
      var ticks: nat :| ticks >= 0;
      clock := clock + ticks;
      var answer: PostAnswer := *;
      raw := answer;
      match answer {
        case NotSent(error) =>
          unsent := unsent + 1;
          return Err(error), raw;
        case Unauthorized(refreshError) =>
          // The POST is never repeated: the token is renewed for later reads only.
          r := Err(if refreshError.Some? then refreshError.value else AmbiguousOrder);
        case Failed(error) =>
          r := Err(error);
        case Answered(payload) =>
          r := ParseOrderExecution(request, payload);
      }
      calls := calls + [Post(request, durable, r)];
    }

    /** One GET. Reading takes at least one tick. */
    method OrderStatus(request: OrderRequest, brokerOrderId: string)
      returns (r: Result<OrderExecution, ClientError>, ghost raw: StatusAnswer)
      modifies this`clock, this`calls
      ensures r == if raw.Body? then ParseOrderExecution(request, raw.payload) else Err(raw.error)
      ensures r.Ok? ==> ValidExecution(request, r.value)
      ensures calls == old(calls) + [StatusRead(brokerOrderId, r)]
      ensures clock > old(clock)
    {
      var ticks: nat :| ticks >= 0;
      clock := clock + ticks + 1;
      var answer: StatusAnswer := *;
      raw := answer;
      match answer {
        case Body(payload) => r := ParseOrderExecution(request, payload);
        case Failure(error) => r := Err(error);
      }
      calls := calls + [StatusRead(brokerOrderId, r)];
    }

    method CancelOrder(brokerOrderId: string) returns (error: Option<ClientError>)
      modifies this`clock, this`calls
      ensures calls == old(calls) + [Cancel(brokerOrderId, error.None?)] && clock >= old(clock)
    {
      var ticks: nat :| ticks >= 0;
      clock := clock + ticks;
      error := *;
      calls := calls + [Cancel(brokerOrderId, error.None?)];
    }

    /** Sleeps at least `wait`, unless the stream reports activity on this order. */
    method WaitForOrderSignal(brokerOrderId: string, wait: nat) returns (ghost signalled: bool, ghost heard: StreamAnswer)
      modifies this`clock, this`metrics
      ensures clock >= old(clock)
      ensures signalled <==> heard == Movement(Some(brokerOrderId))
      ensures !signalled ==> clock >= old(clock) + wait && metrics == old(metrics)
      ensures signalled ==>
                metrics == old(metrics).(websocketSignals := SaturatingAdd(old(metrics).websocketSignals, 1))
    {
      var elapsed: nat :| elapsed >= 0;
      var answer: StreamAnswer := *;
      heard := answer;
      match answer {
        case Movement(orderNumber) =>
          if orderNumber == Some(brokerOrderId) {
            clock := clock + elapsed;
            metrics := metrics.(websocketSignals := SaturatingAdd(metrics.websocketSignals, 1));
            return true, heard;
          }
          clock := clock + wait + elapsed;
        case _ =>
          clock := clock + wait + elapsed;
      }
      signalled := false;
    }

    /** One read and its checks: a fatal error or an illegal step ends the tracking,
        a terminal report completes it, anything else lets it go on. */
    method ReadReport(request: OrderRequest, brokerOrderId: string,
                      ghost initial: OrderExecution, ghost before: seq<BrokerCall>, last: OrderExecution)
      returns (verdict: Option<Result<OrderExecution, ClientError>>, next: OrderExecution, ghost polls: seq<BrokerCall>)
      requires Tracked(request, initial, before, last)
      modifies this`clock, this`calls
      ensures clock > old(clock)
      ensures exists answer ::
                && polls == before + [StatusRead(brokerOrderId, answer)]
                && calls == old(calls) + [StatusRead(brokerOrderId, answer)]
      ensures forall i | 0 <= i < |before| :: !TerminalRead(polls[i])
      ensures verdict.None? ==> Tracked(request, initial, polls, next)
      ensures verdict.Some? && verdict.value.Ok? ==> Confirms(request, initial, polls, verdict.value.value)
      ensures verdict.Some? && verdict.value.Err? ==> !ReachesTerminal(initial, polls) && EndsFatally(initial, polls)
    {
      var answer;
      ghost var raw;
      answer, raw := OrderStatus(request, brokerOrderId);
      TrackRead(request, initial, before, last, brokerOrderId, answer);
      polls, next, verdict := before + [StatusRead(brokerOrderId, answer)], last, None;
      assert polls[..|polls| - 1] == before;
      if answer.Err? {
        if !IsRetryable(answer.error) {
          verdict := Some(Err(answer.error));
        }
        return;
      }
      if !ValidTransition(last, answer.value) {
        verdict := Some(Err(InvalidResponse));
        return;
      }
      next := answer.value;
      if IsTerminal(next) {
        verdict := Some(Ok(next));
      }
    }

    method PollOrderUntil(request: OrderRequest, brokerOrderId: string, timeout: nat, pollInterval: nat,
                          last: OrderExecution)
      returns (r: Result<Option<OrderExecution>, ClientError>, lastExecution: OrderExecution,
               ghost polls: seq<BrokerCall>, ghost signals: nat)
      requires ValidExecution(request, last) && !IsTerminal(last)
      modifies this`clock, this`calls, this`metrics
      ensures calls == old(calls) + polls && OnlyReads(polls)
      ensures forall i | 0 <= i < |polls| - 1 :: !TerminalRead(polls[i])
      ensures r.Ok? && r.value.None? ==> Tracked(request, last, polls, lastExecution)
      ensures r.Ok? && r.value.Some? ==> Confirms(request, last, polls, r.value.value)
      ensures r.Err? ==> !ReachesTerminal(last, polls) && EndsFatally(last, polls)
      ensures polls != [] && Addressed(polls, brokerOrderId)
      ensures metrics.cancellationRequested == old(metrics).cancellationRequested
      ensures r == Ok(None) ==> clock > old(clock) + timeout
      ensures clock >= old(clock)
      ensures pollInterval > 0 ==> |polls| <= timeout / pollInterval + 2 + signals
    {
      ghost var full;
      r, lastExecution, polls, signals, full := Poll(request, brokerOrderId, timeout, pollInterval, last);
      ReadBound(full, pollInterval, timeout);
    }

    /** The loop. `full` counts the intervals that were slept through. */
    method Poll(request: OrderRequest, brokerOrderId: string, timeout: nat, pollInterval: nat, last: OrderExecution)
      returns (r: Result<Option<OrderExecution>, ClientError>, lastExecution: OrderExecution,
               ghost polls: seq<BrokerCall>, ghost signals: nat, ghost full: nat)
      requires ValidExecution(request, last) && !IsTerminal(last)
      modifies this`clock, this`calls, this`metrics
      ensures calls == old(calls) + polls && OnlyReads(polls)
      ensures forall i | 0 <= i < |polls| - 1 :: !TerminalRead(polls[i])
      ensures r.Ok? && r.value.None? ==> Tracked(request, last, polls, lastExecution)
      ensures r.Ok? && r.value.Some? ==> Confirms(request, last, polls, r.value.value)
      ensures r.Err? ==> !ReachesTerminal(last, polls) && EndsFatally(last, polls)
      ensures polls != [] && Addressed(polls, brokerOrderId)
      ensures metrics.cancellationRequested == old(metrics).cancellationRequested
      ensures r == Ok(None) ==> clock > old(clock) + timeout
      ensures clock >= old(clock)
      ensures |polls| <= full + 2 + signals && full * pollInterval <= timeout
    {
      var deadline := clock + timeout;
      ghost var start, partial := clock, false;
      lastExecution := last;
      polls, signals, full := [], 0, 0;
      while true
        invariant calls == old(calls) + polls && OnlyReads(polls)
        invariant Tracked(request, last, polls, lastExecution) && Addressed(polls, brokerOrderId)
        invariant |polls| == full + signals + if partial then 1 else 0
        invariant partial ==> clock >= deadline
        invariant metrics.cancellationRequested == old(metrics).cancellationRequested
        invariant start <= clock && FullWaits(full, pollInterval, clock - start, timeout)
        decreases if clock <= deadline then deadline + 1 - clock else 0
      {
        metrics := metrics.(restPolls := SaturatingAdd(metrics.restPolls, 1));
        var verdict;
        verdict, lastExecution, polls := ReadReport(request, brokerOrderId, last, polls, lastExecution);
        if verdict.Some? {
          if verdict.value.Err? {
            return Err(verdict.value.error), lastExecution, polls, signals, full;
          }
          return Ok(Some(verdict.value.value)), lastExecution, polls, signals, full;
        }
        if clock > deadline {
          return Ok(None), lastExecution, polls, signals, full;
        }
        ghost var signalled, slept;
        signalled, slept := Pause(brokerOrderId, pollInterval, deadline, start, full, timeout);
        if signalled {
          signals := signals + 1;
        } else if slept {
          full := full + 1;
        } else {
          partial := true;
        }
      }
    }

    /** Waits one interval, or what is left of the timeout. */
    method Pause(brokerOrderId: string, pollInterval: nat, deadline: nat, ghost start: nat, ghost full: nat, ghost timeout: nat)
      returns (ghost signalled: bool, ghost slept: bool)
      requires start <= clock <= deadline == start + timeout
      requires FullWaits(full, pollInterval, clock - start, timeout)
      modifies this`clock, this`metrics
      ensures clock >= old(clock)
      ensures signalled || !slept ==> FullWaits(full, pollInterval, clock - start, timeout)
      ensures slept ==> FullWaits(full + 1, pollInterval, clock - start, timeout)
      ensures !signalled && !slept ==> clock >= deadline
      ensures metrics.cancellationRequested == old(metrics).cancellationRequested
    {
      var remaining := deadline - clock;
      var wait := if pollInterval < remaining then pollInterval else remaining;
      ghost var asleep := clock;
      ghost var heard;
      signalled, heard := WaitForOrderSignal(brokerOrderId, wait);
      slept := !signalled && wait == pollInterval;
      if slept {
        WaitsGrow(full, pollInterval, asleep - start, timeout);
      }
    }

    method TrackOrderToTerminal(request: OrderRequest, initial: OrderExecution,
                                trackingTimeout: nat, pollInterval: nat, cancelTimeout: nat)
      returns (r: Result<OrderExecution, ClientError>, ghost sent: seq<BrokerCall>, ghost signals: nat)
      modifies this`clock, this`calls, this`metrics
      ensures calls == old(calls) + sent && Disciplined(sent)
      ensures r.Ok? <==> ValidExecution(request, initial) && ReachesTerminal(initial, sent)
      ensures r.Ok? ==> r.value == LastReport(initial, Reports(sent)) && ValidExecution(request, r.value)
      ensures IsTerminal(initial) ==> sent == []
      // Every call is about the order the broker named.
      ensures sent != [] ==> initial.brokerOrderId.Some? && Addressed(sent, initial.brokerOrderId.value)
      // It gives up on an order that can be followed only after a fatal answer or a
      // cancel; it cancels only when its time is over; and it reads after the cancel,
      // until the second time is over if the cancel was acknowledged.
      ensures r.Err? && Followable(request, initial) ==> EndsFatally(initial, sent) || WasCancelled(sent)
      ensures WasCancelled(sent) ==> clock > old(clock) + trackingTimeout && sent[|sent| - 1].StatusRead?
      ensures r.Err? && CancelWasAcknowledged(sent) && !EndsFatally(initial, sent) ==>
                clock > old(clock) + trackingTimeout + cancelTimeout
      ensures Followable(request, initial) ==> (metrics.cancellationRequested <==> WasCancelled(sent))
      ensures pollInterval > 0 ==>
                |sent| <= trackingTimeout / pollInterval + cancelTimeout / pollInterval + 6 + signals
    {
      hide Reports, ValidatedChain, ValidateOrderTransition, Disciplined;
      metrics := OrderTrackingMetrics(0, 0, false);
      sent, signals := [], 0;
      NothingSent(request, initial);
      if !ValidExecution(request, initial) {
        return Err(InvalidResponse), sent, signals;
      }
      if IsTerminal(initial) {
        return Ok(initial), sent, signals;
      }
      if initial.brokerOrderId.None? || initial.brokerOrderId.value == [] {
        return Err(InvalidResponse), sent, signals;
      }
      r, sent, signals := FollowById(request, initial.brokerOrderId.value, initial, trackingTimeout, pollInterval, cancelTimeout);
    }

    /** Tracking proper, of the order with this id at the broker. */
    method FollowById(request: OrderRequest, id: string, initial: OrderExecution,
                      trackingTimeout: nat, pollInterval: nat, cancelTimeout: nat)
      returns (r: Result<OrderExecution, ClientError>, ghost sent: seq<BrokerCall>, ghost signals: nat)
      requires ValidExecution(request, initial) && !IsTerminal(initial) && !metrics.cancellationRequested
      modifies this`clock, this`calls, this`metrics
      ensures calls == old(calls) + sent && Disciplined(sent) && Addressed(sent, id)
      ensures r.Ok? <==> ReachesTerminal(initial, sent)
      ensures r.Ok? ==> r.value == LastReport(initial, Reports(sent)) && ValidExecution(request, r.value)
      ensures r.Err? ==> EndsFatally(initial, sent) || WasCancelled(sent)
      ensures WasCancelled(sent) ==> clock > old(clock) + trackingTimeout && sent[|sent| - 1].StatusRead?
      ensures r.Err? && CancelWasAcknowledged(sent) && !EndsFatally(initial, sent) ==>
                clock > old(clock) + trackingTimeout + cancelTimeout
      ensures metrics.cancellationRequested <==> WasCancelled(sent)
      ensures pollInterval > 0 ==>
                |sent| <= trackingTimeout / pollInterval + cancelTimeout / pollInterval + 6 + signals
    {
      hide Reports, ValidatedChain, ValidateOrderExecution, ValidateOrderTransition, ReachesTerminal, EndsFatally;
      hide Disciplined, Addressed, WasCancelled, CancelWasAcknowledged, OnlyReads, TerminalRead;
      var decided, lastExecution;
      decided, lastExecution, sent, signals := PollThenReadOnce(request, id, initial, trackingTimeout, pollInterval);
      if decided.Some? {
        OnlyReadsAreDisciplined(sent);
        return decided.value, sent, signals;
      }
      ghost var before := sent;
      metrics := metrics.(cancellationRequested := true);
      ghost var after: seq<BrokerCall>;
      ghost var heard: nat;
      ghost var acknowledged;
      r, after, heard, acknowledged := CancelAndConfirm(request, id, lastExecution, pollInterval, cancelTimeout);
      JoinAfterCancel(request, initial, before, lastExecution, id, acknowledged, after);
      DisciplinedCancel(before, id, acknowledged, after);
      sent, signals := before + [Cancel(id, acknowledged)] + after, signals + heard;
      CancelledOnce(before, id, acknowledged, after);
      if EndsFatally(lastExecution, after) {
        FatalAfterCancel(request, initial, before, lastExecution, id, acknowledged, after);
      }
    }

    /** The head of the tracking: poll until the deadline, then one last read before
        the DELETE, because the order may have finished meanwhile. */
    method PollThenReadOnce(request: OrderRequest, id: string, initial: OrderExecution,
                            trackingTimeout: nat, pollInterval: nat)
      returns (decided: Option<Result<OrderExecution, ClientError>>, lastExecution: OrderExecution,
               ghost sent: seq<BrokerCall>, ghost signals: nat)
      requires ValidExecution(request, initial) && !IsTerminal(initial)
      modifies this`clock, this`calls, this`metrics
      ensures calls == old(calls) + sent && OnlyReads(sent)
      ensures forall i | 0 <= i < |sent| - 1 :: !TerminalRead(sent[i])
      ensures decided.None? ==> Tracked(request, initial, sent, lastExecution)
      ensures decided.Some? ==> (decided.value.Ok? <==> ReachesTerminal(initial, sent))
      ensures decided.Some? && decided.value.Ok? ==> Confirms(request, initial, sent, decided.value.value)
      ensures decided.Some? && decided.value.Err? ==> EndsFatally(initial, sent)
      ensures sent != [] && Addressed(sent, id)
      ensures decided.None? ==> clock > old(clock) + trackingTimeout
      ensures metrics.cancellationRequested == old(metrics).cancellationRequested
      ensures pollInterval > 0 ==> |sent| <= trackingTimeout / pollInterval + 3 + signals
    {
      var polled;
      polled, lastExecution, sent, signals := PollOrderUntil(request, id, trackingTimeout, pollInterval, initial);
      if polled.Err? {
        return Some(Err(polled.error)), lastExecution, sent, signals;
      }
      if polled.value.Some? {
        return Some(Ok(polled.value.value)), lastExecution, sent, signals;
      }
      decided, lastExecution, sent := ReadReport(request, id, initial, sent, lastExecution);
    }

    /** The tail of the tracking: the DELETE and what is read after it. */
    method CancelAndConfirm(request: OrderRequest, id: string, last: OrderExecution,
                            pollInterval: nat, cancelTimeout: nat)
      returns (r: Result<OrderExecution, ClientError>, ghost after: seq<BrokerCall>, ghost signals: nat, ghost acknowledged: bool)
      requires ValidExecution(request, last) && !IsTerminal(last)
      modifies this`clock, this`calls, this`metrics
      ensures calls == old(calls) + [Cancel(id, acknowledged)] + after && OnlyReads(after)
      ensures after != [] && Addressed(after, id)
      ensures r.Err? && acknowledged ==> EndsFatally(last, after) || clock > old(clock) + cancelTimeout
      ensures metrics.cancellationRequested == old(metrics).cancellationRequested && clock >= old(clock)
      ensures forall i | 0 <= i < |after| - 1 :: !TerminalRead(after[i])
      ensures r.Ok? <==> ReachesTerminal(last, after)
      ensures r.Ok? ==> r.value == LastReport(last, Reports(after)) && ValidExecution(request, r.value)
      ensures pollInterval > 0 ==> |after| <= cancelTimeout / pollInterval + 2 + signals
    {
      hide Reports, ValidatedChain, ValidateOrderExecution, ValidateOrderTransition;
      after, signals := [], 0;
      var cancelError := CancelOrder(id);
      acknowledged := cancelError.None?;
      if cancelError.Some? {
        var answer;
        ghost var raw;
        answer, raw := OrderStatus(request, id);
        NothingSent(request, last);
        TrackRead(request, last, [], last, id, answer);
        after := [] + [StatusRead(id, answer)];
        if answer.Ok? && !ValidTransition(last, answer.value) {
          return Err(InvalidResponse), after, signals, acknowledged;
        }
        if answer.Ok? && IsTerminal(answer.value) {
          return Ok(answer.value), after, signals, acknowledged;
        }
        return Err(InvalidResponse), after, signals, acknowledged;
      }
      var confirmed, final;
      confirmed, final, after, signals := PollOrderUntil(request, id, cancelTimeout, pollInterval, last);
      if confirmed.Err? {
        return Err(confirmed.error), after, signals, acknowledged;
      }
      if confirmed.value.None? {
        return Err(InvalidResponse), after, signals, acknowledged;
      }
      r := Ok(confirmed.value.value);
    }
  }

  /** Every report was a validated step and the last one is terminal. */
  ghost predicate ReachesTerminal(initial: OrderExecution, sent: seq<BrokerCall>) {
    ValidatedChain(initial, Reports(sent)) && IsTerminal(LastReport(initial, Reports(sent)))
  }

  ghost predicate Confirms(request: OrderRequest, initial: OrderExecution, sent: seq<BrokerCall>, final: OrderExecution) {
    ReachesTerminal(initial, sent) && final == LastReport(initial, Reports(sent)) && ValidExecution(request, final)
  }

  lemma JoinAfterCancel(request: OrderRequest, initial: OrderExecution, before: seq<BrokerCall>, last: OrderExecution,
                        id: string, acknowledged: bool, after: seq<BrokerCall>)
    requires Tracked(request, initial, before, last)
    ensures var sent := before + [Cancel(id, acknowledged)] + after;
            && (ReachesTerminal(initial, sent) <==> ReachesTerminal(last, after))
            && LastReport(initial, Reports(sent)) == LastReport(last, Reports(after))
  {
    ReportsAppend(before, Cancel(id, acknowledged));
    ReportsConcat(before + [Cancel(id, acknowledged)], after);
    assert Reports(before) + [] == Reports(before);
    ChainConcat(initial, Reports(before), Reports(after));
  }

  lemma OnlyReadsAreDisciplined(calls: seq<BrokerCall>)
    requires OnlyReads(calls) && forall i | 0 <= i < |calls| - 1 :: !TerminalRead(calls[i])
    ensures Disciplined(calls) && !WasCancelled(calls) && !CancelWasAcknowledged(calls)
  {
  }

  /** Before the first call. */
  lemma NothingSent(request: OrderRequest, initial: OrderExecution)
    ensures Disciplined([]) && !WasCancelled([]) && !CancelWasAcknowledged([]) && !EndsFatally(initial, [])
    ensures ReachesTerminal(initial, []) <==> IsTerminal(initial)
    ensures LastReport(initial, Reports([])) == initial
    ensures ValidExecution(request, initial) && !IsTerminal(initial) ==> Tracked(request, initial, [], initial)
  {
  }

  lemma FatalAfterCancel(request: OrderRequest, initial: OrderExecution, before: seq<BrokerCall>, last: OrderExecution,
                         id: string, acknowledged: bool, after: seq<BrokerCall>)
    requires Tracked(request, initial, before, last) && EndsFatally(last, after)
    ensures EndsFatally(initial, before + [Cancel(id, acknowledged)] + after)
  {
    hide Reports, ValidatedChain, ValidateOrderExecution, ValidateOrderTransition, Tracked, ReachesTerminal;
    var sent := before + [Cancel(id, acknowledged)] + after;
    var earlier := after[..|after| - 1];
    JoinAfterCancel(request, initial, before, last, id, acknowledged, earlier);
    assert sent[..|sent| - 1] == before + [Cancel(id, acknowledged)] + earlier;
    assert sent[|sent| - 1] == after[|after| - 1];
  }

  lemma CancelledOnce(before: seq<BrokerCall>, id: string, acknowledged: bool, after: seq<BrokerCall>)
    requires OnlyReads(before) && OnlyReads(after) && Addressed(before, id) && Addressed(after, id)
    ensures var sent := before + [Cancel(id, acknowledged)] + after;
            && WasCancelled(sent) && (CancelWasAcknowledged(sent) <==> acknowledged) && Addressed(sent, id)
            && (after != [] ==> sent[|sent| - 1].StatusRead?)
  {
    var sent := before + [Cancel(id, acknowledged)] + after;
    assert sent[|before|] == Cancel(id, acknowledged);
    forall i | 0 <= i < |sent| ensures i != |before| ==> sent[i].StatusRead? {
      if i < |before| {
        assert sent[i] == before[i];
      } else if i > |before| {
        assert sent[i] == after[i - |before| - 1];
      }
    }
  }

  /** An order that can be followed: a valid report without an end, with an id of the
      broker. */
  ghost predicate Followable(request: OrderRequest, initial: OrderExecution) {
    ValidExecution(request, initial) && !IsTerminal(initial) && initial.brokerOrderId.Some?
  }

  lemma DisciplinedCancel(before: seq<BrokerCall>, id: string, acknowledged: bool, after: seq<BrokerCall>)
    requires OnlyReads(before) && OnlyReads(after)
    requires forall i | 0 <= i < |before| :: !TerminalRead(before[i])
    requires forall i | 0 <= i < |after| - 1 :: !TerminalRead(after[i])
    ensures Disciplined(before + [Cancel(id, acknowledged)] + after)
  {
    var sent := before + [Cancel(id, acknowledged)] + after;
    forall i | 0 <= i < |sent|
      ensures sent[i].Cancel? <==> i == |before|
      ensures !sent[i].Post? && (i < |sent| - 1 ==> !TerminalRead(sent[i]))
    {
    }
  }

  lemma SingletonChain(initial: OrderExecution, report: OrderExecution)
    ensures ValidatedChain(initial, [report]) <==> ValidTransition(initial, report)
  {
    assert [report][..0] == [];
    assert ValidatedChain(initial, [report]) <==> ValidTransition(initial, [report][0]);
  }

  lemma ExtendByRead(initial: OrderExecution, sent: seq<BrokerCall>, id: string, answer: Result<OrderExecution, ClientError>)
    requires ValidatedChain(initial, Reports(sent))
    ensures var after := Reports(sent + [StatusRead(id, answer)]);
            if answer.Err? then after == Reports(sent)
            else
              && (ValidatedChain(initial, after) <==> ValidTransition(LastReport(initial, Reports(sent)), answer.value))
              && LastReport(initial, after) == answer.value
  {
    ReportsAppend(sent, StatusRead(id, answer));
    if answer.Ok? {
      ChainConcat(initial, Reports(sent), [answer.value]);
      SingletonChain(LastReport(initial, Reports(sent)), answer.value);
    }
  }

  /** The reads so far form a validated chain without a terminal report. */
  ghost predicate Tracked(request: OrderRequest, initial: OrderExecution, polls: seq<BrokerCall>, last: OrderExecution) {
    && ValidatedChain(initial, Reports(polls)) && last == LastReport(initial, Reports(polls))
    && ValidExecution(request, last) && !IsTerminal(last) && Tolerated(polls)
    && forall i | 0 <= i < |polls| :: !TerminalRead(polls[i])
  }

  lemma TrackRead(request: OrderRequest, initial: OrderExecution, polls: seq<BrokerCall>, last: OrderExecution,
                  id: string, answer: Result<OrderExecution, ClientError>)
    requires Tracked(request, initial, polls, last)
    requires answer.Ok? ==> ValidExecution(request, answer.value)
    ensures var after := polls + [StatusRead(id, answer)];
            && (forall i | 0 <= i < |after| - 1 :: !TerminalRead(after[i]))
            && (answer == Err(Http) ==> Tracked(request, initial, after, last))
            && (answer.Err? ==> ValidatedChain(initial, Reports(after)) && LastReport(initial, Reports(after)) == last)
            && (answer.Ok? && ValidTransition(last, answer.value) ==>
                  && ValidatedChain(initial, Reports(after)) && LastReport(initial, Reports(after)) == answer.value
                  && (!IsTerminal(answer.value) ==> Tracked(request, initial, after, answer.value)))
            && (answer.Ok? && !ValidTransition(last, answer.value) ==> !ValidatedChain(initial, Reports(after)))
  {
    hide Reports, ValidatedChain, ValidateOrderExecution, ValidateOrderTransition;
    ExtendByRead(initial, polls, id, answer);
  }

  /** `full` whole intervals were slept through, and they all fit in the timeout. */
  ghost predicate FullWaits(full: nat, interval: nat, elapsed: int, timeout: nat) {
    full * interval <= elapsed && full * interval <= timeout
  }

  lemma WaitsGrow(full: nat, interval: nat, elapsed: nat, timeout: nat)
    requires FullWaits(full, interval, elapsed, timeout) && elapsed + interval <= timeout
    ensures FullWaits(full + 1, interval, elapsed + interval, timeout)
  {
    assert (full + 1) * interval == full * interval + interval;
  }

  lemma ReadBound(full: nat, interval: nat, timeout: nat)
    requires full * interval <= timeout
    ensures interval > 0 ==> full <= timeout / interval
  {
    if interval > 0 {
      var q := timeout / interval;
      assert timeout < (q + 1) * interval;
      MulLess(full, q + 1, interval);
    }
  }

  lemma MulLess(a: nat, b: nat, c: nat)
    requires a * c < b * c
    ensures a < b
  {
    if a >= b {
      MulMonotone(b, a, c);
    }
  }

  lemma MulMonotone(a: nat, b: nat, c: nat)
    requires a <= b
    ensures a * c <= b * c
  {
    assert b * c - a * c == (b - a) * c;
  }
}
