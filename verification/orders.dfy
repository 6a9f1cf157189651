/** Order requests, broker reports and the two relations that every report must
    satisfy: validity against the request and legality as a successor
    (src/broker.rs). */
module Orders {
  import opened Common

  datatype OrderSide = Buy | Sell

  datatype OrderRequest = OrderRequest(
    operationId: string,
    symbol: string,
    quantity: u32,
    marketPrice: real,
    limitPrice: real,
    side: OrderSide)

  datatype OrderStatus = Pending | PartiallyExecuted | Executed | Rejected | Cancelled

  datatype OrderExecution = OrderExecution(
    operationId: string,
    status: OrderStatus,
    filledQuantity: u32,
    fillPrice: Option<real>,
    brokerOrderId: Option<string>,
    message: Option<string>)
  {
    function RemainingQuantity(requested: u32): u32 {
      SaturatingSub(requested, filledQuantity)
    }
  }

  /** Why a report was refused, in the order the checks are made. */
  datatype Violation =
    | OperationIdMismatch
    | Overfilled
    | InvalidFillPrice
    | BlankBrokerOrderId
    | PendingWithFills
    | InvalidPartialFill
    | InvalidFullFill
    | RejectedWithFills
    | CancelledButFull
    | InvalidCancellation
    | OperationIdChanged
    | BrokerOrderIdChanged
    | FillWentBack
    | IllegalStatusChange

  function ValidateOrderExecution(request: OrderRequest, execution: OrderExecution): Option<Violation> {
    if execution.operationId != request.operationId then Some(OperationIdMismatch)
    else if execution.filledQuantity > request.quantity then Some(Overfilled)
    else if execution.fillPrice.Some? && execution.fillPrice.value <= 0.0 then Some(InvalidFillPrice)
    else if execution.brokerOrderId.Some? && IsBlank(execution.brokerOrderId.value) then Some(BlankBrokerOrderId)
    else
      var hasBrokerId := execution.brokerOrderId.Some?;
      var hasFillPrice := execution.fillPrice.Some?;
      match execution.status
      case Pending =>
        if execution.filledQuantity != 0 || hasFillPrice then Some(PendingWithFills) else None
      case PartiallyExecuted =>
        if execution.filledQuantity == 0 || execution.filledQuantity >= request.quantity
           || !hasFillPrice || !hasBrokerId
        then Some(InvalidPartialFill) else None
      case Executed =>
        if execution.filledQuantity != request.quantity || !hasFillPrice || !hasBrokerId
        then Some(InvalidFullFill) else None
      case Rejected =>
        if execution.filledQuantity != 0 || hasFillPrice then Some(RejectedWithFills) else None
      case Cancelled =>
        if execution.filledQuantity >= request.quantity then Some(CancelledButFull)
        else if !hasBrokerId || (execution.filledQuantity > 0) != hasFillPrice then Some(InvalidCancellation)
        else None
  }

  predicate MayFollow(previous: OrderStatus, next: OrderStatus) {
    match previous
    case Pending => true
    case PartiallyExecuted => next.PartiallyExecuted? || next.Executed? || next.Cancelled?
    case Executed => false
    case Rejected => false
    case Cancelled => false
  }

  function ValidateOrderTransition(previous: OrderExecution, next: OrderExecution): Option<Violation> {
    if previous.operationId != next.operationId then Some(OperationIdChanged)
    else if previous.brokerOrderId.Some? && next.brokerOrderId != previous.brokerOrderId then Some(BrokerOrderIdChanged)
    else if next.filledQuantity < previous.filledQuantity then Some(FillWentBack)
    else if !MayFollow(previous.status, next.status) then Some(IllegalStatusChange)
    else None
  }

  predicate ValidExecution(request: OrderRequest, execution: OrderExecution) {
    ValidateOrderExecution(request, execution).None?
  }

  predicate ValidTransition(previous: OrderExecution, next: OrderExecution) {
    ValidateOrderTransition(previous, next).None?
  }

  /** `order_is_terminal`: the broker will not change this report any more. */
  predicate IsTerminal(execution: OrderExecution) {
    execution.status.Executed? || execution.status.Rejected? || execution.status.Cancelled?
  }

  /** Equal, or a validated successor: what the journal accepts between two
      reports about one order. */
  predicate Follows(previous: OrderExecution, next: OrderExecution) {
    previous == next || ValidTransition(previous, next)
  }

  // ----- the two relations, read off the fields -----

  /** What a report must look like: it is about this request and fills no more than
      it, an id it names is not blank, money moved exactly if there is a price, and
      the status goes with the filled part. */
  lemma ValidReportExactly(request: OrderRequest, execution: OrderExecution)
    ensures var e, filled, wanted := execution, execution.filledQuantity, request.quantity;
            var broker, price := e.brokerOrderId, e.fillPrice;
            ValidExecution(request, e) <==>
              && e.operationId == request.operationId && filled <= wanted
              && (broker.Some? ==> !IsBlank(broker.value)) && (price.Some? ==> price.value > 0.0)
              && (e.status in {PartiallyExecuted, Executed, Cancelled} ==> broker.Some?)
              && (e.status.Executed? ==> filled == wanted && price.Some?)
              && (e.status.Executed? || (price.Some? <==> filled > 0))
              && (e.status.PartiallyExecuted? ==> 0 < filled < wanted)
              && (e.status.Cancelled? ==> filled < wanted)
              && (e.status in {Pending, Rejected} ==> filled == 0)
  {
  }

  /** What may come after a report: the same order under the same broker id once there
      is one, no less filled, nothing after an end, and after a partial fill only
      another one or the two ends that keep it. */
  lemma LegalStepExactly(previous: OrderExecution, next: OrderExecution)
    ensures ValidTransition(previous, next) <==>
              && next.operationId == previous.operationId
              && (previous.brokerOrderId == None || next.brokerOrderId == previous.brokerOrderId)
              && next.filledQuantity >= previous.filledQuantity
              && previous.status in {Pending, PartiallyExecuted}
              && (previous.status == PartiallyExecuted ==> next.status !in {Pending, Rejected})
  {
  }

  /** A report is terminal exactly when nothing but itself may follow it. */
  lemma TerminalExactly(execution: OrderExecution)
    ensures IsTerminal(execution) <==> forall next :: Follows(execution, next) ==> next == execution
  {
    if !IsTerminal(execution) {
      var other := execution.(message := Some(if execution.message == Some("") then " " else ""));
      assert Follows(execution, other) && other != execution;
    }
  }

  /** Skipping intermediate reports never hides an illegal step. */
  lemma FollowsIsTransitive(a: OrderExecution, b: OrderExecution, c: OrderExecution)
    requires Follows(a, b) && Follows(b, c)
    ensures Follows(a, c)
  {
  }

  /** The only way on from a terminal report is that very report. */
  lemma TerminalIsFrozen(previous: OrderExecution, next: OrderExecution)
    ensures IsTerminal(previous) ==> (Follows(previous, next) <==> previous == next)
  {
  }

  /** A valid report owns money exactly when it owns a price, and the status says
      which part of the request was filled. */
  lemma StatusDeterminesFill(request: OrderRequest, execution: OrderExecution)
    requires ValidExecution(request, execution)
    ensures execution.filledQuantity <= request.quantity
    ensures execution.status.Executed? ==> execution.filledQuantity == request.quantity
    ensures execution.status.PartiallyExecuted? ==> 0 < execution.filledQuantity < request.quantity
    ensures execution.status.Pending? || execution.status.Rejected? ==> execution.filledQuantity == 0
    ensures execution.status.Cancelled? ==> execution.filledQuantity < request.quantity
    ensures execution.filledQuantity > 0 ==> execution.fillPrice.Some? && execution.fillPrice.value > 0.0
                                             && execution.brokerOrderId.Some?
    ensures request.quantity > 0 ==> (execution.fillPrice.Some? <==> execution.filledQuantity > 0)
  {
  }
}
