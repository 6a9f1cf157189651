/** The paper broker: an idempotent fixed-limit fill and the frame-by-frame
    simulation of a limit order that is cancelled and replaced (src/broker.rs). */
module PaperBrokers {
  import opened Common
  import opened Orders

  datatype ExecutionFrame = ExecutionFrame(
    timestampMillis: i64,
    bid: real,
    ask: real,
    bidSize: u32,
    askSize: u32,
    queueAhead: u32,
    cancellationAcknowledged: bool)

  datatype Phase =
    | Pending | PartiallyFilled | CancelRequested | Cancelled
    | ReplacementSubmitted | Executed | StoppedUncertainCancellation

  datatype Transition = Transition(
    timestampMillis: i64,
    attempt: u32,
    phase: Phase,
    filledQuantity: u32,
    remainingQuantity: u32,
    limitPrice: real)

  datatype Simulation = Simulation(
    execution: OrderExecution,
    transitions: seq<Transition>,
    attempts: u32,
    exposureMillis: i64,
    slippageBps: Option<real>,
    adverseSelectionBps: Option<real>,
    duplicateOrderRisk: bool)

  datatype PaperError = InvalidOrder | ConflictingReuse | InvalidFrames

  predicate WellFormedOrder(request: OrderRequest) {
    && !IsBlank(request.operationId)
    && !IsBlank(request.symbol)
    && request.quantity != 0
    && request.marketPrice > 0.0
    && request.limitPrice > 0.0
  }

  predicate WellFormedFrames(frames: seq<ExecutionFrame>) {
    && frames != []
    && (forall i | 0 <= i < |frames| :: frames[i].bid > 0.0 && frames[i].ask >= frames[i].bid)
    && (forall i | 1 <= i < |frames| :: frames[i - 1].timestampMillis < frames[i].timestampMillis)
  }

  // ----- the price of each attempt -----

  /** From the passive side of the book towards the request limit, never past it. */
  function LimitAt(request: OrderRequest, frame: ExecutionFrame, attempt: nat, cap: nat): real
    requires cap > 0
  {
    var progress := attempt as real / cap as real;
    match request.side
    case Buy => Min(Interpolated(frame.bid, request.limitPrice, progress), request.limitPrice)
    case Sell => Max(Interpolated(frame.ask, request.limitPrice, progress), request.limitPrice)
  }

  function Interpolated(passive: real, limit: real, progress: real): real {
    passive + (limit - passive) * progress
  }

  function TouchPrice(side: OrderSide, frame: ExecutionFrame): real {
    if side.Buy? then frame.ask else frame.bid
  }

  function TouchSize(side: OrderSide, frame: ExecutionFrame): u32 {
    if side.Buy? then frame.askSize else frame.bidSize
  }

  predicate AtLeastAsGood(side: OrderSide, price: real, limit: real) {
    if side.Buy? then price <= limit else price >= limit
  }

  function Executable(side: OrderSide, frame: ExecutionFrame, remaining: u32): u32 {
    var beyondQueue := SaturatingSub(TouchSize(side, frame), frame.queueAhead);
    if beyondQueue <= remaining then beyondQueue else remaining
  }

  /** The limit of every attempt, in order. */
  function LimitSchedule(request: OrderRequest, frames: seq<ExecutionFrame>, cap: nat): (limits: seq<real>)
    requires cap <= |frames|
    ensures |limits| == cap
  {
    seq(cap, i requires 0 <= i < cap => LimitAt(request, frames[i], i + 1, cap))
  }

  predicate NeverWorse(request: OrderRequest, limits: seq<real>) {
    forall i | 0 <= i < |limits| :: AtLeastAsGood(request.side, limits[i], request.limitPrice)
  }

  /** No attempt offers more than the request limit, and the last one offers all
      of it. */
  lemma ScheduleEndsAtLimit(request: OrderRequest, frames: seq<ExecutionFrame>, cap: nat)
    requires cap <= |frames|
    ensures NeverWorse(request, LimitSchedule(request, frames, cap))
    ensures cap > 0 ==> LimitSchedule(request, frames, cap)[cap - 1] == request.limitPrice
  {
    if cap > 0 {
      assert cap as real / cap as real == 1.0;
    }
  }

  /** Attempt `k` of `cap` goes `k / cap` of the way from the passive side of its frame
      to the request limit; a passive side that is already past it gives the limit. */
  lemma ScheduleIsLinear(request: OrderRequest, frames: seq<ExecutionFrame>, cap: nat, k: nat)
    requires 1 <= k <= cap <= |frames|
    ensures var offered, limit := LimitSchedule(request, frames, cap)[k - 1], request.limitPrice;
            var passive := match request.side case Buy => frames[k - 1].bid case Sell => frames[k - 1].ask;
            var past := match request.side case Buy => passive > limit case Sell => passive < limit;
            if past then offered == limit
            else (offered - passive) * cap as real == (limit - passive) * k as real
  {
    hide Interpolated;
    var passive := match request.side case Buy => frames[k - 1].bid case Sell => frames[k - 1].ask;
    PartOfTheWay(passive, request.limitPrice, k, cap);
  }

  lemma PartOfTheWay(passive: real, limit: real, k: nat, cap: nat)
    requires 1 <= k <= cap
    ensures var offered := Interpolated(passive, limit, k as real / cap as real);
            && (offered - passive) * cap as real == (limit - passive) * k as real
            && (passive <= limit ==> offered <= limit) && (passive >= limit ==> offered >= limit)
  {
    var distance, progress := limit - passive, k as real / cap as real;
    assert progress * cap as real == k as real;
    Proportion(distance, progress, k as real, cap as real);
    var gain := distance * progress;
    assert Interpolated(passive, limit, progress) == passive + gain;
    assert gain * cap as real == distance * k as real;
  }

  lemma Proportion(distance: real, progress: real, part: real, whole: real)
    requires 0.0 < part <= whole && progress * whole == part
    ensures distance * progress * whole == distance * part
    ensures distance >= 0.0 ==> distance * progress <= distance
    ensures distance <= 0.0 ==> distance * progress >= distance
  {
    assert (1.0 - progress) * whole == whole - part;
    SignOfFactor(1.0 - progress, whole);
    assert distance * progress * whole == distance * (progress * whole);
    assert distance - distance * progress == distance * (1.0 - progress);
    SignOfProducts(distance, 1.0 - progress);
  }

  lemma SignOfProducts(distance: real, rest: real)
    requires rest >= 0.0
    ensures distance >= 0.0 ==> distance * rest >= 0.0
    ensures distance <= 0.0 ==> distance * rest <= 0.0
  {
  }

  lemma SignOfFactor(a: real, b: real)
    requires b > 0.0
    ensures a * b >= 0.0 ==> a >= 0.0
    ensures a * b > 0.0 ==> a > 0.0
  {
  }

  // ----- the cancel/replace protocol, as a grammar of traces -----

  /** One more transition, judged by the one before it and by the frame of its
      attempt. */
  predicate LegalStep(request: OrderRequest, frames: seq<ExecutionFrame>, limits: seq<real>,
                      before: seq<Transition>, next: Transition)
  {
    && 1 <= next.attempt <= |limits| <= |frames|
    && var frame := frames[next.attempt - 1];
    && next.filledQuantity + next.remainingQuantity == request.quantity
    && next.timestampMillis == frame.timestampMillis
    && next.limitPrice == limits[next.attempt - 1]
    && if before == [] then
         next.phase.Pending? && next.attempt == 1 && next.filledQuantity == 0
       else
         var last := before[|before| - 1];
         && (next.phase.ReplacementSubmitted? <==> next.attempt != last.attempt)
         && (match next.phase
             case Pending => false
             case ReplacementSubmitted =>
               && last.phase.Cancelled?
               && next.attempt == last.attempt + 1
               && next.filledQuantity == last.filledQuantity
             case PartiallyFilled =>
               && (last.phase.Pending? || last.phase.ReplacementSubmitted?)
               && AtLeastAsGood(request.side, TouchPrice(request.side, frame), next.limitPrice)
               && next.filledQuantity == last.filledQuantity + Executable(request.side, frame, last.remainingQuantity)
               && next.remainingQuantity > 0
             case Executed =>
               && (last.phase.Pending? || last.phase.ReplacementSubmitted?)
               && AtLeastAsGood(request.side, TouchPrice(request.side, frame), next.limitPrice)
               && next.filledQuantity == last.filledQuantity + Executable(request.side, frame, last.remainingQuantity)
               && next.remainingQuantity == 0
             case CancelRequested =>
               && (last.phase.Pending? || last.phase.ReplacementSubmitted? || last.phase.PartiallyFilled?)
               && (!last.phase.PartiallyFilled? ==>
                     !AtLeastAsGood(request.side, TouchPrice(request.side, frame), next.limitPrice))
               && next.filledQuantity == last.filledQuantity
             case Cancelled =>
               && last.phase.CancelRequested?
               && frame.cancellationAcknowledged
               && next.filledQuantity == last.filledQuantity
             case StoppedUncertainCancellation =>
               && last.phase.CancelRequested?
               && !frame.cancellationAcknowledged
               && next.filledQuantity == last.filledQuantity)
  }

  predicate LegalTrace(request: OrderRequest, frames: seq<ExecutionFrame>, limits: seq<real>, trace: seq<Transition>) {
    trace == [] ||
    var before := trace[..|trace| - 1];
    LegalTrace(request, frames, limits, before) && LegalStep(request, frames, limits, before, trace[|trace| - 1])
  }

  function FilledBy(trace: seq<Transition>): u32 {
    if trace == [] then 0 else trace[|trace| - 1].filledQuantity
  }

  /** Orders the exchange may still be working after the trace. */
  function LiveOrders(trace: seq<Transition>): int {
    if trace == [] then 0
    else
      LiveOrders(trace[..|trace| - 1]) + match trace[|trace| - 1].phase
        case Pending => 1
        case ReplacementSubmitted => 1
        case Executed => -1
        case Cancelled => -1
        case _ => 0
  }

  predicate InFrames(frames: seq<ExecutionFrame>, trace: seq<Transition>) {
    forall i | 0 <= i < |trace| :: 1 <= trace[i].attempt <= |frames|
  }

  lemma {:induction false} TimesWithinLimit(side: OrderSide, quantity: nat, price: real, limit: real)
    requires price > 0.0 && (quantity > 0 ==> AtLeastAsGood(side, price, limit))
    ensures AtLeastAsGood(side, Times(quantity, price), Times(quantity, limit))
    ensures Times(quantity, price) >= 0.0 && (quantity > 0 ==> Times(quantity, price) > 0.0)
  {
    if quantity > 0 {
      TimesWithinLimit(side, quantity - 1, price, limit);
    }
  }

  /** What the fills of the trace cost, each at the touch of its own frame. */
  function Notional(request: OrderRequest, frames: seq<ExecutionFrame>, trace: seq<Transition>): real
    requires InFrames(frames, trace)
  {
    if trace == [] then 0.0
    else
      var before := trace[..|trace| - 1];
      var last := trace[|trace| - 1];
      Notional(request, frames, before)
      + Times(last.filledQuantity - FilledBy(before), TouchPrice(request.side, frames[last.attempt - 1]))
  }

  lemma {:induction false} LegalAttempts(request: OrderRequest, frames: seq<ExecutionFrame>, limits: seq<real>, trace: seq<Transition>)
    requires LegalTrace(request, frames, limits, trace)
    ensures forall i | 0 <= i < |trace| :: 1 <= trace[i].attempt <= |limits| <= |frames|
  {
    if trace != [] {
      LegalAttempts(request, frames, limits, trace[..|trace| - 1]);
    }
  }

  lemma {:induction false} LegalPrefix(request: OrderRequest, frames: seq<ExecutionFrame>, limits: seq<real>, trace: seq<Transition>, n: nat)
    requires LegalTrace(request, frames, limits, trace) && n <= |trace|
    ensures LegalTrace(request, frames, limits, trace[..n])
    decreases |trace|
  {
    if n < |trace| {
      assert trace[..|trace| - 1][..n] == trace[..n];
      LegalPrefix(request, frames, limits, trace[..|trace| - 1], n);
    } else {
      assert trace[..n] == trace;
    }
  }

  /** Quantity is conserved at every point and the fill never goes back. */
  lemma FillsOnlyGrow(request: OrderRequest, frames: seq<ExecutionFrame>, limits: seq<real>, trace: seq<Transition>, i: nat, j: nat)
    requires LegalTrace(request, frames, limits, trace) && i <= j < |trace|
    ensures trace[i].filledQuantity + trace[i].remainingQuantity == request.quantity
    ensures trace[i].filledQuantity <= trace[j].filledQuantity <= request.quantity
    decreases j - i
  {
    LegalPrefix(request, frames, limits, trace, i + 1);
    assert trace[..i + 1][i] == trace[i];
    if i < j {
      FillsOnlyGrow(request, frames, limits, trace, i + 1, j);
      LegalPrefix(request, frames, limits, trace, i + 2);
      assert trace[..i + 2][i + 1] == trace[i + 1] && trace[..i + 2][..i + 1][i] == trace[i];
    }
  }

  /** A fill over the fields of its frame: a buy fills at the ask, a sale at the bid, if
      that is within the limit of the attempt, and for what stands there beyond the
      queue, up to what remains. An attempt that goes to its cancel without a fill met
      a touch outside its limit. */
  lemma {:induction false} FillsAreAtTheTouch(request: OrderRequest, frames: seq<ExecutionFrame>, limits: seq<real>, trace: seq<Transition>, i: nat)
    requires LegalTrace(request, frames, limits, trace) && 0 < i < |trace|
    ensures 1 <= trace[i].attempt <= |limits| <= |frames|
    ensures var frame, record, before := frames[trace[i].attempt - 1], trace[i], trace[i - 1];
            var within := match request.side
                          case Buy => frame.ask <= limits[record.attempt - 1]
                          case Sell => frame.bid >= limits[record.attempt - 1];
            var size := match request.side case Buy => frame.askSize case Sell => frame.bidSize;
            && record.limitPrice == limits[record.attempt - 1] && record.timestampMillis == frame.timestampMillis
            && (record.phase in {Phase.PartiallyFilled, Phase.Executed} ==>
                  && within
                  && record.filledQuantity - before.filledQuantity ==
                     (if size <= frame.queueAhead then 0
                      else if size - frame.queueAhead <= before.remainingQuantity then size - frame.queueAhead
                      else before.remainingQuantity))
            && (record.phase == CancelRequested && before.phase != PartiallyFilled ==> !within)
            && (record.phase !in {Phase.PartiallyFilled, Phase.Executed} ==> record.filledQuantity == before.filledQuantity)
  {
    LegalPrefix(request, frames, limits, trace, i + 1);
    assert trace[..i + 1][i] == trace[i] && trace[..i + 1][..i][i - 1] == trace[i - 1];
  }

  /** There is never a second live order, and a replacement is sent only right
      after an acknowledged cancellation, when none is live. */
  lemma {:induction false} NeverTwoLiveOrders(request: OrderRequest, frames: seq<ExecutionFrame>, limits: seq<real>, trace: seq<Transition>)
    requires LegalTrace(request, frames, limits, trace)
    ensures 0 <= LiveOrders(trace) <= 1
    ensures trace != [] ==>
              var last := trace[|trace| - 1].phase;
              LiveOrders(trace) == if last.Cancelled? || last.Executed? then 0 else 1
    ensures trace != [] && trace[|trace| - 1].phase.ReplacementSubmitted? ==>
              && |trace| > 1 && trace[|trace| - 2].phase.Cancelled?
              && LiveOrders(trace[..|trace| - 1]) == 0
              && 1 <= trace[|trace| - 2].attempt <= |frames|
              && frames[trace[|trace| - 2].attempt - 1].cancellationAcknowledged
  {
    if trace != [] {
      var before := trace[..|trace| - 1];
      NeverTwoLiveOrders(request, frames, limits, before);
      if before != [] {
        assert before[|before| - 1] == trace[|trace| - 2];
        LegalAttempts(request, frames, limits, before);
      }
    }
  }

  lemma StepPrice(request: OrderRequest, frames: seq<ExecutionFrame>, limits: seq<real>, before: seq<Transition>, next: Transition)
    requires LegalStep(request, frames, limits, before, next) && WellFormedFrames(frames) && NeverWorse(request, limits)
    ensures FilledBy(before) <= next.filledQuantity
    ensures TouchPrice(request.side, frames[next.attempt - 1]) > 0.0
    ensures FilledBy(before) < next.filledQuantity ==>
              AtLeastAsGood(request.side, TouchPrice(request.side, frames[next.attempt - 1]), request.limitPrice)
  {
    assert AtLeastAsGood(request.side, next.limitPrice, request.limitPrice);
  }

  /** No fill is worse than the limit of the request, so neither is their sum. */
  lemma {:induction false} NotionalWithinLimit(request: OrderRequest, frames: seq<ExecutionFrame>, limits: seq<real>, trace: seq<Transition>)
    requires LegalTrace(request, frames, limits, trace) && WellFormedFrames(frames) && NeverWorse(request, limits)
    requires InFrames(frames, trace)
    ensures AtLeastAsGood(request.side, Notional(request, frames, trace), Times(FilledBy(trace), request.limitPrice))
    ensures Notional(request, frames, trace) >= 0.0
    ensures FilledBy(trace) > 0 ==> Notional(request, frames, trace) > 0.0
  {
    if trace != [] {
      var before := trace[..|trace| - 1];
      var last := trace[|trace| - 1];
      NotionalWithinLimit(request, frames, limits, before);
      StepPrice(request, frames, limits, before, last);
      var bought: nat := last.filledQuantity - FilledBy(before);
      TimesWithinLimit(request.side, bought, TouchPrice(request.side, frames[last.attempt - 1]), request.limitPrice);
      TimesAdds(FilledBy(before), bought, request.limitPrice);
    }
  }

  lemma AverageWithinLimit(side: OrderSide, notional: real, filled: real, limit: real)
    requires filled > 0.0 && notional > 0.0 && AtLeastAsGood(side, notional, filled * limit)
    ensures notional / filled > 0.0
    ensures notional / filled * filled == notional
    ensures AtLeastAsGood(side, notional / filled, limit)
  {
    var average := notional / filled;
    assert average * filled == notional;
    assert (average - limit) * filled == notional - filled * limit;
    if side.Buy? {
      SignOfProduct(limit - average, filled);
    } else {
      SignOfProduct(average - limit, filled);
    }
  }

  lemma SignOfProduct(a: real, b: real)
    requires b > 0.0 && a * b >= 0.0
    ensures a >= 0.0
  {
  }

  /** The market price, moved against the order. */
  function SlippedPrice(request: OrderRequest, slippageBps: real): real {
    var slippage := slippageBps / 10_000.0;
    match request.side
    case Buy => request.marketPrice * (1.0 + slippage)
    case Sell => request.marketPrice * (1.0 - slippage)
  }

  /** In fields: so many hundredths of a percent above the market for a buy, below it
      for a sale. */
  lemma SlippedPriceExactly(request: OrderRequest, slippageBps: real)
    ensures request.side == Buy ==> SlippedPrice(request, slippageBps) == request.marketPrice * (1.0 + slippageBps / 10_000.0)
    ensures request.side == Sell ==> SlippedPrice(request, slippageBps) == request.marketPrice * (1.0 - slippageBps / 10_000.0)
  {
  }

  lemma SlippageIsAdverse(request: OrderRequest, slippageBps: real)
    requires request.marketPrice > 0.0 && slippageBps >= 0.0
    ensures AtLeastAsGood(request.side, request.marketPrice, SlippedPrice(request, slippageBps))
  {
    assert request.marketPrice * (slippageBps / 10_000.0) >= 0.0;
  }

  // ----- the broker -----

  class PaperBroker {
    var orders: map<string, OrderExecution>
    var requests: map<string, OrderRequest>
    const slippageBps: real

    ghost predicate Valid()
      reads this
    {
      && slippageBps >= 0.0
      && orders.Keys == requests.Keys
      && forall id | id in orders ::
           && requests[id].operationId == id
           && ValidExecution(requests[id], orders[id])
           && AveragesWithinLimit(requests[id], orders[id])
    }

    constructor (slippage: real)
      ensures Valid() && orders == map[] && slippageBps == Max(slippage, 0.0)
    {
      orders, requests := map[], map[];
      slippageBps := Max(slippage, 0.0);
    }

    /** The broker of a new process: it remembers nothing. */
    method Forget()
      requires Valid()
      modifies this
      ensures Valid() && orders == map[] && requests == map[]
    {
      orders, requests := map[], map[];
    }

    /** A well-formed request under an id that is free or stands for this very one. */
    predicate Accepts(request: OrderRequest)
      reads this
    {
      WellFormedOrder(request)
      && (request.operationId in orders && request.operationId in requests ==> requests[request.operationId] == request)
    }

    /** And which of those it fills whole: as before, or within the limit after slippage. */
    predicate WouldFill(request: OrderRequest)
      reads this
    {
      Accepts(request)
      && if request.operationId in orders then orders[request.operationId].status.Executed?
         else AtLeastAsGood(request.side, SlippedPrice(request, slippageBps), request.limitPrice)
    }

    /** The broker holds this execution under the id, and if the id was new and the order
        was filled, it was at the slipped price. */
    ghost predicate Answers(request: OrderRequest, wasNew: bool, execution: OrderExecution)
      reads this
    {
      && request.operationId in orders && orders[request.operationId] == execution
      && (wasNew && execution.status.Executed? ==> execution.fillPrice == Some(SlippedPrice(request, slippageBps)))
    }

    method SubmitLimit(request: OrderRequest) returns (r: Result<OrderExecution, PaperError>)
      requires Valid()
      modifies this
      ensures Valid()
      ensures r.Ok? <==> old(Accepts(request))
      ensures r == Err(InvalidOrder) <==>
                || IsBlank(request.operationId) || IsBlank(request.symbol) || request.quantity == 0
                || request.marketPrice <= 0.0 || request.limitPrice <= 0.0
      ensures r == Err(ConflictingReuse) <==>
                r != Err(InvalidOrder) && request.operationId in old(orders) && old(requests)[request.operationId] != request
      ensures r.Ok? ==> (r.value.status.Executed? <==> old(WouldFill(request)))
      ensures r.Ok? ==>
                && ValidExecution(request, r.value) && AveragesWithinLimit(request, r.value)
                && orders == old(orders)[request.operationId := r.value]
                && requests == old(requests)[request.operationId := request]
                && (request.operationId in old(orders) ==> r.value == old(orders)[request.operationId])
      ensures r.Ok? && request.operationId !in old(orders) ==>
                var price := SlippedPrice(request, slippageBps);
                if (request.side.Buy? && price <= request.limitPrice) || (request.side.Sell? && price >= request.limitPrice)
                then r.value.status.Executed? && r.value.fillPrice == Some(price)
                else r.value.status.Rejected?
      ensures r.Err? ==> orders == old(orders) && requests == old(requests)
    {
      hide SlippedPrice;
      if !WellFormedOrder(request) {
        return Err(InvalidOrder);
      }
      var id := request.operationId;
      if id in orders {
        if requests[id] != request {
          return Err(ConflictingReuse);
        }
        return Ok(orders[id]);
      }
      var fillPrice := SlippedPrice(request, slippageBps);
      var crossesLimit := AtLeastAsGood(request.side, fillPrice, request.limitPrice);
      var execution :=
        if crossesLimit then
          OrderExecution(id, OrderStatus.Executed, request.quantity, Some(fillPrice), Some("paper-" + id), None)
        else
          OrderExecution(id, OrderStatus.Rejected, 0, None, None, Some("precio con slippage fuera del limite"));
      assert ("paper-" + id)[0] == 'p';
      SlippageIsAdverse(request, slippageBps);
      requests := requests[id := request];
      orders := orders[id := execution];
      r := Ok(execution);
    }

    method SimulateDynamicLimit(request: OrderRequest, frames: seq<ExecutionFrame>, maximumAttempts: u32)
      returns (r: Result<Simulation, PaperError>)
      requires Valid()
      modifies this
      ensures Valid()
      ensures r == Err(InvalidOrder) <==>
                || IsBlank(request.operationId) || IsBlank(request.symbol) || request.quantity == 0
                || request.marketPrice <= 0.0 || request.limitPrice <= 0.0
      ensures r == Err(InvalidFrames) <==>
                && r != Err(InvalidOrder)
                && (|| frames == []
                    || (exists i :: 0 <= i < |frames| && (frames[i].bid <= 0.0 || frames[i].ask < frames[i].bid))
                    || (exists i :: 0 < i < |frames| && frames[i].timestampMillis <= frames[i - 1].timestampMillis))
      ensures r.Ok? <==> r != Err(InvalidOrder) && r != Err(InvalidFrames)
      ensures r.Err? ==> orders == old(orders) && requests == old(requests)
      ensures r.Ok? ==>
                && SimulationIsSound(request, frames, LimitSchedule(request, frames, AttemptsCap(maximumAttempts, |frames|)), r.value)
                && orders == old(orders)[request.operationId := r.value.execution]
                && requests == old(requests)[request.operationId := request]
    {
      if !WellFormedOrder(request) {
        return Err(InvalidOrder);
      }
      if !WellFormedFrames(frames) {
        return Err(InvalidFrames);
      }
      var cap := AttemptsCap(maximumAttempts, |frames|);
      ScheduleEndsAtLimit(request, frames, cap);
      var simulation := Simulate(request, frames, LimitSchedule(request, frames, cap));
      requests := requests[request.operationId := request];
      orders := orders[request.operationId := simulation.execution];
      r := Ok(simulation);
    }
  }

  method Simulate(request: OrderRequest, frames: seq<ExecutionFrame>, limits: seq<real>) returns (result: Simulation)
    requires WellFormedOrder(request) && WellFormedFrames(frames) && NeverWorse(request, limits)
    requires |limits| <= |frames| && |limits| <= U32_MAX
    ensures SimulationIsSound(request, frames, limits, result)
  {
    hide LegalTrace, Notional, Settled, NeverWorse;
    var trace, totalFilled, fillNotional, uncertain, attempts := RunAttempts(request, frames, limits);
    var execution := Settle(request, totalFilled, fillNotional, uncertain);
    var exposure, slippage, adverse := MeasureQuality(request, frames, attempts, execution.fillPrice);
    result := Simulation(execution, trace, attempts, exposure, slippage, adverse, false);
    EndsAsExecuted(request, trace, attempts, uncertain, execution);
  }

  lemma EndsAsExecuted(request: OrderRequest, trace: seq<Transition>, attempts: u32, uncertain: bool, execution: OrderExecution)
    requires attempts > 0 ==> Settled(request, trace, attempts, uncertain) && FilledBy(trace) == execution.filledQuantity
    requires execution.status.Executed? <==> execution.filledQuantity == request.quantity
    requires execution.status.Cancelled? <==> execution.filledQuantity < request.quantity && !uncertain
    requires execution.filledQuantity <= request.quantity && (uncertain ==> execution.filledQuantity < request.quantity)
    ensures attempts > 0 ==>
              trace != [] && trace[|trace| - 1].phase == (match execution.status
                                                          case Executed => Phase.Executed
                                                          case Cancelled => Phase.Cancelled
                                                          case _ => StoppedUncertainCancellation)
  {
  }

  method MeasureQuality(request: OrderRequest, frames: seq<ExecutionFrame>, attempts: u32, fillPrice: Option<real>)
    returns (exposure: i64, slippageBps: Option<real>, adverseSelectionBps: Option<real>)
    requires request.marketPrice > 0.0 && WellFormedFrames(frames) && attempts <= |frames|
    requires fillPrice.Some? ==> fillPrice.value > 0.0 && attempts > 0
    ensures IsQuality(request, frames, attempts, fillPrice, exposure, slippageBps, adverseSelectionBps)
  {
    exposure := if attempts == 0 then 0 else SatSub(frames[attempts - 1].timestampMillis, frames[0].timestampMillis);
    slippageBps, adverseSelectionBps := None, None;
    if fillPrice.Some? {
      var last := frames[attempts - 1];
      slippageBps := Some(RelativeCost(request.side, fillPrice.value, request.marketPrice));
      adverseSelectionBps := Some(RelativeCost(request.side, fillPrice.value, (last.bid + last.ask) / 2.0));
    }
  }

  /** The execution reported for the whole simulation. */
  method Settle(request: OrderRequest, totalFilled: u32, fillNotional: real, uncertain: bool)
    returns (execution: OrderExecution)
    requires WellFormedOrder(request) && totalFilled <= request.quantity
    requires totalFilled > 0 ==> fillNotional > 0.0
    requires AtLeastAsGood(request.side, fillNotional, Times(totalFilled, request.limitPrice))
    ensures ValidExecution(request, execution) && AveragesWithinLimit(request, execution)
    ensures execution.operationId == request.operationId && execution.filledQuantity == totalFilled
    ensures execution.fillPrice.Some? ==> execution.fillPrice.value * totalFilled as real == fillNotional
    ensures execution.status.Executed? <==> totalFilled == request.quantity
    ensures execution.status.Cancelled? <==> totalFilled < request.quantity && !uncertain
  {
    var status :=
      if totalFilled == request.quantity then OrderStatus.Executed
      else if uncertain then
        if totalFilled > 0 then OrderStatus.PartiallyExecuted else OrderStatus.Pending
      else OrderStatus.Cancelled;
    var averageFill: Option<real> := None;
    if totalFilled > 0 {
      TimesIsProduct(totalFilled, request.limitPrice);
      AverageWithinLimit(request.side, fillNotional, totalFilled as real, request.limitPrice);
      averageFill := Some(fillNotional / totalFilled as real);
    }
    execution := OrderExecution(
      request.operationId, status, totalFilled, averageFill, Some("paper-" + request.operationId),
      if uncertain then Some("cancelación no confirmada; reemplazo detenido") else None);
    assert ("paper-" + request.operationId)[0] == 'p';
  }

  /** The attempts, one frame each, until filled, uncertain or out of attempts. */
  method RunAttempts(request: OrderRequest, frames: seq<ExecutionFrame>, limits: seq<real>)
    returns (trace: seq<Transition>, totalFilled: u32, fillNotional: real, uncertain: bool, attempts: u32)
    requires request.quantity > 0 && WellFormedFrames(frames) && NeverWorse(request, limits)
    requires |limits| <= |frames| && |limits| <= U32_MAX
    ensures LegalTrace(request, frames, limits, trace) && InFrames(frames, trace)
    ensures totalFilled <= request.quantity && totalFilled == FilledBy(trace)
    ensures fillNotional == Notional(request, frames, trace)
    ensures AtLeastAsGood(request.side, fillNotional, Times(totalFilled, request.limitPrice))
    ensures totalFilled > 0 ==> fillNotional > 0.0
    ensures attempts <= |limits| && (attempts == 0 <==> |limits| == 0) && (attempts == 0 <==> trace == [])
    ensures attempts > 0 ==> Settled(request, trace, attempts, uncertain)
    ensures attempts < |limits| ==> totalFilled == request.quantity || uncertain
    ensures uncertain ==> totalFilled < request.quantity
  {
    trace, totalFilled, fillNotional, uncertain, attempts := [], 0, 0.0, false, 0;
    while attempts < |limits| && totalFilled != request.quantity && !uncertain
      invariant attempts <= |limits|
      invariant totalFilled <= request.quantity && totalFilled == FilledBy(trace)
      invariant LegalTrace(request, frames, limits, trace) && InFrames(frames, trace)
      invariant fillNotional == Notional(request, frames, trace)
      invariant attempts == 0 <==> trace == []
      invariant attempts > 0 ==> Settled(request, trace, attempts, uncertain)
      invariant uncertain ==> totalFilled < request.quantity && attempts > 0
    {
      trace, totalFilled, fillNotional, uncertain :=
        RunAttempt(request, frames, limits, attempts, trace, totalFilled, fillNotional);
      attempts := attempts + 1;
    }
    NotionalWithinLimit(request, frames, limits, trace);
  }

  /** One attempt: submit, fill what the frame offers, cancel the rest. */
  method RunAttempt(request: OrderRequest, frames: seq<ExecutionFrame>, limits: seq<real>, index: nat,
                    before: seq<Transition>, filledBefore: u32, notionalBefore: real)
    returns (trace: seq<Transition>, totalFilled: u32, fillNotional: real, uncertain: bool)
    requires index < |limits| <= |frames| && |limits| <= U32_MAX
    requires filledBefore < request.quantity && filledBefore == FilledBy(before)
    requires LegalTrace(request, frames, limits, before) && InFrames(frames, before)
    requires notionalBefore == Notional(request, frames, before)
    requires if index == 0 then before == [] else Settled(request, before, index, false)
    ensures LegalTrace(request, frames, limits, trace) && InFrames(frames, trace)
    ensures totalFilled <= request.quantity && totalFilled == FilledBy(trace)
    ensures fillNotional == Notional(request, frames, trace)
    ensures Settled(request, trace, index + 1, uncertain)
    ensures uncertain ==> totalFilled < request.quantity
  {
    var frame := frames[index];
    var attempt: u32 := index + 1;
    uncertain := false;
    var submitted := Transition(frame.timestampMillis, attempt,
                                if attempt == 1 then Phase.Pending else ReplacementSubmitted,
                                filledBefore, SaturatingSub(request.quantity, filledBefore), limits[index]);
    Push(request, frames, limits, before, submitted);
    trace := before + [submitted];
    trace, totalFilled, fillNotional := TakeLiquidity(request, frames, limits, trace, submitted, notionalBefore);
    if totalFilled != request.quantity {
      trace, uncertain := CancelRest(request, frames, limits, trace);
    }
  }

  /** Ask for the cancellation, and stop in doubt without an acknowledgement. */
  method CancelRest(request: OrderRequest, frames: seq<ExecutionFrame>, limits: seq<real>, before: seq<Transition>)
    returns (trace: seq<Transition>, uncertain: bool)
    requires LegalTrace(request, frames, limits, before) && InFrames(frames, before)
    requires MayCancel(request, frames, limits, before)
    ensures LegalTrace(request, frames, limits, trace) && InFrames(frames, trace)
    ensures FilledBy(trace) == FilledBy(before) && Notional(request, frames, trace) == Notional(request, frames, before)
    ensures Settled(request, trace, before[|before| - 1].attempt, uncertain)
  {
    var last := before[|before| - 1];
    var requested := last.(phase := CancelRequested);
    Push(request, frames, limits, before, requested);
    trace := before + [requested];
    uncertain := !frames[last.attempt - 1].cancellationAcknowledged;
    var closing := requested.(phase := if uncertain then StoppedUncertainCancellation else Phase.Cancelled);
    Push(request, frames, limits, trace, closing);
    trace := trace + [closing];
  }

  /** The last attempt is still open. */
  predicate MayCancel(request: OrderRequest, frames: seq<ExecutionFrame>, limits: seq<real>, trace: seq<Transition>)
  {
    && trace != []
    && var last := trace[|trace| - 1];
    && 1 <= last.attempt <= |frames| && last.filledQuantity != request.quantity
    && LegalStep(request, frames, limits, trace, last.(phase := CancelRequested))
  }

  method Pay(quantity: u32, price: real) returns (paid: real)
    ensures paid == Times(quantity, price)
  {
    TimesIsProduct(quantity, price);
    paid := quantity as real * price;
  }

  method TakeLiquidity(request: OrderRequest, frames: seq<ExecutionFrame>, limits: seq<real>, before: seq<Transition>,
                       submitted: Transition, notionalBefore: real)
    returns (trace: seq<Transition>, totalFilled: u32, fillNotional: real)
    requires LegalTrace(request, frames, limits, before) && InFrames(frames, before)
    requires before != [] && submitted == before[|before| - 1]
    requires submitted.phase.Pending? || submitted.phase.ReplacementSubmitted?
    requires submitted.remainingQuantity > 0
    requires notionalBefore == Notional(request, frames, before)
    ensures LegalTrace(request, frames, limits, trace) && InFrames(frames, trace)
    ensures fillNotional == Notional(request, frames, trace)
    ensures totalFilled == FilledBy(trace) <= request.quantity
    ensures trace != [] && var last := trace[|trace| - 1];
              && last == submitted.(phase := last.phase, filledQuantity := totalFilled,
                                    remainingQuantity := request.quantity - totalFilled)
              && if AtLeastAsGood(request.side, TouchPrice(request.side, frames[submitted.attempt - 1]), submitted.limitPrice)
                 then last.phase == if totalFilled == request.quantity then Phase.Executed else PartiallyFilled
                 else last == submitted
  {
    var frame := frames[submitted.attempt - 1];
    trace, totalFilled, fillNotional := before, submitted.filledQuantity, notionalBefore;
    if AtLeastAsGood(request.side, TouchPrice(request.side, frame), submitted.limitPrice) {
      var executable := Executable(request.side, frame, submitted.remainingQuantity);
      totalFilled := SaturatingAdd(totalFilled, executable);
      var paid := Pay(executable, TouchPrice(request.side, frame));
      fillNotional := fillNotional + paid;
      var filled := submitted.(phase := if totalFilled == request.quantity then Phase.Executed else PartiallyFilled,
                               filledQuantity := totalFilled,
                               remainingQuantity := SaturatingSub(request.quantity, totalFilled));
      PushFill(request, frames, limits, trace, filled, executable, TouchPrice(request.side, frame));
      trace := trace + [filled];
    }
  }

  function RelativeCost(side: OrderSide, price: real, reference: real): real
    requires price > 0.0 && reference > 0.0
  {
    match side
    case Buy => (price / reference - 1.0) * 10_000.0
    case Sell => (reference / price - 1.0) * 10_000.0
  }

  /** The reported cost is negative or zero exactly for a price that is no worse
      than the reference, on either side. */
  lemma CostSign(side: OrderSide, price: real, reference: real)
    requires price > 0.0 && reference > 0.0
    ensures RelativeCost(side, price, reference) <= 0.0 <==> AtLeastAsGood(side, price, reference)
  {
    match side
    case Buy => RatioBelowOne(price, reference);
    case Sell => RatioBelowOne(reference, price);
  }

  /** And its size is that of the difference: a buy at `bps` hundredths of a percent
      above the reference costs `bps`, and a sale costs `bps` when the reference is
      that much above its price. */
  lemma CostIsInBasisPoints(side: OrderSide, price: real, reference: real, bps: real)
    requires price > 0.0 && reference > 0.0
    ensures var (paid, fair) := match side case Buy => (price, reference) case Sell => (reference, price);
            RelativeCost(side, price, reference) == bps <==> paid == fair * (1.0 + bps / 10_000.0)
  {
    var (paid, fair) := match side case Buy => (price, reference) case Sell => (reference, price);
    RatioIs(paid, fair, 1.0 + bps / 10_000.0);
  }

  lemma RatioIs(a: real, b: real, q: real)
    requires b > 0.0
    ensures a / b == q <==> a == b * q
  {
    assert a / b * b == a;
    if a == b * q {
      assert (a / b - q) * b == 0.0;
    }
  }

  lemma RatioBelowOne(a: real, b: real)
    requires b > 0.0
    ensures a / b <= 1.0 <==> a <= b
  {
    assert a / b * b == a;
    if a / b <= 1.0 {
      assert (1.0 - a / b) * b >= 0.0;
    } else {
      assert (a / b - 1.0) * b > 0.0;
    }
  }

  /** `maximum_attempts.max(1).min(frames.len() as u32)`; the cast truncates. */
  function AttemptsCap(maximumAttempts: u32, frames: nat): u32 {
    var available := frames % 0x1_0000_0000;
    var wanted := if maximumAttempts < 1 then 1 else maximumAttempts;
    if wanted <= available then wanted else available
  }

  /** The cap is the least of the frames and the attempts allowed, of which there is at
      least one. */
  lemma CapIsLeast(maximumAttempts: u32, frames: nat)
    requires frames < 0x1_0000_0000
    ensures var cap := AttemptsCap(maximumAttempts, frames);
            && cap <= frames && (cap == frames || cap == maximumAttempts || (cap == 1 && maximumAttempts == 0))
            && (maximumAttempts > 0 ==> cap <= maximumAttempts) && (maximumAttempts == 0 ==> cap <= 1)
  {
  }

  predicate AveragesWithinLimit(request: OrderRequest, execution: OrderExecution) {
    execution.fillPrice.Some? ==> AtLeastAsGood(request.side, execution.fillPrice.value, request.limitPrice)
  }

  /** How an attempt that did not fill the order leaves the trace. */
  predicate Settled(request: OrderRequest, trace: seq<Transition>, attempt: nat, uncertain: bool) {
    && trace != []
    && var last := trace[|trace| - 1];
    && last.attempt == attempt
    && last.phase == (if last.filledQuantity == request.quantity then Phase.Executed
                      else if uncertain then StoppedUncertainCancellation
                      else Phase.Cancelled)
  }

  lemma Push(request: OrderRequest, frames: seq<ExecutionFrame>, limits: seq<real>, trace: seq<Transition>, next: Transition)
    requires LegalTrace(request, frames, limits, trace) && LegalStep(request, frames, limits, trace, next)
    requires InFrames(frames, trace)
    ensures LegalTrace(request, frames, limits, trace + [next])
    ensures InFrames(frames, trace + [next])
    ensures next.filledQuantity == FilledBy(trace) ==>
              Notional(request, frames, trace + [next]) == Notional(request, frames, trace)
  {
    assert (trace + [next])[..|trace|] == trace;
  }

  lemma PushFill(request: OrderRequest, frames: seq<ExecutionFrame>, limits: seq<real>, trace: seq<Transition>,
                 next: Transition, executable: int, price: real)
    requires LegalTrace(request, frames, limits, trace) && LegalStep(request, frames, limits, trace, next)
    requires InFrames(frames, trace)
    requires executable == next.filledQuantity - FilledBy(trace)
    requires price == TouchPrice(request.side, frames[next.attempt - 1])
    ensures LegalTrace(request, frames, limits, trace + [next])
    ensures InFrames(frames, trace + [next])
    ensures Notional(request, frames, trace + [next]) == Notional(request, frames, trace) + Times(executable, price)
  {
    assert (trace + [next])[..|trace|] == trace;
  }

  /** What a simulation promises: a trace of the protocol, and an execution that is
      its outcome, valid for the request and never dearer than its limit. */
  ghost predicate SimulationIsSound(request: OrderRequest, frames: seq<ExecutionFrame>, limits: seq<real>, result: Simulation) {
    && LegalTrace(request, frames, limits, result.transitions)
    && InFrames(frames, result.transitions)
    && ValidExecution(request, result.execution)
    && AveragesWithinLimit(request, result.execution)
    && result.execution.operationId == request.operationId
    && result.execution.filledQuantity == FilledBy(result.transitions)
    && (result.execution.fillPrice.Some? ==>
          result.execution.fillPrice.value * result.execution.filledQuantity as real
          == Notional(request, frames, result.transitions))
    && result.attempts <= |limits|
    && (result.attempts == 0 <==> |limits| == 0)
    && (result.attempts > 0 ==>
          && result.transitions != []
          && var last := result.transitions[|result.transitions| - 1];
          && last.attempt == result.attempts
          && last.phase == (match result.execution.status
                            case Executed => Phase.Executed
                            case Cancelled => Phase.Cancelled
                            case _ => StoppedUncertainCancellation)
          && (last.phase.Cancelled? ==> result.attempts == |limits|))
    && !result.duplicateOrderRisk
    && IsQuality(request, frames, result.attempts, result.execution.fillPrice,
                 result.exposureMillis, result.slippageBps, result.adverseSelectionBps)
  }

  /** Exposure runs from the first to the last frame used, and the fill is
      compared with the market price and with the mid of the last frame. */
  ghost predicate IsQuality(request: OrderRequest, frames: seq<ExecutionFrame>, attempts: u32, fillPrice: Option<real>,
                            exposure: i64, slippageBps: Option<real>, adverseSelectionBps: Option<real>) {
    if attempts == 0 then
      exposure == 0 && slippageBps.None? && adverseSelectionBps.None?
    else
      && attempts <= |frames|
      && var last := frames[attempts - 1];
      && exposure == SatSub(last.timestampMillis, frames[0].timestampMillis)
      && if fillPrice.Some? then
           var price, mid := fillPrice.value, (last.bid + last.ask) / 2.0;
           && price > 0.0 && mid > 0.0 && request.marketPrice > 0.0
           && slippageBps == Some(RelativeCost(request.side, price, request.marketPrice))
           && adverseSelectionBps == Some(RelativeCost(request.side, price, mid))
         else slippageBps.None? && adverseSelectionBps.None?
  }
}
