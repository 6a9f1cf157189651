/** The append-only event journal: its event types and the two I/O steps that the
    protocols rely on (src/persistence.rs, reduced to a contract). */
module Journals {
  import opened Common
  import opened Orders

  datatype PositionKind = Call | Put

  /** What is frozen when a position opens. `payload` stands for the economics
      and the entry context, which only equality looks at. */
  datatype Position = Position(
    operationId: string,
    optionSymbol: string,
    kind: PositionKind,
    entryPrice: real,
    contracts: u32,
    contractMultiplier: u32,
    openedAtSecs: int,
    payload: string)

  datatype ExitReason =
    | ProfitTarget | StopLoss | TrendReversal | Timeout | RiskLimit
    | WeekendRisk | ExpiryRisk | Manual | Defensive

  datatype EvidenceSource = ResearchReplay | HistoricalOutOfSample | Shadow | CanaryTrade | LiveTrade

  /** A closed trade as evidence; `payload` stands for the remaining context. */
  datatype ValidationTrade = ValidationTrade(
    tradeId: string,
    source: EvidenceSource,
    kind: PositionKind,
    netPnl: real,
    closedAtSecs: int,
    payload: string)

  datatype LiveStage = Learning | Eligible | Armed | Canary | Live

  datatype EventKind =
    | OrderIntentCreated(request: OrderRequest)
    | OrderSubmitted(symbol: string, side: OrderSide, quantity: u32, limitPrice: real)
    | OrderAccepted(execution: OrderExecution)
    | OrderUpdated(execution: OrderExecution)
    | PartialFillExposure(execution: OrderExecution, requestedQuantity: u32, remainingQuantity: u32)
    | OrderUnknown(request: OrderRequest, cause: string)
    | PositionOpened(position: Position)
    | PositionClosed(operationId: string, exitPrice: real, netPnl: real, reason: ExitReason,
                     stage: LiveStage, validationTrade: Option<ValidationTrade>)
    | KillSwitch(active: bool)
    | LiveStageChanged(from: LiveStage, to: LiveStage)
    | OtherEvent

  datatype JournalEvent = JournalEvent(timestampSecs: int, operationId: Option<string>, kind: EventKind)

  /** The journal file. Any append or sync may fail; a failed append leaves the
      file as it was. `durable` counts the events known to be on disk, `failed` the
      appends and syncs that failed. */
  class Journal {
    var events: seq<JournalEvent>
    var durable: nat
    ghost var failed: nat

    ghost predicate Valid()
      reads this
    {
      durable <= |events|
    }

    constructor ()
      ensures Valid() && events == []
    {
      events := [];
      durable, failed := 0, 0;
    }

    method Append(event: JournalEvent) returns (ok: bool)
      requires Valid()
      modifies this
      ensures Valid() && durable == old(durable)
      ensures events == if ok then old(events) + [event] else old(events)
      ensures failed == old(failed) + if ok then 0 else 1
    {
      ok := *;
      if ok {
        events := events + [event];
      } else {
        failed := failed + 1;
      }
    }

    method Sync() returns (ok: bool)
      requires Valid()
      modifies this
      ensures Valid() && events == old(events)
      ensures durable == if ok then |events| else old(durable)
      ensures failed == old(failed) + if ok then 0 else 1
    {
      ok := *;
      if ok {
        durable := |events|;
      } else {
        failed := failed + 1;
      }
    }

    /** A crash: the file keeps a prefix. A power loss keeps at least what was
        synced; nothing more is known to be on disk afterwards. */
    method Crash(keep: nat)
      requires Valid() && keep <= |events|
      modifies this
      ensures Valid() && events == old(events)[..keep]
      ensures durable == if old(durable) <= keep then old(durable) else keep
    {
      events := events[..keep];
      if durable > keep {
        durable := keep;
      }
    }
  }
}
