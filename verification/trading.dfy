/** The single-position engine and the portfolio of open and closed trades
    (src/trading.rs, src/portfolio.rs). */
module Trading {
  import opened Common
  import opened Journals

  datatype TradingState = Idle | Buying | CallActive | PutActive | Selling | Halted

  /** What `open_position` demands of a position. */
  predicate OpenablePosition(position: Position) {
    && position.entryPrice > 0.0
    && position.contracts != 0
    && position.contractMultiplier != 0
    && !IsBlank(position.operationId)
    && !IsBlank(position.optionSymbol)
  }

  function ActiveState(position: Option<Position>): TradingState {
    match position
    case None => Idle
    case Some(open) => if open.kind.Call? then CallActive else PutActive
  }

  class TradingEngine {
    var state: TradingState
    var position: Option<Position>
    var lastExitReason: Option<ExitReason>

    constructor ()
      ensures position == None && state == Idle
    {
      state, position, lastExitReason := Idle, None, None;
    }

    /** The engine as a snapshot stored it. */
    method Restore(stored: Option<Position>)
      modifies this
      ensures position == stored
    {
      position := stored;
    }

    method OpenPosition(candidate: Position) returns (accepted: bool)
      modifies this
      ensures accepted <==> old(position).None? && OpenablePosition(candidate)
      ensures accepted <==>
                && old(position) == None && candidate.entryPrice > 0.0
                && candidate.contracts > 0 && candidate.contractMultiplier > 0
                && (exists i :: 0 <= i < |candidate.operationId| && !IsWhitespace(candidate.operationId[i]))
                && (exists i :: 0 <= i < |candidate.optionSymbol| && !IsWhitespace(candidate.optionSymbol[i]))
      ensures position == if accepted then Some(candidate) else old(position)
      ensures state == if accepted then ActiveState(position) else old(state)
      ensures lastExitReason == old(lastExitReason)
    {
      if position.Some? || !OpenablePosition(candidate) {
        return false;
      }
      state := if candidate.kind.Call? then CallActive else PutActive;
      position := Some(candidate);
      accepted := true;
    }

    method Close(reason: ExitReason)
      modifies this
      ensures position == None
      ensures state == if old(position).Some? then Idle else old(state)
      ensures lastExitReason == if old(position).Some? then Some(reason) else old(lastExitReason)
    {
      if position.Some? {
        position, lastExitReason, state := None, Some(reason), Idle;
      }
    }

    method MarkSelling()
      modifies this`state
      ensures state == if position.Some? then Selling else old(state)
    {
      if position.Some? {
        state := Selling;
      }
    }

    method Halt()
      modifies this`state
      ensures state == Halted
    {
      state := Halted;
    }

    method Resume()
      modifies this`state
      ensures state == ActiveState(position)
    {
      state := ActiveState(position);
    }
  }

  datatype ClosedTrade = ClosedTrade(
    position: Position, exitPrice: real, netPnl: real, closedAtSecs: int, reason: ExitReason)

  class Portfolio {
    var positions: map<string, Position>
    var closed: seq<ClosedTrade>
    var realizedPnl: real

    constructor ()
      ensures positions == map[] && closed == [] && realizedPnl == 0.0
    {
      positions, closed, realizedPnl := map[], [], 0.0;
    }

    /** The portfolio as a snapshot stored it. */
    method Restore(storedPositions: map<string, Position>, storedClosed: seq<ClosedTrade>, storedPnl: real)
      modifies this
      ensures positions == storedPositions && closed == storedClosed && realizedPnl == storedPnl
    {
      positions, closed, realizedPnl := storedPositions, storedClosed, storedPnl;
    }

    method Open(position: Position) returns (accepted: bool)
      modifies this
      ensures accepted <==> position.operationId !in old(positions) && position.entryPrice > 0.0 && position.contracts != 0
      ensures positions == if accepted then old(positions)[position.operationId := position] else old(positions)
      ensures closed == old(closed) && realizedPnl == old(realizedPnl)
    {
      if position.operationId in positions || position.entryPrice <= 0.0 || position.contracts == 0 {
        return false;
      }
      positions := positions[position.operationId := position];
      accepted := true;
    }

    method Close(id: string, exitPrice: real, netPnl: real, closedAtSecs: int, reason: ExitReason)
      returns (trade: Option<ClosedTrade>)
      modifies this
      ensures id !in old(positions) ==>
                trade == None && positions == old(positions) && closed == old(closed) && realizedPnl == old(realizedPnl)
      ensures id in old(positions) ==>
                && trade == Some(ClosedTrade(old(positions)[id], exitPrice, netPnl, closedAtSecs, reason))
                && positions == old(positions) - {id}
                && closed == old(closed) + [trade.value]
                && realizedPnl == old(realizedPnl) + netPnl
    {
      if id !in positions {
        return None;
      }
      var record := ClosedTrade(positions[id], exitPrice, netPnl, closedAtSecs, reason);
      positions := positions - {id};
      realizedPnl := realizedPnl + netPnl;
      closed := closed + [record];
      trade := Some(record);
    }
  }
}
