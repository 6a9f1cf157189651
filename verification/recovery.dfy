/** Recovering positions and evidence from the journal (`apply_recovery_event`,
    src/app.rs). */
module Recovery {
  import opened Common
  import opened Journals
  import opened Trading

  // ----- what is recovered, as values -----

  /** Money at stake and money made: the engine position, the portfolio, and the
      closes the risk manager was told about. */
  datatype Ledger = Ledger(
    position: Option<Position>,
    open: map<string, Position>,
    closed: seq<ClosedTrade>,
    realizedPnl: real,
    riskCloses: seq<(int, real)>)

  /** The trades that count as evidence, by the stage they were closed in. */
  datatype Evidence = Evidence(learning: seq<ValidationTrade>, performance: seq<ValidationTrade>)

  const EmptyLedger := Ledger(None, map[], [], 0.0, [])

  datatype LedgerError = Inconsistent | OpenContradicts | OpenInvalid | OpenRefused | CloseContradicts

  /** `validate_recovery_position_state`: engine and portfolio tell one story. */
  predicate Consistent(ledger: Ledger) {
    match ledger.position
    case None => |ledger.open| == 0
    case Some(position) =>
      |ledger.open| == 1 && position.operationId in ledger.open && ledger.open[position.operationId] == position
  }

  lemma ConsistentIsSingleton(ledger: Ledger)
    ensures Consistent(ledger) <==>
              ledger.open == match ledger.position
                case None => map[]
                case Some(position) => map[position.operationId := position]
  {
    match ledger.position
    case None =>
      if |ledger.open| == 0 {
        assert ledger.open.Keys == {};
      }
    case Some(position) =>
      var id := position.operationId;
      if Consistent(ledger) {
        assert |ledger.open.Keys - {id}| == 0;
        assert ledger.open.Keys == {id};
      }
      if ledger.open == map[id := position] {
        assert ledger.open.Keys == {id};
      }
  }

  function OpenStep(ledger: Ledger, position: Position): Result<Ledger, LedgerError> {
    var id := position.operationId;
    if (ledger.position.Some? && ledger.position.value != position)
       || (id in ledger.open && ledger.open[id] != position) then Err(OpenContradicts)
    else if ledger.position.None? && !OpenablePosition(position) then Err(OpenInvalid)
    else if id !in ledger.open && !(position.entryPrice > 0.0 && position.contracts != 0) then Err(OpenRefused)
    else Ok(ledger.(position := Some(position), open := ledger.open[id := position]))
  }

  function CloseStep(ledger: Ledger, timestampSecs: int, id: string, exitPrice: real, netPnl: real, reason: ExitReason)
    : Result<Ledger, LedgerError>
  {
    if ledger.position.Some? && ledger.position.value.operationId != id then Err(CloseContradicts)
    else if ledger.position.None? then Ok(ledger)
    else
      var settled :=
        if id in ledger.open then
          ledger.(open := ledger.open - {id},
                  closed := ledger.closed + [ClosedTrade(ledger.open[id], exitPrice, netPnl, timestampSecs, reason)],
                  realizedPnl := ledger.realizedPnl + netPnl)
        else ledger;
      Ok(settled.(position := None, riskCloses := settled.riskCloses + [(timestampSecs, netPnl)]))
  }

  function LedgerStep(ledger: Ledger, event: JournalEvent): Result<Ledger, LedgerError> {
    if !Consistent(ledger) then Err(Inconsistent)
    else
      var after := match event.kind
        case PositionOpened(position) => OpenStep(ledger, position)
        case PositionClosed(id, exitPrice, netPnl, reason, _, _) =>
          CloseStep(ledger, event.timestampSecs, id, exitPrice, netPnl, reason)
        case _ => Ok(ledger);
      if after.Ok? && !Consistent(after.value) then Err(Inconsistent) else after
  }

  predicate IsResearch(trade: ValidationTrade) {
    trade.source.ResearchReplay? || trade.source.HistoricalOutOfSample?
  }

  predicate Known(trades: seq<ValidationTrade>, trade: ValidationTrade) {
    trade.tradeId != [] && exists i :: 0 <= i < |trades| && trades[i].tradeId == trade.tradeId
  }

  /** `LearningState::record`. */
  function RecordLearning(trades: seq<ValidationTrade>, trade: ValidationTrade): seq<ValidationTrade> {
    if IsResearch(trade) || Known(trades, trade) then trades else trades + [trade]
  }

  function EvidenceStep(evidence: Evidence, event: JournalEvent): Evidence {
    match event.kind
    case PositionClosed(_, _, _, _, stage, Some(trade)) =>
      if stage == Learning then evidence.(learning := RecordLearning(evidence.learning, trade))
      else if Known(evidence.performance, trade) then evidence
      else evidence.(performance := evidence.performance + [trade])
    case _ => evidence
  }

  function RecoverFrom(start: Ledger, events: seq<JournalEvent>): Result<Ledger, LedgerError> {
    if events == [] then Ok(start)
    else
      var before := RecoverFrom(start, events[..|events| - 1]);
      if before.Err? then before else LedgerStep(before.value, events[|events| - 1])
  }

  // ----- the loop body of the program, on the live objects -----

  function LedgerOf(engine: TradingEngine, portfolio: Portfolio, riskCloses: seq<(int, real)>): Ledger
    reads engine, portfolio
  {
    Ledger(engine.position, portfolio.positions, portfolio.closed, portfolio.realizedPnl, riskCloses)
  }

  /** `riskResumes` says whether the risk manager agrees to lift the kill switch. */
  method ApplyRecoveryEvent(engine: TradingEngine, portfolio: Portfolio, riskCloses: seq<(int, real)>,
                            evidence: Evidence, event: JournalEvent, riskResumes: bool)
    returns (r: Result<(seq<(int, real)>, Evidence), LedgerError>)
    modifies engine, portfolio
    ensures r.Ok? <==> LedgerStep(old(LedgerOf(engine, portfolio, riskCloses)), event).Ok?
    ensures r.Ok? ==>
              && LedgerStep(old(LedgerOf(engine, portfolio, riskCloses)), event)
                 == Ok(LedgerOf(engine, portfolio, r.value.0))
              && r.value.1 == EvidenceStep(evidence, event)
    ensures r.Ok? && event.kind.KillSwitch? ==>
              engine.state ==
              if !event.kind.active && riskResumes then ActiveState(engine.position)
              else if !event.kind.active || engine.position.None? then Halted
              else old(engine.state)
  {
    if !Consistent(LedgerOf(engine, portfolio, riskCloses)) {
      return Err(Inconsistent);
    }
    var closes, trades := riskCloses, evidence;
    match event.kind {
      case PositionOpened(position) =>
        var id := position.operationId;
        if (engine.position.Some? && engine.position.value != position)
           || (id in portfolio.positions && portfolio.positions[id] != position) {
          return Err(OpenContradicts);
        }
        if engine.position.None? {
          var accepted := engine.OpenPosition(position);
          if !accepted {
            return Err(OpenInvalid);
          }
        }
        ghost var before := portfolio.positions;
        if id in portfolio.positions {
          assert before[id := position] == before;
        } else {
          var accepted := portfolio.Open(position);
          if !accepted {
            return Err(OpenRefused);
          }
        }
      case PositionClosed(id, exitPrice, netPnl, reason, stage, validationTrade) =>
        if engine.position.Some? && engine.position.value.operationId != id {
          return Err(CloseContradicts);
        }
        if engine.position.Some? {
          var trade := portfolio.Close(id, exitPrice, netPnl, event.timestampSecs, reason);
          closes := closes + [(event.timestampSecs, netPnl)];
          engine.Close(reason);
        }
        if validationTrade.Some? {
          var trade := validationTrade.value;
          if stage == Learning {
            trades := trades.(learning := RecordLearning(trades.learning, trade));
          } else if !Known(trades.performance, trade) {
            trades := trades.(performance := trades.performance + [trade]);
          }
        }
      case KillSwitch(active) =>
        if active {
          if engine.position.None? {
            engine.Halt();
          }
        } else if riskResumes {
          engine.Resume();
        } else {
          engine.Halt();
        }
      case _ =>
    }
    if !Consistent(LedgerOf(engine, portfolio, closes)) {
      return Err(Inconsistent);
    }
    r := Ok((closes, trades));
  }

  // ----- laws -----

  /** A snapshot replaces the events before it: recovering from the recovered
      prefix is recovering from the beginning. */
  lemma {:induction false} SnapshotReplacesPrefix(start: Ledger, events: seq<JournalEvent>, n: nat)
    requires n <= |events|
    ensures RecoverFrom(start, events) ==
            if RecoverFrom(start, events[..n]).Err? then RecoverFrom(start, events[..n])
            else RecoverFrom(RecoverFrom(start, events[..n]).value, events[n..])
    decreases |events|
  {
    if n == |events| {
      assert events[..n] == events;
    } else {
      var rest := events[..|events| - 1];
      SnapshotReplacesPrefix(start, rest, n);
      assert rest[..n] == events[..n];
      assert events[n..][..|events| - n - 1] == rest[n..];
    }
  }

  /** Events that were already applied do no harm when they are applied again,
      except a close whose evidence carries no trade id. */
  predicate RepeatIsHarmless(event: JournalEvent) {
    event.kind.PositionClosed? && event.kind.validationTrade.Some? ==>
      var trade := event.kind.validationTrade.value;
      trade.tradeId != [] || (event.kind.stage == Learning && IsResearch(trade))
  }

  lemma LedgerStepIsIdempotent(ledger: Ledger, event: JournalEvent)
    requires LedgerStep(ledger, event).Ok?
    ensures LedgerStep(LedgerStep(ledger, event).value, event) == LedgerStep(ledger, event)
  {
    var once := LedgerStep(ledger, event).value;
    ConsistentIsSingleton(once);
    match event.kind
    case PositionOpened(position) =>
      assert once.open[position.operationId := position] == once.open;
    case _ =>
  }

  lemma EvidenceRepeats(evidence: Evidence, event: JournalEvent)
    ensures EvidenceStep(EvidenceStep(evidence, event), event) == EvidenceStep(evidence, event)
            <==> RepeatIsHarmless(event)
  {
    if event.kind.PositionClosed? && event.kind.validationTrade.Some? {
      var trade := event.kind.validationTrade.value;
      var once := EvidenceStep(evidence, event);
      var list := if event.kind.stage == Learning then once.learning else once.performance;
      if trade.tradeId != [] && !(event.kind.stage == Learning && IsResearch(trade)) {
        var before := if event.kind.stage == Learning then evidence.learning else evidence.performance;
        if !Known(before, trade) {
          assert list[|before|] == trade;
        }
        assert Known(list, trade);
      }
      if !RepeatIsHarmless(event) {
        var twice := EvidenceStep(once, event);
        var after := if event.kind.stage == Learning then twice.learning else twice.performance;
        assert |after| == |list| + 1;
      }
    }
  }

  /** What becomes evidence: a close in Learning adds its trade to the learning record,
      unless the trade is research or its id is known there; a close in any later stage
      adds it to the performance, unless its id is known there; nothing else does. */
  lemma EvidenceExactly(evidence: Evidence, event: JournalEvent)
    ensures var after := EvidenceStep(evidence, event);
            var isNew := (trades: seq<ValidationTrade>, trade: ValidationTrade) =>
              trade.tradeId == "" || forall i | 0 <= i < |trades| :: trades[i].tradeId != trade.tradeId;
            if event.kind.PositionClosed? && event.kind.validationTrade.Some? then
              var trade := event.kind.validationTrade.value;
              if event.kind.stage == Learning then
                && after.performance == evidence.performance
                && after.learning == evidence.learning
                     + if trade.source !in {ResearchReplay, HistoricalOutOfSample} && isNew(evidence.learning, trade) then [trade] else []
              else
                && after.learning == evidence.learning
                && after.performance == evidence.performance + if isNew(evidence.performance, trade) then [trade] else []
            else after == evidence
  {
    assert evidence.learning + [] == evidence.learning && evidence.performance + [] == evidence.performance;
  }

  /** Replaying one event twice in a row recovers the same state as once, exactly
      when the event is harmless to repeat. */
  lemma RecoveryIsIdempotent(ledger: Ledger, evidence: Evidence, event: JournalEvent)
    requires LedgerStep(ledger, event).Ok?
    ensures var once, kept := LedgerStep(ledger, event).value, EvidenceStep(evidence, event);
            (LedgerStep(once, event), EvidenceStep(kept, event)) == (Ok(once), kept) <==> RepeatIsHarmless(event)
  {
    LedgerStepIsIdempotent(ledger, event);
    EvidenceRepeats(evidence, event);
  }

  /** A recovered ledger is consistent, and a crash anywhere in the journal leaves
      something that recovers. */
  lemma {:induction false} EveryPrefixRecovers(start: Ledger, events: seq<JournalEvent>, n: nat)
    requires n <= |events| && Consistent(start) && RecoverFrom(start, events).Ok?
    ensures RecoverFrom(start, events[..n]).Ok? && Consistent(RecoverFrom(start, events[..n]).value)
    decreases |events|
  {
    if n == |events| {
      assert events[..n] == events;
      if n > 0 {
        EveryPrefixRecovers(start, events[..n - 1], n - 1);
      }
    } else {
      assert events[..|events| - 1][..n] == events[..n];
      EveryPrefixRecovers(start, events[..|events| - 1], n);
    }
  }

  /** A ledger a process can run on: consistent, its position one that could be
      opened. */
  predicate Usable(ledger: Ledger) {
    Consistent(ledger) && (ledger.position.Some? ==> OpenablePosition(ledger.position.value))
  }

  /** Recovery leads from usable ledgers to usable ones. */
  lemma {:induction false} RecoveredIsUsable(start: Ledger, events: seq<JournalEvent>)
    requires Usable(start) && RecoverFrom(start, events).Ok?
    ensures Usable(RecoverFrom(start, events).value)
  {
    if events != [] {
      RecoveredIsUsable(start, events[..|events| - 1]);
    }
  }

  /** Money is conserved: realised P&L is the sum over the closed trades. */
  function TotalPnl(closed: seq<ClosedTrade>): real {
    if closed == [] then 0.0 else TotalPnl(closed[..|closed| - 1]) + closed[|closed| - 1].netPnl
  }

  lemma {:induction false} RealisedIsSumOfClosed(events: seq<JournalEvent>)
    requires RecoverFrom(EmptyLedger, events).Ok?
    ensures var ledger := RecoverFrom(EmptyLedger, events).value;
            && ledger.realizedPnl == TotalPnl(ledger.closed)
            && |ledger.riskCloses| == |ledger.closed|
  {
    if events != [] {
      var rest := events[..|events| - 1];
      RealisedIsSumOfClosed(rest);
      var before := RecoverFrom(EmptyLedger, rest).value;
      var after := RecoverFrom(EmptyLedger, events).value;
      ConsistentIsSingleton(before);
      if |after.closed| == |before.closed| + 1 {
        assert after.closed[..|before.closed|] == before.closed;
      }
    }
  }
}
