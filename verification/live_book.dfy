/** The live side of recovery: the journal, the engine and the portfolio of a
    running program, its snapshots and its restarts (src/app.rs). */
module LiveBook {
  import opened Common
  import opened Journals
  import opened Trading
  import opened Recovery

  predicate IsPositionEvent(event: JournalEvent) {
    event.kind.PositionOpened? || event.kind.PositionClosed?
  }

  predicate NoPositionEvents(events: seq<JournalEvent>) {
    forall i | 0 <= i < |events| :: !IsPositionEvent(events[i])
  }

  lemma RecoverSnoc(start: Ledger, events: seq<JournalEvent>, event: JournalEvent)
    requires RecoverFrom(start, events).Ok?
    ensures RecoverFrom(start, events + [event]) == LedgerStep(RecoverFrom(start, events).value, event)
  {
    assert (events + [event])[..|events|] == events;
  }

  /** Events about orders, stages and halts leave the ledger alone. */
  lemma {:induction false} OtherEventsAreInvisible(start: Ledger, events: seq<JournalEvent>, more: seq<JournalEvent>)
    requires Consistent(start) && RecoverFrom(start, events).Ok?
    requires NoPositionEvents(more)
    ensures RecoverFrom(start, events + more) == RecoverFrom(start, events)
  {
    EveryPrefixRecovers(start, events, |events|);
    assert events[..|events|] == events;
    if more == [] {
      assert events + more == events;
    } else {
      var n := |more| - 1;
      OtherEventsAreInvisible(start, events, more[..n]);
      assert events + more == (events + more[..n]) + [more[n]];
      RecoverSnoc(start, events + more[..n], more[n]);
    }
  }

  // ----- how far a ledger is from empty -----

  /** Every open and every close that took effect counts once. */
  function Weight(ledger: Ledger): nat {
    2 * |ledger.closed| + if ledger.position.Some? then 1 else 0
  }

  function PositionEvents(events: seq<JournalEvent>): nat {
    if events == [] then 0
    else PositionEvents(events[..|events| - 1]) + if IsPositionEvent(events[|events| - 1]) then 1 else 0
  }

  lemma StepWeighs(ledger: Ledger, event: JournalEvent)
    requires LedgerStep(ledger, event).Ok?
    ensures Weight(LedgerStep(ledger, event).value) <= Weight(ledger) + if IsPositionEvent(event) then 1 else 0
  {
  }

  lemma {:induction false} WeightGrowsByEvents(events: seq<JournalEvent>, n: nat)
    requires n <= |events| && RecoverFrom(EmptyLedger, events).Ok?
    ensures RecoverFrom(EmptyLedger, events[..n]).Ok?
    ensures Weight(RecoverFrom(EmptyLedger, events).value) + PositionEvents(events[..n])
            <= Weight(RecoverFrom(EmptyLedger, events[..n]).value) + PositionEvents(events)
    decreases |events|
  {
    if n == |events| {
      assert events[..n] == events;
    } else {
      var rest := events[..|events| - 1];
      assert rest[..n] == events[..n];
      WeightGrowsByEvents(rest, n);
      StepWeighs(RecoverFrom(EmptyLedger, rest).value, events[|events| - 1]);
    }
  }

  /** No position event of the journal was a repetition. */
  ghost predicate EveryEventCounts(events: seq<JournalEvent>) {
    && RecoverFrom(EmptyLedger, events).Ok?
    && Weight(RecoverFrom(EmptyLedger, events).value) == PositionEvents(events)
  }

  lemma PrefixCounts(events: seq<JournalEvent>, n: nat)
    requires EveryEventCounts(events) && n <= |events|
    ensures EveryEventCounts(events[..n])
  {
    WeightGrowsByEvents(events, n);
    WeightGrowsByEvents(events[..n], 0);
    assert events[..n][..0] == [];
  }

  lemma {:induction false} CountBetween(events: seq<JournalEvent>, first: nat, last: nat)
    requires first <= last <= |events|
    ensures PositionEvents(events[..first]) <= PositionEvents(events[..last])
    ensures PositionEvents(events[..first]) == PositionEvents(events[..last]) <==> NoPositionEvents(events[first..last])
    decreases last
  {
    if first < last {
      CountBetween(events, first, last - 1);
      assert events[..last][..last - 1] == events[..last - 1];
      var between := events[first..last];
      assert between[..|between| - 1] == events[first..last - 1];
      assert between[|between| - 1] == events[last - 1];
      forall i | 0 <= i < |between| - 1 ensures between[i] == events[first..last - 1][i] {
      }
    }
  }

  /** Two prefixes of such a journal recover the same ledger exactly when no
      position event lies between them. */
  lemma LostEventsMatter(events: seq<JournalEvent>, first: nat, last: nat)
    requires EveryEventCounts(events) && first <= last <= |events|
    ensures RecoverFrom(EmptyLedger, events[..first]) == RecoverFrom(EmptyLedger, events[..last])
            <==> NoPositionEvents(events[first..last])
  {
    PrefixCounts(events, first);
    PrefixCounts(events, last);
    CountBetween(events, first, last);
    if NoPositionEvents(events[first..last]) {
      OtherEventsAreInvisible(EmptyLedger, events[..first], events[first..last]);
      assert events[..first] + events[first..last] == events[..last];
    }
  }

  // ----- the two effective steps -----

  function OpenEvent(timestampSecs: int, position: Position): JournalEvent {
    JournalEvent(timestampSecs, Some(position.operationId), PositionOpened(position))
  }

  /** The ledger with this position open, and the one with its position closed. */
  function LedgerOpened(ledger: Ledger, position: Position): Ledger {
    ledger.(position := Some(position), open := map[position.operationId := position])
  }

  function LedgerClosed(ledger: Ledger, timestampSecs: int, exitPrice: real, netPnl: real, reason: ExitReason): Ledger
    requires ledger.position.Some?
  {
    Ledger(None, map[],
           ledger.closed + [ClosedTrade(ledger.position.value, exitPrice, netPnl, timestampSecs, reason)],
           ledger.realizedPnl + netPnl, ledger.riskCloses + [(timestampSecs, netPnl)])
  }

  lemma OpenCounts(ledger: Ledger, timestampSecs: int, position: Position)
    requires Consistent(ledger) && ledger.position.None? && OpenablePosition(position)
    ensures LedgerStep(ledger, OpenEvent(timestampSecs, position))
            == Ok(LedgerOpened(ledger, position))
  {
    ConsistentIsSingleton(ledger);
    ConsistentIsSingleton(LedgerOpened(ledger, position));
  }

  function CloseEvent(timestampSecs: int, id: string, exitPrice: real, netPnl: real, reason: ExitReason,
                      stage: LiveStage, trade: Option<ValidationTrade>): JournalEvent {
    JournalEvent(timestampSecs, Some(id), PositionClosed(id, exitPrice, netPnl, reason, stage, trade))
  }

  lemma CloseCounts(ledger: Ledger, timestampSecs: int, exitPrice: real, netPnl: real, reason: ExitReason,
                    stage: LiveStage, trade: Option<ValidationTrade>)
    requires Consistent(ledger) && ledger.position.Some?
    ensures var id := ledger.position.value.operationId;
            LedgerStep(ledger, CloseEvent(timestampSecs, id, exitPrice, netPnl, reason, stage, trade))
            == Ok(LedgerClosed(ledger, timestampSecs, exitPrice, netPnl, reason))
  {
    ConsistentIsSingleton(ledger);
    assert ledger.open - {ledger.position.value.operationId} == map[];
  }

  lemma CountSnoc(events: seq<JournalEvent>, event: JournalEvent)
    ensures PositionEvents(events + [event]) == PositionEvents(events) + if IsPositionEvent(event) then 1 else 0
  {
    assert (events + [event])[..|events|] == events;
  }

  // ----- memory and disk -----

  /** The ledger a snapshot file holds, and the sequence of the last event it
      counts. */
  datatype Snapshot = Snapshot(ledger: Ledger, sequence: nat)

  /** What a process finds: nothing without a snapshot, else the snapshot and the
      events behind its sequence. */
  function LedgerAfter(snapshot: Option<Snapshot>, events: seq<JournalEvent>): Result<Ledger, LedgerError> {
    match snapshot
    case None => Ok(EmptyLedger)
    case Some(saved) =>
      if |events| <= saved.sequence then Ok(saved.ledger) else RecoverFrom(saved.ledger, events[saved.sequence..])
  }

  /** Memory is the replay of the whole journal, and the snapshot that of a prefix. */
  ghost predicate FaithfulTo(events: seq<JournalEvent>, snapshot: Option<Snapshot>, ledger: Ledger) {
    && RecoverFrom(EmptyLedger, events) == Ok(ledger)
    && EveryEventCounts(events)
    && (snapshot.Some? ==>
          && snapshot.value.sequence <= |events|
          && RecoverFrom(EmptyLedger, events[..snapshot.value.sequence]) == Ok(snapshot.value.ledger))
  }

  /** Memory is the snapshot and the events behind it, whatever came before. */
  ghost predicate AnchoredTo(events: seq<JournalEvent>, snapshot: Option<Snapshot>, ledger: Ledger) {
    && snapshot.Some? && snapshot.value.sequence <= |events|
    && RecoverFrom(snapshot.value.ledger, events[snapshot.value.sequence..]) == Ok(ledger)
  }

  lemma FaithfulIsAnchored(events: seq<JournalEvent>, snapshot: Option<Snapshot>, ledger: Ledger)
    requires FaithfulTo(events, snapshot, ledger) && snapshot.Some?
    ensures AnchoredTo(events, snapshot, ledger)
  {
    SnapshotReplacesPrefix(EmptyLedger, events, snapshot.value.sequence);
  }

  /** Both ties hold on when an event is journaled and takes effect in memory. */
  lemma AppendKeeps(events: seq<JournalEvent>, event: JournalEvent, snapshot: Option<Snapshot>, before: Ledger, after: Ledger)
    requires LedgerStep(before, event) == Ok(after)
    requires Weight(after) == Weight(before) + if IsPositionEvent(event) then 1 else 0
    ensures FaithfulTo(events, snapshot, before) ==> FaithfulTo(events + [event], snapshot, after)
    ensures AnchoredTo(events, snapshot, before) ==> AnchoredTo(events + [event], snapshot, after)
  {
    if FaithfulTo(events, snapshot, before) {
      RecoverSnoc(EmptyLedger, events, event);
      CountSnoc(events, event);
      if snapshot.Some? {
        assert (events + [event])[..snapshot.value.sequence] == events[..snapshot.value.sequence];
      }
    }
    if AnchoredTo(events, snapshot, before) {
      var n := snapshot.value.sequence;
      RecoverSnoc(snapshot.value.ledger, events[n..], event);
      assert (events + [event])[n..] == events[n..] + [event];
    }
  }

  /** An anchored process can be continued after any crash. */
  lemma AnchoredRecovers(events: seq<JournalEvent>, snapshot: Option<Snapshot>, ledger: Ledger, keep: nat)
    requires AnchoredTo(events, snapshot, ledger) && Consistent(snapshot.value.ledger) && keep <= |events|
    ensures LedgerAfter(snapshot, events[..keep]).Ok?
  {
    var n := snapshot.value.sequence;
    if n < keep {
      EveryPrefixRecovers(snapshot.value.ledger, events[n..], keep - n);
      assert events[..keep][n..] == events[n..][..keep - n];
    }
  }

  /** An event is there after the next restart if and only if the snapshot does not
      count its place in the journal, or it changed nothing. A process whose
      snapshot is ahead of its journal writes position events that are lost. */
  lemma JournaledEventIsRecovered(saved: Snapshot, kept: seq<JournalEvent>, event: JournalEvent)
    requires LedgerAfter(Some(saved), kept).Ok? && LedgerStep(LedgerAfter(Some(saved), kept).value, event).Ok?
    ensures LedgerAfter(Some(saved), kept + [event]) == LedgerStep(LedgerAfter(Some(saved), kept).value, event)
            <==> saved.sequence <= |kept|
                 || LedgerStep(LedgerAfter(Some(saved), kept).value, event) == LedgerAfter(Some(saved), kept)
  {
    if saved.sequence <= |kept| {
      assert kept[saved.sequence..] == [] || saved.sequence < |kept|;
      RecoverSnoc(saved.ledger, kept[saved.sequence..], event);
      assert (kept + [event])[saved.sequence..] == kept[saved.sequence..] + [event];
    }
  }

  /** A crash that keeps `keep` events hides nothing from the next process: it
      either finds a snapshot that counts no lost position event, or finds no
      snapshot and no position event to miss. */
  predicate CrashIsHarmless(events: seq<JournalEvent>, snapshot: Option<Snapshot>, keep: nat)
    requires keep <= |events| && (snapshot.Some? ==> snapshot.value.sequence <= |events|)
  {
    match snapshot
    case None => NoPositionEvents(events[..keep])
    case Some(saved) => keep < saved.sequence ==> NoPositionEvents(events[keep..saved.sequence])
  }

  /** From a faithful state: the next process has the replay of what survived if and
      only if the crash is harmless. */
  lemma RestartVerdict(events: seq<JournalEvent>, snapshot: Option<Snapshot>, ledger: Ledger, keep: nat)
    requires FaithfulTo(events, snapshot, ledger) && keep <= |events|
    ensures LedgerAfter(snapshot, events[..keep]).Ok?
    ensures LedgerAfter(snapshot, events[..keep]) == RecoverFrom(EmptyLedger, events[..keep])
            <==> CrashIsHarmless(events, snapshot, keep)
    ensures EveryEventCounts(events[..keep])
  {
    var kept := events[..keep];
    PrefixCounts(events, keep);
    match snapshot
    case None =>
      LostEventsMatter(events, 0, keep);
      assert events[..0] == [] && events[0..keep] == kept;
    case Some(saved) =>
      if keep < saved.sequence {
        LostEventsMatter(events, keep, saved.sequence);
      } else {
        SnapshotReplacesPrefix(EmptyLedger, kept, saved.sequence);
        assert kept[..saved.sequence] == events[..saved.sequence];
      }
  }

  /** A power loss after the snapshot of an open position, which takes the flushed
      event: the next process holds a position that its journal does not know. */
  lemma CrashCanBeHarmful(timestampSecs: int, position: Position)
    requires OpenablePosition(position)
    ensures var events := [JournalEvent(timestampSecs, Some(position.operationId), PositionOpened(position))];
            var ledger := LedgerOpened(EmptyLedger, position);
            var snapshot := Some(Snapshot(ledger, 1));
            && FaithfulTo(events, snapshot, ledger) && !CrashIsHarmless(events, snapshot, 0)
            && LedgerAfter(snapshot, events[..0]) == Ok(ledger) && RecoverFrom(EmptyLedger, events[..0]) == Ok(EmptyLedger)
  {
    var event := JournalEvent(timestampSecs, Some(position.operationId), PositionOpened(position));
    OpenCounts(EmptyLedger, timestampSecs, position);
    RecoverSnoc(EmptyLedger, [], event);
    CountSnoc([], event);
    assert [] + [event] == [event] && [event][..1] == [event] && [event][0..1] == [event];
  }

  // ----- the running program -----

  class Book {
    const journal: Journal
    const engine: TradingEngine
    const portfolio: Portfolio
    var riskCloses: seq<(int, real)>
    var snapshot: Option<Snapshot>

    function Current(): Ledger
      reads this, engine, portfolio
    {
      LedgerOf(engine, portfolio, riskCloses)
    }

    /** Every process keeps this, whatever a crash took from its journal. */
    ghost predicate Valid()
      reads this, journal, engine, portfolio
    {
      journal.Valid() && Usable(Current()) && (snapshot.Some? ==> Usable(snapshot.value.ledger))
    }

    ghost predicate Faithful()
      reads this, journal, engine, portfolio
    {
      FaithfulTo(journal.events, snapshot, Current())
    }

    ghost predicate Anchored()
      reads this, journal, engine, portfolio
    {
      AnchoredTo(journal.events, snapshot, Current())
    }

    /** What tied memory to the disk still does. */
    twostate predicate Keeps()
      reads this, journal, engine, portfolio
    {
      (old(Faithful()) ==> Faithful()) && (old(Anchored()) ==> Anchored())
    }

    /** The snapshot counts more events than the journal has. */
    predicate SnapshotIsAhead()
      reads this, journal
    {
      snapshot.Some? && snapshot.value.sequence > |journal.events|
    }

    constructor (journal: Journal)
      requires journal.Valid() && journal.events == []
      ensures Valid() && Faithful() && fresh(engine) && fresh(portfolio) && this.journal == journal
      ensures engine.position.None? && snapshot.None?
    {
      this.journal := journal;
      engine := new TradingEngine();
      portfolio := new Portfolio();
      riskCloses, snapshot := [], None;
    }

    /** Appends an event that is not about a position. */
    method Note(event: JournalEvent) returns (ok: bool)
      requires Valid() && !IsPositionEvent(event)
      modifies journal
      ensures Valid() && Keeps() && Current() == old(Current())
      ensures journal.events == if ok then old(journal.events) + [event] else old(journal.events)
      ensures journal.durable == old(journal.durable)
      ensures journal.failed == old(journal.failed) + if ok then 0 else 1
    {
      AppendKeeps(journal.events, event, snapshot, Current(), Current());
      ok := journal.Append(event);
    }

    /** The tail of a filled entry: journal first, then both structures. */
    method OpenRecorded(timestampSecs: int, position: Position) returns (ok: bool)
      requires Valid() && engine.position.None? && OpenablePosition(position)
      modifies journal, engine, portfolio
      ensures Valid() && Keeps() && journal.durable == old(journal.durable)
      ensures ok ==> && journal.events == old(journal.events)
                          + [JournalEvent(timestampSecs, Some(position.operationId), PositionOpened(position))]
                     && Current() == LedgerOpened(old(Current()), position)
      ensures !ok ==> journal.events == old(journal.events) && Current() == old(Current())
      ensures journal.failed == old(journal.failed) + if ok then 0 else 1
    {
      var event := OpenEvent(timestampSecs, position);
      OpenCounts(Current(), timestampSecs, position);
      ConsistentIsSingleton(Current());
      AppendKeeps(journal.events, event, snapshot, Current(), LedgerStep(Current(), event).value);
      ok := journal.Append(event);
      if ok {
        var inEngine := engine.OpenPosition(position);
        var inPortfolio := portfolio.Open(position);
        assert inEngine && inPortfolio;
      }
    }

    /** The tail of a filled exit. */
    method CloseRecorded(timestampSecs: int, exitPrice: real, netPnl: real, reason: ExitReason, stage: LiveStage,
                         trade: Option<ValidationTrade>)
      returns (ok: bool)
      requires Valid() && engine.position.Some?
      modifies this`riskCloses, journal, engine, portfolio
      ensures Valid() && Keeps() && journal.durable == old(journal.durable)
      ensures ok ==>
                && journal.events == old(journal.events)
                     + [JournalEvent(timestampSecs, Some(old(engine.position).value.operationId),
                                     PositionClosed(old(engine.position).value.operationId, exitPrice, netPnl, reason, stage, trade))]
                && Current() == LedgerClosed(old(Current()), timestampSecs, exitPrice, netPnl, reason)
      ensures !ok ==> journal.events == old(journal.events) && Current() == old(Current())
      ensures journal.failed == old(journal.failed) + if ok then 0 else 1
    {
      var id := engine.position.value.operationId;
      var event := CloseEvent(timestampSecs, id, exitPrice, netPnl, reason, stage, trade);
      CloseCounts(Current(), timestampSecs, exitPrice, netPnl, reason, stage, trade);
      AppendKeeps(journal.events, event, snapshot, Current(), LedgerStep(Current(), event).value);
      ok := journal.Append(event);
      if ok {
        CloseLive(timestampSecs, exitPrice, netPnl, reason);
      }
    }

    /** The in-memory half of a close. */
    method CloseLive(timestampSecs: int, exitPrice: real, netPnl: real, reason: ExitReason)
      requires Consistent(Current()) && engine.position.Some?
      modifies this`riskCloses, engine, portfolio
      ensures Current() == LedgerClosed(old(Current()), timestampSecs, exitPrice, netPnl, reason)
    {
      ConsistentIsSingleton(Current());
      var id := engine.position.value.operationId;
      assert portfolio.positions - {id} == map[];
      var closed := portfolio.Close(id, exitPrice, netPnl, timestampSecs, reason);
      engine.Close(reason);
      riskCloses := riskCloses + [(timestampSecs, netPnl)];
    }

    /** A snapshot needs nothing from the one before it: it anchors every process,
        and a faithful ledger stays faithful. */
    method SaveSnapshot() returns (ok: bool)
      requires Valid()
      modifies this`snapshot
      ensures Valid() && Keeps() && Current() == old(Current())
      ensures ok ==> Anchored() && snapshot == Some(Snapshot(Current(), |journal.events|))
      ensures !ok ==> snapshot == old(snapshot)
    {
      ok := *;
      if ok {
        snapshot := Some(Snapshot(Current(), |journal.events|));
        assert journal.events[..|journal.events|] == journal.events;
      }
    }

    /** Applies the events to the live objects, until one is refused. */
    method ReplayTail(tail: seq<JournalEvent>) returns (ok: bool)
      requires Consistent(Current())
      modifies this`riskCloses, engine, portfolio
      ensures ok <==> RecoverFrom(old(Current()), tail).Ok?
      ensures ok ==> RecoverFrom(old(Current()), tail) == Ok(Current())
    {
      var evidence := Evidence([], []);
      ghost var start := Current();
      for n := 0 to |tail|
        invariant RecoverFrom(start, tail[..n]) == Ok(Current())
      {
        var riskResumes: bool := *;
        assert tail[..n + 1] == tail[..n] + [tail[n]];
        RecoverSnoc(start, tail[..n], tail[n]);
        SnapshotReplacesPrefix(start, tail, n + 1);
        var applied := ApplyRecoveryEvent(engine, portfolio, riskCloses, evidence, tail[n], riskResumes);
        if applied.Err? {
          return false;
        }
        riskCloses, evidence := applied.value.0, applied.value.1;
      }
      assert tail[..|tail|] == tail;
      ok := true;
    }

    method Load(ledger: Ledger)
      modifies this`riskCloses, engine, portfolio
      ensures Current() == ledger
    {
      engine.Restore(ledger.position);
      portfolio.Restore(ledger.open, ledger.closed, ledger.realizedPnl);
      riskCloses := ledger.riskCloses;
    }

    /** Any process may crash, and a crash keeps any prefix. The next process starts
        with what snapshot and journal give, or not at all when they contradict each
        other, which cannot happen after a faithful or an anchored process. It is
        anchored if and only if the snapshot is not ahead of the journal; after a
        faithful one it is the replay of what survived if and only if the crash is
        harmless. */
    method Restart(keep: nat) returns (ok: bool)
      requires Valid() && keep <= |journal.events|
      modifies this`riskCloses, journal, engine, portfolio
      ensures journal.Valid() && journal.events == old(journal.events)[..keep]
      ensures journal.durable == if old(journal.durable) <= keep then old(journal.durable) else keep
      ensures ok <==> LedgerAfter(snapshot, journal.events).Ok?
      ensures ok ==> Valid() && LedgerAfter(snapshot, journal.events) == Ok(Current())
      ensures old(Faithful()) || old(Anchored()) ==> ok
      ensures ok ==> (Anchored() <==> snapshot.Some? && !SnapshotIsAhead())
      ensures old(Faithful()) ==>
                && (RecoverFrom(EmptyLedger, journal.events) == Ok(Current())
                    <==> CrashIsHarmless(old(journal.events), snapshot, keep))
                && (Faithful() <==> CrashIsHarmless(old(journal.events), snapshot, keep) && !SnapshotIsAhead())
    {
      ghost var all, before := journal.events, Current();
      if FaithfulTo(all, snapshot, before) {
        RestartVerdict(all, snapshot, before, keep);
      }
      if AnchoredTo(all, snapshot, before) {
        AnchoredRecovers(all, snapshot, before, keep);
      }
      journal.Crash(keep);
      ok := LoadFromDisk();
      if ok && FaithfulTo(all, snapshot, before) && snapshot.Some? && snapshot.value.sequence <= keep {
        assert journal.events[..snapshot.value.sequence] == all[..snapshot.value.sequence];
      }
    }

    method LoadFromDisk() returns (ok: bool)
      requires snapshot.Some? ==> Usable(snapshot.value.ledger)
      modifies this`riskCloses, engine, portfolio
      ensures ok <==> LedgerAfter(snapshot, journal.events).Ok?
      ensures ok ==> Usable(Current()) && LedgerAfter(snapshot, journal.events) == Ok(Current())
    {
      ok := true;
      if snapshot.None? {
        Load(EmptyLedger);
      } else {
        var saved := snapshot.value;
        Load(saved.ledger);
        if saved.sequence < |journal.events| {
          ok := ReplayTail(journal.events[saved.sequence..]);
          if ok {
            RecoveredIsUsable(saved.ledger, journal.events[saved.sequence..]);
          }
        }
      }
    }

    lemma OpenPositionHasContracts()
      requires Valid() && engine.position.Some?
      ensures engine.position.value.contracts > 0
    {
    }

    /** The live ledger is consistent, so engine and portfolio hold one position or
        none. */
    lemma CurrentIsConsistent()
      requires Valid()
      ensures Consistent(Current())
      ensures portfolio.positions == match engine.position
                                     case None => map[]
                                     case Some(position) => map[position.operationId := position]
    {
      ConsistentIsSingleton(Current());
    }
  }
}
