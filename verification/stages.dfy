/** The running stage machine: promotion, return to Learning, one-use
    authorizations and the gate of real buys (src/app.rs). */
module Stages {
  import opened Common
  import opened Journals
  import opened Trading
  import opened Recovery
  import opened LiveBook
  import opened StageHistory
  import opened Regression

  datatype RiskLimits = RiskLimits(
    maxNotional: real, maxLossPerTrade: real, maxDailyLoss: real, maxTradesPerDay: u32)

  /** The configured limits; Canary has its own. The last two say when the trades
      of a stage end it. */
  datatype StageLimits = StageLimits(
    normal: RiskLimits, canary: RiskLimits, regressionWindow: nat, maxConsecutiveLosses: u32)

  function RiskLimitsForStage(config: StageLimits, stage: LiveStage): RiskLimits {
    if stage == Canary then config.canary else config.normal
  }

  /** Claiming a nonce: a hard link whose name can be created once. */
  datatype LinkOutcome = Linked | LinkRefused | LinkedThenFailed

  /** What the promotion reads from configuration, disk, account and evidence. */
  datatype PromotionInput = PromotionInput(
    reconciliationBlocked: bool,
    killSwitch: bool,
    freshCalibration: bool,
    trendWarmedUp: bool,
    reportEligible: bool,
    orderingBlocked: bool,
    readinessDigest: Option<string>,
    accountFails: bool,
    accountPosition: Option<Position>,
    accountClear: bool,
    requestAvailable: bool,
    signedNonce: Option<string>,   // the nonce of an authorization that is valid in every other respect
    link: LinkOutcome,
    canaryEligible: bool)

  /** The stage a restart finds when `keep` events are left: the one it starts from,
      then every change journaled after the sequence of the snapshot. */
  function StageAt(start: LiveStage, sequence: nat, events: seq<JournalEvent>, keep: nat): LiveStage
    requires keep <= |events|
  {
    if keep <= sequence then start
    else if events[keep - 1].kind.LiveStageChanged? then events[keep - 1].kind.to
    else StageAt(start, sequence, events, keep - 1)
  }

  lemma {:induction false} StageAtPrefix(start: LiveStage, sequence: nat, a: seq<JournalEvent>, b: seq<JournalEvent>, keep: nat)
    requires keep <= |a| && keep <= |b| && forall i | 0 <= i < keep :: a[i] == b[i]
    ensures StageAt(start, sequence, a, keep) == StageAt(start, sequence, b, keep)
  {
    if keep > sequence {
      StageAtPrefix(start, sequence, a, b, keep - 1);
    }
  }

  /** Event `i` is the last stage change after the snapshot. */
  predicate IsLastChange(sequence: nat, events: seq<JournalEvent>, keep: nat, i: int)
    requires keep <= |events|
  {
    && sequence <= i < keep && events[i].kind.LiveStageChanged?
    && forall j | i < j < keep :: !events[j].kind.LiveStageChanged?
  }

  lemma {:induction false} LastChangeDecides(start: LiveStage, sequence: nat, events: seq<JournalEvent>, keep: nat)
    requires keep <= |events|
    ensures forall i | IsLastChange(sequence, events, keep, i) :: StageAt(start, sequence, events, keep) == events[i].kind.to
    ensures StageAt(start, sequence, events, keep) == start || exists i :: IsLastChange(sequence, events, keep, i)
  {
    if keep > sequence {
      if events[keep - 1].kind.LiveStageChanged? {
        assert IsLastChange(sequence, events, keep, keep - 1);
      } else {
        var earlier := keep - 1;
        LastChangeDecides(start, sequence, events, earlier);
        forall i ensures IsLastChange(sequence, events, keep, i) <==> IsLastChange(sequence, events, earlier, i) {
        }
      }
    }
  }

  /** A changed strategy resets the snapshot's stage but not the journal behind it:
      the new process starts in Learning exactly when no later stage change is
      journaled, or the last one leads there. */
  lemma {:induction false} ChangedStrategyStartsInLearning(sequence: nat, events: seq<JournalEvent>, keep: nat)
    requires keep <= |events|
    ensures StageAt(Learning, sequence, events, keep) == Learning
            <==> forall i | IsLastChange(sequence, events, keep, i) :: events[i].kind.to == Learning
  {
    LastChangeDecides(Learning, sequence, events, keep);
    if StageAt(Learning, sequence, events, keep) != Learning {
      var i :| IsLastChange(sequence, events, keep, i);
      assert events[i].kind.to != Learning;
    }
  }

  /** The input where it does not: the program moved from Armed to Canary and
      stopped before its snapshot, which still counts only `before`. */
  lemma ChangedStrategyCanStartInCanary(before: seq<JournalEvent>, move: JournalEvent)
    requires move.kind == LiveStageChanged(Armed, Canary)
    ensures StageAt(Learning, |before|, before + [move], |before| + 1) == Canary
  {
  }

  /** A journaled move is found again if and only if the snapshot does not count its
      place: when it was appended, the snapshot's sequence was at most the length of
      the journal. */
  lemma {:induction false} MoveIsRecovered(start: LiveStage, sequence: nat, events: seq<JournalEvent>, i: nat, keep: nat)
    requires i < keep <= |events| && events[i].kind.LiveStageChanged? && events[i].kind.to != start
    requires forall j | i < j < keep :: !events[j].kind.LiveStageChanged?
    ensures StageAt(start, sequence, events, keep) == events[i].kind.to <==> sequence <= i
    ensures i < sequence ==> StageAt(start, sequence, events, keep) == start
  {
    LastChangeDecides(start, sequence, events, keep);
    if sequence <= i {
      assert IsLastChange(sequence, events, keep, i);
    }
  }

  /** The input where it is not: a process in Live saved a snapshot whose last events
      were then lost; the next one returned to Learning, synced the move and stopped
      before its snapshot. The one after it is in Live again. */
  lemma CompletedReturnIsHidden(kept: seq<JournalEvent>, move: JournalEvent, sequence: nat)
    requires |kept| < sequence && move.kind == LiveStageChanged(Live, Learning)
    ensures StageAt(Live, sequence, kept + [move], |kept| + 1) == Live
  {
  }

  ghost predicate JournaledMovesAreLegal(events: seq<JournalEvent>) {
    forall i | 0 <= i < |events| && events[i].kind.LiveStageChanged? ::
      events[i].kind.to == Learning || OneStepUp(events[i].kind.from, events[i].kind.to)
  }

  // ----- what a restart may find -----

  ghost predicate CoveredAt(events: seq<JournalEvent>, saved: Snapshot, snapshotStage: LiveStage,
                            recoverable: set<LiveStage>, keep: nat)
    requires keep <= |events|
  {
    StageAt(snapshotStage, saved.sequence, events, keep) in recoverable
  }

  /** Whatever a crash keeps beyond the synced events, a process of the same
      strategy recovers one of these stages. */
  ghost predicate StagesCovered(events: seq<JournalEvent>, durable: nat, snapshot: Option<Snapshot>,
                                snapshotStage: LiveStage, recoverable: set<LiveStage>) {
    snapshot.Some? ==>
      forall keep | durable <= keep <= |events| :: CoveredAt(events, snapshot.value, snapshotStage, recoverable, keep)
  }

  lemma CoveredAppend(events: seq<JournalEvent>, event: JournalEvent, durable: nat, snapshot: Option<Snapshot>,
                      snapshotStage: LiveStage, recoverable: set<LiveStage>)
    requires StagesCovered(events, durable, snapshot, snapshotStage, recoverable) && durable <= |events|
    ensures var more := if event.kind.LiveStageChanged? then recoverable + {event.kind.to} else recoverable;
            StagesCovered(events + [event], durable, snapshot, snapshotStage, more)
  {
    var all := events + [event];
    if snapshot.Some? {
      var more := if event.kind.LiveStageChanged? then recoverable + {event.kind.to} else recoverable;
      forall keep | durable <= keep <= |all| ensures CoveredAt(all, snapshot.value, snapshotStage, more, keep) {
        var before := if keep <= |events| then keep else |events|;
        assert CoveredAt(events, snapshot.value, snapshotStage, recoverable, before);
        StageAtPrefix(snapshotStage, snapshot.value.sequence, all, events, before);
      }
    }
  }

  /** A move whose event is on the disk, where no snapshot counts its place, is the
      only stage left to recover. */
  lemma CoveredApplied(events: seq<JournalEvent>, snapshot: Option<Snapshot>, snapshotStage: LiveStage, to: LiveStage)
    requires events != [] && events[|events| - 1].kind.LiveStageChanged? && events[|events| - 1].kind.to == to
    requires snapshot.Some? ==> snapshot.value.sequence < |events|
    ensures StagesCovered(events, |events|, snapshot, snapshotStage, {to})
  {
  }

  lemma CoveredSaved(events: seq<JournalEvent>, durable: nat, ledger: Ledger, stage: LiveStage)
    ensures StagesCovered(events, durable, Some(Snapshot(ledger, |events|)), stage, {stage})
  {
  }

  lemma CoveredCrash(events: seq<JournalEvent>, durable: nat, snapshot: Option<Snapshot>, snapshotStage: LiveStage,
                     recoverable: set<LiveStage>, keep: nat)
    requires StagesCovered(events, durable, snapshot, snapshotStage, recoverable) && durable <= keep <= |events|
    ensures StagesCovered(events[..keep], durable, snapshot, snapshotStage, recoverable)
    ensures snapshot.Some? ==> StageAt(snapshotStage, snapshot.value.sequence, events, keep) in recoverable
  {
    if snapshot.Some? {
      assert CoveredAt(events, snapshot.value, snapshotStage, recoverable, keep);
      forall kept | durable <= kept <= keep ensures CoveredAt(events[..keep], snapshot.value, snapshotStage, recoverable, kept) {
        assert CoveredAt(events, snapshot.value, snapshotStage, recoverable, kept);
        StageAtPrefix(snapshotStage, snapshot.value.sequence, events[..keep], events, kept);
      }
    }
  }

  class LiveControl {
    const mode: Mode
    const config: StageLimits
    const book: Book
    var stage: LiveStage
    var returnPending: bool
    var authorized: Option<string>
    var limits: RiskLimits
    var approved: bool
    var consumed: set<string>
    var performance: seq<real>   // net results of the trades of this stage
    var snapshotStage: LiveStage
    ghost var history: seq<StageRecord>

    /** The stage, its limits and its history agree, and the disk can only bring
        back what the history allows. */
    ghost predicate Recorded()
      reads this, book, book.journal
    {
      && LegalHistory(mode, history)
      && View(history).stage == stage
      && View(history).authorized == authorized
      && View(history).used == consumed
      && limits == RiskLimitsForStage(config, stage)
      && JournaledMovesAreLegal(book.journal.events)
      && StagesCovered(book.journal.events, book.journal.durable, book.snapshot, snapshotStage, View(history).recoverable)
    }

    /** And the history knows of a snapshot that is ahead of the journal. */
    ghost predicate Coherent()
      reads this, book, book.journal
    {
      Recorded() && (book.SnapshotIsAhead() ==> View(history).ahead)
    }

    ghost predicate Valid()
      reads this, book, book.journal, book.engine, book.portfolio
    {
      book.Valid() && Coherent()
    }

    constructor (mode: Mode, config: StageLimits, book: Book)
      requires book.Valid() && book.journal.events == [] && book.snapshot.None?
      ensures Valid() && this.book == book && this.mode == mode && this.config == config
      ensures stage == Learning && history == []
      ensures !returnPending && authorized == None && !approved && consumed == {} && performance == []
    {
      this.mode, this.config, this.book := mode, config, book;
      stage, returnPending, authorized, approved, consumed, performance := Learning, false, None, false, {}, [];
      limits := RiskLimitsForStage(config, Learning);
      snapshotStage := Learning;
      history := [];
    }

    /** An event that is not a stage change leaves the recoverable stages alone. */
    lemma NoteKeepsStages(event: JournalEvent)
      requires Valid() && !event.kind.LiveStageChanged?
      ensures JournaledMovesAreLegal(book.journal.events + [event])
      ensures StagesCovered(book.journal.events + [event], book.journal.durable, book.snapshot, snapshotStage,
                            View(history).recoverable)
    {
      CoveredAppend(book.journal.events, event, book.journal.durable, book.snapshot, snapshotStage, View(history).recoverable);
    }

    method TransitionLiveStage(timestampSecs: int, to: LiveStage) returns (ok: bool)
      requires Valid() && to != stage
      requires LegalRecord(mode, history, Staged(stage, to, book.engine.position.None?))
      modifies this, book, book.journal
      ensures Valid() && book.Keeps() && book.Current() == old(book.Current())
      ensures returnPending == old(returnPending) && consumed == old(consumed)
      ensures ok ==> stage == to && snapshotStage == to && book.Anchored()
      ensures stage == old(stage) || stage == to
      ensures authorized == if stage == to && to == Learning then None else old(authorized)
      ensures GrewWithout(old(history), history)
      ensures OnlyStageEventsAdded(old(book.journal.events), book.journal.events)
      ensures book.journal.durable >= old(book.journal.durable)
      ensures (stage == Canary ==> limits == config.canary) && (stage != Canary ==> limits == config.normal)
      ensures performance == old(performance)
      ensures approved == old(approved)
    {
      hide FaithfulTo, AnchoredTo, StagesCovered, JournaledMovesAreLegal, LegalHistory, View, LegalRecord;
      ok := JournalMove(timestampSecs, to);
      if ok {
        ok := EnterAndSave(to);
      }
    }

    method EnterAndSave(to: LiveStage) returns (ok: bool)
      requires Valid() && history != [] && history[|history| - 1].Staged? && history[|history| - 1].to == to
      requires MoveIsOnDisk(to)
      modifies this`stage, this`authorized, this`limits, this`history, this`snapshotStage, book`snapshot
      ensures Valid() && book.Keeps() && stage == to && book.Current() == old(book.Current())
      ensures ok ==> snapshotStage == to && book.Anchored()
      ensures authorized == if to == Learning then None else old(authorized)
      ensures history == old(history) + [Applied(to, old(MoveIsHidden()))]
              || history == old(history) + [Applied(to, old(MoveIsHidden())), Saved]
      ensures performance == old(performance)
      ensures approved == old(approved)
    {
      EnterStage(to);
      ok := Snapshot();
    }

    /** The snapshot counts the place of the last event. */
    predicate MoveIsHidden()
      reads book, book.journal
    {
      book.snapshot.Some? && |book.journal.events| <= book.snapshot.value.sequence
    }

    /** The journal ends with this move, synced. A snapshot can count its place only
        if it was ahead of the journal before. */
    ghost predicate MoveIsOnDisk(to: LiveStage)
      reads this, book, book.journal
    {
      var events := book.journal.events;
      && events != [] && events[|events| - 1].kind.LiveStageChanged? && events[|events| - 1].kind.to == to
      && book.journal.durable == |events|
      && (MoveIsHidden() ==> View(history).ahead)
    }

    /** The in-memory half of a move. From here on a process of the same strategy
        finds the new stage if and only if the move is not hidden. */
    method EnterStage(to: LiveStage)
      requires Valid() && history != [] && history[|history| - 1].Staged? && history[|history| - 1].to == to
      requires MoveIsOnDisk(to)
      modifies this`stage, this`authorized, this`limits, this`history
      ensures Valid() && stage == to && limits == RiskLimitsForStage(config, to)
      ensures authorized == if to == Learning then None else old(authorized)
      ensures history == old(history) + [Applied(to, MoveIsHidden())]
      ensures book.snapshot.Some? && to != snapshotStage ==>
                (RestartStage(|book.journal.events|, false) == to <==> !MoveIsHidden())
      ensures (stage == Canary ==> limits == config.canary) && (stage != Canary ==> limits == config.normal)
      ensures performance == old(performance)
      ensures approved == old(approved)
    {
      hide FaithfulTo, AnchoredTo, StagesCovered, JournaledMovesAreLegal, LegalHistory, View, StageAt;
      ghost var moved := Applied(to, MoveIsHidden());
      Extend(mode, history, moved);
      if book.snapshot.Some? && to != snapshotStage {
        ghost var n := |book.journal.events|;
        MoveIsRecovered(snapshotStage, book.snapshot.value.sequence, book.journal.events, n - 1, n);
      }
      if !MoveIsHidden() {
        CoveredApplied(book.journal.events, book.snapshot, snapshotStage, to);
      }
      stage := to;
      if to == Learning {
        authorized := None;
      }
      limits := RiskLimitsForStage(config, to);
      history := history + [moved];
    }

    /** The durable half of a move: append the event and sync the journal. */
    method JournalMove(timestampSecs: int, to: LiveStage) returns (ok: bool)
      requires Valid() && to != stage
      requires LegalRecord(mode, history, Staged(stage, to, book.engine.position.None?))
      modifies this`history, book.journal
      ensures Valid() && book.Keeps() && book.Current() == old(book.Current())
      ensures ok ==> history == old(history) + [Staged(stage, to, book.engine.position.None?)] && MoveIsOnDisk(to)
      ensures !ok ==> history == old(history) || history == old(history) + [Staged(stage, to, book.engine.position.None?)]
      ensures OnlyStageEventsAdded(old(book.journal.events), book.journal.events)
      ensures book.journal.durable >= old(book.journal.durable)
    {
      ok := NoteMove(timestampSecs, to);
      if ok {
        ok := book.journal.Sync();
      }
    }

    method NoteMove(timestampSecs: int, to: LiveStage) returns (ok: bool)
      requires Valid() && to != stage
      requires LegalRecord(mode, history, Staged(stage, to, book.engine.position.None?))
      modifies this`history, book.journal
      ensures Valid() && book.Keeps() && book.Current() == old(book.Current())
      ensures book.journal.durable == old(book.journal.durable)
      ensures ok ==> && history == old(history) + [Staged(stage, to, book.engine.position.None?)]
                     && book.journal.events == old(book.journal.events)
                                              + [JournalEvent(timestampSecs, None, LiveStageChanged(stage, to))]
                     && (MoveIsHidden() ==> View(history).ahead)
      ensures !ok ==> history == old(history) && book.journal.events == old(book.journal.events)
    {
      hide FaithfulTo, AnchoredTo, LegalHistory, View;
      var event := JournalEvent(timestampSecs, None, LiveStageChanged(stage, to));
      ghost var staged := Staged(stage, to, book.engine.position.None?);
      CoveredAppend(book.journal.events, event, book.journal.durable, book.snapshot, snapshotStage, View(history).recoverable);
      Extend(mode, history, staged);
      ok := book.Note(event);
      if ok {
        history := history + [staged];
      }
    }

    /** `record_stage_trade`: in Learning a trade is evidence for the approval; in a
        later stage it ends the stage exactly when the loss of the day reaches its
        limit or the trades of the stage have regressed. The learning report is an
        input, and so is the P&L realised before this trade that day. */
    method RecordStageTrade(netPnl: real, realizedToday: real, reportEligible: bool)
      modifies this`approved, this`returnPending, this`performance
      ensures stage == Learning ==>
                approved == reportEligible && returnPending == old(returnPending) && performance == old(performance)
      ensures stage != Learning ==>
                && approved == old(approved) && performance == old(performance) + [netPnl]
                && (|performance| <= U32_MAX ==>
                      (returnPending <==> old(returnPending) || TradeEndsStage(realizedToday + netPnl)))
      // In fields, for the limits of the stage it is in.
      ensures old(Recorded()) && stage == Canary && realizedToday + netPnl <= -config.canary.maxDailyLoss ==> returnPending
      ensures old(Recorded()) && stage !in {Learning, Canary} && realizedToday + netPnl <= -config.normal.maxDailyLoss ==> returnPending
      ensures old(Recorded()) && stage != Learning && |performance| <= U32_MAX && !old(returnPending) && returnPending ==>
                var loss := if stage == Canary then config.canary.maxDailyLoss else config.normal.maxDailyLoss;
                realizedToday + netPnl <= -loss
                || Regressed(performance, config.regressionWindow, config.maxConsecutiveLosses, loss * 2.0)
    {
      if stage == Learning {
        approved := reportEligible;
        return;
      }
      performance := performance + [netPnl];
      var regressed := TradingRegressed(performance, config.regressionWindow, config.maxConsecutiveLosses,
                                        limits.maxDailyLoss * 2.0);
      if realizedToday + netPnl <= -limits.maxDailyLoss || regressed {
        returnPending := true;
      }
    }

    ghost predicate TradeEndsStage(dayPnl: real)
      reads this
    {
      || dayPnl <= -limits.maxDailyLoss
      || Regressed(performance, config.regressionWindow, config.maxConsecutiveLosses, limits.maxDailyLoss * 2.0)
    }

    /** Needs no earlier snapshot, so it also repairs one that is ahead of the journal. */
    method Snapshot() returns (ok: bool)
      requires Valid()
      modifies this`snapshotStage, this`history, book`snapshot
      ensures Valid() && book.Keeps() && book.Current() == old(book.Current())
      ensures ok ==> && book.Anchored() && snapshotStage == stage && history == old(history) + [Saved]
                     && book.snapshot == Some(LiveBook.Snapshot(book.Current(), |book.journal.events|))
      ensures !ok ==> snapshotStage == old(snapshotStage) && book.snapshot == old(book.snapshot) && history == old(history)
    {
      ok := book.SaveSnapshot();
      if ok {
        CoveredSaved(book.journal.events, book.journal.durable, book.Current(), stage);
        Extend(mode, history, Saved);
        snapshotStage := stage;
        history := history + [Saved];
      }
    }

    method ApplyPendingLearningReturn(timestampSecs: int) returns (ok: bool)
      requires Valid()
      modifies this, book, book.journal
      ensures Valid() && book.Keeps() && book.Current() == old(book.Current())
      ensures ok && old(stage) != Learning && old(returnPending) && book.engine.position.None? ==>
                stage == Learning && authorized.None? && !returnPending && !approved
      ensures !(old(stage) != Learning && old(returnPending) && book.engine.position.None?) ==>
                ok && stage == old(stage) && history == old(history) && book.journal.events == old(book.journal.events)
      ensures GrewWithout(old(history), history)
      ensures OnlyStageEventsAdded(old(book.journal.events), book.journal.events)
      ensures book.journal.durable >= old(book.journal.durable)
      ensures (stage == Canary ==> limits == config.canary) && (stage != Canary ==> limits == config.normal)
      ensures performance == if stage != old(stage) && ok then [] else old(performance)
      ensures returnPending == old(returnPending) || stage == Learning
    {
      hide FaithfulTo, AnchoredTo, StagesCovered, JournaledMovesAreLegal;
      ok := true;
      if stage != Learning && returnPending && book.engine.position.None? {
        ok := TransitionLiveStage(timestampSecs, Learning);
        if ok {
          returnPending, approved, performance := false, false, [];
        }
      }
    }

    /** Claims the nonce. The name can be created once, whatever happens after. */
    method ConsumeAuthorization(nonce: string, link: LinkOutcome) returns (ok: bool)
      requires Valid() && mode == LiveMode && stage == Eligible
      modifies this`consumed, this`history
      ensures Valid()
      ensures ok <==> nonce !in old(consumed) && link.Linked?
      ensures if nonce in old(consumed) || link.LinkRefused? then history == old(history) && consumed == old(consumed)
              else history == old(history) + [Consumed(nonce)] && consumed == old(consumed) + {nonce}
    {
      if nonce in consumed || link.LinkRefused? {
        return false;
      }
      Extend(mode, history, Consumed(nonce));
      consumed := consumed + {nonce};
      history := history + [Consumed(nonce)];
      ok := link.Linked?;
    }

    /** The account check that precedes real stages. It may find a position the
        program did not know, and record it. */
    method RefreshLiveAccount(timestampSecs: int, input: PromotionInput) returns (ok: bool)
      requires Valid()
      requires input.accountPosition.Some? ==> OpenablePosition(input.accountPosition.value)
      modifies book.journal, book.engine, book.portfolio
      ensures Valid() && book.Keeps() && history == old(history) && stage == old(stage)
      ensures book.engine.position == old(book.engine.position)
              || (mode == LiveMode && old(book.engine.position).None? && book.engine.position == input.accountPosition)
      ensures ok && mode == LiveMode ==>
                !input.accountFails && (input.accountPosition.Some? ==> book.engine.position.Some?)
      ensures SilentEventsAdded(old(book.journal.events), book.journal.events)
      ensures book.journal.durable >= old(book.journal.durable)
      ensures ok <==> mode != LiveMode || (!input.accountFails && book.journal.failed == old(book.journal.failed))
    {
      ok := true;
      if mode != LiveMode {
        return;
      }
      if input.accountFails {
        return false;
      }
      if input.accountPosition.Some? && book.engine.position.None? {
        var position := input.accountPosition.value;
        CoveredAppend(book.journal.events, JournalEvent(timestampSecs, Some(position.operationId), PositionOpened(position)),
                      book.journal.durable, book.snapshot, snapshotStage, View(history).recoverable);
        ok := book.OpenRecorded(timestampSecs, position);
      }
    }

    /** An authorization that is valid, unused, and whose account is clear. */
    predicate MayArm(input: PromotionInput)
      reads this
    {
      && mode == LiveMode && !input.orderingBlocked && input.readinessDigest.Some?
      && input.accountClear && input.requestAvailable
      && input.signedNonce.Some? && input.signedNonce.value !in consumed
    }

    /** Where a promotion that meets no failure ends. */
    function PromotionTarget(input: PromotionInput): LiveStage
      reads this, book, book.engine
    {
      if book.engine.position.Some? || input.reconciliationBlocked || input.killSwitch then stage
      else
        match stage
        case Learning =>
          if approved && input.freshCalibration && input.trendWarmedUp && input.reportEligible then Eligible else Learning
        case Eligible => if MayArm(input) then Armed else Eligible
        case Armed => if input.accountClear then Canary else Armed
        case Canary => if input.canaryEligible then Live else Canary
        case Live => Live
    }

    method MaybePromoteLive(timestampSecs: int, input: PromotionInput) returns (ok: bool)
      requires Valid()
      requires input.accountPosition.Some? ==> OpenablePosition(input.accountPosition.value)
      modifies this, book, book.journal, book.engine, book.portfolio
      ensures Valid() && book.Keeps()
      ensures Extends(old(history), history)
      ensures stage == old(PromotionTarget(input)) || (!ok && stage == old(stage))
      ensures stage == old(stage) || OneStepUp(old(stage), stage)
      ensures stage == Armed && old(stage) == Eligible ==> authorized == input.readinessDigest
      ensures SilentEventsAdded(old(book.journal.events), book.journal.events)
      ensures book.journal.durable >= old(book.journal.durable)
      ensures (stage == Canary ==> limits == config.canary) && (stage != Canary ==> limits == config.normal)
      // Nothing can fail where nothing is to be done, and Live starts without trades.
      ensures !ok ==> old(PromotionTarget(input)) != old(stage) || (mode == LiveMode && old(stage) in {Eligible, Armed})
      ensures performance == if ok && old(stage) == Canary && stage == Live then [] else old(performance)
      // An approval is withdrawn exactly when it is used with a report that no longer holds.
      ensures approved ==
              (old(approved) && !old(&& stage == Learning && book.engine.position.None? && !input.reconciliationBlocked
                                     && !input.killSwitch && input.freshCalibration && input.trendWarmedUp
                                     && !input.reportEligible))
    {
      hide FaithfulTo, AnchoredTo, StagesCovered, JournaledMovesAreLegal;
      if book.engine.position.Some? || input.reconciliationBlocked || input.killSwitch {
        return true;
      }
      match stage {
        case Learning =>
          if !approved || !input.freshCalibration || !input.trendWarmedUp {
            return true;
          }
          if !input.reportEligible {
            approved := false;
            return true;
          }
          ok := TransitionLiveStage(timestampSecs, Eligible);
        case Eligible =>
          ok := ArmIfAuthorized(timestampSecs, input);
        case Armed =>
          ok := EnterCanary(timestampSecs, input);
        case Canary =>
          ok := true;
          if input.canaryEligible {
            ok := TransitionLiveStage(timestampSecs, Live);
            if ok {
              performance := [];
            }
          }
        case Live =>
          ok := true;
      }
    }

    method EnterCanary(timestampSecs: int, input: PromotionInput) returns (ok: bool)
      requires Valid() && stage == Armed
      requires input.accountPosition.Some? ==> OpenablePosition(input.accountPosition.value)
      modifies this, book, book.journal, book.engine, book.portfolio
      ensures Valid() && book.Keeps()
      ensures Extends(old(history), history)
      ensures stage == (if input.accountClear then Canary else Armed) || (!ok && stage == Armed)
      ensures SilentEventsAdded(old(book.journal.events), book.journal.events)
      ensures book.journal.durable >= old(book.journal.durable)
      ensures performance == old(performance)
      ensures approved == old(approved)
      ensures !ok && !input.accountClear ==> mode == LiveMode && (input.accountFails || book.journal.failed != old(book.journal.failed))
    {
      ghost var start := book.journal.events;
      ok := RefreshLiveAccount(timestampSecs, input);
      if ok && input.accountClear {
        ghost var middle := book.journal.events;
        ok := TransitionLiveStage(timestampSecs, Canary);
        SilentThenStage(start, middle, book.journal.events);
      }
    }

    method ArmIfAuthorized(timestampSecs: int, input: PromotionInput) returns (ok: bool)
      requires Valid() && stage == Eligible
      requires input.accountPosition.Some? ==> OpenablePosition(input.accountPosition.value)
      modifies this, book, book.journal, book.engine, book.portfolio
      ensures Valid() && book.Keeps()
      ensures Extends(old(history), history)
      ensures stage == (if old(MayArm(input)) then Armed else Eligible) || (!ok && stage == Eligible)
      ensures stage == Armed ==> authorized == input.readinessDigest
      ensures SilentEventsAdded(old(book.journal.events), book.journal.events)
      ensures book.journal.durable >= old(book.journal.durable)
      ensures performance == old(performance)
      ensures approved == old(approved)
      ensures !ok ==> && mode == LiveMode && !input.orderingBlocked && input.readinessDigest.Some?
                      && (input.accountFails || book.journal.failed != old(book.journal.failed) || old(MayArm(input)))
    {
      ok := true;
      if mode == Readonly || input.orderingBlocked || input.readinessDigest.None? {
        return;
      }
      ok := RefreshLiveAccount(timestampSecs, input);
      if !ok || !input.accountClear || !input.requestAvailable {
        return;
      }
      if input.signedNonce.None? || input.signedNonce.value in consumed {
        return;
      }
      ghost var middle := book.journal.events;
      ok := ClaimAndArm(timestampSecs, input.signedNonce.value, input.link, input.readinessDigest.value);
      SilentThenStage(old(book.journal.events), middle, book.journal.events);
    }

    method ClaimAndArm(timestampSecs: int, nonce: string, link: LinkOutcome, digest: string) returns (ok: bool)
      requires Valid() && mode == LiveMode && stage == Eligible
      modifies this, book, book.journal
      ensures Valid() && book.Keeps()
      ensures Extends(old(history), history)
      ensures stage == Eligible || stage == Armed
      ensures stage == Armed || !ok
      ensures stage == Armed ==> nonce !in old(consumed) && authorized == Some(digest)
      ensures OnlyStageEventsAdded(old(book.journal.events), book.journal.events)
      ensures book.journal.durable >= old(book.journal.durable)
      ensures performance == old(performance)
      ensures approved == old(approved)
    {
      hide FaithfulTo, AnchoredTo, StagesCovered, JournaledMovesAreLegal, LegalHistory, View;
      ok := ConsumeAuthorization(nonce, link);
      if !ok {
        return;
      }
      AdoptReadiness(digest);
      assert Extends(old(history), history);
      ok := TransitionLiveStage(timestampSecs, Armed);
    }

    method AdoptReadiness(digest: string)
      requires Valid() && stage == Eligible && history != [] && history[|history| - 1].Consumed?
      modifies this`authorized, this`history
      ensures Valid() && authorized == Some(digest)
      ensures history == old(history) + [Authorized(digest)]
    {
      Extend(mode, history, Authorized(digest));
      authorized := Some(digest);
      history := history + [Authorized(digest)];
    }

    /** `live_entry_authorization_is_valid`. */
    predicate EntryAuthorized(orderingReady: bool, currentDigest: Option<string>)
      reads this`authorized
    {
      orderingReady && currentDigest.Some? && authorized == currentDigest
    }

    /** Called when the intent of a real buy reaches the journal. */
    ghost method RecordRealBuy(digest: string)
      requires Valid() && mode == LiveMode && IsReal(stage) && authorized == Some(digest)
      modifies this`history
      ensures Valid() && history == old(history) + [BuyIntent(digest)]
    {
      Extend(mode, history, BuyIntent(digest));
      history := history + [BuyIntent(digest)];
    }

    /** The stage the next process starts in. A snapshot of another strategy is
        reset to Learning before the later events are applied, not after. */
    function RestartStage(keep: nat, strategyChanged: bool): LiveStage
      requires keep <= |book.journal.events|
      reads this, book, book.journal
    {
      match book.snapshot
      case None => Learning
      case Some(saved) =>
        StageAt(if strategyChanged then Learning else snapshotStage, saved.sequence, book.journal.events, keep)
    }

    lemma StartsWhereTheTailLeads(keep: nat, strategyChanged: bool)
      requires keep <= |book.journal.events|
      ensures book.snapshot.None? ==> RestartStage(keep, strategyChanged) == Learning
      ensures book.snapshot.Some? ==>
                var start, events := RestartStage(keep, strategyChanged), book.journal.events[..keep];
                && (forall i | IsLastChange(book.snapshot.value.sequence, events, keep, i) :: start == events[i].kind.to)
                && ((forall i | book.snapshot.value.sequence <= i < keep :: !events[i].kind.LiveStageChanged?) ==>
                      start == if strategyChanged then Learning else snapshotStage)
    {
      if book.snapshot.Some? {
        var saved, before := book.snapshot.value.sequence, if strategyChanged then Learning else snapshotStage;
        StageAtPrefix(before, saved, book.journal.events, book.journal.events[..keep], keep);
        LastChangeDecides(before, saved, book.journal.events[..keep], keep);
      }
    }

    lemma RestartStageIsRecoverable(keep: nat, strategyChanged: bool, ahead: bool)
      requires Recorded() && book.journal.durable <= keep <= |book.journal.events|
      ensures LegalRecord(mode, history,
                          Restarted(RestartStage(keep, strategyChanged), strategyChanged || book.snapshot.None?, ahead))
    {
      CoveredCrash(book.journal.events, book.journal.durable, book.snapshot, snapshotStage, View(history).recoverable, keep);
      if book.snapshot.Some? {
        LastChangeDecides(Learning, book.snapshot.value.sequence, book.journal.events, keep);
        LastChangeDecides(snapshotStage, book.snapshot.value.sequence, book.journal.events, keep);
      }
    }

    /** A new process over the same disk, after a crash that kept everything synced.
        It does not start when snapshot and journal contradict each other. The
        authorization is forgotten. Under the same strategy the stage is one that
        the history says may be recovered; `StageHistory` says which. The report
        and the performance it starts with are inputs. */
    method Restart(keep: nat, strategyChanged: bool, pending: bool, reportEligible: bool, recovered: seq<real>)
      returns (ok: bool)
      requires Valid() && book.journal.durable <= keep <= |book.journal.events|
      modifies this, book`riskCloses, book.journal, book.engine, book.portfolio
      ensures ok <==> LedgerAfter(book.snapshot, book.journal.events).Ok?
      ensures old(book.Faithful()) || old(book.Anchored()) ==> ok
      ensures ok ==> Valid() && authorized.None? && stage == old(RestartStage(keep, strategyChanged))
      ensures history == old(history)
                + if ok then [Restarted(stage, strategyChanged || book.snapshot.None?, book.SnapshotIsAhead())] else []
      ensures ok && !strategyChanged && book.snapshot.Some? ==> stage in old(View(history).recoverable)
      ensures ok ==> returnPending == (pending && !strategyChanged && book.snapshot.Some?) && approved == reportEligible
      ensures book.journal.Valid() && book.journal.events == old(book.journal.events)[..keep]
      ensures book.journal.durable == old(book.journal.durable)
      ensures ok ==> LedgerAfter(book.snapshot, book.journal.events) == Ok(book.Current())
      ensures ok ==> (book.Anchored() <==> book.snapshot.Some? && !book.SnapshotIsAhead())
      ensures old(book.Faithful()) ==>
                && (RecoverFrom(EmptyLedger, book.journal.events) == Ok(book.Current())
                    <==> CrashIsHarmless(old(book.journal.events), book.snapshot, keep))
                && (book.Faithful() <==> CrashIsHarmless(old(book.journal.events), book.snapshot, keep) && !book.SnapshotIsAhead())
      ensures ok ==> (stage == Canary ==> limits == config.canary) && (stage != Canary ==> limits == config.normal)
      // In Learning without a snapshot; else in the stage of the last change behind it,
      // and without one in that of the snapshot, or in Learning for another strategy.
      ensures ok && book.snapshot.None? ==> stage == Learning
      ensures ok && book.snapshot.Some? ==>
                && (forall i | IsLastChange(book.snapshot.value.sequence, book.journal.events, keep, i) ::
                      stage == book.journal.events[i].kind.to)
                && ((forall i | book.snapshot.value.sequence <= i < keep :: !book.journal.events[i].kind.LiveStageChanged?) ==>
                      stage == if strategyChanged then Learning else old(snapshotStage))
    {
      var start, reset := RestartStage(keep, strategyChanged), strategyChanged || book.snapshot.None?;
      StartsWhereTheTailLeads(keep, strategyChanged);
      RestartStageIsRecoverable(keep, strategyChanged, book.snapshot.Some? && book.snapshot.value.sequence > keep);
      CoveredCrash(book.journal.events, book.journal.durable, book.snapshot, snapshotStage, View(history).recoverable, keep);
      ok := book.Restart(keep);
      if ok {
        StartIn(start, reset, pending, reportEligible, recovered);
      }
    }

    /** The fields of a new process that starts in `recovered`. */
    method StartIn(recovered: LiveStage, reset: bool, pending: bool, reportEligible: bool, trades: seq<real>)
      requires Recorded() && LegalRecord(mode, history, Restarted(recovered, reset, book.SnapshotIsAhead()))
      modifies this
      ensures Coherent() && stage == recovered && authorized.None?
      ensures history == old(history) + [Restarted(recovered, reset, book.SnapshotIsAhead())]
      ensures returnPending == (pending && !reset) && approved == reportEligible && performance == trades
    {
      hide FaithfulTo, AnchoredTo, StagesCovered, JournaledMovesAreLegal, LegalHistory, View;
      ghost var restarted := Restarted(recovered, reset, book.SnapshotIsAhead());
      Extend(mode, history, restarted);
      stage := recovered;
      history := history + [restarted];
      authorized, approved, performance := None, reportEligible, trades;
      returnPending := pending && !reset;
      limits := RiskLimitsForStage(config, stage);
    }
  }

  ghost predicate Extends(before: seq<StageRecord>, after: seq<StageRecord>) {
    |before| <= |after| && after[..|before|] == before
  }

  /** The history grew, and not by claimed nonces or buys. */
  ghost predicate GrewWithout(before: seq<StageRecord>, after: seq<StageRecord>) {
    && Extends(before, after)
    && forall i | |before| <= i < |after| :: !after[i].BuyIntent? && !after[i].Consumed?
  }

  /** Nothing about an order was journaled. */
  ghost predicate SilentEventsAdded(before: seq<JournalEvent>, after: seq<JournalEvent>) {
    && |before| <= |after| && after[..|before|] == before
    && forall i | |before| <= i < |after| :: after[i].kind.LiveStageChanged? || IsPositionEvent(after[i])
  }

  lemma SilentThenStage(before: seq<JournalEvent>, middle: seq<JournalEvent>, after: seq<JournalEvent>)
    requires SilentEventsAdded(before, middle) && OnlyStageEventsAdded(middle, after)
    ensures SilentEventsAdded(before, after)
  {
    assert after[..|before|] == middle[..|before|];
    forall i | |before| <= i < |middle| ensures after[i] == middle[i] {
      assert after[..|middle|][i] == after[i];
    }
  }

  ghost predicate OnlyStageEventsAdded(before: seq<JournalEvent>, after: seq<JournalEvent>) {
    && |before| <= |after| && after[..|before|] == before
    && forall i | |before| <= i < |after| :: after[i].kind.LiveStageChanged?
  }
}
