/** The stage machine as a history of what happened, over any number of process
    runs: which records may follow which, and what follows from that
    (src/app.rs). */
module StageHistory {
  import opened Common
  import opened Journals

  datatype Mode = Readonly | LiveMode

  datatype StageRecord =
    | Consumed(nonce: string)                      // a one-use authorization was claimed
    | Authorized(digest: string)                   // its readiness digest was adopted
    | Staged(from: LiveStage, to: LiveStage, flat: bool) // the move was journaled
    | Applied(to: LiveStage, hidden: bool)         // the running process moved; `hidden`: the snapshot
                                                   // counts the place of the journaled move
    | Saved                                        // a snapshot of the stage reached the disk
    | Restarted(recovered: LiveStage, reset: bool, ahead: bool) // a new process took over; `reset`:
                                                   // it found no snapshot, or one of another strategy;
                                                   // `ahead`: one that counts lost events
    | BuyIntent(digest: string)                    // a real buy was journaled

  /** What the running process and the disk know after a history. `recoverable`
      holds the stages that a new process may find on the disk: the one that was
      last settled there, and those journaled since. `ahead`: the snapshot may count
      more events than the journal holds. */
  datatype StageView = StageView(
    stage: LiveStage, authorized: Option<string>, used: set<string>, recoverable: set<LiveStage>, ahead: bool)

  function Advance(view: StageView, record: StageRecord): StageView {
    match record
    case Consumed(nonce) => view.(used := view.used + {nonce})
    case Authorized(digest) => view.(authorized := Some(digest))
    case Staged(_, to, _) => view.(recoverable := view.recoverable + {to})
    case Applied(to, hidden) =>
      view.(stage := to, authorized := if to == Learning then None else view.authorized,
            recoverable := if hidden then view.recoverable else {to})
    case Saved => view.(recoverable := {view.stage}, ahead := false)
    case Restarted(recovered, _, ahead) => view.(stage := recovered, authorized := None, ahead := ahead)
    case BuyIntent(_) => view
  }

  function View(history: seq<StageRecord>): StageView {
    if history == [] then StageView(Learning, None, {}, {Learning}, false)
    else Advance(View(history[..|history| - 1]), history[|history| - 1])
  }

  predicate OneStepUp(from: LiveStage, to: LiveStage) {
    match from
    case Learning => to == Eligible
    case Eligible => to == Armed
    case Armed => to == Canary
    case Canary => to == Live
    case Live => false
  }

  predicate IsReal(stage: LiveStage) {
    stage == Canary || stage == Live
  }

  predicate LegalRecord(mode: Mode, past: seq<StageRecord>, next: StageRecord) {
    var view := View(past);
    var previous := if past == [] then None else Some(past[|past| - 1]);
    match next
    case Consumed(nonce) => mode == LiveMode && view.stage == Eligible && nonce !in view.used
    case Authorized(_) => previous.Some? && previous.value.Consumed? && view.stage == Eligible
    case Staged(from, to, flat) =>
      && from == view.stage
      && (if to == Learning then from != Learning && flat else OneStepUp(from, to))
      && (to == Armed ==> previous.Some? && previous.value.Authorized?)
    case Applied(to, hidden) =>
      previous.Some? && previous.value.Staged? && previous.value.to == to && (hidden ==> view.ahead)
    case Saved => true
    case Restarted(recovered, reset, _) => recovered in view.recoverable || (reset && recovered == Learning)
    case BuyIntent(digest) => mode == LiveMode && IsReal(view.stage) && view.authorized == Some(digest)
  }

  predicate LegalHistory(mode: Mode, history: seq<StageRecord>) {
    history == [] ||
    var past := history[..|history| - 1];
    LegalHistory(mode, past) && LegalRecord(mode, past, history[|history| - 1])
  }

  lemma Extend(mode: Mode, history: seq<StageRecord>, next: StageRecord)
    requires LegalHistory(mode, history) && LegalRecord(mode, history, next)
    ensures LegalHistory(mode, history + [next])
    ensures View(history + [next]) == Advance(View(history), next)
    ensures (history + [next])[..|history|] == history
  {
    assert (history + [next])[..|history|] == history;
  }

  lemma {:induction false} LegalAt(mode: Mode, history: seq<StageRecord>, n: nat)
    requires LegalHistory(mode, history) && n < |history|
    ensures LegalHistory(mode, history[..n]) && LegalRecord(mode, history[..n], history[n])
    decreases |history|
  {
    if n < |history| - 1 {
      var past := history[..|history| - 1];
      assert past[..n] == history[..n] && past[n] == history[n];
      LegalAt(mode, past, n);
    }
  }

  // ----- moves -----

  predicate IsMoveTo(record: StageRecord, stage: LiveStage) {
    record.Applied? && record.to == stage
  }

  /** A running process moves one step up the chain, or back to Learning with no
      position open; and nothing else changes its stage except a restart. */
  lemma MovesAreStepsOrFlatReturns(mode: Mode, history: seq<StageRecord>, n: nat)
    requires LegalHistory(mode, history) && n < |history| && !history[n].Restarted?
    ensures var before, after := View(history[..n]).stage, View(history[..n + 1]).stage;
            || after == before
            || (OneStepUp(before, after) && IsMoveTo(history[n], after))
            || (after == Learning && IsMoveTo(history[n], Learning) && n > 0
                && history[n - 1] == Staged(before, Learning, true))
  {
    LegalAt(mode, history, n);
    assert history[..n + 1][..n] == history[..n];
    if history[n].Applied? {
      assert history[..n][n - 1] == history[n - 1];
      LegalAt(mode, history, n - 1);
      assert history[..n][..n - 1] == history[..n - 1];
    }
  }

  /** In readonly mode nothing beyond Eligible is ever journaled, entered or
      recovered, and no real buy is journaled. */
  lemma {:induction false} ReadonlyStopsAtEligible(history: seq<StageRecord>)
    requires LegalHistory(Readonly, history)
    ensures View(history).recoverable <= {Learning, Eligible}
    ensures View(history).stage == Learning || View(history).stage == Eligible
    ensures forall i | 0 <= i < |history| :: !history[i].BuyIntent? && !history[i].Consumed? && !history[i].Authorized?
  {
    if history != [] {
      var past := history[..|history| - 1];
      ReadonlyStopsAtEligible(past);
      var last := history[|history| - 1];
      if last.Applied? {
        LegalAt(Readonly, history, |history| - 2);
        assert past[..|past| - 1] == history[..|history| - 2];
        assert past[|past| - 1] == history[|history| - 2];
      }
    }
  }

  // ----- restarts -----

  /** The stage is settled on the disk: a move was completed where the snapshot does
      not hide it, or a snapshot saved. */
  predicate Settles(record: StageRecord) {
    (record.Applied? && !record.hidden) || record.Saved?
  }

  /** The last settling before `n` was the record before `m`, or there was none. */
  ghost predicate SettledAt(history: seq<StageRecord>, m: nat, n: nat) {
    && m <= n <= |history|
    && (m > 0 ==> Settles(history[m - 1]))
    && forall k | m <= k < n :: !Settles(history[k])
  }

  ghost predicate StagedIn(history: seq<StageRecord>, m: nat, n: nat, stage: LiveStage) {
    exists k :: m <= k < n && k < |history| && history[k].Staged? && history[k].to == stage
  }

  lemma {:induction false} RecoverableSinceSettled(history: seq<StageRecord>, m: nat)
    requires SettledAt(history, m, |history|)
    ensures forall stage :: stage in View(history).recoverable <==>
              stage == View(history[..m]).stage || StagedIn(history, m, |history|, stage)
    decreases |history|
  {
    var n := |history|;
    if m == n {
      assert history[..m] == history;
      if n > 0 {
        assert View(history).recoverable == {View(history).stage};
      }
    } else {
      var past := history[..n - 1];
      RecoverableSinceSettled(past, m);
      assert past[..m] == history[..m];
      forall stage ensures StagedIn(history, m, n, stage) <==>
        StagedIn(past, m, n - 1, stage) || (history[n - 1].Staged? && history[n - 1].to == stage)
      {
        if StagedIn(past, m, n - 1, stage) {
          var k :| m <= k < n - 1 && past[k].Staged? && past[k].to == stage;
          assert history[k] == past[k];
        }
      }
    }
  }

  /** A restart under the same strategy that finds a snapshot starts in the stage
      last settled before it, or in one journaled since. */
  lemma RestartRecoversSettledStage(mode: Mode, history: seq<StageRecord>, m: nat, n: nat)
    requires LegalHistory(mode, history) && n < |history| && history[n].Restarted? && !history[n].reset
    requires SettledAt(history, m, n)
    ensures history[n].recovered == View(history[..m]).stage || StagedIn(history, m, n, history[n].recovered)
  {
    LegalAt(mode, history, n);
    RecoverableSinceSettled(history[..n], m);
    assert history[..n][..m] == history[..m];
    if StagedIn(history[..n], m, n, history[n].recovered) {
      var k :| m <= k < n && history[..n][k].Staged? && history[..n][k].to == history[n].recovered;
      assert history[k].Staged?;
    }
  }

  lemma AppliedFollowsStaged(mode: Mode, history: seq<StageRecord>, n: nat)
    requires LegalHistory(mode, history) && n < |history|
    ensures history[n].Applied? ==> n > 0 && history[n - 1].Staged?
  {
    LegalAt(mode, history, n);
  }

  /** Only the settled stage and Learning can be running or recovered. */
  ghost predicate OnlySettled(view: StageView, settled: LiveStage) {
    view.stage in {settled, Learning} && view.recoverable <= {settled, Learning}
  }

  ghost predicate StillSettled(view: StageView, settled: LiveStage) {
    view.stage == settled && view.recoverable == {settled}
  }

  lemma SettledStep(mode: Mode, past: seq<StageRecord>, next: StageRecord, settled: LiveStage)
    requires LegalRecord(mode, past, next) && !next.Staged? && !next.Applied?
    ensures OnlySettled(View(past), settled) ==> OnlySettled(Advance(View(past), next), settled)
    ensures StillSettled(View(past), settled) && !(next.Restarted? && next.reset) ==>
              StillSettled(Advance(View(past), next), settled)
  {
  }

  lemma ViewAt(history: seq<StageRecord>, n: nat)
    requires n < |history|
    ensures View(history[..n + 1]) == Advance(View(history[..n]), history[n])
  {
    assert history[..n + 1][..n] == history[..n];
  }

  /** So a process that settled its stage and journaled no move since is continued
      in that stage: by every later process of the same strategy, and by every
      other one in that stage or in Learning. */
  lemma {:induction false} SettledStageSurvives(mode: Mode, history: seq<StageRecord>, m: nat, n: nat)
    requires LegalHistory(mode, history) && m < n <= |history| && Settles(history[m])
    requires forall k | m < k < n :: !history[k].Staged?
    ensures var settled := View(history[..m + 1]).stage;
            && OnlySettled(View(history[..n]), settled)
            && ((forall k | m < k < n :: !(history[k].Restarted? && history[k].reset)) ==>
                  StillSettled(View(history[..n]), settled))
    decreases n
  {
    if n > m + 1 {
      SettledStageSurvives(mode, history, m, n - 1);
      LegalAt(mode, history, n - 1);
      AppliedFollowsStaged(mode, history, n - 1);
      ViewAt(history, n - 1);
      SettledStep(mode, history[..n - 1], history[n - 1], View(history[..m + 1]).stage);
    } else {
      ViewAt(history, m);
    }
  }

  /** In particular no restart undoes a completed return to Learning that the
      snapshot does not hide. */
  lemma CompletedReturnSurvives(mode: Mode, history: seq<StageRecord>, m: nat, n: nat)
    requires LegalHistory(mode, history) && m < n <= |history| && history[m] == Applied(Learning, false)
    requires forall k | m < k < n :: !history[k].Staged?
    ensures View(history[..n]).stage == Learning
  {
    SettledStageSurvives(mode, history, m, n);
    ViewAt(history, m);
  }

  /** Only a process that itself found its snapshot ahead of its journal can make a
      hidden move, and only before it saves one. */
  lemma {:induction false} HiddenMovesNeedLostEvents(mode: Mode, history: seq<StageRecord>, n: nat)
    requires LegalHistory(mode, history) && n < |history| && history[n].Applied? && history[n].hidden
    ensures exists k :: RanAheadSince(history, k, n)
  {
    LegalAt(mode, history, n);
    AheadSinceRestart(history[..n]);
    var k :| RanAheadSince(history[..n], k, n);
    forall j | k < j < n ensures !history[j].Saved? && !history[j].Restarted? {
      assert history[..n][j] == history[j];
    }
    assert RanAheadSince(history, k, n);
  }

  /** The process that started at `k` found its snapshot ahead, still runs at `n`
      and has saved none. */
  ghost predicate RanAheadSince(history: seq<StageRecord>, k: int, n: nat) {
    && 0 <= k < n <= |history| && history[k].Restarted? && history[k].ahead
    && forall j | k < j < n :: !history[j].Saved? && !history[j].Restarted?
  }

  lemma {:induction false} AheadSinceRestart(history: seq<StageRecord>)
    requires View(history).ahead
    ensures exists k :: RanAheadSince(history, k, |history|)
  {
    var n := |history| - 1;
    if history[n].Restarted? {
      assert RanAheadSince(history, n, |history|);
    } else {
      AheadSinceRestart(history[..n]);
      var k :| RanAheadSince(history[..n], k, n);
      forall j | k < j < |history| ensures !history[j].Saved? && !history[j].Restarted? {
        assert j < n ==> history[..n][j] == history[j];
      }
      assert RanAheadSince(history, k, |history|);
    }
  }

  /** And then the return can be undone: a process in Live lost events that its
      snapshot counts, the next one returned to Learning, and the one after it is in
      Live again under the same strategy. */
  lemma CompletedReturnCanBeUndone(nonce: string, digest: string) returns (history: seq<StageRecord>, m: nat)
    ensures LegalHistory(LiveMode, history) && m < |history| - 1 && history[m] == Applied(Learning, true)
    ensures forall k | m < k < |history| :: history[k] == Restarted(Live, false, false)
    ensures View(history).stage == Live
  {
    var buy := LiveIsReachable(nonce, digest);
    var ran := buy[..|buy| - 1];
    Extend(LiveMode, ran, Saved);
    Extend(LiveMode, ran + [Saved], Restarted(Live, false, true));
    var resumed := ran + [Saved] + [Restarted(Live, false, true)];
    Extend(LiveMode, resumed, Staged(Live, Learning, true));
    Extend(LiveMode, resumed + [Staged(Live, Learning, true)], Applied(Learning, true));
    var returned := resumed + [Staged(Live, Learning, true)] + [Applied(Learning, true)];
    Extend(LiveMode, returned, Restarted(Live, false, false));
    history, m := returned + [Restarted(Live, false, false)], |returned| - 1;
  }

  // ----- authorizations -----

  lemma {:induction false} UsedIsConsumed(history: seq<StageRecord>, nonce: string)
    ensures nonce in View(history).used <==> exists i :: 0 <= i < |history| && history[i] == Consumed(nonce)
  {
    if history != [] {
      var past := history[..|history| - 1];
      UsedIsConsumed(past, nonce);
      if nonce in View(past).used {
        var i :| 0 <= i < |past| && past[i] == Consumed(nonce);
        assert history[i] == Consumed(nonce);
      }
      if history[|history| - 1] == Consumed(nonce) {
        assert nonce in View(history).used;
      }
      if exists i :: 0 <= i < |history| && history[i] == Consumed(nonce) {
        var i :| 0 <= i < |history| && history[i] == Consumed(nonce);
        assert i < |past| ==> past[i] == Consumed(nonce);
      }
    }
  }

  /** The nonce that paid for a journaled entry into Armed. */
  ghost predicate ArmedWith(history: seq<StageRecord>, n: nat, nonce: string) {
    2 <= n < |history| && history[n].Staged? && history[n].to == Armed && history[n - 2] == Consumed(nonce)
  }

  /** Every journaled entry into Armed was paid by a nonce, in any run, and no
      nonce pays twice. */
  lemma EachNonceArmsOnce(mode: Mode, history: seq<StageRecord>, m: nat, n: nat)
    requires LegalHistory(mode, history) && m < n < |history|
    requires history[m].Staged? && history[m].to == Armed && history[n].Staged? && history[n].to == Armed
    ensures exists a, b :: ArmedWith(history, m, a) && ArmedWith(history, n, b) && a != b
  {
    var a := ArmedWasPaid(mode, history, m);
    var b := ArmedWasPaid(mode, history, n);
    assert n - 2 > m - 2;
    LegalAt(mode, history, n - 2);
    UsedIsConsumed(history[..n - 2], b);
    if n - 2 > m - 2 {
      assert history[..n - 2][m - 2] == Consumed(a);
    }
  }

  lemma ArmedWasPaid(mode: Mode, history: seq<StageRecord>, n: nat) returns (nonce: string)
    requires LegalHistory(mode, history) && n < |history|
    requires history[n].Staged? && history[n].to == Armed
    ensures ArmedWith(history, n, nonce)
  {
    LegalAt(mode, history, n);
    assert history[..n][n - 1] == history[n - 1];
    LegalAt(mode, history, n - 1);
    assert history[..n - 1][n - 2] == history[n - 2];
    nonce := history[n - 2].nonce;
  }

  // ----- real buys -----

  /** No restart and no return to Learning in `history[from..to]`. */
  ghost predicate Uninterrupted(history: seq<StageRecord>, from: nat, to: nat)
    requires from <= to <= |history|
  {
    forall k | from <= k < to :: !history[k].Restarted? && !IsMoveTo(history[k], Learning)
  }

  /** `digest` was adopted at `at`, is the latest one, and still stands at the end. */
  ghost predicate AdoptedAt(history: seq<StageRecord>, at: nat, digest: string) {
    && at < |history| && history[at] == Authorized(digest)
    && Uninterrupted(history, at, |history|)
    && forall k | at < k < |history| :: !history[k].Authorized?
  }

  ghost predicate ClimbedSince(history: seq<StageRecord>, at: nat, stage: LiveStage) {
    exists k :: at < k < |history| && IsMoveTo(history[k], stage)
  }

  lemma {:induction false} AuthorizationIsRecent(mode: Mode, history: seq<StageRecord>) returns (at: nat)
    requires LegalHistory(mode, history) && View(history).authorized.Some?
    ensures AdoptedAt(history, at, View(history).authorized.value)
    ensures View(history).stage != Learning
    ensures View(history).stage == Armed || IsReal(View(history).stage) ==> ClimbedSince(history, at, Armed)
    ensures IsReal(View(history).stage) ==> ClimbedSince(history, at, Canary)
    ensures View(history).stage == Live ==> ClimbedSince(history, at, Live)
  {
    var past, last := history[..|history| - 1], history[|history| - 1];
    if last.Authorized? {
      at := |past|;
    } else {
      at := AuthorizationIsRecent(mode, past);
      ClimbsExtend(past, last, at);
      assert history == past + [last];
      if last.Applied? {
        LegalAt(mode, history, |history| - 2);
        assert past[|past| - 1] == history[|history| - 2];
        assert past[..|past| - 1] == history[..|history| - 2];
        assert IsMoveTo(history[|past|], last.to);
      }
    }
  }

  lemma ClimbsExtend(past: seq<StageRecord>, last: StageRecord, at: nat)
    ensures forall stage :: ClimbedSince(past, at, stage) ==> ClimbedSince(past + [last], at, stage)
  {
    forall stage | ClimbedSince(past, at, stage)
      ensures ClimbedSince(past + [last], at, stage)
    {
      var k :| at < k < |past| && IsMoveTo(past[k], stage);
      assert IsMoveTo((past + [last])[k], stage);
    }
  }

  /** A real buy is journaled only in Canary or Live, by a process that itself
      adopted that readiness digest and then climbed through Armed and Canary,
      with no restart and no return to Learning since. */
  lemma RealBuysAreAuthorized(mode: Mode, history: seq<StageRecord>, n: nat) returns (at: nat)
    requires LegalHistory(mode, history) && n < |history| && history[n].BuyIntent?
    ensures mode == LiveMode && View(history[..n]).stage in {Canary, Live}
    ensures AdoptedAt(history[..n], at, history[n].digest)
    ensures ClimbedSince(history[..n], at, Armed) && ClimbedSince(history[..n], at, Canary)
  {
    LegalAt(mode, history, n);
    at := AuthorizationIsRecent(mode, history[..n]);
  }

  /** The climb is possible: one authorization leads to Live and to a real buy. */
  lemma LiveIsReachable(nonce: string, digest: string) returns (history: seq<StageRecord>)
    ensures LegalHistory(LiveMode, history) && View(history).stage == Live
    ensures history != [] && history[|history| - 1] == BuyIntent(digest)
    ensures View(history[..|history| - 1]).stage == Live
  {
    var climb := ClimbTo([], Learning, Eligible);
    Extend(LiveMode, climb, Consumed(nonce));
    climb := climb + [Consumed(nonce)];
    Extend(LiveMode, climb, Authorized(digest));
    climb := ClimbTo(climb + [Authorized(digest)], Eligible, Armed);
    climb := ClimbTo(climb, Armed, Canary);
    climb := ClimbTo(climb, Canary, Live);
    Extend(LiveMode, climb, BuyIntent(digest));
    history := climb + [BuyIntent(digest)];
  }

  lemma ClimbTo(past: seq<StageRecord>, from: LiveStage, to: LiveStage) returns (history: seq<StageRecord>)
    requires LegalHistory(LiveMode, past) && View(past).stage == from && OneStepUp(from, to)
    requires to == Armed ==> past != [] && past[|past| - 1].Authorized?
    ensures LegalHistory(LiveMode, history) && View(history).stage == to
    ensures View(history).authorized == View(past).authorized && View(history).used == View(past).used
  {
    Extend(LiveMode, past, Staged(from, to, true));
    Extend(LiveMode, past + [Staged(from, to, true)], Applied(to, false));
    history := past + [Staged(from, to, true)] + [Applied(to, false)];
  }
}
