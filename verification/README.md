# Verified model of the options trading engine

A live options engine in Rust trades through a broker API that may time out,
lose an answer, fill an order partly or change its mind, and it must come back
from a crash without losing track of money. These Dafny modules model the parts
where that is decided and prove what they keep, for every input, every broker
behaviour and every journal prefix a crash can leave. Check everything with
`dafny verify dfyconfig.toml`.

## The modules

| file | what it models |
|---|---|
| `common.dfy`, `orders.dfy` | machine integers and text; order reports and the two relations every report must satisfy |
| `journal.dfy`, `replay.dfy`, `replay_laws.dfy` | the append-only journal, the restart replay of its order events, and the laws of that replay |
| `tracking.dfy` | the broker client: one POST, then polling, one last read, one cancel, confirmation |
| `order_trail.dfy`, `posts.dfy`, `app.dfy` | the events one order leaves behind, what a crash can hide of it, and the running program that writes them: intent, POST, tracking, outcome, entry and exit |
| `fills.dfy`, `operation_ids.dfy` | the way from a fill to its position event, and the ids of orders over many runs |
| `trading.dfy`, `recovery.dfy`, `live_book.dfy` | engine and portfolio, recovery of positions, and the refinement between live state and journal |
| `stage_history.dfy`, `stages.dfy`, `regression.dfy` | Learning, Eligible, Armed, Canary, Live: legal histories over any number of runs, the machine that produces them, and the rule that ends a stage |
| `paper_broker.dfy` | the paper broker and the dynamic-limit simulator |
| `lunch.dfy` | the sliding window of quote changes |
| `sorting.dfy`, `boosting.dfy`, `drawdown.dfy`, `bootstrap.dfy`, `iv_rank.dfy`, `experiments.dfy` | the statistics and the temporal experiments |
| `datasets.dfy`, `sealed_experiment.dfy` | the registry of signed dataset manifests, its one-use holdouts, and the sealed experiment built on it |
| `build_identity.dfy` | the framing behind the build hash |
| `sizing.dfy` | how many contracts an entry orders |

How the proofs are put together. The broker is an arbitrary choice (`:= *`) at
every call, every append, sync and file creation may fail, and a crash keeps a
prefix of the journal (at least the synced part where an order or a stage has to
survive; any prefix for the ledger). Protocols are described by a grammar of what
may happen next (`LegalAfter`, `Trail`, `LegalTrace`, `LegalHistory`); the
imperative classes are proved to stay inside the grammar, and the main properties
are lemmas about every sentence of it. The statistics are loops proved against
definitions that do not mention the loop's own state. A definition that the program
and its specification share is also stated over the fields it reads, in lemmas named
`...Exactly` or `...InFields`. Numbers that the program holds as `f64` are reals
here.

## What the proofs found

- A close that is retried reuses its `-close` operation id (src/app.rs:2311).
  Whatever the broker answers, the journal of an order stays recoverable if and
  only if its id is unused, or stands for the same request whose last report is
  absent or a pending one without a broker id (`OrderIsSafeExactly`).
  `RetriedCloseCannotBeRecovered` is a cancelled close, as the order path writes
  it, after which no retry is safe. `ExecuteOrder` and `ClosePosition` ask for
  exactly that condition.
- An intent is synced before its POST, so no crash hides an order that was sent,
  in whatever state the processes before were (`App.TradingApp.Restart`). The money
  is less safe: the snapshot at the end of a step is synced but the open and close
  events it counts are only flushed (src/persistence.rs:298), and without a
  snapshot a restart replays nothing (src/app.rs:441). The ledger equals the
  surviving journal exactly when `CrashIsHarmless` says so; `CrashCanBeHarmful` is
  the input.
- After such a loss the snapshot is ahead of the journal, new events reuse the
  sequences it counts, and the next restart skips them (src/app.rs:477): a
  completed return to Learning can be undone (`CompletedReturnIsHidden`,
  `CompletedReturnCanBeUndone`), and position events are lost. A move or an event
  is recovered if and only if the snapshot's sequence was at most the length of the
  journal when it was appended (`MoveIsRecovered`, `JournaledEventIsRecovered`);
  a process can compare the two at its start, and its first snapshot ends the
  danger (`HiddenMovesNeedLostEvents`, `SaveSnapshot`).
- A whole fill can be forgotten. Between its synced report and the position event
  the telemetry line, the economics (src/app.rs:1699-1711) and the append may fail,
  and the program may stop. The order is then settled and no position knows of it:
  exactly when the journal ends at the report (`EntryIsForgottenExactly`,
  `ExitIsForgottenExactly`). `FilledAboveLimitIsForgotten` is an input, and
  `EnterPosition` says exactly when a position opens.
- An order id is new after a restart unless an id whose counter was lost carries
  the same timestamp (`NextIdIsNewExactly`); live time moves on, a replayed source
  may not (`ReplayedFrameRepeatsTheId`).
- A changed strategy does not always start in Learning: the reset comes before
  the journaled stage changes behind the snapshot are applied
  (src/app.rs:467-490), and the second comparison (src/app.rs:507-512) finds the
  fingerprint already replaced. A stop between a synced move to Canary and its
  snapshot then starts the changed strategy in Canary
  (`ChangedStrategyCanStartInCanary`); `ChangedStrategyStartsInLearning` is the
  exact condition.
- The profit factor test of the regression rule never decides anything that the
  mean has not decided (`ProfitFactorAddsNothing`).
- Recovery events are idempotent for money without exception, but a close whose
  evidence carries no trade id is recorded twice (`EvidenceRepeats`).
- The lunch monitor differs from the full history only for a minimum of zero
  updates, where it can be seen that a silent symbol was evicted
  (`SufficientUpdates`).
- No day falls further than the whole list, for all results, if and only if the
  trades of each day stand together (`DailyWithinTotalExactly`); nothing in the
  function sorts them.
- Only the returns of a running process are guaranteed flat: a restart that finds
  another strategy starts in Learning, or in a later journaled stage, whatever is
  open.
- The dynamic simulator stores its execution without looking for an earlier one
  of the same id, unlike the fixed-limit path (src/broker.rs:487-489, 525-532);
  `SimulateDynamicLimit` states the overwrite.

## Model

| member | source | states |
|---|---|---|
| Orders.ValidReportExactly | src/broker.rs:52-123 | Over the fields: a report is valid if and only if it is about the request, fills no more than it, names no blank broker id, and status, filled part, price and broker id go together as the table says |
| Orders.LegalStepExactly | src/broker.rs:126-163 | Over the fields: what may come after a report, both directions |
| Orders.TerminalExactly | src/iol_client.rs:1810-1815 | A report is terminal if and only if nothing but itself may follow it |
| Orders.FollowsIsTransitive | src/broker.rs:126-163 | Equal-or-validated-successor is transitive over all reports, so dropping intermediate reports never hides an illegal transition |
| Orders.TerminalIsFrozen | src/broker.rs:126-163 | After a terminal report the only report that may follow is that very report |
| Orders.StatusDeterminesFill | src/broker.rs:52-123 | For a valid report the status fixes which part of the request is filled, and money filled means a positive price and a broker id |
| Journals.Journal.Append | src/persistence.rs:262-302 | An append adds exactly one event at the end or leaves the events as they were; it does not make anything durable |
| Journals.Journal.Sync | src/persistence.rs:304-307 | A successful sync makes everything appended durable; no event changes |
| Replay.UnresolvedLocalOrders | src/app.rs:4118-4261 | The loop over three collections succeeds exactly on accepted journals, returns exactly the set of pending ids, and its error is the one of the first offending event |
| Replay.RejectedPrefix | src/app.rs:4118-4261 | The first error is final: no later event repairs a rejected replay |
| ReplayLaws.OtherOperationsUntouched | src/app.rs:4122-4259 | An order event never changes what the replay knows about another operation |
| ReplayLaws.ReplayProjects | src/app.rs:4118-4261 | Replaying one operation's own events gives the projection of replaying everything |
| ReplayLaws.ReplayDecomposes | src/app.rs:4118-4261 | An interleaved journal is accepted if and only if each operation's own sub-journal is (and no legacy event is anonymous); pendingness decomposes the same way |
| ReplayLaws.PendingIsLastEvent | src/app.rs:4192-4201 | An id is returned if and only if it has order events and the last one does not settle it |
| ReplayLaws.PendingExactly | src/app.rs:4192-4201 | Over status and quantity: an operation is pending if and only if its last order event is not a report that is Executed, Rejected, or Cancelled with nothing filled |
| ReplayLaws.PartFilledIsPending | src/app.rs:4192-4201 | No money is dropped: in every accepted journal an order whose last report filled some but not all of it is pending, whatever followed that report |
| ReplayLaws.LegacyIsIntent | src/app.rs:4135-4160 | A legacy submission stands for an intent of its fields, with its limit as both prices |
| ReplayLaws.ReplayRemembers | src/app.rs:4118-4261 | The replay state holds exactly the journaled intents and the last reports |
| ReplayLaws.AcceptanceIsPairwise | src/app.rs:4118-4261 | Acceptance stated without any replay state: every event is legal against the events before it, both directions |
| ReplayLaws.ReportsOnlyAdvance | src/app.rs:4167-4202 | In every accepted journal, for any two reports of one operation: fills never fall or exceed the one request behind them, a broker id never changes once set, a terminal report is frozen |
| ReplayLaws.OneIntent | src/app.rs:4124-4166 | In an accepted journal all intents of one operation id are the same request |
| OrderTrail.CrashAnywhereReplays | src/app.rs:4118-4261 | Every prefix of an accepted journal is accepted, so a crash at any point leaves a journal that replays |
| OrderTrail.FreshIsUnknownToTheBook | src/app.rs:4118-4122 | An id without order events is in none of the three collections |
| OrderTrail.TrailIsAboutOneOrder | src/app.rs:2417-2555 | All events the order path writes are about the ordered operation |
| OrderTrail.TrailReplays | src/app.rs:2389-2639 | Whatever the broker does and wherever the trail of an order under a usable id stops, the journal replays, the order is pending unless its last event resolves it, and the other pending orders are unchanged |
| OrderTrail.OrderIsSafeExactly | src/app.rs:2311 | For every accepted journal and every request: the journal stays recoverable under all trails of the order if and only if its id is unused, or stands for the same request whose last report is absent or a pending one without a broker id |
| OrderTrail.FreshMayOrder | src/app.rs:2311 | An id without order events may always be used |
| OrderTrail.RetriedCloseCannotBeRecovered | src/app.rs:2301-2319 | The failing input: after intent, accepted report and cancellation of a close, written by the order path itself, nothing is pending and no retry under its id is safe; at another price the retry's intent is already refused |
| Posts.BackedSurvives | src/app.rs:2417-2429 | A crash that keeps the synced events keeps every POST backed by its intent |
| Posts.BackedOrderIsKnown | src/app.rs:4118-4261 | Every order whose POST left is known to the replay by its request, and pending exactly when the last event about it does not resolve it |
| Posts.PostedOrderSurvives | src/app.rs:4118-4261 | For every cut of the journal behind the intent: the kept part is accepted, knows the order, and holds it as pending exactly when its last event does not resolve it |
| Tracking.ParseOrderExecution | src/iol_client.rs:1755-1808 | Whatever the broker answers: an accepted payload is a valid report for the request with exactly its status, quantity, price and trimmed id, and a refused one would not be valid |
| Tracking.TrimmedIdExactly | src/iol_client.rs:1801-1803 | A blank broker id is none; any other is what trimming leaves |
| Common.TrimExactly | src/iol_client.rs:1801-1803 | Trimming leaves everything between the first and the last character that is no white space |
| Tracking.ChainConcat | src/iol_client.rs:609-712 | Validated chains of reports compose across polling phases |
| Tracking.ChainIsOneStep | src/iol_client.rs:609-712 | A chain of validated reports amounts to one legal step from its first to its last, keeping the broker id and never lowering the fill |
| Tracking.IolClient.SubmitOrder | src/iol_client.rs:575-604 | At most one POST is sent whatever happens to it; an answered one gives exactly the decoded answer, any other an error |
| Tracking.IolClient.OrderStatus | src/iol_client.rs:784-793 | One GET of this broker order per call, giving exactly the decoded answer or its error |
| Tracking.IolClient.CancelOrder | src/iol_client.rs:795-805 | One cancellation of this broker order per call, acknowledged or not; the repetition of a DELETE that was refused with 401 belongs to it |
| Tracking.IolClient.WaitForOrderSignal | src/iol_client.rs:751-782 | The wait lasts the whole interval unless the stream reports activity on this order, which is then counted |
| Tracking.IolClient.PollOrderUntil | src/iol_client.rs:718-749 | Only reads of this broker order, at least one; nothing after a terminal one; without an outcome exactly after the timeout, or with an error after a fatal answer; at most timeout/interval + 2 reads plus one per correlated signal |
| Tracking.IolClient.PollThenReadOnce | src/iol_client.rs:625-665 | Polling plus the last read before the cancel decides exactly when a terminal report was reached |
| Tracking.IolClient.CancelAndConfirm | src/iol_client.rs:666-712 | One cancel, then reads only; Ok exactly when they reach a terminal report by validated steps |
| Tracking.IolClient.TrackOrderToTerminal | src/iol_client.rs:609-712 | For every sequence of answers: Ok if and only if the initial report is valid and the reads form a validated chain to a terminal report, which is returned; every read and the one cancel are of the order the broker named; it gives up only after a fatal answer or a cancel, cancels only after the timeout, reads after the cancel, until the second timeout if it was acknowledged; nothing sent after a terminal read; bounded number of calls |
| Tracking.ReadBound | src/iol_client.rs:718-749 | The arithmetic of the polling bound |
| App.TradingApp.Gate | src/app.rs:2394-2415 | Over the fields: exactly the real orders (live mode, Canary or Live, the broker's feed) without a verified multiplier and the real buys without the standing authorization are refused, before any order event is journaled |
| App.TradingApp.JournalIntent | src/app.rs:2416-2417 | The intent is journaled first, and synced first when the order is real |
| App.TradingApp.PostOrder | src/app.rs:2417-2429 | The POST leaves only when the whole journal is synced and ends with its intent; what was synced is recorded with it |
| App.TradingApp.FollowOrder | src/app.rs:2438-2464 | The tracked outcome is terminal, valid and one legal step after the accepted report; tracking fails only if no terminal report was accepted |
| App.TradingApp.SendAndTrack | src/app.rs:2420-2474 | One order is sent, with the synced journal behind it; the answer is a report the journal can take next, or the order is left in doubt |
| App.TradingApp.RecordTerminal | src/app.rs:2513-2555 | The outcome becomes the last report of the journal, durable on the real route |
| App.TradingApp.ExecuteOrder | src/app.rs:2389-2555 | For any usable id, any broker behaviour and any failing I/O: refused exactly when the gate says so; a POST only in live mode in Canary or Live on the broker's feed, at most one, when the old journal and its intent are synced, and the accepted report synced before the first read, and every later call about the order its answer named; any other order is answered by the paper broker, whose execution under that id is the one journaled; the journal gains only the trail of this order; while the disk does not fail its outcome is journaled exactly when the calls (or the paper broker) show one, and it is that one; an Ok is exactly a journaled outcome with no failure behind it, any other error leaves the order in doubt; a real buy carries the authorised readiness digest |
| App.TradingApp.RecordUnknownOrder | src/app.rs:2609-2639 | An unknown outcome is journaled and synced, the id joins the pending ones and the flags that block later steps are set |
| App.TradingApp.HandleUnfilledOrder | src/app.rs:2557-2607 | A partial fill adds exactly its exposure event with the quantity less what was filled; in real trading it blocks and halts |
| App.TradingApp.ExecuteAndSettle | src/app.rs:2321-2329 | A price comes back exactly for a journaled whole fill behind which neither disk nor telemetry failed, and while the disk does not fail a fill is journaled exactly when it is due |
| App.TradingApp.EnterPosition | src/app.rs:1679-1816 | A position opens if and only if the order was filled whole, its economics are accepted, and telemetry, sync and append succeeded: then its event follows the trail, engine and portfolio hold exactly the filled contracts, on the paper route at the market plus slippage; a whole fill without a position is settled in the journal, not pending and not in the ledger; filled buys less filled sells less the open position changes by exactly such a fill |
| App.TradingApp.ClosePosition | src/app.rs:2301-2387 | The intent and any POST are a sale of exactly the position's contracts and symbol under its id plus -close at 0.995 of the market; the position closes if and only if it was filled whole and telemetry, sync and append succeeded: one closed trade, one P&L change, on the paper route at the market less slippage; a sale without its close event is not pending and the position stays open; contracts are conserved as for an entry (for a close id that `OrderIsSafeExactly` allows) |
| Fills.NetAfterTrail | src/app.rs:2389-2555 | The trail of an order adds its signed contracts to the account once if it was filled whole, and else nothing |
| Fills.OnlyTheFillSettles | src/app.rs:4192-4201 | In the trail of a filled order only the report of the fill settles it |
| Fills.EntryIsForgottenExactly | src/app.rs:1686-1794 | For every cut of an entry's trail and its position event, replayed from any ledger: the fill is neither pending nor a position if and only if the cut ends at its report, and the event restores it |
| Fills.ExitIsForgottenExactly | src/app.rs:2320-2355 | The same for an exit: the sale is settled while the position is still open if and only if the cut ends at its report |
| Fills.FilledAboveLimitIsForgotten | src/app.rs:1699-1711 | The failing input: an entry reported filled above its limit, which the report validation allows |
| App.TradingApp.Promote | src/app.rs:3530-3634 | A step of the stage machine changes no order: what is pending stays pending and every POST stays backed, in every process |
| App.TradingApp.SaveSnapshot | src/app.rs:2771-2801 | A saved snapshot anchors the ledger of any process, also of one whose snapshot was ahead of its journal |
| App.TradingApp.Restart | src/app.rs:440-503 | After any process, and any crash that keeps the synced events: every order that was ever POSTed is known, the list is exactly the unresolved orders; the process starts unless snapshot and journal contradict each other, which cannot follow a faithful or an anchored process; and the exact conditions for its ledger to be anchored and to be the replay of the journal |
| OperationIds.OperationIdsDiffer | src/app.rs:3711-3718 | Under one configuration two ids are the same text exactly for the same timestamp and counter |
| OperationIds.CloseIdsAreApart | src/app.rs:2311 | No close takes the id of an entry |
| OperationIds.NextIdIsNewExactly | src/app.rs:451 | Over any number of runs: the next id is new if and only if no id whose counter a restart lost (or, once the counter is saturated, no id at all) has this timestamp and the next counter |
| OperationIds.LaterTimestampIsNew | src/app.rs:3711-3718 | Below saturation an id is new once time has passed every id whose counter was lost |
| OperationIds.ReplayedFrameRepeatsTheId | src/app.rs:472-476 | The failing input: a replayed source brings the same frame again after a stop before the snapshot |
| OperationIds.NewIdMayOrder | src/app.rs:1680 | A new id satisfies what the order path asks of its journal |
| Trading.TradingEngine.OpenPosition | src/trading.rs:359-377 | A position opens only when none is open and it is well formed; state and position are then fixed by it |
| Trading.TradingEngine.Close | src/trading.rs:424-429 | Closing clears the position, records the reason and idles; without a position nothing changes |
| Trading.Portfolio.Open | src/portfolio.rs:33-43 | A new well-formed position enters the open set once; closed trades and P&L stay |
| Trading.Portfolio.Close | src/portfolio.rs:45-64 | Closing moves exactly that position to the closed trades and adds its P&L; an unknown id changes nothing |
| Recovery.ConsistentIsSingleton | src/app.rs:4356-4374 | The recovery check says exactly that the portfolio's open set is the engine's position |
| Recovery.ApplyRecoveryEvent | src/app.rs:4263-4354 | Applying one event to the live objects is one step of the ledger, fails exactly when that step does, records the evidence, and a kill switch event leaves the state it should |
| Recovery.SnapshotReplacesPrefix | src/app.rs:443-487 | Recovering from the state after a prefix equals recovering from the beginning |
| Recovery.LedgerStepIsIdempotent | src/app.rs:4272-4325 | Applying a position event twice in a row equals applying it once, for money |
| Recovery.EvidenceExactly | src/app.rs:4325-4335 | Over the fields: which closes add which trade to which record, and that nothing else does |
| Recovery.EvidenceRepeats | src/app.rs:4325-4335 | Evidence is idempotent if and only if the event is not a close whose recorded trade has no id |
| Recovery.RecoveryIsIdempotent | src/app.rs:4263-4354 | Money and evidence together: repeating an event is harmless exactly under that condition |
| Recovery.EveryPrefixRecovers | src/app.rs:4263-4374 | Every prefix of a recoverable journal recovers, to a consistent ledger |
| Recovery.RecoveredIsUsable | src/app.rs:4272-4290 | Recovery leads from consistent ledgers with a well-formed position to such ledgers |
| Recovery.RealisedIsSumOfClosed | src/portfolio.rs:45-64 | In every recovered ledger realised P&L is the sum of the closed trades, and the risk manager heard of each once |
| LiveBook.OtherEventsAreInvisible | src/app.rs:4263-4354 | Order, stage and halt events do not change the recovered ledger |
| LiveBook.FaithfulIsAnchored | src/app.rs:443-487 | A ledger that is the replay of the whole journal is also that of snapshot and tail |
| LiveBook.AppendKeeps | src/persistence.rs:262-302 | A journaled event that takes effect in memory keeps memory equal to the replay of the journal, and to snapshot plus tail, whichever held |
| LiveBook.Book.Note | src/persistence.rs:262-302 | Journaling an event that is not about a position changes no ledger and keeps every tie between memory and disk |
| LiveBook.Book.OpenRecorded | src/app.rs:1786-1800 | Journal first, then engine and portfolio; what tied memory to the disk still does, also when the append fails |
| LiveBook.Book.CloseRecorded | src/app.rs:2345-2366 | The same for a close: one closed trade, one P&L change, one risk record |
| LiveBook.Book.CurrentIsConsistent | src/app.rs:4356-4374 | In every process engine and portfolio hold the same position, or none |
| LiveBook.LostEventsMatter | src/app.rs:468-480 | Two prefixes of the program's journal recover the same ledger if and only if no position event lies between them |
| LiveBook.Book.SaveSnapshot | src/app.rs:2771-2801 | A snapshot is the current ledger with the sequence of the last event and anchors any process, or nothing changes |
| LiveBook.Book.ReplayTail | src/app.rs:477-487 | The loop over the live objects succeeds exactly when the events recover, and then leaves what they recover |
| LiveBook.AnchoredRecovers | src/app.rs:443-487 | After an anchored process, whatever a crash keeps can be recovered |
| LiveBook.JournaledEventIsRecovered | src/app.rs:477 | An event is there after the next restart if and only if the snapshot does not count its place in the journal, or it changed nothing |
| LiveBook.RestartVerdict | src/app.rs:440-487 | After a faithful process: what the next one starts from equals the replay of any surviving prefix if and only if a snapshot counts no lost position event, or there is no snapshot and no position event |
| LiveBook.CrashCanBeHarmful | src/persistence.rs:287-299 | The failing input: a power loss takes the flushed open event that the synced snapshot counts |
| LiveBook.Book.Restart | src/app.rs:440-503 | After any process, for every prefix a crash can leave, with or without a snapshot: when the next process starts, the ledger it starts with, when that is snapshot plus tail and, after a faithful one, when it is the replay of the surviving journal |
| StageHistory.MovesAreStepsOrFlatReturns | src/app.rs:3680-3709 | In every history a running process moves one step up the chain or, journaled while flat, back to Learning |
| StageHistory.RecoverableSinceSettled | src/app.rs:3693-3707 | The stages the history lets a restart find are the one last settled on the disk and those journaled since, both directions; a move whose place the snapshot counts settles nothing |
| StageHistory.RestartRecoversSettledStage | src/app.rs:443-483 | Across runs: a restart of the same strategy starts in the stage settled before the crash or in one journaled since |
| StageHistory.SettledStageSurvives | src/app.rs:443-483 | A stage settled by a snapshot, or by a move that the snapshot does not hide, with no move journaled since, is the stage of every later process of the same strategy; any other process starts in it or in Learning |
| StageHistory.CompletedReturnSurvives | src/app.rs:3662-3709 | A completed return to Learning is not undone by restarts, under any strategy, unless the snapshot counts the place of its event |
| StageHistory.HiddenMovesNeedLostEvents | src/app.rs:477-490 | Only a process that itself found its snapshot ahead of its journal makes a move the snapshot hides, and only before it saves one |
| StageHistory.CompletedReturnCanBeUndone | src/app.rs:3693-3709 | The failing history: a process in Live finds its snapshot ahead, returns to Learning, and the next one is in Live again |
| StageHistory.ReadonlyStopsAtEligible | src/app.rs:3555-3558 | In readonly nothing beyond Eligible is journaled, entered or recovered; no authorization is claimed and no real buy journaled |
| StageHistory.UsedIsConsumed | src/app.rs:4045-4068 | The used nonces are exactly those claimed in some run |
| StageHistory.ArmedWasPaid | src/app.rs:3600-3609 | Each journaled entry into Armed was paid by a nonce claimed immediately before |
| StageHistory.EachNonceArmsOnce | src/app.rs:4053-4068 | Across runs, two entries into Armed were paid by different nonces |
| StageHistory.AuthorizationIsRecent | src/app.rs:3680-3709 | A standing authorization was adopted in this process, after the last return to Learning, and the stage was climbed since |
| StageHistory.RealBuysAreAuthorized | src/app.rs:2405-2417 | Every journaled real buy is in Canary or Live, with the digest adopted since the last Learning or restart, after climbing through Armed and Canary |
| StageHistory.LiveIsReachable | src/app.rs:3530-3634 | The climb is possible: one authorization leads to Live and to a real buy |
| Stages.LastChangeDecides | src/app.rs:477-490 | The stage after the tail of the journal is that of its last stage change, or the one it started from |
| Stages.MoveIsRecovered | src/app.rs:477-490 | A journaled move is found again if and only if the snapshot's sequence was at most the length of the journal when it was appended |
| Stages.CompletedReturnIsHidden | src/app.rs:477-490 | The failing input: a synced return to Learning at a place that the snapshot already counts |
| Stages.ChangedStrategyStartsInLearning | src/app.rs:467-490 | A changed strategy starts in Learning if and only if no stage change is journaled behind the snapshot or the last one leads there |
| Stages.ChangedStrategyCanStartInCanary | src/app.rs:467-490 | The failing input: a stop between the synced move from Armed to Canary and its snapshot |
| Stages.LiveControl.TransitionLiveStage | src/app.rs:3680-3709 | A legal move, or nothing: journaled and synced before the stage, limits and authorization change; success means that a snapshot holds the new stage; the limits are those configured for the stage it is in; a return to Learning forgets the authorization |
| Stages.LiveControl.EnterStage | src/app.rs:3697-3701 | In Canary the limits are the configured canary ones, in every other stage the normal ones; and from here on the same strategy restarts in the stage if and only if the snapshot does not count the place of the move |
| Stages.LiveControl.ApplyPendingLearningReturn | src/app.rs:3662-3678 | A pending return happens exactly when no position is open |
| Stages.LiveControl.ConsumeAuthorization | src/app.rs:4053-4068 | Succeeds exactly for a nonce that was never claimed and whose link succeeds; a link that then fails still uses the nonce up |
| Stages.LiveControl.MaybePromoteLive | src/app.rs:3530-3634 | Where a promotion goes, in both directions: to the target that stage, flags, account and authorization determine, or nowhere after a failure, which needs something to do; an approval is withdrawn exactly when its report no longer holds, Live starts without trades, and the limits are those of the stage; the history stays legal |
| Stages.LiveControl.ArmIfAuthorized | src/app.rs:3554-3609 | Arming happens exactly with an unused valid authorization, a clear account and no blocker, and adopts the readiness digest read before |
| Stages.LiveControl.RecordStageTrade | src/app.rs:3236-3263 | A trade in Learning only decides the approval; in a later stage it schedules a return if and only if the loss of the day reaches the configured limit of that stage, or the trades of the stage end in enough losses, or the latest window gained nothing or fell by more than twice that limit |
| Regression.TradingRegressed | src/learning.rs:462-483 | The streak and window loops decide exactly that definition of a regression |
| Regression.FactorExactly | src/learning.rs:498-515 | The profit factor is gains over losses, unlimited only for gains without a loss, zero without either |
| Regression.ProfitFactorAddsNothing | src/learning.rs:478-479 | The profit factor test never decides: a window below one already has a mean of at most zero |
| Regression.WinEndsStreak | src/learning.rs:468-477 | After a winning trade only the window can send the stage back |
| Stages.LiveControl.RefreshLiveAccount | src/app.rs:3636-3660 | The account check changes no stage, and adopts at most the one position the account reports |
| Stages.LiveControl.EnterCanary | src/app.rs:3610-3620 | Canary is entered exactly with a clear account, or nothing happens after a failure |
| Stages.LiveControl.Snapshot | src/app.rs:2771-2801 | A saved snapshot settles the current stage and repairs one that was ahead of the journal |
| Stages.LiveControl.Restart | src/app.rs:440-512 | After any process: a restart forgets the authorization and starts in the stage of the last change journaled behind the snapshot, without one in the snapshot's stage (Learning for a changed strategy), and in Learning without a snapshot, under the configured limits of that stage; under the same strategy it is a stage the history lets it recover; it records whether its snapshot is ahead, and the history stays legal |
| PaperBrokers.ScheduleEndsAtLimit | src/broker.rs:390-400 | No attempt offers worse than the request limit and the last one offers all of it |
| PaperBrokers.ScheduleIsLinear | src/broker.rs:390-400 | Attempt k of n offers k/n of the way from the passive side of its frame to the limit; a passive side past the limit gives the limit |
| PaperBrokers.CapIsLeast | src/broker.rs:379 | The attempts are the least of the frames and the attempts allowed, at least one |
| PaperBrokers.FillsAreAtTheTouch | src/broker.rs:414-434 | Over the fields of the frame: a buy fills at an ask, a sale at a bid within the attempt's limit, for the size there beyond the queue up to what remains; an attempt cancelled without a fill met a touch outside its limit |
| PaperBrokers.FillsOnlyGrow | src/broker.rs:387-466 | At every point of every trace filled + remaining is the quantity, and the fill never falls |
| PaperBrokers.NeverTwoLiveOrders | src/broker.rs:402-465 | At most one live order at any point; a replacement follows directly an acknowledged cancellation |
| PaperBrokers.NotionalWithinLimit | src/broker.rs:414-434 | The fills together cost no more (or earn no less) than the request limit |
| PaperBrokers.CostSign | src/broker.rs:490-503 | Reported slippage and adverse selection are at most zero exactly for prices no worse than the reference |
| PaperBrokers.CostIsInBasisPoints | src/broker.rs:490-503 | And they are the difference in basis points, of the reference for a buy and of the price for a sale |
| PaperBrokers.SlippedPriceExactly | src/broker.rs:533-537 | The paper price is the market times one plus the slippage for a buy, minus for a sale |
| PaperBrokers.SlippageIsAdverse | src/broker.rs:533-537 | Paper slippage never improves a price |
| PaperBrokers.PaperBroker.SubmitLimit | src/broker.rs:523-565 | Over the fields: which requests are invalid; a repeated request gets the same execution, a conflicting reuse is refused, a new one is filled whole at the slipped price exactly when that respects the limit |
| PaperBrokers.PaperBroker.SimulateDynamicLimit | src/broker.rs:354-513 | Refuses exactly invalid orders and frames, over their fields; else the result is a legal trace under the limit schedule with a valid execution, average price within the limit and exact quality figures |
| PaperBrokers.RunAttempts | src/broker.rs:376-466 | The loop keeps the protocol, the filled quantity and the notional of the trace, and stops only when filled, uncertain or out of frames |
| PaperBrokers.RunAttempt | src/broker.rs:387-465 | One attempt ends filled, cancelled with acknowledgement, or stopped in doubt |
| PaperBrokers.TakeLiquidity | src/broker.rs:414-434 | A fill happens exactly when the touch respects the limit, for no more than the size beyond the queue and what remains |
| PaperBrokers.Settle | src/broker.rs:467-486 | The execution passes the report validation, its average times its quantity is the notional, and its status follows from the fill |
| LunchLiquidity.UnprunedCounts | src/app.rs:151-189 | Counting stored changes equals counting changes in the full history |
| LunchLiquidity.PruningKeepsCount | src/app.rs:179-185 | Pruned changes can never count again |
| LunchLiquidity.EvictedHasNoChanges | src/app.rs:187-188 | A symbol that was evicted has no change in the window |
| LunchLiquidity.LunchLiquidityMonitor.Observe | src/app.rs:152-189 | Observing a frame keeps every entry equal to the pruned summary of that symbol's whole history |
| LunchLiquidity.LunchLiquidityMonitor.SufficientUpdates | src/app.rs:191-212 | For a minimum of at least one: true if and only if the unbroken run of sightings began at least a window ago and has that many changes in the window ending now; for a minimum of zero, only while the symbol is not evicted |
| LunchLiquidity.SaturationCannotCount | src/app.rs:207-210 | Saturating subtraction of the window never changes a count |
| Boosting.ThresholdExactly | src/learning_model.rs:99-107 | A candidate threshold is the value at the rounded-down quarter index of the distinct values of the column |
| Boosting.DedupExactly | src/learning_model.rs:105 | The distinct values ascend in steps of at least 1e-12, start with the least, and every value is close above one of them |
| Boosting.StumpAddsItsSide | src/learning_model.rs:152-160 | A stump adds the learning rate times the leaf of the feature's side; a value at the threshold is on the left |
| Boosting.BaseScoreExactly | src/learning_model.rs:86-88 | The base score is the logarithm of the odds of the positive rate, kept a millionth away from none and all |
| Boosting.CountProfitableExactly | src/learning_model.rs:86 | The positive rate counts the profitable examples one by one |
| Boosting.UntrainableExactly | src/learning_model.rs:75-85 | What cannot be trained on, over the examples |
| Boosting.ErrorByLeaves | src/learning_model.rs:126-137 | Squared error of a stump splits into its two leaves |
| Boosting.MeanIsBestLeaf | src/learning_model.rs:124-125 | No leaf value beats the mean of its side |
| Boosting.MeansAreBest | src/learning_model.rs:110-137 | With mean leaves a split has the least error any leaf values can give it |
| Boosting.EvaluateSplit | src/learning_model.rs:108-137 | The loops compute a candidate split with mean leaves and its exact error, or skip it exactly when a side is empty |
| Boosting.BestStump | src/learning_model.rs:99-151 | The chosen stump has the least squared residual error of all stumps at all candidate thresholds, whatever their leaves |
| Boosting.NoWorseThanNothing | src/learning_model.rs:99-151 | Its error is at most that of the zero stump |
| Boosting.AddStump | src/learning_model.rs:152-160 | After a round the cached score of each example equals the score rebuilt from the stumps |
| Boosting.CachedScoreIsProbability | src/learning_model.rs:171-184 | The sigmoid of a cached score is what the model answers for that example, and the next residual is the outcome minus that answer |
| Boosting.BoostRound | src/learning_model.rs:93-160 | One round on cached scores picks the least-squares stump for the residuals recomputed from scratch |
| Boosting.Fit | src/learning_model.rs:68-169 | The whole training equals cache-free boosting: every stump is least-squares for the residuals of the stumps before it; None exactly for untrainable or unsplittable input |
| Boosting.RoundsNeverHurt | src/learning_model.rs:93-160 | In every round of a trained model the stump loses nothing against its own residuals |
| Drawdowns.MaxDrawdown | src/learning.rs:517-527 | The one-pass peak loop returns the largest fall of cumulative P&L over all pairs of points |
| Drawdowns.LargestDropIsUnique | src/experiments.rs:258-266 | That value is unique, so both drawdown loops agree |
| Drawdowns.MaxDailyDrawdown | src/learning.rs:529-544 | The result is the largest daily drawdown |
| Drawdowns.SliceDropsLess | src/learning.rs:517-527 | A stretch of trades cannot fall further than the whole |
| Drawdowns.DailyNeverExceedsTotal | src/learning.rs:529-544 | When the trades of each day stand together, no day falls further than the whole list |
| Drawdowns.SessionOrderKeepsDailyWithin | src/learning.rs:529-544 | So for trades in session order every daily drawdown stays within the total one |
| Drawdowns.DailyWithinTotalExactly | src/learning.rs:529-544 | For a sequence of days: every daily drawdown stays within the total one for all P&L values if and only if the trades of each day stand together |
| Drawdowns.SplitDayExceedsTotal | src/learning.rs:529-544 | The failing P&L for every day that is split by another |
| Bootstrap.BlockBootstrapLower95 | src/learning.rs:546-579 | The map and generator loops compute the block resampling bound, or nothing with fewer than two days |
| Bootstrap.StepIsUndone | src/learning.rs:563-566 | Each step of the generator can be undone, so no two states meet |
| Bootstrap.KnownStates | src/learning.rs:559-566 | Known states and seeds: the multiplier, the increment, the wrap and the mixed-in number of days |
| Bootstrap.BoundIsTwentyFifthSmallest | src/learning.rs:577-578 | The bound is the 25th smallest of the 1,000 resampled means |
| Bootstrap.BoundWithinValues | src/learning.rs:546-579 | The bound lies between the smallest and largest value, so all-positive evidence passes |
| Bootstrap.BoundIgnoresOrder | src/learning.rs:546-579 | In exact arithmetic the bound does not depend on the order of the trades |
| Sorting.SortAscends | src/learning.rs:577 | Sorting is an ascending permutation |
| Sorting.SortedElementHasRank | src/learning.rs:577-578 | Element k of the sorted list has at most k values below it and more than k at most it |
| Sorting.FilterCommutesWithSort | src/experiments.rs:79-101 | Filtering commutes with a stable sort, for every total preorder |
| Sorting.SortIsStable | src/experiments.rs:80 | Equal keys keep their order |
| Experiments.ClockExactly | src/experiments.rs:268-290 | Local time is three hours behind; hours, session days and minutes after half past ten are those of that clock |
| Experiments.AcceptedInFields | src/experiments.rs:183-195 | The accepted trades over their fields: late enough after the open, within the risk multiple on both sides, with a slope where asked for |
| Experiments.CountsInFields | src/experiments.rs:220-235 | They are counted, and counted by kind |
| Experiments.AdjustedExactly | src/experiments.rs:196-199 | An extra cost takes its basis points of price times contracts from the stressed P&L |
| Experiments.MeanExactly | src/experiments.rs:249-256 | An average times the count is the sum; nothing averages to zero |
| Experiments.AveragesInFields | src/experiments.rs:242-243 | The two expectancies are the averages of net and of stressed P&L after the extra cost |
| Experiments.CoverageInFields | src/experiments.rs:236-241 | Coverage is the accepted part of all trades |
| Experiments.SensitivityInFields | src/experiments.rs:210-220 | The cost table repeats the stressed average for ten, twenty-five and fifty basis points more |
| Experiments.Evaluate | src/experiments.rs:182-247 | The loops compute the metrics defined on the accepted trades |
| Experiments.ByHour | src/experiments.rs:204-209 | The hour map counts each accepted trade once |
| Experiments.ChooseVariant | src/experiments.rs:106-121 | Over the figures: none exactly when no variant has calls and puts; else the most stressed expectancy, then the most coverage, then the last |
| Experiments.ChoiceIsUnique | src/experiments.rs:106-121 | That determines the choice |
| Experiments.KindsPartition | src/experiments.rs:228-235 | Call and put observations add up to all observations |
| Experiments.RunTemporalExperiment | src/experiments.rs:74-133 | Selection and judgement on the two intervals of the sorted trades |
| Experiments.IntervalIsLocal | src/experiments.rs:79-101 | An interval of the sorted list is the sorted interval |
| Experiments.IntervalsInFields | src/experiments.rs:82-101 | The two intervals over the instants a trade opened: both ends belong, an end not given is open |
| Experiments.TakenInOrder | src/experiments.rs:80 | Trades are taken in the order they opened, and closed |
| Experiments.NamesAreLexicographic | src/experiments.rs:78 | Variants are taken by the first difference of their names, a prefix first |
| Experiments.NoLookAhead | src/experiments.rs:74-133 | Adding, removing or changing any trade outside the selection interval changes neither the selected variant nor the selection metrics |
| Experiments.OnlyTheIntervalsMatter | src/experiments.rs:74-133 | The whole result depends on the two intervals only |
| SealedExperiments.RunSealedTemporalExperiment | src/experiments.rs:138-180 | Succeeds only when the holdout was handed out for this manifest, never before, and judges on the signed intervals; a failed run was handed nothing |
| SealedExperiments.SignedIntervalsInFields | src/experiments.rs:155-177 | The intervals of a sealed run are those of partitions of the manifest with the role of selection and of sealed validation, both ends included |
| SealedExperiments.IntervalsAreDisjoint | src/experiments.rs:164-177 | No trade is used both to choose and to judge |
| SealedExperiments.HoldoutCannotSteer | src/experiments.rs:138-180 | Two runs whose trades differ in the sealed interval only select the same variant on the same metrics |
| IvRank.PointInTimeIvRank | src/iv_rank.rs:167-226 | The session map with eviction of its first key computes the percentile over exactly the latest window of session days |
| IvRank.RankInFields | src/iv_rank.rs:172-226 | Over the fields: which observations count, when there is a rank, and that the rank times the count is a hundred times those at most the current volatility |
| IvRank.EvictOldest | src/iv_rank.rs:191-196 | What the eviction loop keeps is the set of days with fewer than the window of later days |
| IvRank.WindowSize | src/iv_rank.rs:191-196 | The window holds all session days, or exactly as many as it has room for |
| IvRank.OnlyRelevantPastMatters | src/iv_rank.rs:172-190 | The rank depends only on strictly earlier, valid observations of the same underlying, kind and tenor |
| IvRank.RankIgnoresOrder | src/iv_rank.rs:167-226 | Permuting the history changes nothing |
| IvRank.RankIsMonotonePercentage | src/iv_rank.rs:214-220 | With a minimum of at least one session the rank is in 0..100 and never falls as the current volatility rises |
| Datasets.OneRoleAtATime | src/datasets.rs:309-333 | In a valid manifest an instant belongs to at most one partition |
| Datasets.ClashIsLeak | src/datasets.rs:370-389 | The overlap predicates find a clash if and only if some instant of some instrument is selected by one manifest and sealed by the other |
| Datasets.NeverClashesWithItself | src/datasets.rs:259-333 | A valid manifest never clashes with itself |
| Datasets.HoldoutsStayUnseen | src/datasets.rs:114-140 | In every reachable registry no instant of an instrument is both selected and sealed, by any two registered manifests |
| Datasets.HandedOutOnce | src/datasets.rs:142-208 | In every reachable registry each dataset's holdout was handed out at most once |
| Datasets.ValidateManifest | src/datasets.rs:259-333 | The program's checks, one by one, accept exactly the valid manifests |
| Datasets.ValidateEvaluator | src/datasets.rs:149-158 | An evaluator is trimmed, not blank, at most 128 bytes of UTF-8 and without control characters |
| Datasets.Utf8LengthExactly | src/datasets.rs:151 | The bytes of a text, code point by code point |
| Datasets.MarkerErrorExactly | src/datasets.rs:185-207 | Which refusal a marker in the way leads to, both directions |
| Datasets.Registry.EntriesExactly | src/datasets.rs:335-341 | The entries that count towards the limit are the dataset files and the directory of markers |
| Datasets.ValidateSignedManifest | src/datasets.rs:222-242 | Ok exactly for a valid, signed manifest of these very bytes |
| Datasets.Registry.RejectRegistryOverlap | src/datasets.rs:335-359 | In any listing order: Ok exactly when at most 10,000 entries exist, every file parses and verifies, and none clashes |
| Datasets.Registry.RegisterDataset | src/datasets.rs:114-140 | Exact success condition and exact new registry, with failing and torn writes; a registered file is never replaced |
| Datasets.Registry.ConsumeSealedHoldout | src/datasets.rs:142-208 | Exact success condition; the sealed partition is handed out only with a new marker, markers stay whatever happens, and the refusal says which marker stood in the way |
| BuildIdentity.NumberOfBigEndian | src/build_identity.rs:114-119 | Big-endian lengths decode to themselves |
| BuildIdentity.ParseUndoesStream | src/build_identity.rs:114-119 | A parser recovers the components from the framed stream |
| BuildIdentity.StreamUndoesParse | src/build_identity.rs:114-119 | The parser accepts nothing but such streams |
| BuildIdentity.StreamIsInjective | src/build_identity.rs:86-119 | Different component lists with lengths below 2^64 never feed the same bytes to the hash |
| BuildIdentity.UpdateComponent | src/build_identity.rs:114-119 | Four updates append one framed component |
| BuildIdentity.ConsistentMeansDeclaredOnce | src/build_identity.rs:106-112 | The manifest check holds if and only if the declared names are the source names in order, none twice |
| BuildIdentity.ExecutableBuildHash | src/build_identity.rs:86-104 | The loops hash the stream of sources then metadata, and only for a consistent manifest |
| BuildIdentity.SameHashSameBuild | src/build_identity.rs:84-104 | Equal identities mean equal builds or a collision of SHA-256 on the two streams |
| Sizing.CautionNeverRaises | src/app.rs:3088-3123 | VIX and lunch factors never raise the limits of the stage and leave room for one contract |
| Sizing.CautionScalesExactly | src/app.rs:3088-3123 | Over the fields: the limits of the stage, Canary's own in Canary, scaled by the factors that apply and by their product; a combined factor of one or more changes nothing |
| Sizing.ScaledSizeExactly | src/app.rs:3121 | The size is scaled down to whole contracts, at least one |
| Sizing.BudgetIsLeast | src/app.rs:3783-3811 | The budget is the least of the configured amount and the two balances of an operable account in pesos without debt, and nothing else has one |
| Sizing.CashInFields | src/app.rs:3742-3750 | Cash is price times contracts times multiplier, plus the percentage of a positive commission |
| Sizing.AffordableIsLargest | src/app.rs:3759-3781 | A count fits the position limit and the budget with fees if and only if it is at most the returned one |
| Sizing.QuantityExists | src/app.rs:1601-1617 | A paper order always has a quantity, a real one exactly with a verified statement of an account with a budget |
| Sizing.QuantityIsLargest | src/app.rs:1601-1650 | The ordered quantity is exactly the largest within position size, configured, available and immediate funds, and loss per trade |
| Sizing.FillsAreCovered | src/app.rs:1601-1666 | Whatever part fills at or below the limit costs no more than the least of the funds and risks no more than allowed |

## Left out

- App.TradingApp.ClosePosition: what the program does with a close id that `OrderIsSafeExactly` excludes is not followed further; such a journal may not replay.
- App.TradingApp.Restart: a disk that loses events it had synced is not modelled, nor is a recovery switched off by configuration.
- Stages.LiveControl.Restart: the same; the learning report, the stage's trades and the pending return found on the disk are inputs.
- LiveBook.Book.Restart: reading and checking the journal file, old snapshot formats and the refusal of an unreadable snapshot are not modelled.
- App.TradingApp.EnterPosition: the request and the price-dependent economics are inputs; `NewIdMayOrder` says when a generated id may be used.
- OperationIds.NextIdIsNewExactly: one configuration (mode and ticker) at a time.
- Journals.Journal.Append: a failed write that leaves a torn or a complete line behind is not modelled; here a failed append adds nothing.
- App.TradingApp.RecordUnknownOrder: no contract refuses a later order while the blocking flags are set; the steps that read them are left out.
- App.TradingApp.ExecuteOrder: the telemetry line is an outcome that may fail; its contents are not modelled.
- Stages.LiveControl.MaybePromoteLive: the statistical gates, readiness file, signature and account statement are inputs; the snapshot taken before learning is reset is modelled as a save, the learning epoch is not.
- Tracking.IolClient.PollOrderUntil: time is a clock of ticks where each read takes at least one; the bound needs a positive interval, and the counts of polls and signals are telemetry that no contract fixes.
- Tracking.IolClient.CancelOrder: the one repetition of the DELETE after a refused token counts as one cancel.
- Replay.UnresolvedLocalOrders: returns the set of ids; the source lists it sorted.
- Regression.TradingRegressed: decides the definition for up to 4,294,967,295 trades; beyond that the streak is cut to 32 bits as in the source.
- Recovery.ApplyRecoveryEvent: of the risk manager only the recorded closes are kept; whether it lets the kill switch be lifted is an input. Learning and trading evidence is not part of the live-equals-replay refinement.
- Bootstrap.BlockBootstrapLower95: too little evidence gives no value here, `-f64::MAX` in the source.
- IvRank.PointInTimeIvRank: the first and last observed instants and the text of a missing reason; the calendar day of an instant is a parameter, and the sort that only serves those instants is left out.
- IvRank.RankIsMonotonePercentage: with a minimum of zero sessions an empty window divides zero by zero, which has no value here and is NaN in the source.
- Boosting.Fit: the logistic function and the logarithm are parameters, and the checks for non-finite features disappear with the reals.
- Datasets.Registry.RegisterDataset: SHA-256, HMAC and the manifest encoding are parameters; size quotas, permissions, symbolic links and foreign files in the directory are not modelled.
- BuildIdentity.ExecutableBuildHash: SHA-256 is a parameter and strings are their bytes.
- Sizing.QuantityIsLargest: the economics of a position are an input, and non-finite numbers do not exist here.
- Floating-point rounding, overflow and NaN everywhere: reals.
- HTTP, tokens, WebSocket framing, JSON aliases and dates: the broker is an arbitrary sequence of decoded answers and errors.
- Hash chains, HMACs and size limits of the journal file, and the legacy schema versions: an event is appended or not.
- Portfolio metrics, the daily loss counters of the risk manager and the allowance check before an entry: shallow.
- The circuit breaker of market reads, the expanding walk-forward folds and the IV filter comparison: each step is a few branches over counters.
- The eligibility report of the exit is an input, and its failing to be saved is not modelled.
- The logistic filter: gradient descent in floating point; its nonlinear arm compares the raw feature count with the doubled one (src/learning_model.rs:262-272) and never yields a model.
- The filter cascade of an entry before sizing, account reconstruction beyond the position it adopts, and the manual commands: one-branch checks.
- Terminal interface, logs, messages, reports and command line.
