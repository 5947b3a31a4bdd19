# Verification of vibe-loop's budget ledger, stop protocol and scheduling loops

This project models the parts of vibe-loop whose correctness is hardest to see from the code, and
proves what they promise. The state-changing code is modelled as classes and methods with loops; each
method is proved equal to a specification function, and the results are lemmas about those functions.

**The budget ledger** (`src/vibe_loop/budget.py`). A journal of reservations, terminals and decisions
is replayed in two passes into the in-memory state, compared with caps, and from time to time folded
into a checkpoint by two atomic file replacements. `Store` holds the classes (`LedgerFile`,
`BudgetStore`); every public method is proved equal to one `Operations.Step` on the two files. A run is
a sequence of steps in the order in which they held the journal lock, whichever process they came from;
a history also holds calls and compactions that died on the way.

| module | what it holds |
|---|---|
| `Common` | options, results, filtering |
| `Ledger` | rows, the terminal validator, replay, loading, consumption |
| `Replaying`, `Consuming` | what one more row does to a replay and to a cap |
| `Compacting` | folding, reloading, crash points |
| `Operations`, `Admission`, `Runs` | the calls as steps, when a launch is admitted, and the invariant of every history |
| `Invisibility`, `Visibility` | the ledger that compacts against one that never does, and where that shows |
| `Caps`, `Spending` | the caps as the ledger shows them, and as all the rows ever written add up |
| `Settlement`, `Failures`, `Auditing` | closing and recovery, runs in which they report success in vain, counts |
| `Store` | the classes and loops |

**Stopping a supervisor** (`autopilot.py`, `processes.py`). `ProcessTree` finds the owned
descendants of verified roots; `Environments` is a world that may answer anything and keeps a ghost trace
of lookups, signals, polls and closes; `Drain` and `StopProtocol` are the protocols run against it.

**Loops and readers**. `PlanningGate` is the native-planning spend gate, `IdleWait` the idle waiter,
`Activity` the event tracker and the summary that replays it, `DocLinks` the searches of the link checker.

## What the code does that its comments do not say

- A crash between the two compaction writes makes the next load raise in every generation, the first
  included, as long as the new checkpoint is valid; the comment at `budget.py:1357-1362` expects the
  first to stay replayable (`Compacting.CrashBetweenWrites`). The ledger then stays unreadable
  (`Runs.HistoryLoads`).
- `reconcile` and `release` report success, but write a row that every replay refuses, when the caller
  names another run or an unknown reason; the reservation stays live
  (`Settlement.ReconcileClosesIff`, `Settlement.ReleaseClosesIff`, with a run from the empty ledger in
  `Failures.MisnamedSettlementShows`).
- A reservation made with an empty run id cannot be closed: every sweep reports it as recovered again
  (`Settlement.RecoveryIdempotent`, `Failures.NamelessRunShows`).
- `reserve` reads its clock before it takes the lock (`budget.py:659`). If another store compacts with a
  later clock in between, a charge that is still inside a window is missed, for every windowed cap and
  every such pair of clocks (`Visibility.StaleClockShows`); `Visibility.FoldHorizonExact` gives the exact
  horizon. The caps are then overspent: what the ledger still shows stays within them
  (`Caps.NoOversubscription` has no condition on clocks), but the rows ever written do not. They stay
  within a cap at exactly the clocks from which it clears the newest folding horizon
  (`Spending.SpendWithinCap`, `Spending.SpendExact`), and `Spending.StaleOverspends` is a history after
  which they exceed it by the charge that was missed.
- Reusing a closed id drops its earlier charge from every limit (`Consuming.ConsumptionAfterReserve`). If
  the id was folded away, an admitted reuse is answered differently by the compacting ledger, and that is
  the only call that is (`Invisibility.CompactionInvisible`, `Visibility.FoldedReuseShows`).
- A refused terminal that stays in the journal is counted again after each compaction
  (`Auditing.CompactionKeepsIntegrity`).
- A folded decision row with an unknown label, or with a negative warning count that brings the folded
  total below zero, makes the new checkpoint invalid, so the compacted ledger no longer loads
  (`Compacting.CompactionReloads`, `Compacting.NegativeWarningsDoNotReload`). No row the store writes is
  like that.
- `stop` leaves the supervisor suspended in exactly one case: the first reading of the roots found none,
  the SIGSTOP was delivered, and the wait for it then raised (`autopilot.py:4727-4737`, against
  `4738-4750`). In every other case a SIGCONT is attempted
  (`StopProtocol.StopVerifiedDetachedAutopilot`).
- The supervisor is not always suspended before it is terminated. It is not exactly when there are roots
  but the process table read by the drain owns no process of theirs: the drain then returns before its
  hook (`autopilot.py:3566-3567`). In that case only, workers that the second reading finds are
  terminated while the supervisor runs.

## Model

| member | source | states |
|---|---|---|
| Replaying.ReplayAfterReserve | src/vibe_loop/budget.py:431-441 | A reserved row of the next generation makes its id live, whatever the id's past; everything else in the book is unchanged. |
| Replaying.ReplayAfterClose | src/vibe_loop/budget.py:442-461 | Exactly once: a terminal changes the replay only if its id is live and it validates, and then only closes that id; a duplicate, orphan, wrong-generation, wrong-run or malformed one changes nothing. |
| Replaying.ReplayAfterDecision | src/vibe_loop/budget.py:394-461 | A decision row changes no reservation, terminal or counter of the replay. |
| Replaying.RefusalIsCounted | src/vibe_loop/budget.py:442-461 | A refused terminal raises exactly one integrity counter, that of its class, by one. |
| Replaying.AtMostOneAcceptance | src/vibe_loop/budget.py:447-461 | In every journal a closed reservation has exactly one accepted terminal row, and any other id has none. |
| Replaying.TerminalsAccounted | src/vibe_loop/budget.py:447-461 | In every journal the terminal rows that name an id are as many as the closed reservations plus the refusals counted over all classes: none is lost or counted twice. |
| Replaying.RefusedChangeNothing | src/vibe_loop/budget.py:447-461 | Appending any number of refused terminals leaves the book, and so the live set and every limit, as it was. |
| Replaying.LoadAfterAppend | src/vibe_loop/budget.py:1122-1159 | Appending a row to a ledger that loads gives one that loads, as the replay of the longer journal beside the same checkpoint. |
| Consuming.ConsumptionAfterReserve | src/vibe_loop/budget.py:593-613 | A reservation replaces whatever its id used before by its declared allowance in every limit that matches it; so the charge of a closed id that is reused drops out. |
| Consuming.ConsumptionAfterClose | src/vibe_loop/budget.py:568-613 | Closing a live reservation replaces its declared allowance by its charge in every matching limit whose window holds it. |
| Consuming.ConsumptionShrinks | src/vibe_loop/budget.py:276-284 | With an unchanged book no limit's consumption grows as time passes. |
| Compacting.KeptReplay | src/vibe_loop/budget.py:1269-1355 | Replaying the rows a compaction keeps, with the cumulative sums it writes, gives the old book without the folded reservations. |
| Compacting.FoldKeepsConsumption | src/vibe_loop/budget.py:1269-1365 | Folding keeps the consumption of every cumulative limit, and of every windowed limit whose window starts after the horizon. |
| Compacting.NextCheckpointValid | src/vibe_loop/budget.py:491-553 | The checkpoint a compaction builds passes the validator if and only if each folded decision row has a known label and the folded warning total is not negative. |
| Compacting.CompactionReloads | src/vibe_loop/budget.py:1269-1365 | A completed compaction loads if and only if the folded labels are known and the warning total stays non-negative; the load is the folded book in the next generation, its digest matched. |
| Compacting.CompactionKeepsConsumption | src/vibe_loop/budget.py:1269-1365 | After a completed compaction every configured limit reads the same at every later time. |
| Compacting.CompactionNeverAdds | src/vibe_loop/budget.py:1269-1365 | No compaction that reloads makes a limit read more, at any clock. |
| Compacting.CrashBetweenWrites | src/vibe_loop/budget.py:1122-1154 | Between the two writes a load raises, in every generation; only a first compaction whose new checkpoint is not valid loads as before. |
| Compacting.CrashSafety | src/vibe_loop/budget.py:1356-1365 | From every ledger that loads, at every crash point, a load raises or reads the same consumption as before, for every configured limit and later time. |
| Compacting.NegativeWarningsDoNotReload | src/vibe_loop/budget.py:1320-1322 | A concrete aged decision row with a negative warning count after whose compaction the ledger does not load. |
| Runs.WrittenRowsReplay | src/vibe_loop/budget.py:1000-1020 | The rows any call writes, replayed from the longer journal, give the state the call holds in memory. |
| Runs.CompactionKeepsInv | src/vibe_loop/budget.py:1269-1365 | Any number of compactions of a reachable ledger reload: the invariant survives each one. |
| Runs.StepKeepsInv | src/vibe_loop/budget.py:616-1020 | Every step, with or without compaction, keeps the invariant, and never raises a corruption error. |
| Runs.HistoryLoads | src/vibe_loop/budget.py:1122-1154 | Over every history, with calls and compactions dying anywhere, the ledger keeps the invariant or fails closed for good, and the latter only after a compaction died between its two writes. |
| Invisibility.SamePlan | src/vibe_loop/budget.py:625-1020 | Two ledgers in the simulation relation plan the same rows and reply for every call, except a reserve that is admitted under a folded id; the caps a reserve checks must clear the folding horizon. |
| Invisibility.SimFold | src/vibe_loop/budget.py:1269-1365 | Folding one side at any horizon keeps the relation between a compacted and a plain ledger, for every clock and cap that clears the newest horizon. |
| Invisibility.SimStep | src/vibe_loop/budget.py:625-1267 | One call, with compaction on one side only, answers the same and keeps the relation, under the same two conditions; ids closed but not folded may be reused. |
| Invisibility.ReuseShows | src/vibe_loop/budget.py:665-676 | A reserve admitted under a folded id is always answered differently by the two ledgers. |
| Invisibility.CompactionInvisible | src/vibe_loop/budget.py:1269-1365 | Over every run whose reserves check only caps that clear the newest folding horizon, whatever the order of the clocks, every call is answered as by a ledger that never compacts if and only if no reserve is admitted under a folded id. |
| Invisibility.HistoryCrashSafety | src/vibe_loop/budget.py:1122-1365 | Along every such history with crashes anywhere, the ledger fails closed, or every completed call was answered as by a ledger that never compacts, the live set is the same and every cap reads the same wherever it clears the newest horizon. |
| Visibility.FoldHorizonExact | src/vibe_loop/budget.py:1269-1305 | A cap reads the same in every reachable ledger after folding at a horizon if and only if it is cumulative or its window, seen from the clock, starts no earlier than the horizon. |
| Visibility.FoldedReuseShows | src/vibe_loop/budget.py:665-676 | For every windowed cap, a run from the empty ledger that reuses a folded id and is answered differently. |
| Visibility.StaleClockShows | src/vibe_loop/budget.py:657-664 | For every windowed cap and every pair of clocks, a run from the empty ledger in which a reserve checks the cap at the earlier clock after a compaction at the later one, and is answered differently. |
| Admission.AdmissionExact | src/vibe_loop/budget.py:662-748 | A reserve of an id that is not live is admitted if and only if consumption plus the declared allowance fits under every matching cap. |
| Caps.AdmitWithinCap | src/vibe_loop/budget.py:662-748 | Right after an admission every matching cap holds, whatever was charged before and whether or not a compaction followed. |
| Caps.NoOversubscription | src/vibe_loop/budget.py:662-748 | For every history of calls whose accepted charges stay within their declared allowance, in any interleaving, with clocks in any order and crashes anywhere, the ledger fails closed or shows every cap as kept at every clock no earlier than the newest admission. |
| Spending.LedgerReadsSpent | src/vibe_loop/budget.py:1269-1365 | Over every history that reserves no folded id again, crashes included, the ledger fails closed or reads every cap as all the rows ever written do, wherever the cap clears the newest horizon. |
| Spending.SpendWithinCap | src/vibe_loop/budget.py:657-748 | No overspending: over every such honest history, one that fails closed included, all that was ever reserved and charged stays under every cap, at every clock no earlier than the newest admission from which the cap clears the newest horizon. |
| Spending.StaleOverspends | src/vibe_loop/budget.py:657-664 | For every positive cap, clock and horizon that it does not clear, a history with that newest horizon after which all rows hold one unit more than the cap. |
| Spending.SpendExact | src/vibe_loop/budget.py:657-748 | A cap holds of all the rows, over every such history with a given newest horizon, if and only if it clears that horizon or is zero. |
| Settlement.ReconciliationAccepted | src/vibe_loop/budget.py:967-1020 | The row a reconcile writes validates if and only if it carries the reservation's own non-empty run id and a known reason. |
| Settlement.ReleaseAccepted | src/vibe_loop/budget.py:852-885 | The row a release writes validates if and only if it carries the reservation's own non-empty run id. |
| Settlement.ReconcileClosesIff | src/vibe_loop/budget.py:752-776 | A reconcile of a live reservation reports success; it closes it exactly under its own run id and a known reason, and otherwise changes nothing in the book. |
| Settlement.ReleaseClosesIff | src/vibe_loop/budget.py:852-885 | The same of a release, exactly under the reservation's own run id. |
| Settlement.RecoverySound | src/vibe_loop/budget.py:887-965 | A sweep closes exactly the live reservations whose owner is not protected and whose run can be named, each once, at the reported metric or the fail-safe amount; every other entry of the book is unchanged. |
| Settlement.RecoveryIdempotent | src/vibe_loop/budget.py:887-965 | A second sweep with the same answers recovers nothing if and only if the first could close all it swept. |
| Failures.MisnamedSettlementShows | src/vibe_loop/budget.py:752-885 | Launching and then settling under another run or an unknown reason reports success twice, and the reservation is as live as before. |
| Failures.NamelessRunShows | src/vibe_loop/budget.py:887-965 | After a launch without a run id every one of any number of sweeps reports it recovered, and none closes it. |
| Auditing.SharesSplit | src/vibe_loop/budget.py:1038-1050 | Consumed plus reserved, as the projection sums them, is the consumption that admission reads. |
| Auditing.CompactionKeepsCounts | src/vibe_loop/budget.py:1488-1525 | Compaction keeps the reported counts of reservations, decisions and warnings. |
| Auditing.CompactionKeepsIntegrity | src/vibe_loop/budget.py:1335-1339 | Compaction keeps the malformed and unknown counts; each refused terminal that stays is counted once more, exactly. |
| Store.CollectReservations | src/vibe_loop/budget.py:431-447 | The first pass collects order, last reservation, generation counts and pending terminals of the journal. |
| Store.ApplyTerminalRows | src/vibe_loop/budget.py:448-461 | The second pass accepts for each reservation its first valid terminal, and counts each refusal under its class. |
| Store.LedgerStateOf | src/vibe_loop/budget.py:394-461 | The two passes together are the replay specification. |
| Store.Consumed | src/vibe_loop/budget.py:593-613 | The accumulator loop computes a limit's consumption. |
| Store.FoldReservations | src/vibe_loop/budget.py:1269-1305 | The fold loop computes the folded ids, the cumulative sums and the tally. |
| Store.FoldDecisionRows | src/vibe_loop/budget.py:1306-1324 | The decision loop folds exactly the aged decisions and tells whether there was one. |
| Store.RemainingRows | src/vibe_loop/budget.py:1340-1355 | The rewrite keeps exactly the rows that were not folded, in order. |
| Store.BudgetStore.ReadJournal | src/vibe_loop/budget.py:1169-1231 | Reads rows and counters, or raises exactly when a header is out of place or malformed. |
| Store.BudgetStore.LoadState | src/vibe_loop/budget.py:1122-1154 | The state is the replay of both files, or a corruption error when they do not match. |
| Store.BudgetStore.PrepareCompaction | src/vibe_loop/budget.py:1269-1356 | Computes the checkpoint and journal of the compaction specification. |
| Store.BudgetStore.CompactUpTo | src/vibe_loop/budget.py:1356-1365 | Run up to a crash point, a compaction leaves exactly the files of that point. |
| Store.BudgetStore.Compact | src/vibe_loop/budget.py:1258-1267 | A compaction call is one step, and answers true exactly when something was folded. |
| Store.BudgetStore.MaybeCompactUnlocked | src/vibe_loop/budget.py:1253-1256 | Compacts exactly when the journal has reached the threshold. |
| Store.BudgetStore.CheckLimits | src/vibe_loop/budget.py:677-699 | The binding and the warning caps, in configuration order. |
| Store.BudgetStore.AdmitOrDeny | src/vibe_loop/budget.py:677-748 | Appends a denial, or a reservation and its admission, as planned. |
| Store.BudgetStore.ReserveLaunch | src/vibe_loop/budget.py:625-748 | A reserve call is one step: same files, same reply or error. |
| Store.BudgetStore.ReconcileUnlocked | src/vibe_loop/budget.py:967-1020 | Appends the terminal of a live reservation and records it in the state, or does nothing. |
| Store.BudgetStore.Reconcile | src/vibe_loop/budget.py:752-776 | A reconcile call is one step. |
| Store.BudgetStore.ReleaseReservation | src/vibe_loop/budget.py:852-885 | A release call is one step. |
| Store.BudgetStore.SweepLive | src/vibe_loop/budget.py:911-965 | The sweep writes one terminal for each live reservation judged abandoned or resolved. |
| Store.BudgetStore.RecoverAbandoned | src/vibe_loop/budget.py:887-965 | A recovery call is one step. |
| Store.BudgetStore.LimitReports | src/vibe_loop/budget.py:1030-1071 | Each cap's committed total equals the consumption used for admission; remaining, utilization, warning and exceeded are those of that total. |
| Store.BudgetStore.Projection | src/vibe_loop/budget.py:1024-1094 | Loads or raises as every call does; its caps, reservation, decision, warning and corruption counts and its compaction data are those of the loaded state and journal. |
| Store.ProjectionKept | src/vibe_loop/budget.py:1024-1094 | A projection before and after a compaction agree on every cap's committed total and on the reservation, decision and warning counts. |
| ProcessTree.Walker.Walk | src/vibe_loop/processes.py:237-246 | The mutating recursion adds a node and all it owns, closed under child links, and terminates on cyclic tables. |
| ProcessTree.DepthMemo.DepthOf | src/vibe_loop/processes.py:258-265 | The memoised depth recursion terminates on cyclic tables and, on acyclic ones, puts every child deeper than its parent. |
| ProcessTree.CollectOwnedDescendants | src/vibe_loop/processes.py:218-267 | Returns, without duplicates, exactly the nodes reachable through child links from a root whose birth id matches; on an acyclic table every node precedes its parent. |
| Drain.WaitForVerifiedStop | src/vibe_loop/autopilot.py:3143-3176 | Quiet is answered only after an observed exit or an observed stopped state of the same process; failure exactly when a probe raised; each blocker has its cause in the trace. |
| Drain.PinCandidates | src/vibe_loop/autopilot.py:3582-3626 | Looks candidates up in order; success means each was vetted and is pinned or vanished, a blocker names a candidate with that fault. |
| Drain.SignalAll | src/vibe_loop/autopilot.py:3643-3660 | SIGTERM goes to the pinned processes in order; a failure reports exactly those still alive. |
| Drain.AwaitExit | src/vibe_loop/autopilot.py:3661-3689 | The wait loses nobody: drained and remaining partition the candidates, each drained one was seen gone and each remaining one alive. |
| Drain.DrainOwnedProcessTree | src/vibe_loop/autopilot.py:3537-3692 | All or nothing on identity: a blocker or a refusing hook means no SIGTERM; the candidates are those the one process table in the trace shows as owned, and each is gone or pinned and then verified before the first signal; with a hook the supervisor was seen quiet before the first SIGTERM; success drains exactly them; every opened descriptor is closed exactly once on every path; every blocker has its cause in the trace, and the hook's failure is answered exactly when the SIGSTOP or the wait failed. |
| StopProtocol.Admit | src/vibe_loop/autopilot.py:4635-4696 | No signal is sent while the supervisor is identified; going on means the process is the recorded leader of its own group and session. |
| StopProtocol.DrainFirst | src/vibe_loop/autopilot.py:4697-4769 | The first drain: going on means its part of the trace is a completed drain of the roots, or with none the supervisor's suspension, which is in force exactly unless the drain had no candidates; no SIGTERM precedes the supervisor's quiescence; giving up has its cause in the trace and leaves the supervisor suspended only on the one forgotten path. |
| StopProtocol.DrainLate | src/vibe_loop/autopilot.py:4771-4865 | The second look: going on means that the roots were read again between two clocks before the deadline and that the rest of the trace is a completed drain of the late ones; giving up has its cause in the trace and ends with a SIGCONT, whether or not the supervisor is suspended. |
| StopProtocol.Terminate | src/vibe_loop/autopilot.py:4867-4903 | One SIGTERM, then one SIGCONT if the supervisor is suspended; it fails exactly when either errs. |
| StopProtocol.AwaitStop | src/vibe_loop/autopilot.py:4905-5065 | Reports stopped if and only if the workers' reconciliation left no blocker and no lock was retained, right after an observed exit and an observed released lock (unlocked, or held by another named run: 3851-3863); each other answer has its cause in the trace. |
| StopProtocol.StopVerifiedDetachedAutopilot | src/vibe_loop/autopilot.py:4592-5067 | The whole protocol, read off the trace: descriptors balance; the supervisor is left suspended if and only if the first reading found no roots, SIGSTOP was delivered and the wait raised; before its one SIGTERM the roots were read and completely drained, read again and the late ones drained, each time before the deadline; nobody is terminated before it was suspended and seen quiet, unless there were roots and the logged table owns none of their processes; stopped if and only if reconciled cleanly; every drained process was seen gone and every remaining one alive; every refusal has its cause in the trace. |
| PlanningGate.PlanningOutcomeBackoff | src/vibe_loop/autopilot.py:6948-7069 | The reverse scan and the dictionaries compute the two gates' specification, the later deadline winning, with its outcome label. |
| PlanningGate.SortedPermutes | src/vibe_loop/autopilot.py:7043-7045 | Sorting the launch times keeps every one of them. |
| PlanningGate.CapCloses | src/vibe_loop/autopilot.py:7043-7058 | The daily ceiling closes the gate exactly while the window holds the allowed number of launches. |
| PlanningGate.DeadlineExact | src/vibe_loop/autopilot.py:6948-7069 | With unchanged records the gate is closed at a later time if and only if it was closed with more than the elapsed seconds remaining. |
| PlanningGate.RollingCeiling | src/vibe_loop/autopilot.py:8149-8153 | In every run that records launches only through an open gate, no rolling day holds more than the allowed number of counted launches. |
| IdleWait.WaitForIdleChange | src/vibe_loop/autopilot.py:8698-8861 | Terminates for any clock and oracles; the trace justifies the answer both ways: a reload, a stop, a waking probe or an adapter event in time is answered at once and nothing else is, and the deadline exactly when none was and the budget is spent or the clock has reached it; sleeping plus credited adapter time stays within the interval; at most one delay passes before each poll. |
| IdleWait.DoublingsAreLog | src/vibe_loop/autopilot.py:8849-8849 | The number of delay doublings is the base-2 logarithm of maximum over initial delay, rounded up. |
| IdleWait.SumAtLeast | src/vibe_loop/autopilot.py:8849-8849 | All delays but the first doublings are the maximum. |
| IdleWait.PollBound | src/vibe_loop/autopilot.py:8730-8847 | With a steady clock polls are fewer than the doublings plus one per maximum delay in the interval, plus one. |
| Activity.BuildEmission | src/vibe_loop/activity.py:269-310 | The loop builds the emission of a batch: its counts per type, and gate result or latest type. |
| Activity.AgentActivityTracker.Flush | src/vibe_loop/activity.py:261-267 | Emits exactly the pending batch, or nothing. |
| Activity.AgentActivityTracker.ObserveLine | src/vibe_loop/activity.py:201-259 | Everything valid that was observed is, in order, in the emitted batches or pending; no batch exceeds 32 events; a batch is emitted exactly when the event is immediate or the batch is due. |
| Activity.SummarizeActivityRecords | src/vibe_loop/activity.py:469-582 | The loop over records computes the replay specification: counts, record count and newest activity time. |
| Activity.Conservation | src/vibe_loop/activity.py:469-582 | For distinct valid positions, summarising a run's emissions counts each type as often as it was observed, up to the cap, which is what the tracker counts. |
| Activity.TrackerConservation | src/vibe_loop/activity.py:188-310 | The same of a tracker object just flushed: its summarised records equal its own counts. |
| Activity.EventsAndLast | src/vibe_loop/activity.py:556-582 | For the same runs the summary's record count is the number of observations, and its last activity the newest of their times. |
| Activity.ReplayIgnored | src/vibe_loop/activity.py:481-492 | Repeating any records, in any order, changes nothing. |
| Activity.RebatchIgnored | src/vibe_loop/activity.py:494-555 | Observing the same stream positions again, with other batch boundaries and at other times, leaves every count, the record count and the last activity as they were. |
| DocLinks.ReachableDocuments | scripts/check-md-links.py:187-202 | Exactly the documents with a link path of at most the allowed hops from a root, on every graph. |
| DocLinks.NearestReachable | scripts/check-md-links.py:212-233 | A reachable document at minimum undirected distance; none if and only if the component holds no other reachable document. |

## Left out

- File-system detail: JSON text, temporary names, `os.replace` and UTF-8. A journal is a sequence of parsed or malformed lines and each replacement is one atomic step.
- A torn last line; a field of the wrong type where the code would raise from `int(...)`.
- Floats: charges are whole micro-units (the code rounds each to six decimals), times are integers, and `_RECHECK_EPSILON` is dropped.
- Hashes and digests are taken to be collision free; the order in which a checkpoint lists its sums is kept as first written rather than sorted.
- Lock backends: the journal lock is taken to be mutual exclusion, so calls are steps in some order; all stores share one configuration.
- Usage filtering, route evidence, list truncation, label normalisation and decision formatting in `budget.py`; `reconcile_run` and `reconcile_reservation`, which select ids and then reconcile them.
- Store.BudgetStore.Projection: does not return the per-provider route evidence, which is formatting over the same rows.
- Caps.NoOversubscription: requires charges within the declared allowance, because a reported metric may exceed it; right after an admission the cap holds without that condition (`Caps.AdmitWithinCap`).
- Invisibility.CompactionInvisible: requires that the caps a reserve checks clear the newest horizon, because for every windowed cap that does not there is a run that is answered differently (`Visibility.StaleClockShows`); not every such run is.
- Spending.SpendWithinCap: a closed id that is reused keeps only its newest use in the rows' replay, as in the ledger's own; reuse of a folded id is excluded, because the replay of all rows then has two reservations of one generation.
- Real processes, pidfds, signal handlers and threads: only the injected callables, which may answer anything. A completed sleep of positive length is taken to advance the monotonic clock.
- `collect_owned_stop_roots` and `reconcile_drained_workers` are oracles, as are lock status and the backend deadline; `append_autopilot_stopped_record` is not modelled.
- Drain.DrainOwnedProcessTree: errors other than the ones the code catches, raised by a poll or a close, are not part of the environment.
- `process_group_is_live`, a single boolean expression.
- Key collisions between an anonymous planning record and a cycle id that starts with a NUL character.
- Error texts and events kept by the idle waiter; an adapter that raises an unexpected error.
- Activity.SummarizeActivityRecords: does not return the activity classes, the usage and the phase durations, which are copied or formatted from single records.
- `parse_native_activity` and timestamps' text.
- The command line, evaluation, release, rendering, redaction and configuration loading.
