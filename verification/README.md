# WyreBox daemon: a verified model

WyreBox is a journal-first mail store: deliveries, flag changes, copies, facts and audit
records are appended to one journal, and a catalog is caught up from it. This project models
the daemon's stateful protocols and its encoders in Dafny and proves what stays true over whole
runs of passes, retries, sessions and requests. `dafny verify dfyconfig.toml` checks all of it.

| module | what it models |
|---|---|
| `Catchup` | the delivery catch-up pass: runs of one account, holds, checkpoint, resume position |
| `CatchupDecisions` | what a pass decides, record by record and without the loop |
| `MaterializationSpec` | the delivery materialization service as a state machine: full, post-ingest and retry passes, extraction, follow-up scan, refresh, backoff, one-shot retry sources, warning limiter |
| `MaterializationSafety`, `MaterializationRefresh`, `MaterializationWarnings`, `MaterializationRuns` | its invariants, step by step and over every run |
| `MaterializationStatus`, `MaterializationOrder` | the published status: when it is truthful, what an aborted catch-up changes, in which order held accounts are listed |
| `MaterializationTrace` | the trace of every pass, and what is counted and concluded from it |
| `MaterializationService` | the same service as a class whose methods are proved to be the steps of the state machine |
| `ConnectionServer`, `ConnectionServerSafety`, `ConnectionServerRuns` | accept, session and stop threads as an interleaving of single accesses to two reference counts, the connection list and the in-flight counter; the invariant and what it means for every run |
| `CopyMove`, `CopyMoveUids`, `CopyMoveRecords` | COPY and MOVE: checks, source resolution, UID reservation, journal record, and the other writers of the catalog; the UIDs and the records of every run |
| `EventText`, `EventStream` | the text of mail events with a reader for it, and the cursor-driven stream over a growing journal |
| `LikePattern`, `Csv` | the subject search condition and the CSV output, with independent definitions of LIKE, of "contains ignoring case" and of a CSV reader |
| `FactPayload`, `FactService` | the binary fact payload in both directions, and interleaved fact requests with their audit records |
| `FrameStream` | length-prefixed frames and the request/response session loop |
| `MailboxCatalog` | the LIST and SELECT queries and their agreement |
| `Basics` | options, byte-wise string order, sorting, cutting at separators, decimal numbers |

Code that updates state in place or loops over buffers is modelled by classes, arrays and loops;
each such method is proved against a function, and the properties are proved of that function.
What the world answers (catch-up verdicts, extraction, refresh, clocks, append failures, other
writers, handlers) enters as parameters, so every theorem is for all of its behaviours.
History variables (`log`, `failureRun`, `taken`, `owner`, `covers`, `pos`) record what happened;
operations read them only to bring them up to date.

## What does not hold as one might expect

- The header of the materialization service promises that an explicit catch-up that aborts
  leaves the status unchanged (wyrebox/daemon/wyrebox-daemon-delivery-materialization.h:108-112).
  An abort of the follow-up scan has already replaced the refresh holds, so the held accounts can
  change: `AbortedCatchUpCanChangeStatus`, and exactly from which states in
  `AbortedCatchUpIsInvisibleIff`.
- The same header promises held accounts in journal order. A post-ingest pass after an abort
  rescans from the checkpoint with the old holds and can append an earlier one behind them:
  `HoldsCanLeaveJournalOrder` is such a run, and `PostIngestPublishesInOrderIff` says from which
  states no pass can do it. Accounts held only at refresh follow in two ascending runs of names.
- `consecutive_failures` is a 32-bit counter: after 2^32 failures in a row the status reads OK
  while a retry is armed (`StatusWraps`), and a run is truthful throughout exactly when it never
  gets there (`StatusIsTruthfulIff`).
- A UID reservation reads and writes UIDNEXT in two statements: UIDs stay unique exactly when no
  other writer takes some in between (`UidsAreUniqueIff`, `UidsCanBeHandedOutTwice`).
- SELECT by id opens views that a mailbox of the same name hides from LIST
  (`ShadowedViewCanBeSelected`, exactly when in `SelectedByIdIsListedIff`).
- A record that does not decode stops the event stream of every account that asks for its type,
  not only of its own (`UndecodableRecordStallsForever`, `StreamCanStall`).
- A failed append in the middle of a fact request leaves facts without audit record
  (`UnauditedFactsIff`, `FactsCanStayUnaudited`).

## Model

| member | source | states |
|---|---|---|
| `Catchup.PassSound` | wyrebox/ingestion/wyrebox-delivery-catchup.c:306-468 | A pass, aborted or not, keeps materialized records materialized and never moves the checkpoint past uncommitted work; a completed pass starts its report with the holds passed in, names no account twice, and leaves every record it read materialized or held |
| `Catchup.PassAccounted` | wyrebox/ingestion/wyrebox-delivery-catchup.c:306-468 | No record of an account held on entry is materialized, and every newly materialized record outside view membership changes has its account in the report |
| `Catchup.CleanPassReachesEnd` | wyrebox/ingestion/wyrebox-delivery-catchup.c:306-468 | A pass from the checkpoint that holds nobody moves the checkpoint to the last durable record |
| `Catchup.ScanCursorNeverAborts` | wyrebox/ingestion/wyrebox-delivery-catchup.c:306-468 | A resume position that an earlier pass reported never makes a later pass fail to seek |
| `Catchup.PassHoldsOrdered` | wyrebox/ingestion/wyrebox-delivery-catchup.c:293-303 | Every reported hold names a record of its account, and the holds are in journal order when each record that may be newly held lies behind those carried in |
| `CatchupDecisions.ScanFailsIff` | wyrebox/ingestion/wyrebox-delivery-catchup.c:360-456 | A scan fails exactly when it gets to a run of an account not held whose verdict breaks it, and with that error |
| `CatchupDecisions.ScanHoldsExactly` | wyrebox/ingestion/wyrebox-delivery-catchup.c:360-460 | The new holds are exactly those of the rejected runs the scan gets to, with their messages, in journal order |
| `CatchupDecisions.ScanAppliesExactly` | wyrebox/ingestion/wyrebox-delivery-catchup.c:360-450 | Exactly the records of the runs it gets to and applies become materialized, and exactly their accounts are reported, view membership changes aside |
| `CatchupDecisions.ScanMovesCheckpoint` | wyrebox/ingestion/wyrebox-delivery-catchup.c:360-450 | Without holds carried in, the checkpoint moves over exactly the runs applied before the first that is not |
| `CatchupDecisions.PassAbortsIff` | wyrebox/ingestion/wyrebox-delivery-catchup.c:306-468 | A pass aborts exactly when it is blocked, cannot seek, reads a record without account, needs an unusable object store, or gets to a run that breaks it |
| `CatchupDecisions.BreakDecidesError` | wyrebox/ingestion/wyrebox-delivery-catchup.c:452-456 | The first run a pass gets to whose verdict breaks it decides the error of the abort |
| `CatchupDecisions.PassReportsExactly` | wyrebox/ingestion/wyrebox-delivery-catchup.c:461-468 | A completed pass reports the holds carried in and those of the runs it rejected, the accounts it applied, the number of records read and the journal end |
| `CatchupDecisions.PassCommitsExactly` | wyrebox/ingestion/wyrebox-delivery-catchup.c:306-468 | What a pass leaves in the catalog, aborted or not: what its scan applied, and a checkpoint that stays with holds carried in |
| `Catchup.CollectRun` | wyrebox/ingestion/wyrebox-delivery-catchup.c:306-468 | The loop that extends a run finds its end: the maximal stretch of deliveries of one account |
| `Catchup.IsAccountHeld` | wyrebox/ingestion/wyrebox-delivery-catchup.c:262-272 | The scan over the holds decides whether an account is held |
| `Catchup.AnyRecordLacksAccount` | wyrebox/ingestion/wyrebox-delivery-catchup.c:187-207 | The scan finds a record without account exactly when there is one after the start |
| `Catchup.HasDeliveryRecord` | wyrebox/ingestion/wyrebox-delivery-catchup.c:210-222 | The scan finds a delivered or appended message exactly when there is one after the start |
| `Catchup.MaterializeRuns` | wyrebox/ingestion/wyrebox-delivery-catchup.c:306-468 | The imperative loop over runs, with its commits to the store, is the functional scan |
| `Catchup.MaterializeAccountInboxes` | wyrebox/ingestion/wyrebox-delivery-catchup.c:306-468 | The whole imperative pass leaves the store and the report that the pass contract is proved of |
| `MaterializationSafety.StepKeepsRecordsSafe` | wyrebox/daemon/wyrebox-daemon-delivery-materialization.c:224-248 | Every operation keeps: each durable record at or before a present cursor is materialized or of a held account, the checkpoint leads nothing unmaterialized, a cursor implies holds, no account is held twice |
| `MaterializationSafety.FollowUpKeepsRecordsSafe` | wyrebox/daemon/wyrebox-daemon-delivery-materialization.c:506-529 | The follow-up pass, re-run with the old cursor and the old holds, keeps the same, aborted or not |
| `MaterializationSafety.OnlyFullPassesDropHolds` | wyrebox/daemon/wyrebox-daemon-delivery-materialization.c:556-577 | Anything but a completed full pass leaves the old holds as a prefix of the new ones |
| `MaterializationSafety.StepKeepsRetrySafe` | wyrebox/daemon/wyrebox-daemon-delivery-materialization.c:252-261 | Every operation keeps: an armed source is one the main loop holds, none is armed after stop, and otherwise one is armed exactly while failures are outstanding; the interval stays within its bounds |
| `MaterializationSafety.PendingRetryIsNeverReplaced` | wyrebox/daemon/wyrebox-daemon-delivery-materialization.c:579-589 | A failing catch-up or post-ingest pass keeps the very source that was armed; only a clean pass takes it away |
| `MaterializationSafety.DoublingIsExact` | wyrebox/daemon/wyrebox-daemon-delivery-materialization.c:579-586 | The guarded doubling equals the closed form for one more failure and never overflows an unsigned int |
| `MaterializationSafety.SetBackoffExactly` | wyrebox/daemon/wyrebox-daemon-delivery-materialization.c:776-788 | Changing the backoff keeps the closed form exactly when no retry has failed yet or both bounds are equal |
| `MaterializationSafety.StepKeepsBackoff` | wyrebox/daemon/wyrebox-daemon-delivery-materialization.c:540-542 | Every other operation keeps the closed form of the interval |
| `MaterializationRefresh.StepKeepsRefreshSafe` | wyrebox/daemon/wyrebox-daemon-delivery-materialization.c:385-499 | Every operation keeps: the pending accounts are exactly those queued and not settled since, no refresh runs for an account the last completed scan holds or before that scan read all extracted records, refresh holds name distinct pending accounts |
| `MaterializationRefresh.ScanBetween` | wyrebox/daemon/wyrebox-daemon-delivery-materialization.c:506-529 | On such a trace a completed scan lies between an extraction that journaled records and any later refresh |
| `MaterializationRefresh.RefreshPendingKeepsRefreshSafe` | wyrebox/daemon/wyrebox-daemon-delivery-materialization.c:469-499 | Refreshing keeps the books, and when nobody ends up held nobody is left pending, with or without a refresh function |
| `MaterializationRefresh.StepDropsNothing` | wyrebox/daemon/wyrebox-daemon-delivery-materialization.c:469-499 | While a refresh function is installed no account is dropped unrefreshed |
| `MaterializationWarnings.StepKeepsWarnings` | wyrebox/daemon/wyrebox-daemon-delivery-materialization.c:591-599 | Every operation keeps: a failure warned exactly when the limiter demands it, and the remembered signature and time are those of the last warning since a clean pass |
| `MaterializationWarnings.RepeatedWarningsAreSpaced` | wyrebox/daemon/wyrebox-daemon-delivery-materialization.c:591-599 | Two consecutive warnings with one signature, no clean pass between and the service running, are at least the maximum interval apart |
| `MaterializationWarnings.ChangedFailureWarns` | wyrebox/daemon/wyrebox-daemon-delivery-materialization.c:591-599 | A failure whose signature differs from the last warning always warns |
| `MaterializationWarnings.FirstFailureWarns` | wyrebox/daemon/wyrebox-daemon-delivery-materialization.c:591-599 | The first failure ever, and the first after a clean pass, always warns |
| `MaterializationWarnings.SignatureIgnoresOrder` | wyrebox/daemon/wyrebox-daemon-delivery-materialization.c:274-305 | The signature depends only on the multiset of faults, not on hold order or journal position |
| `MaterializationWarnings.SignatureIsTheMultiset` | wyrebox/daemon/wyrebox-daemon-delivery-materialization.c:274-305 | For ids and messages free of the two separators, equal signatures mean equal multisets, and conversely |
| `MaterializationWarnings.SeparatorsPrintAlike` | wyrebox/daemon/wyrebox-daemon-delivery-materialization.c:274-305 | With separators inside a message, two failures and one failure have the same signature |
| `MaterializationRuns.EveryRunIsSafe` | wyrebox/daemon/wyrebox-daemon-delivery-materialization.c:644-722 | Every state any run of operations reaches satisfies the record, retry, refresh and warning invariants together |
| `MaterializationRuns.RecordsBeforeCursorAreSafe` | wyrebox/daemon/wyrebox-daemon-delivery-materialization.c:224-248 | In every reachable state each record at or before a present cursor is materialized or of a held account, and somebody is held |
| `MaterializationRuns.RetryIsArmedExactlyOnFailure` | wyrebox/daemon/wyrebox-daemon-delivery-materialization.c:579-589 | In every reachable state a running service has a retry armed exactly while a failure is outstanding, and a stopped one has none |
| `MaterializationRuns.WarningsAreRateLimited` | wyrebox/daemon/wyrebox-daemon-delivery-materialization.c:591-599 | The spacing of repeated warnings, for the trace of every run |
| `MaterializationRuns.NoRefreshIsLost` | wyrebox/daemon/wyrebox-daemon-delivery-materialization.c:850-860 | From any reachable state with a refresh function, while it stays installed, an account pending there, queued explicitly or reported by a completed scan later is still pending or was refreshed successfully afterwards |
| `MaterializationRuns.CleanMeansCaughtUp` | wyrebox/daemon/wyrebox-daemon-delivery-materialization.c:531-548 | A clean finish means the whole durable prefix is materialized and checkpointed and nobody is held or pending; a clean post-ingest pass was given no cursor and no holds |
| `MaterializationTrace.EveryRunIsCounted` | wyrebox/daemon/wyrebox-daemon-delivery-materialization.c:579-586 | On every run the failure count is 0 after a clean pass and otherwise 1 plus the failed retries the trace shows since then |
| `MaterializationTrace.OnlyRetriesBackOff` | wyrebox/daemon/wyrebox-daemon-delivery-materialization.c:579-586 | While a failure is outstanding, a failing catch-up or post-ingest pass changes neither the counter nor the interval |
| `MaterializationTrace.EveryRunBacksOffByTrace` | wyrebox/daemon/wyrebox-daemon-delivery-materialization.c:579-586 | With the backoff set before a retry has failed, on every run the interval is min(max, initial * 2^(max(failures, 1) - 1)) for the failures counted on the trace |
| `MaterializationTrace.HealthIsTheLastOutcome` | wyrebox/daemon/wyrebox-daemon-delivery-materialization.c:751-773 | Short of 2^32 failures the published state is OK without a failure since the last clean pass, otherwise RETRYING or HELD as the last recorded pass aborted or held somebody |
| `MaterializationTrace.PassLeavesTrace` | wyrebox/daemon/wyrebox-daemon-delivery-materialization.c:506-529 | The exact trace of every pass: the scan, one extraction for each due account in name order, a second scan exactly when one of them journaled records, and the refreshes; with the pending accounts and refresh holds that result |
| `MaterializationTrace.PassHoldsAreRejected` | wyrebox/daemon/wyrebox-daemon-delivery-materialization.c:224-248 | A completed pass holds the accounts carried in, which only a post-ingest pass does, and those whose run it rejected, with that message |
| `MaterializationTrace.FullPassReleasesEverybody` | wyrebox/daemon/wyrebox-daemon-delivery-materialization.c:224-248 | A completed full pass whose verdicts reject nothing leaves nobody held |
| `MaterializationTrace.RefreshHoldsAreOfThisPass` | wyrebox/daemon/wyrebox-daemon-delivery-materialization.c:418-499 | After a pass each refresh hold carries the error its account got in this pass |
| `MaterializationTrace.CleanIff` | wyrebox/daemon/wyrebox-daemon-delivery-materialization.c:611-621 | A recorded pass is clean exactly when it completed and held nobody, at scan or at refresh |
| `MaterializationTrace.CursorAtJournalEnd` | wyrebox/daemon/wyrebox-daemon-delivery-materialization.c:556-577 | After a pass that read records and holds somebody the cursor is at the journal end |
| `MaterializationStatus.StatusIsTruthfulIff` | wyrebox/daemon/wyrebox-daemon-delivery-materialization.c:751-773 | In every state of a run the status is OK exactly when nothing is outstanding, and a retry is armed exactly when it is not OK, if and only if no state of the run has counted 2^32 failures since the last clean pass |
| `MaterializationStatus.StatusWraps` | wyrebox/daemon/wyrebox-daemon-delivery-materialization.c:579-586 | A run of 2^32 failures after which a retry is armed and the published status is OK |
| `MaterializationStatus.AbortedCatchUp` | wyrebox/daemon/wyrebox-daemon-delivery-materialization.c:657-679 | An explicit catch-up that aborts logs, schedules and warns nothing; the held accounts stay when the first scan aborts, and become the old holds followed by the accounts due whose extraction failed, ascending, when the follow-up scan does |
| `MaterializationStatus.AbortKeepsHeldAccountsIff` | wyrebox/daemon/wyrebox-daemon-delivery-materialization.c:513-519 | When the follow-up scan aborts, the published list stays exactly when the accounts due whose extraction failed are those held only at refresh before |
| `MaterializationStatus.AbortedCatchUpIsInvisibleIff` | wyrebox/daemon/wyrebox-daemon-delivery-materialization.c:657-679 | No aborting catch-up from a state changes the published list exactly when no extraction is installed there or a delivery without account lies after the checkpoint |
| `MaterializationStatus.AbortedCatchUpCanChangeStatus` | wyrebox/daemon/wyrebox-daemon-delivery-materialization.c:513-519 | A run on which an aborted explicit catch-up changes the published held accounts |
| `MaterializationOrder.PostIngestPublishesInOrderIff` | wyrebox/daemon/wyrebox-daemon-delivery-materialization.h:67-68 | From a state in order, every post-ingest pass publishes pass-held accounts in journal order exactly when there is a cursor, nobody is held, a delivery without account lies after the checkpoint, or no account not held has a record after the checkpoint and before the last hold |
| `MaterializationOrder.HeldAccountsStayInJournalOrder` | wyrebox/daemon/wyrebox-daemon-delivery-materialization.h:67-68 | The published list is in journal order on every run whose post-ingest passes start in such states |
| `MaterializationOrder.HoldsCanLeaveJournalOrder` | wyrebox/daemon/wyrebox-daemon-delivery-materialization.h:67-68 | A run of the service after which the published list is out of journal order |
| `MaterializationOrder.EveryRunPlacesHolds` | wyrebox/daemon/wyrebox-daemon-delivery-materialization.c:556-577 | In every reachable state each hold names a record of its account, at or before a present cursor |
| `MaterializationOrder.RefreshOnlyAccountsFollow` | wyrebox/daemon/wyrebox-daemon-delivery-materialization.c:343-370 | In every reachable state the list is the pass holds followed by two ascending runs of names: failed extractions, then failed refreshes |
| `MaterializationOrder.RefreshOnlyAccountsCanLeaveNameOrder` | wyrebox/daemon/wyrebox-daemon-delivery-materialization.c:435-499 | A run after which the accounts held only at refresh are not in name order as a whole |
| `MaterializationService.DeliveryMaterialization.RunPass` | wyrebox/daemon/wyrebox-daemon-delivery-materialization.c:224-248 | One scan with the cursor and holds its kind calls for; the object changes as the specified step |
| `MaterializationService.DeliveryMaterialization.PendingUnheldAccounts` | wyrebox/daemon/wyrebox-daemon-delivery-materialization.c:399-416 | The loop collects the pending accounts that neither holds nor refresh holds name, ascending |
| `MaterializationService.DeliveryMaterialization.ExtractPendingFacts` | wyrebox/daemon/wyrebox-daemon-delivery-materialization.c:435-461 | The extraction loop is the specified fold and reports whether any record was journaled |
| `MaterializationService.DeliveryMaterialization.RefreshPendingAccounts` | wyrebox/daemon/wyrebox-daemon-delivery-materialization.c:469-499 | The refresh loop, or the drop loop without a refresh function, is the specified fold |
| `MaterializationService.DeliveryMaterialization.RunDerivedPass` | wyrebox/daemon/wyrebox-daemon-delivery-materialization.c:506-529 | Scan, extraction, follow-up scan and refresh compose to the specified pass |
| `MaterializationService.DeliveryMaterialization.Signature` | wyrebox/daemon/wyrebox-daemon-delivery-materialization.c:274-305 | The parts collected in two loops, sorted and joined are the specified signature |
| `MaterializationService.DeliveryMaterialization.FinishFailedPass` | wyrebox/daemon/wyrebox-daemon-delivery-materialization.c:556-609 | Holds, cursor, counter, backoff, retry and limiter after a failure are the specified ones |
| `MaterializationService.DeliveryMaterialization.CatchUpNow` | wyrebox/daemon/wyrebox-daemon-delivery-materialization.c:657-679 | The explicit catch-up is the specified step and returns whether it completed |
| `MaterializationService.DeliveryMaterialization.CatchUpOrScheduleRetry` | wyrebox/daemon/wyrebox-daemon-delivery-materialization.c:700-713 | The post-ingest pass is the specified step |
| `MaterializationService.DeliveryMaterialization.RetryCatchUp` | wyrebox/daemon/wyrebox-daemon-delivery-materialization.c:681-698 | The timer callback is the specified step, stale sources included |
| `MaterializationService.DeliveryMaterialization.HeldAccountList` | wyrebox/daemon/wyrebox-daemon-delivery-materialization.c:343-370 | The list is the held accounts and then those held only at refresh |
| `ConnectionServerSafety.StepKeepsSafe` | wyrebox/daemon/wyrebox-daemon-connection-server.c:259-337 | Every step of every thread keeps: both reference counts equal the references held, the in-flight counter equals the unfinished sessions, the list holds exactly the connections not yet removed, and past the shutdown snapshot each is shut down or still ahead in it |
| `ConnectionServerRuns.EveryRunIsMemorySafe` | wyrebox/daemon/wyrebox-daemon-connection-server.c:55-135 | Under every interleaving no object is used after its free or freed twice, no assertion fails, and each is freed exactly when its last holder is gone |
| `ConnectionServerRuns.EveryRunCountsSessions` | wyrebox/daemon/wyrebox-daemon-connection-server.c:170-206 | The in-flight counter is the number of unfinished sessions, and once the shutdown snapshot is done each unfinished session is shut down or closed by its own thread |
| `ConnectionServerRuns.WaitReturnsUnfinished` | wyrebox/daemon/wyrebox-daemon-connection-server.c:190-206 | The step that ends a stop's wait, in time or at the deadline, returns the number of unfinished sessions |
| `ConnectionServerRuns.DrainedStopLeavesNoHolder` | wyrebox/daemon/wyrebox-daemon-connection-server.c:426-449 | After a wait that returned 0 no session thread holds the shared state, and its references are exactly those of the server and its accept context |
| `ConnectionServerRuns.StoppedServerAcceptsNothing` | wyrebox/daemon/wyrebox-daemon-connection-server.c:426-449 | After a stop no connection is accepted until the server is started again |
| `ConnectionServerRuns.DrainedServerFreesOnMainThread` | wyrebox/daemon/wyrebox-daemon-connection-server.c:339-366 | A server finalized after such a stop has released the shared state once, on the calling thread |
| `ConnectionServerRuns.FairScheduleDrains` | wyrebox/daemon/wyrebox-daemon-connection-server.c:259-300 | A waiting stop returns 0 under every schedule of actions of all threads that gives each session six steps before the deadline |
| `CopyMove.ValidateSourceUids` | wyrebox/daemon/wyrebox-daemon-memberships-copy-move-request.c:32-72 | The loop accepts exactly the non-empty lists of at most 65535 non-zero, strictly ascending UIDs |
| `CopyMoveUids.ReservedBlocksAreDisjoint` | wyrebox/daemon/wyrebox-daemon-memberships-copy-move-journal.c:552-667 | Over every run, failed appends included, the blocks reserved for one mailbox and UIDVALIDITY are non-zero, ascending in reservation order, disjoint, below UIDNEXT and without 64-bit wrap-around |
| `CopyMoveUids.UidsAreUniqueIff` | wyrebox/daemon/wyrebox-daemon-memberships-copy-move-journal.c:552-667 | No UID is handed out twice, by this service or another writer, exactly when no writer takes UIDs between a reservation's SELECT and its UPDATE |
| `CopyMoveUids.UidsCanBeHandedOutTwice` | wyrebox/daemon/wyrebox-daemon-memberships-copy-move-journal.c:552-667 | A run on which a COPY and another writer get the same UID |
| `CopyMoveRecords.SucceedsIff` | wyrebox/daemon/wyrebox-daemon-memberships-copy-move-journal.c:834-880 | A request succeeds exactly when the catalog is caught up, destination, source and every UID are eligible, the UID space has room and the append works |
| `CopyMoveRecords.AllOrNothing` | wyrebox/daemon/wyrebox-daemon-memberships-copy-move-journal.c:743-790 | When any mailbox check or any source UID fails, neither UIDNEXT nor the journal changes |
| `CopyMoveRecords.RefusalsAreClassified` | wyrebox/daemon/wyrebox-daemon-memberships-copy-move-journal.c:102-287 | For each of the five errors the exact condition: a view in the way, a UIDVALIDITY that differs, a mailbox that is not open or a UID that does not resolve, no room in the UID space, UIDNEXT 0 or a failed append |
| `CopyMoveRecords.MalformedIsRefused` | wyrebox/daemon/wyrebox-daemon-memberships-copy-move-request.c:5-72 | A request with an empty or controlling text, a zero UIDVALIDITY or a bad UID list is refused and changes nothing; every other one is valid |
| `CopyMoveRecords.UidNextRisesExactly` | wyrebox/daemon/wyrebox-daemon-memberships-copy-move-journal.c:552-667 | A reservation starts at UIDNEXT and raises it by exactly the number of UIDs, in this mailbox only |
| `CopyMoveRecords.MinDateIsMinimum` | wyrebox/daemon/wyrebox-daemon-memberships-copy-move-journal.c:445-496 | The date looked up is that of one of the message's memberships, and none is earlier |
| `CopyMoveRecords.JournaledRecordIsRight` | wyrebox/daemon/wyrebox-daemon-memberships-copy-move-journal.c:743-790 | A failed request journals nothing; a successful one journals one record with an ordinary visible selectable destination, matching UIDVALIDITYs, visible sources, no virtual source for MOVE, and pairs ascending on both sides that fill the reserved block |
| `CopyMoveRecords.ResolvesIff` | wyrebox/daemon/wyrebox-daemon-memberships-copy-move-journal.c:704-741 | A source UID resolves exactly when a visible message is under it and has an internal date |
| `CopyMoveRecords.MinimumDateIsInvariant` | wyrebox/daemon/wyrebox-daemon-memberships-copy-move-journal.c:445-496 | Once a message has a membership, no run of requests, applied records, deliveries and expunges changes its minimum internal date |
| `CopyMove.CopyMoveJournal.ReserveDestinationUids` | wyrebox/daemon/wyrebox-daemon-memberships-copy-move-journal.c:552-667 | The row and the history after a reservation, with its three error cases |
| `CopyMove.CopyMoveJournal.ResolveSources` | wyrebox/daemon/wyrebox-daemon-memberships-copy-move-journal.c:752-761 | The loop resolves all sources in order or returns the first error |
| `CopyMove.CopyMoveJournal.BuildItems` | wyrebox/daemon/wyrebox-daemon-memberships-copy-move-journal.c:763-778 | The loop pairs source i with the first reserved UID plus i |
| `CopyMove.CopyMoveJournal.CopyMoveMemberships` | wyrebox/daemon/wyrebox-daemon-memberships-copy-move-journal.c:834-880 | The whole request leaves the state and result the properties above are proved of |
| `EventText.UnescapeEscape` | wyrebox/daemon/wyrebox-daemon-mail-event.c:8-18 | Percent-decoding recovers every value, whatever its characters |
| `EventText.EscapeHidesControls` | wyrebox/daemon/wyrebox-daemon-mail-event.c:8-18 | An escaped value has no control characters, and spaces only where the value has |
| `Basics.DecimalReadsBack` | wyrebox/daemon/wyrebox-daemon-mail-event.c:29-33 | A printed number reads back |
| `EventText.ListReadsBackIff` | wyrebox/daemon/wyrebox-daemon-mail-event.c:35-46 | Splitting on spaces recovers a list exactly when no value has a space and the list is not one empty value |
| `EventText.FieldsReadBack` | wyrebox/daemon/wyrebox-daemon-mail-event.c:20-27 | Splitting on LF and the first = recovers every line |
| `EventText.EventReadsBackIff` | wyrebox/daemon/wyrebox-daemon-mail-event.c:48-155 | An event of any kind is recovered from its text exactly when its flag lists are recoverable |
| `EventText.DistinctEventsPrintDistinctly` | wyrebox/daemon/wyrebox-daemon-mail-event.c:48-155 | Different events with recoverable lists never print alike |
| `EventText.EscapeIsExact` | wyrebox/daemon/wyrebox-daemon-mail-event.c:8-18 | Only the percent sign, control characters and DEL are escaped, with capital hex digits |
| `EventText.HeadFormat` | wyrebox/daemon/wyrebox-daemon-mail-event.c:48-59 | The magic line and the four common lines of every event, spelled out |
| `EventText.DeliveredFormat` | wyrebox/daemon/wyrebox-daemon-mail-event.c:69-91 | The lines of a delivery, spelled out |
| `EventText.FlagChangedFormat` | wyrebox/daemon/wyrebox-daemon-mail-event.c:108-131 | The lines of a flag change, spelled out |
| `EventText.ViewMembershipFormat` | wyrebox/daemon/wyrebox-daemon-mail-event.c:133-155 | The lines of a view membership change, spelled out |
| `EventText.CursorReadsBack` | wyrebox/daemon/wyrebox-daemon-mail-event.c:48-59 | Offset and sequence are recovered from every event, whatever its lists |
| `EventText.SpacesPrintAlike` | wyrebox/daemon/wyrebox-daemon-mail-event.c:35-46 | Two different flag changes that print alike, because one keyword has a space |
| `EventText.ValidListsAreRecoverable` | wyrebox/daemon/wyrebox-daemon-flag-keyword-update-request.c:31-84 | Lists that the update request accepts are recoverable |
| `EventText.EventBuffer.constructor` | wyrebox/daemon/wyrebox-daemon-mail-event.c:48-59 | The text starts with the magic line and the four common lines |
| `EventText.EventBuffer.AppendValue` | wyrebox/daemon/wyrebox-daemon-mail-event.c:8-18 | The loop appends the escaped value |
| `EventText.EventBuffer.AppendStrvField` | wyrebox/daemon/wyrebox-daemon-mail-event.c:35-46 | The loop appends one line with the escaped values separated by spaces |
| `EventText.PrintEvent` | wyrebox/daemon/wyrebox-daemon-mail-event.c:69-155 | The text built by the appends of each kind is the one proved readable |
| `EventText.ValidateSystemFlag` | wyrebox/daemon/wyrebox-daemon-flag-keyword-update-request.c:31-56 | The loop accepts exactly the five system flags |
| `EventText.ValidateUserKeyword` | wyrebox/daemon/wyrebox-daemon-flag-keyword-update-request.c:58-84 | The loop accepts exactly the non-empty words of letters, digits, _, - and . |
| `EventText.CopyTextVector` | wyrebox/daemon/wyrebox-daemon-flag-keyword-update-request.c:122-165 | The loops accept exactly the lists of distinct valid values and copy them unchanged |
| `EventStream.ReadNextMatchingJournalEvent` | wyrebox/daemon/wyrebox-daemon-mail-event-stream-service.c:134-187 | The reading loop answers with the first durable record after the cursor that projects or fails to decode |
| `EventStream.NextAfterCursor` | wyrebox/daemon/wyrebox-daemon-mail-event-stream-service.c:118-132 | The answer depends on exactly the records after the cursor, and on the first of them that prints or fails |
| `EventStream.EveryRunStreamsInOrder` | wyrebox/daemon/wyrebox-daemon-mail-event-stream-service.c:134-187 | Over every interleaving of appends, syncs and requests the events received are a prefix, in order, of the account's durable projectable records; the next answer is the next of them, the end when none is left, or the first undecodable record |
| `EventStream.TextsAreOwnEvents` | wyrebox/daemon/wyrebox-daemon-mail-event.c:69-155 | The stream of an account holds the texts of exactly its own decodable records of the type asked for |
| `EventStream.ReceivedAreOwnEvents` | wyrebox/daemon/wyrebox-daemon-mail-event-stream-service.c:134-187 | On every run the client has received exactly the events of its own account and type up to its cursor, in the order of their offsets |
| `EventStream.ReadableIsFirstUndecodable` | wyrebox/daemon/wyrebox-daemon-mail-event.c:157-201 | What stops a stream is the first record of the type asked for that does not decode |
| `EventStream.ReceivedOnce` | wyrebox/daemon/wyrebox-daemon-mail-event-stream-service.c:134-187 | No event is received twice |
| `EventStream.EndMeansNothingLeft` | wyrebox/daemon/wyrebox-daemon-mail-event-stream-service.c:182-186 | With decodable payloads the end of the stream is answered exactly when everything was received |
| `EventStream.PollingCatchesUp` | wyrebox/daemon/wyrebox-daemon-mail-event-stream-service.c:134-187 | As many requests as events are left deliver all of them |
| `EventStream.UndecodableRecordStallsForever` | wyrebox/daemon/wyrebox-daemon-mail-event.c:157-201 | Once an undecodable record is next, of whatever account, no later append or request moves the client on |
| `EventStream.StreamCanStall` | wyrebox/daemon/wyrebox-daemon-mail-event.c:157-201 | A run after which an account with an event to receive gets only errors, however often it asks |
| `LikePattern.ReplacesAreLower` | wyrebox/daemon/wyrebox-daemon-duckdb-query-template-service.c:1592-1599 | The 26 nested replaces are the simultaneous ASCII lower-casing map |
| `LikePattern.MakeContainsLikePattern` | wyrebox/daemon/wyrebox-daemon-duckdb-query-template-service.c:237-254 | The loop builds the escaped pattern |
| `LikePattern.EscapedTextMatchesPrefix` | wyrebox/daemon/wyrebox-daemon-duckdb-query-template-service.c:237-254 | An escaped text before % matches exactly the subjects that start with the text |
| `LikePattern.SearchMeansContains` | wyrebox/daemon/wyrebox-daemon-duckdb-query-template-service.c:1592-1599 | The condition holds exactly when the subject contains the term ignoring ASCII case, also for terms of %, _ and backslash |
| `Csv.CsvBuffer.AppendValue` | wyrebox/daemon/wyrebox-daemon-duckdb-query-template-service.c:256-281 | The two loops append the cell, quoted and with quotes doubled where needed |
| `Csv.CsvBuffer.AppendCell` | wyrebox/daemon/wyrebox-daemon-duckdb-query-template-service.c:283-330 | Numbers and truth values go out plain, NULL as nothing, text as a cell |
| `Csv.CsvBuffer.AppendRow` | wyrebox/daemon/wyrebox-daemon-duckdb-query-template-service.c:558-602 | A row is refused, with nothing written, exactly when a required column is NULL; otherwise all its cells are written in order |
| `Csv.CsvBuffer.AppendRows` | wyrebox/daemon/wyrebox-daemon-duckdb-query-template-service.c:878-883 | The row loop writes all rows in order, or stops exactly when some row is refused |
| `Csv.CsvBuffer.AppendHeader` | wyrebox/daemon/wyrebox-daemon-duckdb-query-template-service.c:403-423 | The header is the row of the column names as they are |
| `Csv.ValidateResultSchema` | wyrebox/daemon/wyrebox-daemon-duckdb-query-template-service.c:348-400 | The loop accepts exactly results with the expected column names and types |
| `Csv.WriteResult` | wyrebox/daemon/wyrebox-daemon-duckdb-query-template-service.c:826-895 | The whole output is refused or is the text proved readable |
| `Csv.CellReadsBack` | wyrebox/daemon/wyrebox-daemon-duckdb-query-template-service.c:256-281 | A written cell is read back up to its delimiter, whatever quotes, commas, CRs or LFs it has |
| `Csv.TableReadsBack` | wyrebox/daemon/wyrebox-daemon-duckdb-query-template-service.c:256-324 | Reading the written rows gives back every cell of every row in order |
| `Csv.OutputReadsBackIff` | wyrebox/daemon/wyrebox-daemon-duckdb-query-template-service.c:403-423 | For every accepted result a reader recovers the header and every cell of every row, NULL as the empty text, exactly when the column names are plain, as those of the template catalog are |
| `Csv.OutputRefusedIff` | wyrebox/daemon/wyrebox-daemon-duckdb-query-template-service.c:348-400 | A result is refused exactly when a column differs in number, name or type or a required column has a NULL |
| `Csv.UnquotedIff` | wyrebox/daemon/wyrebox-daemon-duckdb-query-template-service.c:256-281 | A cell is quoted exactly when it has a quote, a comma, an LF or a CR |
| `Csv.OutputExample` | wyrebox/daemon/wyrebox-daemon-duckdb-query-template-service.c:403-423 | One small table, written out |
| `Csv.HeaderReadsBackIff` | wyrebox/daemon/wyrebox-daemon-duckdb-query-template-service.c:403-423 | A header of raw names reads back exactly when no name has a quote, comma, CR or LF |
| `FactPayload.DecodeEncode` | wyrebox/daemon/wyrebox-daemon-fact-mutation-request.c:337-501 | Decoding the encoding of a valid request gives the request |
| `FactPayload.EncodeDecode` | wyrebox/daemon/wyrebox-daemon-fact-mutation-request.c:337-501 | Encoding what an accepted byte string decodes to gives the byte string |
| `FactPayload.AcceptedIffEncoded` | wyrebox/daemon/wyrebox-daemon-fact-mutation-request.c:409-501 | Exactly the encodings of valid requests are accepted |
| `FactPayload.PayloadLayout` | wyrebox/daemon/wyrebox-daemon-fact-mutation-request.c:337-407 | Where the magic, the kind, the predicate, the scope, the count and the arguments lie, byte by byte |
| `FactPayload.ArgumentLayout` | wyrebox/daemon/wyrebox-daemon-fact-mutation-request.c:190-201 | Where each argument lies behind those before it |
| `FactPayload.ValidMeans` | wyrebox/daemon/wyrebox-daemon-fact-mutation-request.c:27-135 | Validity in characters: which kinds, identifiers and texts are accepted |
| `FactPayload.U32ReadsBack` | wyrebox/daemon/wyrebox-daemon-fact-mutation-request.c:10-25 | Reading a written 32-bit number gives the number |
| `FactPayload.U32WritesBack` | wyrebox/daemon/wyrebox-daemon-fact-mutation-request.c:10-25 | Writing a read 32-bit number gives the bytes |
| `FactPayload.ReadsAreBounded` | wyrebox/daemon/wyrebox-daemon-fact-mutation-request.c:471-478 | The argument loop makes at most size / 4 successful reads whatever count is claimed, and the list is read exactly when it makes as many as claimed |
| `FactPayload.PayloadSize` | wyrebox/daemon/wyrebox-daemon-fact-mutation-request.c:145-177 | The size pass is exact, and fails exactly when a string or the total is too large |
| `FactPayload.WriteString` | wyrebox/daemon/wyrebox-daemon-fact-mutation-request.c:190-201 | Length and bytes land behind what the buffer holds |
| `FactPayload.WriteArguments` | wyrebox/daemon/wyrebox-daemon-fact-mutation-request.c:399-402 | The strings fill the rest of the buffer exactly |
| `FactPayload.EncodeRequest` | wyrebox/daemon/wyrebox-daemon-fact-mutation-request.c:337-407 | The filled buffer is the encoding, and each error case of the encoder |
| `FactPayload.ReadStringAt` | wyrebox/daemon/wyrebox-daemon-fact-mutation-request.c:203-241 | A string is read at an offset of arbitrary data without leaving it |
| `FactPayload.ReadArguments` | wyrebox/daemon/wyrebox-daemon-fact-mutation-request.c:471-478 | The loop returns the counted strings or fails, within the read bound |
| `FactPayload.DecodeRequest` | wyrebox/daemon/wyrebox-daemon-fact-mutation-request.c:409-501 | The decoder's result on arbitrary bytes, each error case included |
| `FactPayload.ValidatePredicateId` | wyrebox/daemon/wyrebox-daemon-fact-mutation-request.c:45-75 | The scan accepts exactly identifiers |
| `FactPayload.ValidateRequest` | wyrebox/daemon/wyrebox-daemon-fact-mutation-request.c:528-551 | The validation accepts exactly valid requests |
| `FactService.ValidateRequest` | wyrebox/daemon/wyrebox-daemon-fact-batch-import-request.c:179-240 | The loop accepts exactly batches of 1 to 1024 encodable entries of one scope |
| `FactService.EveryAuditIsTrue` | wyrebox/daemon/wyrebox-daemon-fact-mutation-service.c:293-328 | Over every interleaving an audit record follows all facts of one valid request, in order, names the last of them and their number, and each decodes to its entry |
| `FactService.AuditedFactsHaveItsScope` | wyrebox/daemon/wyrebox-daemon-fact-mutation-service.c:293-328 | On every run each fact an audit record covers decodes to a fact of the scope the record names |
| `FactService.RefusedIffDefective` | wyrebox/daemon/wyrebox-daemon-fact-batch-import-request.c:179-240 | A request is refused before any append exactly when it has no id, no scope, no or more than 1024 entries, an entry of another scope, or one that does not encode |
| `FactService.RefusedAppendsNothing` | wyrebox/daemon/wyrebox-daemon-fact-mutation-service.c:512-564 | Whatever a refused request goes on to try, nothing is appended |
| `FactService.NoFactIsAuditedTwice` | wyrebox/daemon/wyrebox-daemon-fact-mutation-service.c:512-564 | No fact is covered by two audit records |
| `FactService.UnauditedFactsIff` | wyrebox/daemon/wyrebox-daemon-fact-mutation-service.c:512-564 | A fact without audit record or running request exists exactly when some append failed after the first fact of its request |
| `FactService.FactsCanStayUnaudited` | wyrebox/daemon/wyrebox-daemon-fact-mutation-service.c:512-564 | A run that leaves a fact without audit record or running request |
| `FactService.UninterruptedRequest` | wyrebox/daemon/wyrebox-daemon-fact-mutation-service.c:472-564 | Left alone, the steps of a request give the journal exactly what the request alone would |
| `FactService.FactMutationService.HandleFacts` | wyrebox/daemon/wyrebox-daemon-fact-mutation-service.c:472-564 | Entries in order and one audit record naming the last; nothing on failed validation; the facts before a failed append and no audit record otherwise |
| `FrameStream.StreamReadsBack` | wyrebox/daemon/wyrebox-daemon-frame-io.c:9-94 | Written frames read back as exactly the payloads and then the end of the stream |
| `FrameStream.FrameLayout` | wyrebox/daemon/wyrebox-daemon-frame-io.c:9-53 | A frame is the length, most significant byte first, and the payload |
| `FrameStream.BadSizeIsRefused` | wyrebox/daemon/wyrebox-daemon-frame-io.c:156-174 | A length of 0 or more than 4 MiB is refused, and no other |
| `FrameStream.CutStreamReadsPrefix` | wyrebox/daemon/wyrebox-daemon-frame-io.c:117-208 | Cutting the stream anywhere gives the whole frames before the cut and then the end exactly at a frame boundary, otherwise an error |
| `FrameStream.ReadIsFramed` | wyrebox/daemon/wyrebox-daemon-frame-io.c:117-208 | Whatever the bytes, what is read is framed at their start, and a clean end means the bytes are exactly those frames |
| `FrameStream.InputStream.ReadPayloadOrEof` | wyrebox/daemon/wyrebox-daemon-frame-io.c:117-208 | One read: payload, end or failure, and the new position |
| `FrameStream.OutputStream.WritePayload` | wyrebox/daemon/wyrebox-daemon-frame-io.c:26-94 | One write: the frame, nothing for an invalid payload, or what the stream still took |
| `FrameStream.SessionAnswersPrefix` | wyrebox/daemon/wyrebox-daemon-connection-session.c:91-128 | The output is the frames of the handler's answers to a prefix of the requests, one for one and in order, plus at most a strict part of the next; success exactly when all are answered and the input ended at a boundary; a peer reads exactly those answers |
| `FrameStream.ProcessPayloads` | wyrebox/daemon/wyrebox-daemon-connection-session.c:91-128 | The session loop writes exactly the specified output and returns the specified verdict |
| `MailboxCatalog.ListIsRestriction` | wyrebox/daemon/wyrebox-daemon-mailbox-catalog-duckdb.c:200-222 | LIST with a prefix is the ordered restriction of LIST without one to the prefix and its descendants, with the same child flags |
| `MailboxCatalog.ListIsExactly` | wyrebox/daemon/wyrebox-daemon-mailbox-catalog-duckdb.c:200-222 | LIST returns exactly the visible mailboxes and the visible views no visible mailbox shadows, with the name asked for or below it, each once, names ascending byte by byte |
| `MailboxCatalog.BelowIff` | wyrebox/daemon/wyrebox-daemon-mailbox-catalog-duckdb.c:213-216 | A name is below another exactly when it is that name, the delimiter and something more |
| `MailboxCatalog.ListFailsIff` | wyrebox/daemon/wyrebox-daemon-mailbox-catalog-duckdb.c:236-270 | LIST fails exactly when a row it would list has an id or name that is empty or has control characters |
| `MailboxCatalog.OrderIsUnique` | wyrebox/daemon/wyrebox-daemon-mailbox-catalog-duckdb.c:221-222 | The ORDER BY leaves one possible order of the listed rows |
| `MailboxCatalog.ChildFlagsAreWitnessed` | wyrebox/daemon/wyrebox-daemon-mailbox-catalog-duckdb.c:217-221 | An entry is flagged exactly when a descendant of it is in the same LIST |
| `MailboxCatalog.AppendListRows` | wyrebox/daemon/wyrebox-daemon-mailbox-catalog-duckdb.c:236-270 | The row loop returns all entries in order, or fails when a listed id or name is not valid text |
| `MailboxCatalog.NamesMatchOneKind` | wyrebox/daemon/wyrebox-daemon-mailbox-catalog-duckdb.c:309-344 | A name never matches rows of both kinds |
| `MailboxCatalog.SelectedByNameIsListed` | wyrebox/daemon/wyrebox-daemon-mailbox-catalog-duckdb.c:309-344 | What SELECT by name opens is a selectable entry of the full LIST with that name |
| `MailboxCatalog.SelectByNameAgreesWithList` | wyrebox/daemon/wyrebox-daemon-mailbox-catalog-duckdb.c:507-551 | SELECT by name succeeds exactly on names of the full LIST that are selectable and have usable UID state, and opens that entry |
| `MailboxCatalog.SelectedByIdIsListedIff` | wyrebox/daemon/wyrebox-daemon-mailbox-catalog-duckdb.c:276-308 | What SELECT by id opens is in the full LIST exactly when the id is that of a visible mailbox, or of a view whose name no visible mailbox carries |
| `MailboxCatalog.SelectByIdIs` | wyrebox/daemon/wyrebox-daemon-mailbox-catalog-duckdb.c:507-551 | SELECT by id case by case: range, missing, ambiguous, not selectable, unusable, or the row with its UID state |
| `MailboxCatalog.SelectByNameIs` | wyrebox/daemon/wyrebox-daemon-mailbox-catalog-duckdb.c:507-551 | SELECT by the name of a listed row, case by case |
| `MailboxCatalog.UnlistedNameIsNotFound` | wyrebox/daemon/wyrebox-daemon-mailbox-catalog-duckdb.c:309-344 | A name that is not listed is not found |
| `MailboxCatalog.ShadowedViewCanBeSelected` | wyrebox/daemon/wyrebox-daemon-mailbox-catalog-duckdb.c:276-308 | A catalog on which SELECT by id opens a view that LIST does not show |
| `MailboxCatalog.SelectRows` | wyrebox/daemon/wyrebox-daemon-mailbox-catalog-duckdb.c:353-551 | The row loop and the checks after it give the specified result for any row order, 32-bit range errors included |

## Left out

- Journal records that catch-up does not replay (audit records, records of unknown kinds) do not appear in the journal of `Catchup`; damage of journal bytes is an abort of the pass.
- The text of `last_error` and of log messages; only the fact and the signature of a warning are modelled.
- The fields of the materialization object are grouped into three records; the lock is modelled by methods that run to their end.
- An extraction callback that reports another number of journaled records than it journaled; the model's answer carries the records themselves.
- The main loop's clock: a retry source fires at any time after it was attached, so the delay itself is only the number passed to it.
- MaterializationTrace.EveryRunBacksOffByTrace: asks that the backoff is changed only while no retry has failed, as its documentation does; `SetBackoffExactly` says what a later change does.
- MaterializationWarnings.SignatureIsTheMultiset: account ids and messages must be free of the two separator characters; `SignatureIgnoresOrder` needs nothing, and `SeparatorsPrintAlike` shows why the converse does.
- Socket input and output, the reference counts of connection objects, GTask and the thread pool; a session is the sequence of its accesses to shared state.
- Failures of single DuckDB statements and the encoding failure of a COPY/MOVE payload; a failing append stands for the latter. The catalog does not change between the checks and the reservation of one request except for UIDNEXT.
- `CopyMoveRecords.AllOrNothing`, `CopyMoveRecords.SucceedsIff` and `CopyMoveRecords.ResolvesIff` use the schema's uniqueness of UIDs within a view.
- The summary text and receipt of COPY/MOVE; expunge and flag updates, which check and append in the same way with less state.
- The event stream read without a writer, whose reader can meet a record still being written; authorization and chunk framing of its answers; 64-bit overflow of journal offsets.
- Csv.WriteResult: asks for at least one column, which every template has; the column names of the catalog are listed in wyrebox/daemon/wyrebox-daemon-duckdb-query-template-catalog.c:34-193 and not repeated here.
- The other query templates, their SQL and their parameter checks; signed BIGINT columns, which no template has.
- FactPayload.EncodeRequest: at most 2^32 - 1 arguments, since the counter of the original is 32 bits wide; a request whose fields are not set at all is not modelled.
- Authorization of fact requests, the derived-view refresh and the commit hook that follow a successful request.
- MailboxCatalog.SelectByNameAgreesWithList: like SelectByNameIs, uses the schema's uniqueness of names within mailboxes and within views, and a full LIST that succeeds.
- Special-use attributes and the delimiter of LIST entries, which are constants; NULL columns, which the schema excludes.
- The Cap'n Proto codec, request dispatch, client identity tables, export, backup and administration objects.
