# DoneBond protocol, modelled and proved in Dafny

DoneBond lets a project owner post a task on chain, lets an assignee submit a receipt that is bound to passing
verification evidence, and keeps a database in step with the chain through reconcilers. This project models that
off-chain side and proves what it keeps, over every run.

Checking everything: `dafny verify dfyconfig.toml`.

## What is modelled

**The protocol.** `Store.dfy` gives every wired repository call as one atomic step on the tables (tasks,
transactions, attestations, indexed events, evidence bundles, idempotency records, projects, policies): it commits
everything or nothing. `TaskRepository.dfy` has the same calls as an object that inserts first, checks afterwards
and rolls back, each method proved equal to its step. `Reconciliation.dfy` has the two log scans.
`System.dfy` puts it all together: clients, and any number of reconcilers that hold a context they once read, get
any answer from the node, and write under the status they once saw. A run is any sequence of such events.

* `Invariants.dfy`: every step keeps the structure of the tables (tasks that read back, rows bound to their tasks,
  unique hashes, keys and chain identities, attestations of passing bundles, events of confirmed rows) and takes
  nothing back.
* `Acceptance.dfy`, `Replies.dfy`: which calls go through, said of the tables and the numbers alone, what a refused one
  answers, and what a taken one stores and shows, column by column.
* `Lifecycle.dfy`: every step moves each task along the edges of the five (offchain, chain) pairs, with the
  transactions each pair allows; one write, named below, leaves a task in its pair with one confirmed receipt too many.
* `Runs.dfy`, `Guarantees.dfy`, `Origins.dfy`, `Recovery.dfy`: what holds over whole runs, for all interleavings,
  routes and answers, and which event is behind each stored task, attestation, confirmation and revert.
* `Idempotency.dfy`: what a used key answers in every later state.
* `Replacements.dfy`: replacement pointers, for the wired step and for the generic repository.
* `Misrouting.dfy`, `Example.dfy`: how every pending receipt can be confirmed as a task creation, and full concrete
  runs from the empty tables, which also show that the conditions the theorems start from can be met.
* `WorkQueue.dfy`, `ReconciliationJob.dfy`: the oldest-first snapshot, and the bounded job over it, proved to be a run
  of the system.

**Evidence.** `Evidence.dfy`: three independent computations of "passing", and the build and verify round trip.
`OutputCapture.dfy` and `Utf8.dfy`: capture under a hard limit, the cut at a byte budget.

**Around it.** `RateLimit.dfy` (two limiters as one machine), `Pagination.dfy`, `JsonEquality.dfy`,
`OpaqueId.dfy`.

## Where the code does not do what one would read into it

The model follows the code. Each of these is stated as a lemma, with the exact condition where there is one.

* The owner's reconcile route (`apps/web/src/server/task-handlers.ts:762-806`) and
  `confirmTaskCreatedFromReconciliation` do not test the intent of the row. A pending receipt, attested or not, can
  therefore be confirmed as a task creation (`Misrouting.EveryPendingReceiptCanBeMisconfirmed`). Its task stays in
  (open, open) for ever, with a confirmed receipt and under whatever chain task id the log carried. So
  * a task is always in one of the five pairs, but an open one has no confirmed receipt exactly while no event of the
    run misconfirmed one (`Guarantees.ReachableCounts`, `Runs.PhasesExactlyUnlessMisconfirmed`);
  * a chain task id, once set, is kept exactly when no misconfirmation logs another (`Runs.IdentityKeptExactly`);
  * a confirmed receipt rests on a passing bundle and its own log exactly when the receipt reconciler confirmed it
    (`Guarantees.ConfirmedReceiptRestsOnPassingBundle`, `Guarantees.ReachableReceiptRestsOnPassingBundle`).

  Routing by intent, as the job does, rules it out (`Runs.RoutedNeverMisconfirms`).
* A rejected receipt puts its task into (draft, open), and a reverted creation leaves its task in
  (awaiting_chain, none); both are final (`Runs.RunGood`, `Guarantees.StrandedForever`).
* A replaced receipt has no attestation on its replacement, and the replacement still blocks new receipt intents. The
  receipt reconciler finds no context for it, so its task never gets to (receipt_submitted, receipt_submitted); only
  the owner's route can confirm the replacement, and then nothing attests it
  (`Guarantees.ReplacedReceiptNeverConfirms`, `Example.UnattestedReceiptIsConfirmed`). The job lists it again every
  time and counts it as pending (`ReconciliationJob.JobSkipsUnattested`).
* Any member may open a receipt intent, but only the project owner may report its wallet outcome, so another
  member's row stays in wallet_requested (`Guarantees.ForeignReceiptWaitsForever`).
* `recordWalletOutcome` compares the task only after the transition has committed: of all client calls, exactly an
  otherwise correct outcome that names another task throws and has changed the tables
  (`Idempotency.OnlyMisdirectedCommitUnderError`, `Example.MisdirectedOutcomeCommits`).
* Replays of sent outcomes and of replacements always fail: the stored nonce comes back as a number where the
  schema wants text (`ChainTransactions.NonceNeverReparses`, `Idempotency.OutcomeIsIdempotent`).
* A task whose last update lies beyond the four-digit years can no longer be read, so no intent can be opened for it
  (`Acceptance.IntentOpensExactly`).
* Replays return the repository URL without a trailing `.git`, need four-digit years, and a replay of a task
  creation is refused once its deadline has passed (`Idempotency.TaskCreationIsIdempotent`).
* A hundred failing required checks on a dirty tree give 101 failure codes, one more than the schema takes
  (`Evidence.DerivedResultRefined`). A bundle whose required checks all pass on a dirty tree meets the schema but is
  turned down by the server (`Evidence.PassingAgreement`).
* `listEvidence` hands out the look-ahead row as its cursor and so never shows it (`Pagination.EvidencePagesSkip`).
* `sameJson` sorts with a locale comparison; where that lets two different keys tie, their order matters
  (`JsonEquality.ExactExactlyWhenNothingTies`).
* `updateChainTransactionState` also takes a nonce. It takes a replaced row and its replacement apart exactly when it
  changes the nonce of a row that it points at a replacement, or that already replaces another one
  (`Replacements.CallKeepsNoncesExactly`, `Replacements.NoncesSharedExactly`).

## How values are represented

Ids, keys, hashes and addresses are tokens compared for equality, lower-cased as the boundary stores them; zero is
the all-zero value. The primary keys that break ties in the work queue are a parameter. Public ids of listings compare as their numbers do, which `OpaqueId` justifies. Dates are
milliseconds. The range limits of the column types and of JavaScript numbers and dates are explicit guards. The
sorted failure codes of a bundle are their set. A log is what strict decoding makes of it. The order the database
gives two equally recent bundles is the input `winsTie`. Hashing, secret detection, redaction, branch patterns and
label normalisation are uninterpreted functions; label normalisation is assumed idempotent where a lemma says so.

## Model

| member | source | states |
|---|---|---|
| Tasks.NewTaskConsistent | packages/db/src/task-chain-repository.ts:903-947 | A row built from an accepted canonical payload agrees with it column by column, decimal seconds and dates included; it reads back exactly when chain, creator, repository and dates are in range |
| Tasks.ConsistentExactly | packages/db/src/task-chain-repository.ts:470-524 | The read path accepts a row exactly when its content columns are the ones creation inserts for its canonical payload and chain, creator, repository and dates are in range |
| Tasks.ReparseReturnsView | packages/db/src/task-chain-repository.ts:526-621 | A stored snapshot parses back to its view up to a trailing `.git`, and to the very view exactly when there is none |
| ChainTransactions.MutatorsImplySchemaChecks | packages/db/src/schema.ts:643-658 | Over any sequence of public mutators, wired or not, every row meets the three state CHECK constraints and the stronger row invariant, and a terminal row is never changed |
| ChainTransactions.NonceNeverReparses | packages/db/src/task-chain-repository.ts:632-690 | A snapshot that carries a nonce is always turned down on replay |
| TaskRepository.Repository.CreateTask | packages/db/src/task-chain-repository.ts:833-963 | Insert-then-check with rollback does exactly what the atomic step says, result and tables |
| TaskRepository.Repository.InsertTask | packages/db/src/task-chain-repository.ts:854-938 | The refusals come in the order of the source; without one the canonical row is inserted and its view returned |
| TaskRepository.Repository.CreateChainIntent | packages/db/src/task-chain-repository.ts:1017-1116 | Equal to its atomic step: replay, refusal with rollback, or a wallet_requested row and an awaiting task |
| TaskRepository.Repository.CreateReceiptChainIntent | packages/db/src/task-chain-repository.ts:1164-1360 | Equal to its atomic step, every refusal rolled back |
| TaskRepository.Repository.InsertReceipt | packages/db/src/task-chain-repository.ts:1243-1345 | Assignee, pair, deadline, pending receipts, bundle binding and recency are tested in order after the insert; otherwise row and attestation are stored together |
| TaskRepository.Repository.TransitionChainTransaction | packages/db/src/task-chain-repository.ts:1619-1688 | Equal to its atomic step: replay, compare-and-set patch, task back to draft on a rejection |
| TaskRepository.Repository.RecordWalletOutcome | packages/db/src/task-chain-repository.ts:1372-1403 | Equal to its step, in which a wrong task is reported after the commit |
| TaskRepository.Repository.RecordReplacement | packages/db/src/task-chain-repository.ts:1405-1526 | Equal to its atomic step: the new row copies the prior one and the prior one points at it |
| TaskRepository.Repository.MarkTransactionUnknown | packages/db/src/task-chain-repository.ts:2034-2094 | Equal to its step: replay on the same code, compare-and-set otherwise |
| TaskRepository.Repository.MarkTransactionReverted | packages/db/src/task-chain-repository.ts:2096-2163 | Equal to its step: replay on the same block, compare-and-set otherwise |
| TaskRepository.Repository.ConfirmTaskCreatedFromReconciliation | packages/db/src/task-chain-repository.ts:2165-2297 | Equal to its atomic step on row, task and indexed event, rolled back on range or identity conflicts |
| TaskRepository.Repository.ConfirmReceiptSubmittedFromReconciliation | packages/db/src/task-chain-repository.ts:2305-2432 | Equal to its atomic step on row, task and indexed event |
| Invariants.CreateTaskKeeps | packages/db/src/task-chain-repository.ts:833-963 | Task creation keeps the structure of the tables and takes nothing back |
| Invariants.CreateIntentKeeps | packages/db/src/task-chain-repository.ts:1017-1116 | So does a creation intent: row bound to its task, hashes, keys and identities unique |
| Invariants.CreateReceiptKeeps | packages/db/src/task-chain-repository.ts:1164-1360 | So does a receipt intent, whose attestation is bound to a passing bundle of the same task |
| Invariants.TransitionKeeps | packages/db/src/task-chain-repository.ts:1619-1688 | So does a wallet outcome, whose new hash is unique and whose actor is the owner |
| Invariants.ReplacementKeeps | packages/db/src/task-chain-repository.ts:1405-1526 | So does a replacement, which touches two rows |
| Invariants.MarkUnknownKeeps | packages/db/src/task-chain-repository.ts:2034-2094 | So does marking a row unknown from a pending status |
| Invariants.MarkRevertedKeeps | packages/db/src/task-chain-repository.ts:2096-2163 | So does marking a row reverted from a pending status |
| Invariants.ConfirmCreationKeeps | packages/db/src/task-chain-repository.ts:2165-2297 | So does a creation confirmation; chain identities stay unique |
| Invariants.ConfirmReceiptKeeps | packages/db/src/task-chain-repository.ts:2305-2432 | So does a receipt confirmation; every indexed event belongs to a confirmed row |
| Invariants.PersistEvidenceKeeps | packages/db/src/repository.ts:420-511 | So does an upload: a stored bundle meets the schema and was recomputed against its task's own policy |
| Invariants.UpdateProjectKeeps | packages/db/src/project-policy-repository.ts:592-660 | So does a project update: the repository of a project with tasks is immutable, so its tasks still read back |
| Invariants.CreatePolicyKeeps | packages/db/src/project-policy-repository.ts:662-768 | So does storing a policy version, which leaves every stored version as it is |
| Acceptance.PostsExactly | packages/db/src/task-chain-repository.ts:833-947 | A first posting goes through exactly for the owner of an active project, under its URL and active policy, for a payload, dates, reward and chain within the written limits, under a hash new to the project |
| Acceptance.IntentOpensExactly | packages/db/src/task-chain-repository.ts:1032-1084 | A creation intent is opened exactly by the owner, for a draft task of an active project whose deadline lies after the request, under a new key |
| Acceptance.ReceiptOpensExactly | packages/db/src/task-chain-repository.ts:1190-1320 | A receipt intent is opened exactly by a member for the assignee, for an open task before its deadline all of whose receipts were rejected or reverted, on the newest passing bundle, before the expiry |
| Acceptance.OutcomeTakenExactly | packages/db/src/task-chain-repository.ts:1619-1688 | An outcome is taken exactly for a requested row of its owner: sent with a nonce under a hash no other row of the chain has, or rejected with a code of the written form |
| Acceptance.ReplacementTakenExactly | packages/db/src/task-chain-repository.ts:1405-1483 | A replacement is taken exactly for a submitted or unknown row of the owner, under its own nonce, a free hash and a new key |
| Acceptance.UploadTakenExactly | packages/db/src/repository.ts:420-511 | Evidence is stored exactly when it is an evidence bundle bound to a task and its policy, carries one result per declared check and a flag that follows from them, and its hash is new for the task |
| Acceptance.PatchTakenExactly | packages/db/src/project-policy-repository.ts:592-660 | A project is patched exactly by its owner, its URL only before the first task, its policy only while active; then exactly the given fields change |
| Acceptance.PolicyTakenExactly | packages/db/src/project-policy-repository.ts:662-768 | A policy version is stored or found stored exactly by the owner of an active project, when no other version of the project has its hash; nothing but it and the active policy changes |
| Replies.PostingReplies | packages/db/src/task-chain-repository.ts:903-962 | The reply to a first posting is the task then stored, and what replays will find |
| Replies.IntentReplies | packages/db/src/task-chain-repository.ts:1042-1110 | The reply to a first creation intent shows the task as it was and, column by column, the stored row: from the creator to the contract, requested, with nothing known of it on chain |
| Replies.ReceiptReplies | packages/db/src/task-chain-repository.ts:1206-1345 | The same for a receipt intent, whose row is the assignee's, with its attestation |
| Replies.OutcomeReplies | packages/db/src/task-chain-repository.ts:1640-1688 | An outcome stores the reported status, hash, nonce and code over an otherwise unchanged row, answers with that row, and keeps it for replays |
| Replies.ReplacementReplies | packages/db/src/task-chain-repository.ts:1460-1515 | A replacement answers with both rows as stored: the new one with the scope and nonce of the prior, the prior pointing at it |
| Replies.UnknownReplies | packages/db/src/task-chain-repository.ts:2060-2090 | A mark goes through exactly on a row in the expected status or already under that mark, changes nothing but it, and answers with the row |
| Replies.RevertedReplies | packages/db/src/task-chain-repository.ts:2117-2160 | The same for a revert, with its block |
| Replies.ConfirmationsShow | packages/db/src/task-chain-repository.ts:2826-2860 | Whatever a confirmation answers with is the row as it is then stored |
| Replies.CreationReplies | packages/db/src/task-chain-repository.ts:2207-2297 | A creation confirmation that changes anything confirms the row in its block, opens the task under the chain id and indexes that event, and nothing else |
| Replies.SubmissionReplies | packages/db/src/task-chain-repository.ts:2345-2432 | The same for a receipt confirmation |
| Replies.CreationAnswers | packages/db/src/task-chain-repository.ts:2195-2270 | In every reachable state a creation confirmation answers with the row again exactly if it is confirmed under this very id, and otherwise goes through exactly in the expected status, within the column ranges and under a free id |
| Replies.SubmissionAnswers | packages/db/src/task-chain-repository.ts:2325-2400 | The same for a receipt confirmation; a row that is no attested receipt is not found |
| Lifecycle.CreateIntentMoves | packages/db/src/task-chain-repository.ts:1079-1104 | A creation intent moves its task along an edge of the five pairs and leaves every other task and every misconfirmed one alone |
| Lifecycle.CreateReceiptMoves | packages/db/src/task-chain-repository.ts:1254-1277 | So does a receipt intent: no other receipt of the task counts, and none has been replaced |
| Lifecycle.OutcomeMoves | packages/db/src/task-chain-repository.ts:1663-1668 | So does a wallet outcome; a rejection leads to (draft, none) or (draft, open) |
| Lifecycle.ReplacementMoves | packages/db/src/task-chain-repository.ts:1485-1504 | So does a replacement, which passes the one place of its intent on to the new row |
| Lifecycle.ConfirmCreationMoves | packages/db/src/task-chain-repository.ts:2207-2270 | A creation confirmation that changes anything moves every task along an edge exactly when the row is a task creation, and otherwise misconfirms a receipt of one open task, under the logged chain id |
| Lifecycle.ConfirmReceiptMoves | packages/db/src/task-chain-repository.ts:2345-2405 | A receipt confirmation moves every task along an edge |
| Lifecycle.LiveRowFixesPair | packages/db/src/task-chain-repository.ts:1079-1081 | A live creation exists only in (awaiting_chain, none), a live receipt only in (open, open) |
| Reconciliation.DecideTaskCreation | apps/web/src/server/task-reconciliation.ts:97-197 | The scan loop decides what the declarative outcome says |
| Reconciliation.DecideReceiptSubmission | apps/web/src/server/receipt-reconciliation.ts:104-193 | The two-event scan loop decides what the declarative outcome says |
| Reconciliation.ConfirmedExactlyWhenProved | apps/web/src/server/task-reconciliation.ts:127-191 | A confirmation is decided exactly on a successful receipt of the context's hash with exactly one matching log (and a consumed attestation, for receipts), and carries that log and block |
| Reconciliation.DecisionSaysWhy | apps/web/src/server/receipt-reconciliation.ts:104-178 | The failure code says why: node not reached, no receipt, another hash, no log that repeats the columns (or no consumed attestation), or two of them |
| Reconciliation.DecisionIgnoresLogOrder | apps/web/src/server/receipt-reconciliation.ts:133-178 | Any reordering of the logs gives the same decision |
| System.ClientsSettleNone | packages/db/src/task-chain-repository.ts:1619-1688 | No client call confirms or reverts a row; only reconcilers do |
| System.ConfirmedIsWitnessed | packages/db/src/task-chain-repository.ts:2165-2432 | A confirming write leaves a row whose hash, block and event come from a proving receipt |
| System.NoEventYet | packages/db/src/task-chain-repository.ts:2213-2229 | The duplicate-event guard never stops a pending row |
| System.ConfirmingWriteExactly | packages/db/src/task-chain-repository.ts:2165-2432 | A confirmation changes the tables exactly when the row still has the status the reconciler saw, the numbers fit the columns and no other task has the chain task id |
| System.NextSound | apps/web/src/server/reconciliation-job.ts:102-155 | Every event, by any route and with any stale context, keeps structure, bound contexts and witnesses |
| System.RunSound | apps/web/src/server/task-runtime.ts:168-302 | Over every run and interleaving the structure holds, every context stays true of its row, every confirmed row is witnessed, every reverted row failed, nothing is taken back |
| Runs.NextMoves | packages/db/src/task-chain-repository.ts:2165-2297 | One event moves every task along an edge, unless its guards let a receipt row be confirmed as a task creation; then that one task is misconfirmed |
| Runs.PhasesExactlyUnlessMisconfirmed | apps/web/src/server/task-handlers.ts:762-806 | After any run every task has the transactions its pair allows exactly when no event of the run misconfirmed a receipt |
| Runs.RoutedNeverMisconfirms | apps/web/src/server/reconciliation-job.ts:43-46 | Routing by intent rules misconfirmation out |
| Runs.MisconfirmedExactly | apps/web/src/server/task-handlers.ts:786-792 | A task ends up misconfirmed exactly when some event of the run misconfirmed one of its receipts |
| Runs.MisconfirmedForever | packages/db/src/task-chain-repository.ts:1254-1277 | No run changes a misconfirmed task again, or any of its rows, or adds a row to it |
| Runs.IdentityKeptExactly | packages/db/src/task-chain-repository.ts:2261-2270 | A chain task id, once set, is the same after a run exactly when no misconfirmation of its task logged another one |
| Runs.RunGood | packages/db/src/task-chain-repository.ts:2261-2270 | Over every run, by whatever routes, each task is in phase or misconfirmed, witnesses and stale contexts agree with their tasks; chain status only advances, a chain task id is never cleared, (draft, open) and (receipt_submitted, receipt_submitted) are final |
| Runs.ReachableGood | apps/web/src/server/receipt-runtime.ts:184-261 | So it is in every state reachable from the empty tables, and all tasks are in phase exactly when nothing was misconfirmed |
| Guarantees.ReachableCounts | packages/db/src/task-chain-repository.ts:1254-1277 | In every reachable state, by whatever routes, each task is in one of the five pairs, has a chain task id exactly when it is on chain, and the number of live and confirmed transactions of both intents its pair fixes; an open one has a confirmed receipt exactly when some event misconfirmed it |
| Guarantees.ConfirmedReceiptRestsOnPassingBundle | packages/db/src/task-chain-repository.ts:1278-1320 | End to end: a confirmed receipt rests on a bundle of its task in which every required check of the task's policy passed with exit code 0 on a clean tree, logged on chain by its hashes with its attestation consumed, exactly when the receipt reconciler confirmed it, which is exactly when its task is receipt_submitted on chain |
| Guarantees.ReachableReceiptRestsOnPassingBundle | packages/db/src/task-chain-repository.ts:2305-2432 | From the empty tables, by whatever routes: it does exactly when no event of the run misconfirmed a receipt of its task |
| Guarantees.EveryPendingReceiptCanEndUnbacked | apps/web/src/server/task-handlers.ts:786-792 | Two events on the owner's route confirm any pending receipt without that backing, attested or not |
| Guarantees.MisconfirmedReceiptStillHas | packages/db/src/task-chain-repository.ts:2207-2270 | A misconfirmed receipt still has a log with its task's columns, whose chain id the open task carries; it is attested exactly when it replaces no row, and then by a passing bundle |
| Guarantees.ConfirmedCreationRestsOnLog | apps/web/src/server/task-reconciliation.ts:127-191 | A confirmed creation was logged with the task's own columns; the task carries the logged chain id exactly when no misconfirmed receipt of it was logged under another |
| Guarantees.RoutesReadExactly | packages/db/src/task-chain-repository.ts:1873-2032 | In every reachable state the owner's route gets a context exactly for the caller's waiting rows, the members' route for the attested receipts among them, the job for waiting creations and attested receipts; a context repeats the columns |
| Origins.TaskOrigin | packages/db/src/task-chain-repository.ts:869-938 | Every task stored in a reachable state was posted by an event of the run as it still is, under the then active policy its payload commits to, on the chain of the one verified wallet |
| Origins.AttestationOrigin | packages/db/src/task-chain-repository.ts:1278-1306 | Every attestation stored in a reachable state was made by an event of the run, for the assignee of an open task before its deadline, of the bundle that was the newest passing one of the task then |
| Origins.RevertedRowFailed | apps/web/src/server/task-reconciliation.ts:119-126 | Every reverted row in a reachable state has an event of the run in which the node answered that its own transaction failed, in the block the row carries |
| Origins.ConfirmedRowProved | apps/web/src/server/task-reconciliation.ts:127-191 | Every confirmed row has one that answered with the receipt it was confirmed on: its own hash, one matching log, the indexed event |
| Guarantees.ArchivedProjectsGainNothing | packages/db/src/task-chain-repository.ts:1073-1078 | An archived project gains no task, intent or policy; only rows under way can be replaced |
| Guarantees.TerminalRowsNeverChange | packages/db/src/task-chain-repository.ts:339-348 | Over every run a confirmed, reverted, replaced or rejected row stays as it is |
| Guarantees.ForeignReceiptWaitsForever | packages/db/src/task-chain-repository.ts:2570-2607 | A row of a user who does not own the project is a receipt that never leaves wallet_requested |
| Guarantees.ReplacedReceiptNeverConfirms | packages/db/src/task-chain-repository.ts:1263-1277 | After a receipt has been replaced no run takes its task to receipt_submitted; a receipt of it is confirmed exactly if an event misconfirms one, and then it is unattested |
| Guarantees.RevertStrands | packages/db/src/task-chain-repository.ts:2134-2143 | Marking a live creation reverted leaves its task waiting with nothing on the way |
| Guarantees.StrandedForever | packages/db/src/task-chain-repository.ts:1079-1081 | No run, by whatever routes, takes a stranded task anywhere else |
| Recovery.InconclusiveAttempt | apps/web/src/server/task-reconciliation.ts:99-118 | An attempt without a conclusion changes nothing but the mark, and leaves its reason on the row |
| Recovery.InconclusiveAttempts | apps/web/src/server/task-reconciliation.ts:99-118 | Any number of attempts without a conclusion change nothing but the mark on the row, which stays pending |
| Recovery.GoodReceiptStillConfirms | apps/web/src/server/receipt-reconciliation.ts:104-193 | After them the first proving receipt confirms the row, exactly when its numbers fit the columns and the chain id is free |
| Recovery.StoredTaskReadsBack | packages/db/src/task-chain-repository.ts:470-524 | In every later state of every run a stored task reads back exactly when its last update has a four-digit year, with the canonical task and repository it was created with |
| Misrouting.EveryPendingReceiptCanBeMisconfirmed | apps/web/src/server/task-handlers.ts:786-792 | In every reachable state each pending receipt, attested or not, can be confirmed through the owner's route on a repeated creation log, and its task is left with any free chain task id the log carries |
| Example.ReceiptIsPending | packages/db/src/task-chain-repository.ts:1164-1360 | Eight concrete routed events lead from the empty tables to a receipt that waits for the chain |
| Example.ReceiptIsConfirmed | apps/web/src/server/receipt-reconciliation.ts:104-193 | One pass of the job confirms it |
| Example.ReceiptIsMisconfirmed | apps/web/src/server/task-handlers.ts:786-792 | Two concrete events on the owner's route confirm it as a creation instead, and overwrite chain task id 5 by 6 |
| Example.UnattestedReceiptIsConfirmed | packages/db/src/task-chain-repository.ts:1405-1526 | Replaced first, the receipt confirmed on that route has no attestation |
| Example.MisdirectedOutcomeCommits | packages/db/src/task-chain-repository.ts:1385-1403 | A concrete reachable state in which an outcome that names the wrong task throws and has changed the tables |
| Idempotency.OutcomeCommitsUnderErrorExactly | packages/db/src/task-chain-repository.ts:1385-1403 | A wallet outcome throws and has changed the tables exactly when the key is new, the row is the caller's in a project the caller owns and in the right status, a sent hash is free, and only the task is wrong; it has then stored what the rightly directed outcome stores |
| Idempotency.OnlyMisdirectedCommitUnderError | packages/db/src/task-chain-repository.ts:847-848 | Of all client calls exactly these throw without being rolled back |
| Idempotency.CorrectedOutcome | packages/db/src/task-chain-repository.ts:1632-1639 | Reported again for the right task, in any later state, a rejection is answered with what the failed call stored, a sent transaction with a conflict for ever; nothing more changes |
| Idempotency.TaskCreationIsIdempotent | packages/db/src/task-chain-repository.ts:851-854 | In every later state a used key answers the same request with the first view, any other with a conflict, and changes nothing |
| Idempotency.IntentIsIdempotent | packages/db/src/task-chain-repository.ts:1042-1072 | The same for a creation intent, however far its row has moved on |
| Idempotency.ReceiptIntentIsIdempotent | packages/db/src/task-chain-repository.ts:1206-1241 | The same for a receipt intent |
| Idempotency.OutcomeIsIdempotent | packages/db/src/task-chain-repository.ts:1632-1639 | A rejected outcome gets its first view back; a submitted one always ends in an error; neither changes anything |
| Idempotency.ReplacementNeverReplays | packages/db/src/task-chain-repository.ts:2778-2814 | A replacement whose key is taken always fails and changes nothing: with a conflict when it repeats what was taken, else with an idempotency conflict |
| Idempotency.ReplacementIsNeverRepeated | packages/db/src/task-chain-repository.ts:1460-1478 | After a first replacement its key is taken in every later state |
| Replacements.PointingKeepsAcyclicExactly | packages/db/src/repository.ts:608-639 | A new pointer keeps the chains acyclic exactly when its target's chain does not end at its source |
| Replacements.CallsKeepChains | packages/db/src/repository.ts:587-659 | Whatever is registered and updated, pointers stay acyclic and in one scope and rows meet the CHECK constraints |
| Replacements.UpdateExactly | packages/db/src/repository.ts:587-659 | The generic update goes through exactly along the written moves, with a target of the same scope and nonce when it replaces, for a row that then has the columns of its status under a hash of its own; it writes the given fields only |
| Replacements.RegisterExactly | packages/db/src/repository.ts:510-585 | A registration adds its row exactly in an initial status, unreplaced, under a new key and a hash of its own; otherwise nothing changes |
| Replacements.CallKeepsNoncesExactly | packages/db/src/repository.ts:587-659 | A call of the generic repository keeps the nonces of replaced rows and replacements equal exactly unless it goes through with another nonce for a row that it points at a replacement or that already replaces one |
| Replacements.NoncesSharedExactly | packages/db/src/repository.ts:587-659 | Along any sequence of calls they stay equal throughout exactly when no call is of that kind |
| Replacements.SameUpdateSplitsNonces | packages/db/src/repository.ts:642-650 | Every row that can be replaced can be given any other nonce by the update that replaces it |
| Replacements.LaterUpdateSplitsNonces | packages/db/src/repository.ts:30-40 | Every replacement that is still submitted can be given any other nonce later on |
| Replacements.ReachableChainsEnd | packages/db/src/task-chain-repository.ts:1432-1506 | In every reachable state following the pointers ends at a transaction that is not replaced, with the same scope and nonce |
| ReconciliationJob.ReconcileTaskCreation | apps/web/src/server/task-reconciliation.ts:90-197 | Read, scan and write of one creation reconciler |
| ReconciliationJob.ReconcileReceiptSubmission | apps/web/src/server/receipt-reconciliation.ts:97-193 | Read, scan and write of one receipt reconciler |
| WorkQueue.SnapshotExactly | packages/db/src/task-chain-repository.ts:1850-1868 | The snapshot is exactly the list of the submitted and unknown rows with a hash, each once with its user and intent, in the order of update time and primary key, as many as the limit lets through |
| ReconciliationJob.WaitingExactly | packages/db/src/task-chain-repository.ts:1855-1865 | In every reachable state the rows to list are exactly those of status submitted or unknown_reconcile |
| ReconciliationJob.RetriedUntilSettled | apps/web/src/server/reconciliation-job.ts:27-31 | Every row with a context for the job is listed, and still is, with its context, after any number of attempts without a conclusion |
| TaskRepository.Repository.ListPendingReconciliationTransactions | packages/db/src/task-chain-repository.ts:1844-1871 | That snapshot, or an error exactly when the limit is not between 1 and 100 |
| ReconciliationJob.RunPendingReconciliation | apps/web/src/server/reconciliation-job.ts:32-57 | Each item of the snapshot is attempted once, by its intent; the counts partition the outcomes and add up to scanned |
| ReconciliationJob.JobOutcomesAreRows | apps/web/src/server/reconciliation-job.ts:27-31 | Items are isolated: after the job each row has the status its own attempt settled on, or is exactly as it was listed if that attempt threw or had no context |
| ReconciliationJob.JobSkipsUnattested | packages/db/src/task-chain-repository.ts:1951-2032 | From any reachable state without other reconcilers the job is a run of the system, and finds no context exactly for the unattested receipts |
| ReconciliationJob.JobIsARun | apps/web/src/server/reconciliation-job.ts:39-55 | What the job does to the tables is a run of the system |
| Evidence.AssertChecksMatchPolicy | packages/evidence/src/bundle.ts:72-98 | No error is raised exactly when keys are distinct, all declared with their flag, and none is missing |
| Evidence.DeriveResult | packages/evidence/src/bundle.ts:141-164 | The filling loop computes counts, failure codes and the passing flag as specified |
| Evidence.DerivedResultRefined | packages/shared/src/domain.ts:223-259 | For collected Git states the derived result meets every result refinement exactly when at most a hundred failure codes come together |
| Evidence.DerivedResultOverflows | packages/shared/src/domain.ts:212 | A hundred failing checks on a dirty tree never meet it |
| Evidence.SchemaExactly | packages/shared/src/domain.ts:160-260 | The bundle schema accepts exactly the bundles within the written limits whose statuses fit what the process reported, whose counts count, and whose flag means required checks passed with exit code 0 on a clean tree |
| Evidence.BuildThenVerify | packages/evidence/src/bundle.ts:170-286 | What is built verifies under the same policy and comes back unchanged with the same evidence hash, exactly when it carries the hashes the caller insists on and the emitted repository name is not empty and carries no further `.git` |
| Evidence.BuildThenVerifyPlainRemote | packages/evidence/src/bundle.ts:212-286 | Without a trailing `.git` in the remote it does exactly when the expected hashes are its own |
| Evidence.BuildSucceeds | packages/evidence/src/bundle.ts:170-210 | Inputs that meet schema and policy are turned down as invalid exactly when the failure codes overflow |
| Evidence.BuiltMeetsPolicy | packages/evidence/src/bundle.ts:170-210 | A bundle is only built when some branch pattern matches, the owner is the expected one, the base commit is verified and dirt is the only constraint failure; it carries the inputs' bindings |
| Evidence.TamperingIsNoticed | packages/evidence/src/bundle.ts:238-286 | Changing one binding of a bundle that verifies, or one expectation, turns it down with the error of that binding |
| Evidence.VerifiedBundleMeans | packages/evidence/src/bundle.ts:212-286 | A verified bundle is a valid one that passes exactly when every required check of the policy passed with exit code 0 on a clean tree; it is bound to policy, commit, base commit, output digests and the expected hashes, and a passing one has a branch some pattern matches and the expected owner |
| Evidence.PassingAgreement | packages/db/src/repository.ts:456-464 | On a valid bundle the server's flag agrees with the bundle's exactly when the tree was clean or a required check failed |
| Evidence.MatchersAgree | packages/db/src/repository.ts:165-186 | The counting matcher of the server and the looking-up matcher of the CLI agree up to labels |
| OutputCapture.CapturedStream.AppendChunk | packages/evidence/src/runner.ts:91-113 | The stream has kept the first bytes up to the hard limit; the process is terminated on the chunk that crosses it, only |
| OutputCapture.Capture | packages/evidence/src/runner.ts:137-188 | For every chunk sequence: exactly the first min(total, limit) bytes, exceeded exactly when more arrived, one termination |
| OutputCapture.CreateBoundedOutput | packages/evidence/src/redaction.ts:134-153 | The output is the whole redaction, or its longest prefix that leaves room for the marker |
| OutputCapture.PreviewFits | packages/evidence/src/redaction.ts:141-145 | The preview fits its byte budget exactly unless the marker alone does not |
| OutputCapture.PolicyBudgetFits | packages/shared/src/policy.ts:15 | With a budget of at least 1024 bytes it always fits |
| OutputCapture.PreviewIsLongest | packages/evidence/src/redaction.ts:143-145 | No longer whole-character prefix would fit |
| OutputCapture.RunCheck | packages/evidence/src/runner.ts:127-254 | timed_out exactly on a timeout, else error exactly when the spawn failed or a stream crossed its limit of one to sixteen megabytes, else passed exactly on exit code 0; exit code and both bounded outputs follow |
| OutputCapture.OutcomeConsistentExactly | packages/shared/src/domain.ts:165-177 | The result meets the check refinement exactly when the process reported what it uses of code and signal consistently |
| OutputCapture.UntruncatedIsWhole | packages/evidence/src/runner.ts:204-222 | An untruncated preview is the redaction of all that arrived, and hashes to its digest |
| OutputCapture.DigestsAlwaysMatch | packages/evidence/src/bundle.ts:100-114 | Captured outputs always pass the digest test |
| Utf8.DecodesExactlyEncodings | packages/evidence/src/redaction.ts:126-131 | The strict decoder inverts the encoder and accepts nothing else |
| Utf8.CharacterStarts | packages/evidence/src/redaction.ts:128 | A byte starts a character exactly when it does not continue one |
| Utf8.FittingIsLongest | packages/evidence/src/redaction.ts:122-132 | A prefix fits the budget exactly when it is no longer than the fitting one |
| Utf8.Utf8Prefix | packages/evidence/src/redaction.ts:122-132 | The backing-up loop yields the longest whole-character prefix |
| RateLimit.FixedWindowRateLimiter.Consume | apps/web/src/server/auth-handlers.ts:67-82 | The map after a call, and its answer |
| RateLimit.FixedWindowRateLimiter.Evict | apps/web/src/server/auth-handlers.ts:75-77 | The eviction loop leaves exactly the live windows |
| RateLimit.DatabaseRateLimiter.Consume | packages/db/src/auth-rate-limiter.ts:63-99 | The conditional upsert, or an error exactly when a date is out of range |
| RateLimit.DatabaseRateLimiter.DeleteExpired | packages/db/src/auth-rate-limiter.ts:102-126 | Only expired rows go, the longest expired first, up to the limit |
| RateLimit.SameAnswers | packages/db/src/auth-rate-limiter.ts:73-93 | From bisimilar states both limiters answer every call of every ordered trace alike, whatever is cleaned away in between |
| RateLimit.LimitersAgree | apps/web/src/server/auth-handlers.ts:67-82 | So they do from the start, while the keys of the trace fit into memory |
| RateLimit.CapacityKept | apps/web/src/server/auth-handlers.ts:74-79 | Over every trace the map stays within its capacity, and a window that no call outlives is never evicted: it keeps its end and has counted every call of its key |
| RateLimit.MemoryAtMostTwice | apps/web/src/server/auth-handlers.ts:67-82 | In any half-open interval of one window length at most twice the maximum gets through for a key |
| RateLimit.DatabaseAtMostTwice | packages/db/src/auth-rate-limiter.ts:73-93 | The same for the database, with any cleanup |
| RateLimit.OpenWindowExactly | apps/web/src/server/auth-handlers.ts:70-73 | While a window is open, exactly as many of the calls before it resets get through as its maximum has left |
| Pagination.PagesShowEverything | packages/db/src/task-chain-repository.ts:995-1011 | Following the cursors of any page size shows every row once, by descending creation time and then descending id |
| Pagination.AfterIsRest | packages/db/src/task-chain-repository.ts:2443-2448 | The query after a row of the listing gives the rest of the listing |
| Pagination.EvidencePagesSkip | packages/db/src/repository.ts:816-852 | Following the evidence cursors shows exactly the rows at sorted index i with i mod (limit + 1) different from limit |
| JsonEquality.SameJsonExactly | packages/db/src/repository.ts:125-139 | With a comparison that tells keys apart: exactly equality up to key order at every depth |
| JsonEquality.FieldOrderIsIrrelevant | packages/db/src/task-chain-repository.ts:417-430 | Reordering fields makes no difference |
| JsonEquality.TiedKeysKeepTheirOrder | packages/db/src/repository.ts:130 | Two keys that tie make two objects that differ only in their order differ |
| JsonEquality.ExactExactlyWhenNothingTies | packages/db/src/repository.ts:125-139 | The equality is exact exactly when no two different keys tie |
| OpaqueId.EncodeOpaquePublicId | apps/web/src/server/cli-token.ts:90-98 | The loop yields the 26 base-32 digits of the first sixteen bytes |
| OpaqueId.AlphabetExactly | apps/web/src/server/cli-token.ts:8 | The alphabet is the digits and the lower-case letters but i, l, o and u |
| OpaqueId.IdFormat | apps/web/src/server/cli-token.ts:90-98 | 26 such letters, the first at most `7` |
| OpaqueId.IdsAreInjectiveAndOrdered | apps/web/src/server/cli-token.ts:90-98 | The id determines the bytes, decodes to their value, and ids sort as text exactly as the bytes do |

## Left out

* The Solidity registry and escrow, and everything a chain could promise: the node may answer anything.
* keccak, HMAC, ECDSA, EIP-712 and RFC 8785: uninterpreted where they occur.
* Secret patterns, project patterns, YAML parsing and branch globs: they rest on a regular-expression engine.
* Database locking and SQL: one atomic step per method, unique constraints as guards. Audit rows are not kept.
* Creating projects and changing their members: runs start from arbitrary projects, whose owners and members stay.
* Idempotency records of project and policy calls and of evidence uploads: a replay there changes nothing.
* Fairness of the reconciliation queue: an unchanged failure code does not move an item back, so none holds.
* `registerSubmittedTransaction`, `reconcileTransaction` and `confirmTaskCreatedEvent` are not wired; they occur in
  `ChainTransactions.MutatorsImplySchemaChecks` only.
* HTTP handlers, cookies, the CLI, Git and process I/O, and the user interface.
* Format checks on ids, hashes, addresses and keys: tokens have no malformed form.
- ReconciliationJob.RunPendingReconciliation: runs its items with nobody in between; interleaved runs are those of System.RunSound, to which ReconciliationJob.JobIsARun ties the job.
- RateLimit.SameAnswers: supposes that the keys fit into memory and that dates are in range, because beyond that the memory limiter refuses and the database limiter throws.
- Pagination.PagesShowEverything: speaks of a fixed set of rows; rows inserted between two pages are not modelled.
- JsonEquality.SameJsonExactly: takes key comparison as a parameter; which keys a locale lets tie is not modelled.
- OutputCapture.RunCheck: timing, signals to the process group and the environment are inputs or not modelled.
