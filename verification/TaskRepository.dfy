/**
 * The repository as an object over its tables. Every method works the way the source does, inserting first
 * and checking afterwards, inside one database transaction: when it throws, the transaction is rolled back.
 */
module TaskRepository {
  import opened Prelude
  import opened Tasks
  import opened ChainTransactions
  import opened Store
  import opened Reconciliation
  import opened WorkQueue
  import Decimals

  class Repository {
    var projects: map<ProjectId, Project>
    var policies: map<PolicyId, PolicyVersion>
    var tasks: map<TaskId, Task>
    var txs: map<TxId, Tx>
    var attestations: map<TxId, Attestation>
    var events: map<EventKey, ContractEvent>
    var bundles: map<BundleId, StoredBundle>
    var reservations: map<ApiKey, Reservation>

    constructor (db: Tables)
      ensures Db() == db
    {
      projects, policies, tasks, txs := db.projects, db.policies, db.tasks, db.txs;
      attestations, events, bundles, reservations := db.attestations, db.events, db.bundles, db.reservations;
    }

    function Db(): Tables
      reads this
    {
      Tables(projects, policies, tasks, txs, attestations, events, bundles, reservations)
    }

    method Rollback(before: Tables)
      modifies this
      ensures Db() == before
    {
      projects, policies, tasks, txs := before.projects, before.policies, before.tasks, before.txs;
      attestations, events := before.attestations, before.events;
      bundles, reservations := before.bundles, before.reservations;
    }

    method CreateTask(i: CreateTaskInput) returns (r: Result<TaskView, Error>)
      modifies this
      ensures Step(Db(), r) == CreateTaskStep(old(Db()), i)
    {
      hide CreateTaskRefusal, ReplayTask, AcceptsCanonical, PolicyBound;
      if !CreateTaskAccepted(i) {
        return Err(InvalidInput);
      }
      if !IsOwner(Db(), i.project, i.actor) {
        return Err(NotFound);
      }
      var before := Db();
      var k := ApiKey(i.actor, OpTaskCreate, i.key);
      if k in reservations {
        return ReplayTask(before, k, i.requestHash, i.publicId);
      }
      reservations := reservations[k := Reservation(i.requestHash, i.publicId, NoResponse)];
      RefusalIgnoresReservations(before, Db(), i);
      r := InsertTask(i);
      if r.Err? {
        Rollback(before);
        return;
      }
      reservations := reservations[k := reservations[k].(response := TaskResponse(r.value))];
    }

    static lemma RefusalIgnoresReservations(db: Tables, reserved: Tables, i: CreateTaskInput)
      requires CreateTaskAccepted(i) && i.project in db.projects
      requires reserved == db.(reservations := reserved.reservations)
      ensures CreateTaskRefusal(reserved, i) == CreateTaskRefusal(db, i)
    {
      hide ReadTask, AcceptsCanonical;
    }

    /** The body of `createTask` between the reservation and its completion. */
    method InsertTask(i: CreateTaskInput) returns (r: Result<TaskView, Error>)
      requires CreateTaskAccepted(i) && i.project in projects
      modifies this`tasks
      ensures match CreateTaskRefusal(old(Db()), i)
              case Some(error) => r == Err(error)
              case None =>
                && r == Ok(TaskView(i.publicId, projects[i.project].repositoryUrl, CreatedTask(i, i.walletChains[0])))
                && tasks == old(tasks)[i.publicId := CreatedTask(i, i.walletChains[0])]
    {
      var project := projects[i.project];
      if !project.active {
        return Err(ProjectArchived);
      }
      if RepositoryIdentity(project.repositoryUrl) != i.canonical.repositoryIdentity
         || project.repositoryUrl != i.repositoryUrl {
        return Err(InvalidInput);
      }
      if !PolicyBound(Db(), i) || |i.walletChains| != 1 {
        return Err(NotFound);
      }
      var chain := i.walletChains[0];
      if !SupportedChain(chain) {
        return Err(InvalidInput);
      }
      if TaskHashTaken(Db(), i.project, i.taskHash) {
        return Err(TaskHashConflict);
      }
      var deadline := DeadlineDate(i.canonical);
      var reward := Decimals.Value(i.canonical.rewardWei);
      if (deadline.Some? && !ValidDate(deadline.value)) || reward > BIGINT_MAX {
        return Err(InvalidInput);
      }
      if i.publicId in tasks {
        return Err(Conflict);
      }
      tasks := tasks[i.publicId := CreatedTask(i, chain)];
      r := ReadTask(i.publicId, tasks[i.publicId], project.repositoryUrl);
    }

    method CreateChainIntent(i: IntentInput) returns (r: Result<IntentReply, Error>)
      modifies this
      ensures Step(Db(), r) == CreateIntentStep(old(Db()), i)
    {
      if !ValidDate(i.at) {
        return Err(InvalidInput);
      }
      if i.task !in tasks || !IsOwner(Db(), tasks[i.task].project, i.actor) {
        return Err(NotFound);
      }
      var before := Db();
      var t := tasks[i.task];
      if KeyTaken(before, i.actor, Intent.CreateTask, i.key) {
        return ReplayIntent(before, i, Intent.CreateTask);
      }
      if i.publicId in txs {
        return Err(Conflict);
      }
      txs := txs[i.publicId := IntentRow(i, t, Intent.CreateTask, t.creator)];
      if !projects[t.project].active {
        Rollback(before);
        return Err(ProjectArchived);
      }
      if t.offchain != Draft || t.chain != NoChain || DeadlineElapsed(t, i.at) {
        Rollback(before);
        return Err(Conflict);
      }
      var initial := ViewOf(i.publicId, txs[i.publicId]);
      var view := TaskViewOf(Db(), i.task);
      if view.Err? {
        Rollback(before);
        return Err(Conflict);
      }
      txs := txs[i.publicId := txs[i.publicId].(response := IntentResponse(view.value, initial))];
      tasks := tasks[i.task := t.(offchain := AwaitingChain, updatedAt := i.at)];
      return Ok(IntentReply(view.value, initial, false));
    }

    method CreateReceiptChainIntent(i: ReceiptInput) returns (r: Result<IntentReply, Error>)
      modifies this
      ensures Step(Db(), r) == CreateReceiptStep(old(Db()), i)
    {
      var task, id := i.intent.task, i.intent.publicId;
      if !ReceiptAccepted(i) {
        return Err(InvalidInput);
      }
      if task !in tasks || !IsMember(Db(), tasks[task].project, i.intent.actor) {
        return Err(NotFound);
      }
      var before := Db();
      if KeyTaken(before, i.intent.actor, SubmitReceipt, i.intent.key) {
        return ReplayIntent(before, i.intent, SubmitReceipt);
      }
      if id in txs {
        return Err(Conflict);
      }
      r := InsertReceipt(i);
      if r.Err? {
        Rollback(before);
      }
    }

    method InsertReceipt(i: ReceiptInput) returns (r: Result<IntentReply, Error>)
      requires i.intent.task in tasks && tasks[i.intent.task].project in projects && i.intent.publicId !in txs
      modifies this`txs, this`attestations
      ensures match CreateReceiptRefusal(old(Db()), i)
              case Some(error) => r == Err(error)
              case None =>
                var t := tasks[i.intent.task];
                var row := IntentRow(i.intent, t, SubmitReceipt, t.assignee);
                var view := TaskViewOf(old(Db()), i.intent.task).value;
                var tx := ViewOf(i.intent.publicId, row);
                && r == Ok(IntentReply(view, tx, false))
                && txs == old(txs)[i.intent.publicId := row.(response := ReceiptResponse(view, tx, AttestationOf(i)))]
                && attestations == old(attestations)[i.intent.publicId := AttestationOf(i)]
    {
      var task, id := i.intent.task, i.intent.publicId;
      var t := tasks[task];
      txs := txs[id := IntentRow(i.intent, t, SubmitReceipt, t.assignee)];
      if !projects[t.project].active {
        return Err(ProjectArchived);
      }
      if t.assignee != i.assignee {
        return Err(InvalidInput);
      }
      if t.chain != ChainOpen || t.offchain != Open || DeadlineElapsed(t, i.intent.at) {
        return Err(Conflict);
      }
      OtherThanTheNewRow(old(Db()), id, txs[id], task);
      if OtherThan(txs, id, task) {
        return Err(Conflict);
      }
      if !BundleBound(Db(), i) {
        return Err(InvalidInput);
      }
      if NewerPassing(Db(), i) {
        return Err(Conflict);
      }
      if i.expirySeconds > BIGINT_MAX {
        return Err(InvalidInput);
      }
      attestations := attestations[id := AttestationOf(i)];
      var initial := ViewOf(id, txs[id]);
      var view := TaskViewOf(Db(), task);
      if view.Err? {
        return Err(Conflict);
      }
      txs := txs[id := txs[id].(response := ReceiptResponse(view.value, initial, AttestationOf(i)))];
      return Ok(IntentReply(view.value, initial, false));
    }

    /** A receipt intent of the task, other than `self`, that may still end on chain or has. */
    static predicate OtherThan(rows: map<TxId, Tx>, self: TxId, task: TaskId) {
      exists x :: x in rows && x != self && rows[x].task == task && rows[x].intent == SubmitReceipt
                  && rows[x].status !in {RejectedByUser, Reverted}
    }

    static lemma OtherThanTheNewRow(db: Tables, self: TxId, row: Tx, task: TaskId)
      requires self !in db.txs
      ensures OtherThan(db.txs[self := row], self, task) <==> OtherReceiptPending(db, task)
    {
      if OtherReceiptPending(db, task) {
        var x: TxId :| x in db.txs && db.txs[x].task == task && db.txs[x].intent == SubmitReceipt
                       && db.txs[x].status !in {RejectedByUser, Reverted};
        assert db.txs[self := row][x] == db.txs[x];
      }
    }

    method TransitionChainTransaction(i: OutcomeInput) returns (r: Result<TxView, Error>)
      modifies this
      ensures Step(Db(), r) == TransitionStep(old(Db()), i)
    {
      hide ReplayTx, IsOwner, HashTaken, Patched;
      if !OutcomeAccepted(i) {
        return Err(InvalidInput);
      }
      if i.tx !in txs || txs[i.tx].user != i.actor || txs[i.tx].task !in tasks
         || !IsOwner(Db(), txs[i.tx].project, i.actor) {
        return Err(NotFound);
      }
      var before := Db();
      var k := OutcomeKey(i);
      if k in reservations {
        return ReplayTx(before, k, i.requestHash, i.tx);
      }
      reservations := reservations[k := Reservation(i.requestHash, i.tx, NoResponse)];
      var row := txs[i.tx];
      if row.status != OutcomeTransition(i).expected
         || (i.status == Submitted && HashTaken(before, i.tx, row.chainId, i.hash.value)) {
        Rollback(before);
        return Err(Conflict);
      }
      txs := txs[i.tx := Patched(row, OutcomeTransition(i))];
      if i.status == RejectedByUser {
        tasks := tasks[row.task := tasks[row.task].(offchain := Draft, updatedAt := i.at)];
      }
      var view := ViewOf(i.tx, txs[i.tx]);
      reservations := reservations[k := reservations[k].(response := TxResponse(view))];
      return Ok(view);
    }

    /** The transition has committed by the time the task is compared. */
    method RecordWalletOutcome(i: OutcomeInput) returns (r: Result<TxView, Error>)
      modifies this
      ensures Step(Db(), r) == OutcomeStep(old(Db()), i)
    {
      r := TransitionChainTransaction(i);
      if r.Ok? && r.value.task != i.task {
        return Err(NotFound);
      }
    }

    method RecordReplacement(i: ReplacementInput) returns (r: Result<ReplacementReply, Error>)
      modifies this
      ensures Step(Db(), r) == ReplacementStep(old(Db()), i)
    {
      if !ReplacementAccepted(i) {
        return Err(InvalidInput);
      }
      if i.prior !in txs || txs[i.prior].user != i.actor || txs[i.prior].task !in tasks
         || !IsOwner(Db(), txs[i.prior].project, i.actor) {
        return Err(NotFound);
      }
      var before := Db();
      var prior := txs[i.prior];
      if KeyTaken(before, prior.user, prior.intent, i.key) {
        return ReplayReplacement(before, i, prior);
      }
      if i.publicId in txs || HashTaken(before, i.publicId, prior.chainId, i.hash) {
        return Err(Conflict);
      }
      var row := ReplacementRow(i, prior);
      txs := txs[i.publicId := row];
      if prior.status !in {Submitted, UnknownReconcile} || prior.nonce != Some(i.nonce) || prior.hash == Some(i.hash) {
        Rollback(before);
        return Err(InvalidInput);
      }
      var view := ViewOf(i.publicId, row);
      txs := txs[i.publicId := row.(response := TxResponse(view))];
      txs := txs[i.prior := prior.(status := Replaced, replacedBy := Some(i.publicId),
                                   failureCode := Some(TRANSACTION_REPLACED), updatedAt := i.at)];
      return Ok(ReplacementReply(ViewOf(i.prior, txs[i.prior]), view));
    }

    method MarkTransactionUnknown(tx: TxId, expected: Status, failureCode: string, at: Time)
      returns (r: Result<TxView, Error>)
      modifies this`txs
      ensures Step(Db(), r) == MarkUnknownStep(old(Db()), tx, expected, failureCode, at)
    {
      if !UnknownAccepted(expected, failureCode, at) {
        return Err(InvalidInput);
      }
      if tx !in txs {
        return Err(NotFound);
      }
      var row := txs[tx];
      if row.status == UnknownReconcile && row.failureCode == Some(failureCode) {
        assert txs == txs[tx := row];
        return Ok(ViewOf(tx, row));
      }
      if row.status != expected {
        return Err(Conflict);
      }
      txs := txs[tx := row.(status := UnknownReconcile, failureCode := Some(failureCode), updatedAt := at)];
      return Ok(ViewOf(tx, txs[tx]));
    }

    method MarkTransactionReverted(tx: TxId, expected: Status, blockNumber: nat, at: Time)
      returns (r: Result<TxView, Error>)
      modifies this`txs
      ensures Step(Db(), r) == MarkRevertedStep(old(Db()), tx, expected, blockNumber, at)
    {
      if !SettleAccepted(expected, at) {
        return Err(InvalidInput);
      }
      if tx !in txs {
        return Err(NotFound);
      }
      var row := txs[tx];
      if row.status == Reverted && row.blockNumber == Some(blockNumber) {
        assert txs == txs[tx := row];
        return Ok(ViewOf(tx, row));
      }
      if row.status != expected {
        return Err(Conflict);
      }
      if row.hash.None? || blockNumber > BIGINT_MAX {
        return Err(InvalidInput);
      }
      txs := txs[tx := row.(status := Reverted, blockNumber := Some(blockNumber),
                            failureCode := Some(TRANSACTION_REVERTED), updatedAt := at)];
      return Ok(ViewOf(tx, txs[tx]));
    }

    method ConfirmTaskCreatedFromReconciliation(c: Confirmation, chainTaskId: nat) returns (r: Result<TxView, Error>)
      modifies this
      ensures Step(Db(), r) == ConfirmCreationStep(old(Db()), c, chainTaskId)
    {
      if !SettleAccepted(c.expected, c.at) {
        return Err(InvalidInput);
      }
      if c.tx !in txs || txs[c.tx].task !in tasks {
        return Err(NotFound);
      }
      var before := Db();
      var row, t := txs[c.tx], tasks[txs[c.tx].task];
      if row.status == Confirmed && t.chainTaskId == Some(chainTaskId) {
        return Ok(ViewOf(c.tx, row));
      }
      if row.status != c.expected {
        return Err(Conflict);
      }
      if row.hash.None? || c.blockNumber > BIGINT_MAX {
        return Err(InvalidInput);
      }
      var k := EventKey(row.chainId, row.hash.value, c.logIndex);
      if k in events {
        return Err(Conflict);
      }
      events := events[k := ContractEvent(t.contract, TaskCreated, chainTaskId, c.blockNumber, c.blockHash)];
      txs := txs[c.tx := row.(status := Confirmed, blockNumber := Some(c.blockNumber), failureCode := None,
                              updatedAt := c.at)];
      if c.logIndex > INTEGER_MAX || chainTaskId > BIGINT_MAX {
        Rollback(before);
        return Err(InvalidInput);
      }
      if ChainIdentityTaken(Db(), row.task, t, chainTaskId) {
        Rollback(before);
        return Err(Conflict);
      }
      tasks := tasks[row.task := t.(chainTaskId := Some(chainTaskId), offchain := Open, chain := ChainOpen,
                                    updatedAt := c.at)];
      return Ok(ViewOf(c.tx, txs[c.tx]));
    }

    method ConfirmReceiptSubmittedFromReconciliation(c: Confirmation) returns (r: Result<TxView, Error>)
      modifies this
      ensures Step(Db(), r) == ConfirmReceiptStep(old(Db()), c)
    {
      if !SettleAccepted(c.expected, c.at) {
        return Err(InvalidInput);
      }
      if c.tx !in txs || txs[c.tx].intent != SubmitReceipt || txs[c.tx].task !in tasks || c.tx !in attestations {
        return Err(NotFound);
      }
      var before := Db();
      var row, t := txs[c.tx], tasks[txs[c.tx].task];
      if row.status == Confirmed && t.chain == ChainReceiptSubmitted {
        return Ok(ViewOf(c.tx, row));
      }
      if row.status != c.expected {
        return Err(Conflict);
      }
      if row.hash.None? || c.blockNumber > BIGINT_MAX {
        return Err(InvalidInput);
      }
      var k := EventKey(row.chainId, row.hash.value, c.logIndex);
      if k in events {
        return Err(Conflict);
      }
      events := events[k := ContractEvent(t.contract, ReceiptSubmittedEvent,
                                          if t.chainTaskId.Some? then t.chainTaskId.value else 0,
                                          c.blockNumber, c.blockHash)];
      if c.logIndex > INTEGER_MAX {
        Rollback(before);
        return Err(InvalidInput);
      }
      txs := txs[c.tx := row.(status := Confirmed, blockNumber := Some(c.blockNumber), failureCode := None,
                              updatedAt := c.at)];
      tasks := tasks[row.task := t.(offchain := ReceiptSubmitted, chain := ChainReceiptSubmitted, updatedAt := c.at)];
      return Ok(ViewOf(c.tx, txs[c.tx]));
    }

    /** One query: its rows are values, read at one moment. */
    method ListPendingReconciliationTransactions(limit: int, ids: TxId -> nat) returns (r: Result<seq<Item>, Error>)
      requires PrimaryKeys(Db(), ids)
      ensures r.Ok? <==> 1 <= limit <= 100
      ensures r.Ok? ==> r.value == Snapshot(Db(), ids, limit)
    {
      if limit < 1 || limit > 100 {
        return Err(InvalidInput);
      }
      return Ok(Snapshot(Db(), ids, limit));
    }
  }
}
