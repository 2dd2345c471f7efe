/** The owner's reconcile route does not test the intent: how a pending receipt is confirmed as a task creation. */
module Misrouting {
  import opened Prelude
  import opened Tasks
  import opened ChainTransactions
  import opened Store
  import opened Invariants
  import opened Lifecycle
  import opened Reconciliation
  import opened System
  import opened Runs

  /** A successful receipt of the row's own hash whose one log repeats the task's creation, under chain task id `id`. */
  function RepeatedCreation(row: Tx, t: Task, id: nat): Receipt
    requires row.hash.Some?
  {
    Receipt(true, row.hash.value, 1, 0,
            [Log(t.contract, 0, TaskCreatedLog(id, t.creator, t.assignee, t.taskHash, t.policyHash, t.reward,
                                               SecondsOf(t.canonical.deadlineSeconds)))])
  }

  /** A chain task id that fits its column and that no other task has. */
  predicate Free(db: Tables, t: TaskId, id: nat) {
    id <= 0x7FFF_FFFF_FFFF_FFFF && (t in db.tasks ==> IdentityIsFree(db, t, id))
  }

  predicate IsPendingReceipt(db: Tables, x: TxId) {
    x in db.txs && db.txs[x].intent == SubmitReceipt && db.txs[x].status in {Submitted, UnknownReconcile}
  }

  lemma RepeatedCreationProves(c: Context, receipt: Receipt, log: Log)
    requires c.CreationContext? && receipt.hash == c.hash && receipt.success
    requires receipt.logs == [log] && CreationMatches(c, log)
    ensures Decide(c, Found(receipt)) == DecideConfirmed(log, receipt.blockHash, receipt.blockNumber)
  {
    assert Matching(c, receipt.logs) == [log] + Matching(c, receipt.logs[1..]);
  }

  /** A task's own chain task id is always free for it. */
  lemma OwnIdentityIsFree(db: Tables, t: TaskId)
    requires Structure(db) && t in db.tasks && db.tasks[t].chainTaskId.Some?
    ensures Free(db, t, db.tasks[t].chainTaskId.value)
  {
    StructureIdentities(db);
  }

  lemma PendingReceiptFacts(db: Tables, x: TxId)
    requires Structure(db) && Tracked(db) && IsPendingReceipt(db, x)
    ensures db.txs[x].task in db.tasks && IsOwner(db, db.txs[x].project, db.txs[x].user) && db.txs[x].hash.Some?
    ensures db.tasks[db.txs[x].task].chainTaskId.Some?
  {
    hide Structure, Tracked, Consistent, TaskMisconfirmed;
    StructureRow(db, x);
    TrackedTask(db, db.txs[x].task);
    LiveRowFixesPair(db, x);
  }

  /** What the owner's route reads of a pending receipt, and decides from a repeated creation. */
  lemma OwnerAsks(s: State, thread: ThreadId, x: TxId, id: nat)
    requires IsPendingReceipt(s.db, x) && s.db.txs[x].hash.Some? && s.db.txs[x].task in s.db.tasks
    requires IsOwner(s.db, s.db.txs[x].project, s.db.txs[x].user)
    ensures var row, t := s.db.txs[x], s.db.tasks[s.db.txs[x].task];
            var c, receipt := CreationContextOf(x, row, t), RepeatedCreation(row, t, id);
            && Next(s, Begin(thread, OwnerRequest, x, row.user)) == s.(threads := s.threads[thread := c])
            && Decide(c, Found(receipt)) == DecideConfirmed(receipt.logs[0], 1, 0)
            && receipt.logs[0].logIndex == 0 && receipt.logs[0].event.TaskCreatedLog?
            && receipt.logs[0].event.taskId == id
  {
    hide Decide;
    var row, t := s.db.txs[x], s.db.tasks[s.db.txs[x].task];
    var c, receipt := CreationContextOf(x, row, t), RepeatedCreation(row, t, id);
    RepeatedCreationProves(c, receipt, receipt.logs[0]);
  }

  /**
   * In every reachable state, each receipt that waits for the chain can be misconfirmed through the owner's route,
   * attested or not, and its task is left with whatever free chain task id the log carries.
   */
  lemma EveryPendingReceiptCanBeMisconfirmed(s: State, thread: ThreadId, x: TxId, id: nat, at: Time)
    requires Good(s) && IsPendingReceipt(s.db, x) && Free(s.db, s.db.txs[x].task, id) && ValidDate(at)
    ensures s.db.txs[x].hash.Some? && s.db.txs[x].task in s.db.tasks
    ensures var t := s.db.txs[x].task;
            var asked := Next(s, Begin(thread, OwnerRequest, x, s.db.txs[x].user));
            var finish := Finish(thread, Found(RepeatedCreation(s.db.txs[x], s.db.tasks[t], id)), at);
            var later := Next(asked, finish).db;
            && Misconfirms(asked, finish) && Victim(asked, finish) == t && LoggedId(asked, finish) == id
            && IsMisconfirmed(later, t) && later.tasks[t].chainTaskId == Some(id)
            && x in later.txs && later.txs[x].intent == SubmitReceipt && later.txs[x].status == Confirmed
            && (x in later.attestations <==> x in s.db.attestations)
            && !Phases(later)
  {
    hide Good, Sound, Structure, Tracked, Phases, Next, Decide, Misconfirms, MisconfirmsTask,
         TaskMisconfirmed, Victim, LoggedId, RepeatedCreation, IsOwner, Free;
    GoodParts(s);
    PendingReceiptFacts(s.db, x);
    OwnerAsks(s, thread, x, id);
    var row, t := s.db.txs[x], s.db.tasks[s.db.txs[x].task];
    var begin := Begin(thread, OwnerRequest, x, row.user);
    var finish := Finish(thread, Found(RepeatedCreation(row, t, id)), at);
    NextGood(s, begin);
    var asked := Next(s, begin);
    GoodParts(asked);
    OwnerMisconfirms(s, asked, thread, x, id, at);
    NextMoves(asked, finish);
    FallenTask(asked.db, Next(asked, finish).db, row.task, id);
    NextTracked(asked, finish);
    MisconfirmedRow(asked, finish);
  }

  lemma OwnerMisconfirms(s: State, asked: State, thread: ThreadId, x: TxId, id: nat, at: Time)
    requires IsPendingReceipt(s.db, x) && s.db.txs[x].hash.Some? && s.db.txs[x].task in s.db.tasks
    requires Free(s.db, s.db.txs[x].task, id) && ValidDate(at)
    requires var c := CreationContextOf(x, s.db.txs[x], s.db.tasks[s.db.txs[x].task]);
             asked == s.(threads := s.threads[thread := c])
    requires var c := CreationContextOf(x, s.db.txs[x], s.db.tasks[s.db.txs[x].task]);
             var receipt := RepeatedCreation(s.db.txs[x], s.db.tasks[s.db.txs[x].task], id);
             Decide(c, Found(receipt)) == DecideConfirmed(receipt.logs[0], 1, 0)
    ensures var receipt := RepeatedCreation(s.db.txs[x], s.db.tasks[s.db.txs[x].task], id);
            var finish := Finish(thread, Found(receipt), at);
            Misconfirms(asked, finish) && Victim(asked, finish) == s.db.txs[x].task && LoggedId(asked, finish) == id
  {
    hide Decide, IdentityIsFree;
  }

  lemma FallenTask(db: Tables, later: Tables, t: TaskId, id: nat)
    requires MisconfirmsTask(db, later, t, id)
    ensures IsMisconfirmed(later, t) && later.tasks[t].chainTaskId == Some(id)
  {
  }

  /** The row a misconfirmation confirms; it stays as little attested as it was. */
  lemma MisconfirmedRow(s: State, e: Event)
    requires Sound(s) && Misconfirms(s, e)
    ensures var x := s.threads[e.thread].tx;
            var later := Next(s, e).db;
            && x in s.db.txs && x in later.txs && later.txs[x].status == Confirmed
            && later.txs[x].intent == s.db.txs[x].intent
            && (x in later.attestations <==> x in s.db.attestations)
  {
    hide Structure, Bound, ConfirmedWitnessed, RevertedFailed, Decide, WriteBack, Storable, Confirms;
    var c := s.threads[e.thread];
    ConfirmingWriteExactly(s.db, c, e.answer.receipt, e.at);
    ConfirmedAsDecided(s.db, c, e.answer, e.at);
    var confirmation := ConfirmationOf(c, Decide(c, e.answer), e.at);
    ConfirmsFields(s.db, Next(s, e).db, confirmation);
    ConfirmationMoves(s.db, Next(s, e).db, confirmation);
  }
}
