/** The reconcilers as code over the repository, and the job that runs them over a bounded queue. */
module ReconciliationJob {
  import opened Prelude
  import opened Tasks
  import opened ChainTransactions
  import opened Store
  import opened Invariants
  import opened Reconciliation
  import opened System
  import opened Lifecycle
  import opened Runs
  import opened Recovery
  import opened Misrouting
  import opened WorkQueue
  import opened TaskRepository

  // ----- one reconciler's turn -----

  /** What an attempt comes back with: it threw, there was no context, or the status it settled on. */
  datatype Outcome = Threw | NoContext | Settled(status: Status)

  datatype Turn = Turn(tables: Tables, outcome: Outcome)

  function StatusOf(d: Decision): Status {
    match d
    case DecideUnknown(_) => UnknownReconcile
    case DecideReverted(_) => Reverted
    case DecideConfirmed(_, _, _) => Confirmed
  }

  function TurnOn(db: Tables, context: Option<Context>, answer: RpcAnswer, at: Time): Turn {
    if context.None? then Turn(db, NoContext)
    else
      var d := Decide(context.value, answer);
      var step := WriteBack(db, context.value, d, at);
      Turn(step.tables, if step.result.Err? then Threw else Settled(StatusOf(d)))
  }

  method WriteDecision(repository: Repository, c: Context, d: Decision, at: Time) returns (r: Result<TxView, Error>)
    modifies repository
    ensures Step(repository.Db(), r) == WriteBack(old(repository.Db()), c, d, at)
  {
    match d
    case DecideUnknown(code) => r := repository.MarkTransactionUnknown(c.tx, c.status, code, at);
    case DecideReverted(block) => r := repository.MarkTransactionReverted(c.tx, c.status, block, at);
    case DecideConfirmed(log, blockHash, block) =>
      var confirmation := Confirmation(c.tx, c.status, blockHash, block, log.logIndex, at);
      if c.CreationContext? && log.event.TaskCreatedLog? {
        r := repository.ConfirmTaskCreatedFromReconciliation(confirmation, log.event.taskId);
      } else {
        r := repository.ConfirmReceiptSubmittedFromReconciliation(confirmation);
      }
  }

  /** `reconcileTaskCreation`, with nobody in between: read, ask the node, scan the logs, write. */
  method ReconcileTaskCreation(repository: Repository, tx: TxId, actor: UserId, answer: RpcAnswer, at: Time)
    returns (outcome: Outcome)
    modifies repository
    ensures Turn(repository.Db(), outcome)
            == TurnOn(old(repository.Db()), ReadCreationContext(old(repository.Db()), tx, actor), answer, at)
  {
    var context := ReadCreationContext(repository.Db(), tx, actor);
    if context.None? {
      return NoContext;
    }
    var d := DecideTaskCreation(context.value, answer);
    var r := WriteDecision(repository, context.value, d, at);
    return if r.Err? then Threw else Settled(StatusOf(d));
  }

  /** `reconcileReceiptSubmission`. */
  method ReconcileReceiptSubmission(repository: Repository, tx: TxId, actor: UserId, answer: RpcAnswer, at: Time)
    returns (outcome: Outcome)
    modifies repository
    ensures Turn(repository.Db(), outcome)
            == TurnOn(old(repository.Db()), ReadReceiptContext(old(repository.Db()), tx, actor), answer, at)
  {
    var context := ReadReceiptContext(repository.Db(), tx, actor);
    if context.None? {
      return NoContext;
    }
    var d := DecideReceiptSubmission(context.value, answer);
    var r := WriteDecision(repository, context.value, d, at);
    return if r.Err? then Threw else Settled(StatusOf(d));
  }

  // ----- the job -----

  function ItemContext(db: Tables, item: Item): Option<Context> {
    if item.intent == CreateTask then ReadCreationContext(db, item.tx, item.actor)
    else ReadReceiptContext(db, item.tx, item.actor)
  }

  /** The tables and outcomes after the first `n` items, with the answers and times each attempt meets. */
  function TablesAfter(db: Tables, items: seq<Item>, answers: nat -> RpcAnswer, clock: nat -> Time, n: nat): Tables
    requires n <= |items|
  {
    if n == 0 then db
    else
      var before := TablesAfter(db, items, answers, clock, n - 1);
      TurnOn(before, ItemContext(before, items[n - 1]), answers(n - 1), clock(n - 1)).tables
  }

  function OutcomeOf(db: Tables, items: seq<Item>, answers: nat -> RpcAnswer, clock: nat -> Time, n: nat): Outcome
    requires n < |items|
  {
    var before := TablesAfter(db, items, answers, clock, n);
    TurnOn(before, ItemContext(before, items[n]), answers(n), clock(n)).outcome
  }

  function Outcomes(db: Tables, items: seq<Item>, answers: nat -> RpcAnswer, clock: nat -> Time): (o: seq<Outcome>)
    ensures |o| == |items|
  {
    seq(|items|, n requires 0 <= n < |items| => OutcomeOf(db, items, answers, clock, n))
  }

  datatype Counts = Counts(scanned: nat, confirmed: nat, reverted: nat, pending: nat, failed: nat)

  function Tally(outcomes: seq<Outcome>, o: Outcome): nat {
    multiset(outcomes)[o]
  }

  function Counted(c: Counts, o: Outcome): Counts {
    match o
    case Threw => c.(failed := c.failed + 1)
    case NoContext => c.(pending := c.pending + 1)
    case Settled(status) =>
      if status == Confirmed then c.(confirmed := c.confirmed + 1)
      else if status == Reverted then c.(reverted := c.reverted + 1)
      else c.(pending := c.pending + 1)
  }

  /** The four counts partition the outcomes. */
  ghost predicate CountsOf(c: Counts, outcomes: seq<Outcome>) {
    && c.confirmed == Tally(outcomes, Settled(Confirmed))
    && c.reverted == Tally(outcomes, Settled(Reverted))
    && c.failed == Tally(outcomes, Threw)
    && c.confirmed + c.reverted + c.pending + c.failed == |outcomes|
  }

  lemma CountedOnce(c: Counts, outcomes: seq<Outcome>, i: nat)
    requires i < |outcomes| && CountsOf(c, outcomes[..i])
    ensures CountsOf(Counted(c, outcomes[i]), outcomes[..i + 1])
    ensures Counted(c, outcomes[i]).scanned == c.scanned
  {
    assert outcomes[..i + 1] == outcomes[..i] + [outcomes[i]];
  }

  method AttemptItem(repository: Repository, item: Item, answer: RpcAnswer, at: Time) returns (outcome: Outcome)
    modifies repository
    ensures Turn(repository.Db(), outcome)
            == TurnOn(old(repository.Db()), ItemContext(old(repository.Db()), item), answer, at)
  {
    hide TurnOn, ReadCreationContext, ReadReceiptContext;
    if item.intent == CreateTask {
      outcome := ReconcileTaskCreation(repository, item.tx, item.actor, answer, at);
    } else {
      outcome := ReconcileReceiptSubmission(repository, item.tx, item.actor, answer, at);
    }
  }

  /** `runPendingReconciliation`: each item of a bounded snapshot is attempted once; a throwing one is counted. */
  method RunPendingReconciliation(
    repository: Repository, ids: TxId -> nat, limit: int, answers: nat -> RpcAnswer, clock: nat -> Time
  ) returns (r: Result<Counts, Error>)
    requires PrimaryKeys(repository.Db(), ids)
    modifies repository
    ensures r.Ok? <==> 1 <= limit <= 100
    ensures r.Err? ==> repository.Db() == old(repository.Db())
    ensures r.Ok? ==>
              var items := Snapshot(old(repository.Db()), ids, limit);
              && repository.Db() == TablesAfter(old(repository.Db()), items, answers, clock, |items|)
              && r.value.scanned == |items|
              && CountsOf(r.value, Outcomes(old(repository.Db()), items, answers, clock))
  {
    if limit < 1 || limit > 100 {
      return Err(InvalidInput);
    }
    hide *;
    var listed := repository.ListPendingReconciliationTransactions(limit, ids);
    var items := listed.value;
    var counts := Counts(|items|, 0, 0, 0, 0);
    ghost var start := repository.Db();
    ghost var outcomes := Outcomes(start, items, answers, clock);
    TablesBefore(start, items, answers, clock);
    NothingCounted(|items|, outcomes);
    for i := 0 to |items|
      invariant repository.Db() == TablesAfter(start, items, answers, clock, i)
      invariant CountsOf(counts, outcomes[..i]) && counts.scanned == |items|
    {
      TurnStep(start, items, answers, clock, i);
      var outcome := AttemptItem(repository, items[i], answers(i), clock(i));
      CountedOnce(counts, outcomes, i);
      counts := Counted(counts, outcome);
    }
    assert outcomes[..|items|] == outcomes;
    return Ok(counts);
  }

  lemma NothingCounted(scanned: nat, outcomes: seq<Outcome>)
    ensures CountsOf(Counts(scanned, 0, 0, 0, 0), outcomes[..0])
  {
  }

  lemma TablesBefore(db: Tables, items: seq<Item>, answers: nat -> RpcAnswer, clock: nat -> Time)
    ensures TablesAfter(db, items, answers, clock, 0) == db
  {
  }

  lemma TurnStep(db: Tables, items: seq<Item>, answers: nat -> RpcAnswer, clock: nat -> Time, i: nat)
    requires i < |items|
    ensures var before := TablesAfter(db, items, answers, clock, i);
            var item := items[i];
            var turn := TurnOn(before, ItemContext(before, item), answers(i), clock(i));
            && turn.tables == TablesAfter(db, items, answers, clock, i + 1)
            && turn.outcome == Outcomes(db, items, answers, clock)[i]
  {
    hide TurnOn, ReadCreationContext, ReadReceiptContext;
  }

  // ----- the job is a run of the system -----

  /** A queue entry read from the tables: its actor and intent are the row's, and stay so. */
  ghost predicate Eligible(db: Tables, item: Item) {
    && item.tx in db.txs
    && db.txs[item.tx].user == item.actor
    && db.txs[item.tx].intent == item.intent
  }

  lemma EligibleKept(db: Tables, later: Tables, item: Item)
    requires Extends(db, later) && Eligible(db, item)
    ensures Eligible(later, item)
  {
    assert RowKept(db.txs[item.tx], later.txs[item.tx]);
  }

  lemma TurnIsAttempt(s: State, thread: ThreadId, item: Item, answer: RpcAnswer, at: Time)
    requires Eligible(s.db, item)
    ensures s.threads == map[] || ReadContext(s.db, Job, item.tx, 0).Some? ==>
              Attempt(s, thread, item.tx, answer, at).db == TurnOn(s.db, ItemContext(s.db, item), answer, at).tables
    ensures ReadContext(s.db, Job, item.tx, 0) == ItemContext(s.db, item)
  {
    hide Decide, WriteBack, ReadCreationContext, ReadReceiptContext;
    if ReadContext(s.db, Job, item.tx, 0).Some? {
      AttemptTables(s, thread, item.tx, answer, at);
    }
  }

  /** The two events of each item, in order. */
  function JobEvents(items: seq<Item>, answers: nat -> RpcAnswer, clock: nat -> Time, n: nat): seq<Event>
    requires n <= |items|
  {
    if n == 0 then []
    else
      JobEvents(items, answers, clock, n - 1)
      + [Begin(n - 1, Job, items[n - 1].tx, 0), Finish(n - 1, answers(n - 1), clock(n - 1))]
  }

  /** An attempt leaves no thread behind when there was none. */
  lemma AttemptThreads(s: State, thread: ThreadId, x: TxId, answer: RpcAnswer, at: Time)
    requires s.threads == map[]
    ensures Attempt(s, thread, x, answer, at).threads == map[]
  {
    hide Decide, WriteBack, ReadContext;
  }

  /** What the job does to the tables is what a run of the system does, so everything proved of runs holds of it. */
  lemma {:induction false} JobIsARun(s: State, items: seq<Item>, answers: nat -> RpcAnswer, clock: nat -> Time, n: nat)
    requires Sound(s) && s.threads == map[] && n <= |items|
    requires forall i | 0 <= i < |items| :: Eligible(s.db, items[i])
    ensures var end := Run(s, JobEvents(items, answers, clock, n));
            end.db == TablesAfter(s.db, items, answers, clock, n) && end.threads == map[]
    decreases n
  {
    hide Sound, Next, Extends, TurnOn, Eligible, ItemContext, ReadContext;
    if n > 0 {
      JobIsARun(s, items, answers, clock, n - 1);
      var before := JobEvents(items, answers, clock, n - 1);
      var begin, finish := Begin(n - 1, Job, items[n - 1].tx, 0), Finish(n - 1, answers(n - 1), clock(n - 1));
      var mid := Run(s, before);
      RunAppends(s, before, [begin, finish]);
      RunPair(mid, begin, finish);
      RunSound(s, before);
      EligibleKept(s.db, mid.db, items[n - 1]);
      TurnIsAttempt(mid, n - 1, items[n - 1], answers(n - 1), clock(n - 1));
      AttemptThreads(mid, n - 1, items[n - 1].tx, answers(n - 1), clock(n - 1));
    }
  }

  // ----- what the snapshot holds for the job -----

  /** In every reachable state the rows to list are exactly the submitted ones and those marked unknown. */
  lemma WaitingExactly(db: Tables, x: TxId)
    requires Structure(db)
    ensures x in Waiting(db) <==>
            x in db.txs && (db.txs[x].status == Submitted || db.txs[x].status == UnknownReconcile)
  {
    hide Structure;
    if x in db.txs {
      StructureRow(db, x);
    }
  }

  /**
   * Every row the job could work on is listed, and stays listed after any number of attempts without a conclusion,
   * with its context to be read again: nothing but a limit keeps it from being retried.
   */
  lemma RetriedUntilSettled(s: State, thread: ThreadId, x: TxId, tries: seq<Try>)
    requires Sound(s) && ReadContext(s.db, Job, x, 0).Some?
    requires forall i | 0 <= i < |tries| :: Decide(ReadContext(s.db, Job, x, 0).value, tries[i].answer).DecideUnknown?
    ensures x in Waiting(s.db)
    ensures var later := Attempts(s, thread, x, tries).db;
            x in Waiting(later) && ReadContext(later, Job, x, 0).Some?
  {
    hide Structure, ReadContext, Attempts, Decide, OnlyMarked, ThreadsBound, ConfirmedWitnessed, RevertedFailed,
         Waiting;
    var later := Attempts(s, thread, x, tries).db;
    ReadPending(s.db, x);
    InconclusiveAttempts(s, thread, x, tries);
    ReadAgainBriefly(s.db, later, x);
    AttemptsSound(s, thread, x, tries);
    WaitingExactly(s.db, x);
    WaitingExactly(later, x);
    ReadPending(later, x);
  }

  /** The items of the snapshot are the rows' own users and intents, each row once. */
  lemma SnapshotItems(db: Tables, ids: TxId -> nat, limit: nat)
    requires PrimaryKeys(db, ids)
    ensures var items := Snapshot(db, ids, limit);
            && (forall i | 0 <= i < |items| :: Eligible(db, items[i]) && Queued(db, items[i].tx))
            && (forall i, j | 0 <= i < j < |items| :: items[i].tx != items[j].tx)
  {
    hide QueuedRows, PrimaryKeys, Older;
    var xs := Selected(db, ids, limit);
    SelectedFront(db, ids, limit, xs);
    forall i, j | 0 <= i < j < |xs| ensures xs[i] != xs[j] {
      assert ComesNext(db, ids, QueuedRows(db), xs[..j], xs[j]);
      assert xs[..j][i] == xs[i];
    }
  }

  /** Row `x` and the attestations are as they were. */
  ghost predicate Spares(db: Tables, after: Tables, x: TxId) {
    && (x in after.txs <==> x in db.txs) && (x in db.txs ==> after.txs[x] == db.txs[x])
    && after.attestations == db.attestations
  }

  lemma WriteSparesOthers(db: Tables, c: Context, d: Decision, at: Time, x: TxId)
    requires x != c.tx
    ensures Spares(db, WriteBack(db, c, d, at).tables, x)
  {
    hide MarkUnknownStep, MarkRevertedStep, ConfirmCreationStep, ConfirmReceiptStep, Spares;
    match d
    case DecideUnknown(code) => UnknownSpares(db, c.tx, c.status, code, at, x);
    case DecideReverted(block) => RevertedSpares(db, c.tx, c.status, block, at, x);
    case DecideConfirmed(log, blockHash, block) =>
      var confirmation := Confirmation(c.tx, c.status, blockHash, block, log.logIndex, at);
      if log.event.TaskCreatedLog? {
        CreationSpares(db, confirmation, log.event.taskId, x);
      }
      SubmissionSpares(db, confirmation, x);
  }

  lemma UnknownSpares(db: Tables, tx: TxId, expected: Status, code: string, at: Time, x: TxId)
    requires x != tx
    ensures Spares(db, MarkUnknownStep(db, tx, expected, code, at).tables, x)
  {
    hide UnknownRow, UnknownAccepted, ViewOf;
  }

  lemma RevertedSpares(db: Tables, tx: TxId, expected: Status, block: nat, at: Time, x: TxId)
    requires x != tx
    ensures Spares(db, MarkRevertedStep(db, tx, expected, block, at).tables, x)
  {
    hide RevertedRow, SettleAccepted, ViewOf;
  }

  lemma CreationSpares(db: Tables, c: Confirmation, chainTaskId: nat, x: TxId)
    requires x != c.tx
    ensures Spares(db, ConfirmCreationStep(db, c, chainTaskId).tables, x)
  {
    hide ConfirmCreationStep, Confirms;
    if ConfirmCreationStep(db, c, chainTaskId).tables != db {
      ConfirmCreationShape(db, c, chainTaskId);
      ConfirmsFields(db, ConfirmCreationStep(db, c, chainTaskId).tables, c);
    }
  }

  lemma SubmissionSpares(db: Tables, c: Confirmation, x: TxId)
    requires x != c.tx
    ensures Spares(db, ConfirmReceiptStep(db, c).tables, x)
  {
    hide ConfirmReceiptStep, Confirms;
    if ConfirmReceiptStep(db, c).tables != db {
      ConfirmReceiptShape(db, c);
      ConfirmsFields(db, ConfirmReceiptStep(db, c).tables, c);
    }
  }

  /** A turn changes no other row, and no attestation. */
  lemma TurnSparesOthers(db: Tables, item: Item, answer: RpcAnswer, at: Time, x: TxId)
    requires x != item.tx
    ensures Spares(db, TurnOn(db, ItemContext(db, item), answer, at).tables, x)
  {
    hide Decide, WriteBack, ReadCreationContext, ReadReceiptContext;
    var context := ItemContext(db, item);
    if context.Some? {
      ContextTx(db, item);
      WriteSparesOthers(db, context.value, Decide(context.value, answer), at, x);
    }
  }

  lemma ContextTx(db: Tables, item: Item)
    ensures ItemContext(db, item).Some? ==> ItemContext(db, item).value.tx == item.tx
  {
  }

  lemma {:induction false} ItemUntouched(
    db: Tables, items: seq<Item>, answers: nat -> RpcAnswer, clock: nat -> Time, n: nat, x: TxId
  )
    requires n <= |items| && x in db.txs && forall i | 0 <= i < n :: items[i].tx != x
    ensures var after := TablesAfter(db, items, answers, clock, n);
            x in after.txs && after.txs[x] == db.txs[x] && after.attestations == db.attestations
    decreases n
  {
    hide TurnOn, ItemContext;
    if n > 0 {
      ItemUntouched(db, items, answers, clock, n - 1, x);
      UntouchedAttestations(db, items, answers, clock, n - 1);
      TurnSparesOthers(TablesAfter(db, items, answers, clock, n - 1), items[n - 1], answers(n - 1), clock(n - 1), x);
    }
  }

  lemma {:induction false} UntouchedAttestations(
    db: Tables, items: seq<Item>, answers: nat -> RpcAnswer, clock: nat -> Time, n: nat
  )
    requires n <= |items|
    ensures TablesAfter(db, items, answers, clock, n).attestations == db.attestations
    decreases n
  {
    hide TurnOn, ItemContext;
    if n > 0 {
      UntouchedAttestations(db, items, answers, clock, n - 1);
      var before, item := TablesAfter(db, items, answers, clock, n - 1), items[n - 1];
      TurnSparesOthers(before, item, answers(n - 1), clock(n - 1), item.tx + 1);
    }
  }

  /** Of the rows the job selects, exactly the unattested receipts, those that replace others, have no context. */
  lemma ContextMissing(db: Tables, item: Item)
    requires Structure(db) && Tracked(db) && Eligible(db, item) && Queued(db, item.tx)
    ensures ItemContext(db, item).None? <==> item.intent == SubmitReceipt && item.tx !in db.attestations
  {
    hide Structure, Tracked, TaskPhase, TaskMisconfirmed, RowSound;
    StructureRow(db, item.tx);
    QueuedOwner(db, item.tx);
    if IsPendingReceipt(db, item.tx) {
      PendingReceiptFacts(db, item.tx);
    }
  }

  lemma QueuedOwner(db: Tables, x: TxId)
    requires x in db.txs && RowSound(db, x) && Queued(db, x)
    ensures IsOwner(db, db.txs[x].project, db.txs[x].user) && db.txs[x].task in db.tasks
  {
  }

  /**
   * The job from any reachable state: what it does is a run of the system, and it comes back without a context
   * exactly for the unattested receipts, which it can therefore never settle.
   */
  lemma JobSkipsUnattested(
    s: State, ids: TxId -> nat, limit: nat, answers: nat -> RpcAnswer, clock: nat -> Time, n: nat
  )
    requires Good(s) && s.threads == map[] && PrimaryKeys(s.db, ids) && n < |Snapshot(s.db, ids, limit)|
    ensures var items := Snapshot(s.db, ids, limit);
            && Run(s, JobEvents(items, answers, clock, |items|)).db
               == TablesAfter(s.db, items, answers, clock, |items|)
            && (Outcomes(s.db, items, answers, clock)[n] == NoContext <==>
                items[n].intent == SubmitReceipt && items[n].tx !in s.db.attestations)
  {
    hide *;
    var items := Snapshot(s.db, ids, limit);
    GoodParts(s);
    SnapshotItems(s.db, ids, limit);
    JobIsARun(s, items, answers, clock, |items|);
    JobIsARun(s, items, answers, clock, n);
    var mid := Run(s, JobEvents(items, answers, clock, n));
    RunGood(s, JobEvents(items, answers, clock, n));
    GoodParts(mid);
    EligibleRow(s.db, items[n]);
    ItemUntouched(s.db, items, answers, clock, n, items[n].tx);
    SameItem(s.db, mid.db, items[n]);
    ContextMissing(mid.db, items[n]);
    OutcomeAt(s.db, items, answers, clock, n);
  }

  lemma EligibleRow(db: Tables, item: Item)
    requires Eligible(db, item)
    ensures item.tx in db.txs
  {
  }

  lemma SameItem(db: Tables, later: Tables, item: Item)
    requires Eligible(db, item) && Queued(db, item.tx)
    requires item.tx in later.txs && later.txs[item.tx] == db.txs[item.tx]
    ensures Eligible(later, item) && Queued(later, item.tx)
  {
  }

  lemma OutcomeAt(db: Tables, items: seq<Item>, answers: nat -> RpcAnswer, clock: nat -> Time, n: nat)
    requires n < |items|
    ensures Outcomes(db, items, answers, clock)[n] == NoContext <==>
            ItemContext(TablesAfter(db, items, answers, clock, n), items[n]).None?
  {
    hide Decide, WriteBack, ItemContext, TablesAfter;
  }

  // ----- the outcomes are what the rows say -----

  lemma ThrowingTurnChangesNothing(db: Tables, c: Context, d: Decision, at: Time)
    ensures WriteBack(db, c, d, at).result.Err? ==> WriteBack(db, c, d, at).tables == db
  {
    hide ConfirmedRow, UnknownRow, RevertedRow;
  }

  lemma UnknownSettles(db: Tables, tx: TxId, expected: Status, code: string, at: Time)
    ensures var done := MarkUnknownStep(db, tx, expected, code, at);
            done.result.Ok? ==> tx in done.tables.txs && done.tables.txs[tx].status == UnknownReconcile
  {
  }

  lemma RevertedSettles(db: Tables, tx: TxId, expected: Status, block: nat, at: Time)
    ensures var done := MarkRevertedStep(db, tx, expected, block, at);
            done.result.Ok? ==> tx in done.tables.txs && done.tables.txs[tx].status == Reverted
  {
  }

  lemma CreationSettles(db: Tables, c: Confirmation, chainTaskId: nat)
    ensures var done := ConfirmCreationStep(db, c, chainTaskId);
            done.result.Ok? ==> c.tx in done.tables.txs && done.tables.txs[c.tx].status == Confirmed
  {
    hide ChainIdentityTaken;
  }

  lemma SubmissionSettles(db: Tables, c: Confirmation)
    ensures var done := ConfirmReceiptStep(db, c);
            done.result.Ok? ==> c.tx in done.tables.txs && done.tables.txs[c.tx].status == Confirmed
  {
  }

  lemma WriteSettles(db: Tables, c: Context, d: Decision, at: Time)
    ensures var done := WriteBack(db, c, d, at);
            done.result.Ok? ==> c.tx in done.tables.txs && done.tables.txs[c.tx].status == StatusOf(d)
  {
    hide MarkUnknownStep, MarkRevertedStep, ConfirmCreationStep, ConfirmReceiptStep;
    match d
    case DecideUnknown(code) => UnknownSettles(db, c.tx, c.status, code, at);
    case DecideReverted(block) => RevertedSettles(db, c.tx, c.status, block, at);
    case DecideConfirmed(log, blockHash, block) =>
      var confirmation := Confirmation(c.tx, c.status, blockHash, block, log.logIndex, at);
      if log.event.TaskCreatedLog? {
        CreationSettles(db, confirmation, log.event.taskId);
      }
      SubmissionSettles(db, confirmation);
  }

  /** What an outcome says of its row: the status it now has, or that it is as it was. */
  ghost predicate Reports(outcome: Outcome, before: Tx, after: Tx) {
    if outcome.Settled? then after.status == outcome.status else after == before
  }

  lemma TurnReports(db: Tables, item: Item, answer: RpcAnswer, at: Time)
    requires item.tx in db.txs
    ensures var turn := TurnOn(db, ItemContext(db, item), answer, at);
            item.tx in turn.tables.txs && Reports(turn.outcome, db.txs[item.tx], turn.tables.txs[item.tx])
  {
    hide Decide, WriteBack, ReadCreationContext, ReadReceiptContext;
    var context := ItemContext(db, item);
    if context.Some? {
      ContextTx(db, item);
      ThrowingTurnChangesNothing(db, context.value, Decide(context.value, answer), at);
      WriteSettles(db, context.value, Decide(context.value, answer), at);
    }
  }

  lemma {:induction false} LaterItemsSpare(
    db: Tables, items: seq<Item>, answers: nat -> RpcAnswer, clock: nat -> Time, m: nat, n: nat, x: TxId
  )
    requires m <= n <= |items| && forall i | m <= i < n :: items[i].tx != x
    requires x in TablesAfter(db, items, answers, clock, m).txs
    ensures x in TablesAfter(db, items, answers, clock, n).txs
    ensures TablesAfter(db, items, answers, clock, n).txs[x] == TablesAfter(db, items, answers, clock, m).txs[x]
    decreases n
  {
    hide TurnOn, ItemContext;
    if m < n {
      LaterItemsSpare(db, items, answers, clock, m, n - 1, x);
      TurnSparesOthers(TablesAfter(db, items, answers, clock, n - 1), items[n - 1], answers(n - 1), clock(n - 1), x);
    }
  }

  /**
   * Each item is isolated: when the whole job is over, the row of every item has the status its attempt settled on,
   * or is exactly as it was listed if the attempt threw or had no context, whatever happened to the others.
   */
  lemma JobOutcomesAreRows(
    db: Tables, ids: TxId -> nat, limit: nat, answers: nat -> RpcAnswer, clock: nat -> Time, n: nat
  )
    requires PrimaryKeys(db, ids) && n < |Snapshot(db, ids, limit)|
    ensures var items := Snapshot(db, ids, limit);
            var x, after := items[n].tx, TablesAfter(db, items, answers, clock, |items|);
            && x in db.txs && x in after.txs
            && Reports(Outcomes(db, items, answers, clock)[n], db.txs[x], after.txs[x])
  {
    hide *;
    var items := Snapshot(db, ids, limit);
    SnapshotItems(db, ids, limit);
    EligibleRow(db, items[n]);
    ItemUntouched(db, items, answers, clock, n, items[n].tx);
    TurnReports(TablesAfter(db, items, answers, clock, n), items[n], answers(n), clock(n));
    TurnStep(db, items, answers, clock, n);
    LaterItemsSpare(db, items, answers, clock, n + 1, |items|, items[n].tx);
  }
}
