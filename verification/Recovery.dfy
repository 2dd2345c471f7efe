/** Failed attempts cost nothing: a good receipt still confirms, and every stored task still reads back. */
module Recovery {
  import opened Prelude
  import opened Tasks
  import opened ChainTransactions
  import opened Store
  import opened Invariants
  import opened Lifecycle
  import opened Reconciliation
  import opened System
  import opened Runs

  /** One whole pass of the job over a transaction: read, ask the node, write. */
  function Attempt(s: State, thread: ThreadId, x: TxId, answer: RpcAnswer, at: Time): State {
    Next(Next(s, Begin(thread, Job, x, 0)), Finish(thread, answer, at))
  }

  datatype Try = Try(answer: RpcAnswer, at: Time)

  function Attempts(s: State, thread: ThreadId, x: TxId, tries: seq<Try>): State
    decreases |tries|
  {
    if tries == [] then s else Attempts(Attempt(s, thread, x, tries[0].answer, tries[0].at), thread, x, tries[1..])
  }

  // ----- the decision does not look at the status -----

  lemma {:induction false} MatchingIgnoresStatus(c: Context, status: Status, logs: seq<Log>)
    ensures Matching(c.(status := status), logs) == Matching(c, logs)
  {
    if logs != [] {
      MatchingIgnoresStatus(c, status, logs[1..]);
    }
  }

  lemma DecisionIgnoresStatus(c: Context, status: Status, answer: RpcAnswer)
    ensures Decide(c.(status := status), answer) == Decide(c, answer)
  {
    var stale := c.(status := status);
    if answer.Found? {
      MatchingIgnoresStatus(c, status, answer.receipt.logs);
      if c.ReceiptContext? {
        assert forall log :: AttestationMatches(stale, log) == AttestationMatches(c, log);
      }
    }
  }

  // ----- attempts that settle nothing -----

  /** Only the mark on row `x` differs: its status (still pending), failure code and update time. */
  ghost predicate OnlyMarked(db: Tables, later: Tables, x: TxId) {
    && x in db.txs && x in later.txs
    && later == db.(txs := db.txs[x := later.txs[x]])
    && later.txs[x] == db.txs[x].(status := later.txs[x].status, failureCode := later.txs[x].failureCode,
                                  updatedAt := later.txs[x].updatedAt)
    && db.txs[x].status in {Submitted, UnknownReconcile} && later.txs[x].status in {Submitted, UnknownReconcile}
  }

  lemma OnlyMarkedTransitive(a: Tables, b: Tables, c: Tables, x: TxId)
    requires OnlyMarked(a, b, x) && OnlyMarked(b, c, x)
    ensures OnlyMarked(a, c, x)
  {
    assert c.txs == a.txs[x := c.txs[x]];
  }

  /** After a mark the job reads the same context again, but for the status. */
  lemma ReadAgain(db: Tables, later: Tables, x: TxId)
    requires OnlyMarked(db, later, x) && ReadContext(db, Job, x, 0).Some?
    ensures ReadContext(later, Job, x, 0)
            == Some(ReadContext(db, Job, x, 0).value.(status := later.txs[x].status))
  {
  }

  /** The row is marked with this failure code. */
  predicate Records(db: Tables, x: TxId, code: string) {
    x in db.txs && db.txs[x].status == UnknownReconcile && db.txs[x].failureCode == Some(code)
  }

  /** Every code a reconciler writes has the form the store asks for. */
  lemma CodesAreValid(c: Context, answer: RpcAnswer)
    requires Decide(c, answer).DecideUnknown?
    ensures ValidFailureCode(Decide(c, answer).failureCode)
  {
    hide Matching, ConsumesAttestation, ValidFailureCode;
    NodeCodesAreValid();
    CreationCodesAreValid();
    ReceiptCodesAreValid();
  }

  lemma NodeCodesAreValid()
    ensures ValidFailureCode(RPC_UNAVAILABLE) && ValidFailureCode(RECEIPT_PENDING)
    ensures ValidFailureCode(RECEIPT_HASH_MISMATCH)
  {
  }

  lemma CreationCodesAreValid()
    ensures ValidFailureCode(TASK_CREATED_EVENT_MISSING)
    ensures ValidFailureCode(TASK_CREATED_EVENT_AMBIGUOUS)
  {
  }

  lemma ReceiptCodesAreValid()
    ensures ValidFailureCode(RECEIPT_SUBMITTED_EVENT_MISSING)
    ensures ValidFailureCode(RECEIPT_SUBMITTED_EVENT_AMBIGUOUS)
  {
  }

  lemma UnknownRecords(db: Tables, c: Context, code: string, at: Time)
    requires c.tx in db.txs && c.status == db.txs[c.tx].status && c.status in {Submitted, UnknownReconcile}
    requires ValidDate(at) && ValidFailureCode(code)
    ensures Records(MarkUnknownStep(db, c.tx, c.status, code, at).tables, c.tx, code)
  {
    hide ValidFailureCode;
  }

  lemma UnknownOnlyMarks(db: Tables, c: Context, code: string, at: Time)
    requires c.tx in db.txs && db.txs[c.tx].status in {Submitted, UnknownReconcile}
    ensures OnlyMarked(db, MarkUnknownStep(db, c.tx, c.status, code, at).tables, c.tx)
  {
    hide ValidFailureCode, ViewOf;
    assert db.txs == db.txs[c.tx := db.txs[c.tx]];
  }

  lemma ReadPending(db: Tables, x: TxId)
    requires ReadContext(db, Job, x, 0).Some?
    ensures x in db.txs && db.txs[x].status in {Submitted, UnknownReconcile} && db.txs[x].hash.Some?
    ensures var c := ReadContext(db, Job, x, 0).value;
            && c.tx == x && c.status == db.txs[x].status && db.txs[x].hash == Some(c.hash)
            && db.txs[x].task in db.tasks
            && (c.CreationContext? <==> db.txs[x].intent == CreateTask)
            && (c.ReceiptContext? ==> x in db.attestations && db.txs[x].intent == SubmitReceipt)
  {
  }

  lemma AttemptTables(s: State, thread: ThreadId, x: TxId, answer: RpcAnswer, at: Time)
    requires ReadContext(s.db, Job, x, 0).Some?
    ensures var c := ReadContext(s.db, Job, x, 0).value;
            Attempt(s, thread, x, answer, at).db == WriteBack(s.db, c, Decide(c, answer), at).tables
  {
    hide ReadContext, WriteBack, Decide;
  }

  /** An attempt without a conclusion changes nothing but the mark, and leaves its reason on the row. */
  lemma InconclusiveAttempt(s: State, thread: ThreadId, x: TxId, answer: RpcAnswer, at: Time)
    requires ReadContext(s.db, Job, x, 0).Some?
    requires Decide(ReadContext(s.db, Job, x, 0).value, answer).DecideUnknown?
    ensures OnlyMarked(s.db, Attempt(s, thread, x, answer, at).db, x)
    ensures ValidDate(at) ==> Records(Attempt(s, thread, x, answer, at).db, x,
                                      Decide(ReadContext(s.db, Job, x, 0).value, answer).failureCode)
  {
    hide ReadContext, Attempt, Decide, OnlyMarked, MarkUnknownStep, Records, ValidFailureCode;
    ReadPending(s.db, x);
    AttemptTables(s, thread, x, answer, at);
    var c := ReadContext(s.db, Job, x, 0).value;
    CodesAreValid(c, answer);
    UnknownOnlyMarks(s.db, c, Decide(c, answer).failureCode, at);
    if ValidDate(at) {
      UnknownRecords(s.db, c, Decide(c, answer).failureCode, at);
    }
  }

  lemma {:induction false} InconclusiveAttempts(s: State, thread: ThreadId, x: TxId, tries: seq<Try>)
    requires ReadContext(s.db, Job, x, 0).Some?
    requires forall i | 0 <= i < |tries| :: Decide(ReadContext(s.db, Job, x, 0).value, tries[i].answer).DecideUnknown?
    ensures OnlyMarked(s.db, Attempts(s, thread, x, tries).db, x)
    decreases |tries|
  {
    hide ReadContext, Attempt, Decide, OnlyMarked;
    if tries == [] {
      ReadPending(s.db, x);
      NothingMarked(s.db, x);
    } else {
      var next := Attempt(s, thread, x, tries[0].answer, tries[0].at);
      InconclusiveAttempt(s, thread, x, tries[0].answer, tries[0].at);
      ReadAgainBriefly(s.db, next.db, x);
      var c := ReadContext(s.db, Job, x, 0).value;
      var rest := tries[1..];
      forall i | 0 <= i < |rest| ensures Decide(ReadContext(next.db, Job, x, 0).value, rest[i].answer).DecideUnknown? {
        DecisionIgnoresStatus(c, ReadContext(next.db, Job, x, 0).value.status, rest[i].answer);
        assert rest[i] == tries[i + 1];
      }
      InconclusiveAttempts(next, thread, x, rest);
      OnlyMarkedTransitive(s.db, next.db, Attempts(s, thread, x, tries).db, x);
    }
  }

  lemma ReadAgainBriefly(db: Tables, later: Tables, x: TxId)
    requires OnlyMarked(db, later, x) && ReadContext(db, Job, x, 0).Some?
    ensures ReadContext(later, Job, x, 0).Some?
    ensures ReadContext(later, Job, x, 0).value
            == ReadContext(db, Job, x, 0).value.(status := ReadContext(later, Job, x, 0).value.status)
  {
    ReadAgain(db, later, x);
  }

  lemma NothingMarked(db: Tables, x: TxId)
    requires x in db.txs && db.txs[x].status in {Submitted, UnknownReconcile}
    ensures OnlyMarked(db, db, x)
  {
    assert db.txs == db.txs[x := db.txs[x]];
  }

  // ----- the attempt that settles it -----

  lemma GoodAttempt(s: State, thread: ThreadId, x: TxId, receipt: Receipt, at: Time)
    requires Sound(s) && ReadContext(s.db, Job, x, 0).Some?
    requires Decide(ReadContext(s.db, Job, x, 0).value, Found(receipt)).DecideConfirmed?
    ensures var c := ReadContext(s.db, Job, x, 0).value;
            var after := Attempt(s, thread, x, Found(receipt), at).db;
            && c.tx == x && x in s.db.txs && s.db.txs[x].task in s.db.tasks && x in after.txs
            && (after.txs[x].status == Confirmed <==>
                Storable(s.db, c, receipt, Decide(c, Found(receipt)).log, at))
  {
    hide Structure, ThreadsBound, ConfirmedWitnessed, ReadContext, Attempt, Decide, WriteBack, ConfirmCreationStep,
         ConfirmReceiptStep, IdentityIsFree, EventsSound, HashesUnique, Proves;
    var c := ReadContext(s.db, Job, x, 0).value;
    var d := Decide(c, Found(receipt));
    ReadPending(s.db, x);
    AttemptTables(s, thread, x, Found(receipt), at);
    StructureEvents(s.db);
    NoEventYet(s.db, x, d.log.logIndex);
    WriteBackConfirms(s.db, c, Found(receipt), at);
    ConfirmedExactlyWhenProved(c, Found(receipt));
    if c.CreationContext? {
      CreationConfirms(s.db, ConfirmationOf(c, d, at), d.log.event.taskId);
    } else {
      ReceiptConfirms(s.db, ConfirmationOf(c, d, at));
    }
  }

  lemma StorableUnaffected(db: Tables, later: Tables, c: Context, status: Status, receipt: Receipt, log: Log, at: Time)
    requires OnlyMarked(db, later, c.tx) && db.txs[c.tx].task in db.tasks
    ensures later.txs[c.tx].task in later.tasks
    ensures Storable(later, c.(status := status), receipt, log, at) == Storable(db, c, receipt, log, at)
  {
  }

  lemma {:induction false} AttemptsSound(s: State, thread: ThreadId, x: TxId, tries: seq<Try>)
    requires Sound(s)
    ensures Sound(Attempts(s, thread, x, tries))
    decreases |tries|
  {
    hide Sound, Next;
    if tries != [] {
      var begun := Next(s, Begin(thread, Job, x, 0));
      NextSound(s, Begin(thread, Job, x, 0));
      NextSound(begun, Finish(thread, tries[0].answer, tries[0].at));
      AttemptsSound(Attempt(s, thread, x, tries[0].answer, tries[0].at), thread, x, tries[1..]);
    }
  }

  /**
   * In any sound state, after any finite number of attempts that found the node unavailable, the receipt
   * pending or the logs not matching, the first proving receipt confirms the row, exactly when its numbers
   * fit the columns and no other task holds the chain task id.
   */
  lemma GoodReceiptStillConfirms(
    s: State, thread: ThreadId, x: TxId, tries: seq<Try>, receipt: Receipt, log: Log, at: Time
  )
    requires Sound(s) && ReadContext(s.db, Job, x, 0).Some?
    requires forall i | 0 <= i < |tries| :: Decide(ReadContext(s.db, Job, x, 0).value, tries[i].answer).DecideUnknown?
    requires log in receipt.logs && Proves(ReadContext(s.db, Job, x, 0).value, receipt, log)
    ensures var c := ReadContext(s.db, Job, x, 0).value;
            var last := Attempt(Attempts(s, thread, x, tries), thread, x, Found(receipt), at).db;
            && c.tx == x && x in s.db.txs && s.db.txs[x].task in s.db.tasks && x in last.txs
            && (last.txs[x].status == Confirmed <==> Storable(s.db, c, receipt, log, at))
  {
    hide Sound, ReadContext, Attempt, Attempts, OnlyMarked, Storable, Decide, Proves;
    var c := ReadContext(s.db, Job, x, 0).value;
    var mid := Attempts(s, thread, x, tries);
    ReadPending(s.db, x);
    InconclusiveAttempts(s, thread, x, tries);
    AttemptsSound(s, thread, x, tries);
    ReadAgainBriefly(s.db, mid.db, x);
    var again := ReadContext(mid.db, Job, x, 0).value;
    ProvenDecision(c, receipt, log);
    DecisionIgnoresStatus(c, again.status, Found(receipt));
    GoodAttempt(mid, thread, x, receipt, at);
    StorableUnaffected(s.db, mid.db, c, again.status, receipt, log, at);
  }

  /** The one matching log is the one the decision is about. */
  lemma ProvenDecision(c: Context, receipt: Receipt, log: Log)
    requires log in receipt.logs && Proves(c, receipt, log)
    ensures Decide(c, Found(receipt)) == DecideConfirmed(log, receipt.blockHash, receipt.blockNumber)
  {
    MatchingOne(c, receipt.logs);
    var i: nat :| OnlyMatch(c, receipt.logs, i) && receipt.logs[i] == log;
    assert Matching(c, receipt.logs) == [log];
  }

  // ----- every stored task reads back -----

  /**
   * In every later state of every run, a task reads back exactly when the clock last written to it has a
   * four-digit year; it then yields the canonical task and the repository it was created with.
   */
  lemma StoredTaskReadsBack(s: State, events: seq<Event>, t: TaskId)
    requires Sound(s) && t in s.db.tasks
    ensures var later := Run(s, events).db;
            && t in later.tasks
            && later.tasks[t].canonical == s.db.tasks[t].canonical
            && later.tasks[t].project in later.projects
            && RepositoryIdentity(UrlOf(later, later.tasks[t])) == s.db.tasks[t].canonical.repositoryIdentity
            && UrlOf(later, later.tasks[t]) == UrlOf(s.db, s.db.tasks[t])
            && TaskViewOf(later, t) == if IsoReadable(later.tasks[t].updatedAt)
                                       then Ok(TaskView(t, UrlOf(s.db, s.db.tasks[t]), later.tasks[t]))
                                       else Err(Conflict)
  {
    hide Structure, ThreadsBound, ConfirmedWitnessed, Extends, Run, Consistent;
    var later := Run(s, events).db;
    RunSound(s, events);
    StructureTask(s.db, t);
    ExtendsTask(s.db, later, t);
    StructureTask(later, t);
    ConsistentRepository(later.tasks[t], UrlOf(later, later.tasks[t]));
  }

  lemma ConsistentRepository(t: Task, url: string)
    requires Consistent(t, url)
    ensures t.canonical.repositoryIdentity == RepositoryIdentity(url)
  {
  }

  lemma ExtendsTask(db: Tables, later: Tables, t: TaskId)
    requires Extends(db, later) && t in db.tasks && db.tasks[t].project in db.projects
    ensures t in later.tasks && TaskKept(db.tasks[t], later.tasks[t])
    ensures UrlOf(later, later.tasks[t]) == UrlOf(db, db.tasks[t])
  {
    assert ProjectHasTask(db, db.tasks[t].project);
  }
}
