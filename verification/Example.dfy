/** One small run, step by step: a task goes all the way to a confirmed receipt, or to one of several other ends. */
module Example {
  import opened Prelude
  import opened Tasks
  import opened ChainTransactions
  import opened Store
  import opened Reconciliation
  import opened Lifecycle
  import opened System
  import opened Runs
  import opened Misrouting
  import opened Recovery
  import opened Guarantees
  import opened Idempotency
  import Decimals
  import Evidence

  const OWNER: UserId := 7
  const POLICY := Evidence.Policy(["main"], None, None, [Evidence.PolicyCheck("test", "Tests", true)], 55)
  const CANONICAL := Canonical(1, "repo", "main", None, "Title", "Text", [Criterion("key", "Done")], 9, None, "1", 55)

  function Start(): State {
    State(Tables(map[1 := Project(OWNER, {}, true, "repo", Some(3))], map[3 := PolicyVersion(1, POLICY)],
                 map[], map[], map[], map[], map[], map[]),
          map[], map[], map[])
  }

  function Posting(): CreateTaskInput {
    CreateTaskInput(OWNER, 100, 1, 3, CANONICAL, 77, "repo", 8, 6, [143], 1, 2, 1000)
  }

  /** The task with its statuses, chain id and last update. */
  function TheTask(offchain: OffchainStatus, chain: ChainStatus, chainTaskId: Option<nat>, at: Time): Task {
    Task(1, 3, 143, 6, chainTaskId, CANONICAL, "main", None, "Title", "Text", [Criterion("key", "Done")], 77, 55, 8, 9,
         1, None, offchain, chain, 1000, at)
  }

  lemma CanonicalAccepted()
    ensures AcceptsCanonical(CANONICAL) && Decimals.Value("1") == 1 && Decimals.Text(1) == "1"
    ensures AcceptsCriteria([Criterion("key", "Done")])
  {
    assert "1"[..0] == "";
    assert Decimals.IsDecimal("1");
    assert Decimals.DigitValue('1') == 1;
    Decimals.TextOfValue("1");
  }

  lemma TaskIsReadable(offchain: OffchainStatus, chain: ChainStatus, chainTaskId: Option<nat>, at: Time)
    requires 0 <= at <= 1_000_000
    ensures ReadTask(100, TheTask(offchain, chain, chainTaskId, at), "repo")
            == Ok(TaskView(100, "repo", TheTask(offchain, chain, chainTaskId, at)))
  {
    CanonicalAccepted();
  }

  lemma Posted()
    ensures var after := CreateTaskStep(Start().db, Posting()).tables;
            after == Start().db.(tasks := map[100 := TheTask(Draft, NoChain, None, 1000)],
                                 reservations := after.reservations)
  {
    CanonicalAccepted();
    TaskIsReadable(Draft, NoChain, None, 1000);
    assert CreatedTask(Posting(), 143) == TheTask(Draft, NoChain, None, 1000);
  }

  function Db(
    t: Task, txs: map<TxId, Tx>, attestations: map<TxId, Attestation>, events: map<EventKey, ContractEvent>,
    bundles: map<BundleId, StoredBundle>, reservations: map<ApiKey, Reservation>
  ): Tables {
    Start().db.(tasks := map[100 := t], txs := txs, attestations := attestations, events := events,
                bundles := bundles, reservations := reservations)
  }

  function CreationRow(status: Status, hash: Option<Hash>, block: Option<nat>, response: Response, at: Time): Tx {
    Tx(OWNER, 1, 100, CreateTask, 1, 2, 143, 8, 6, hash, if hash.Some? then Some(0) else None, status, block, None,
       None, response, 2000, at)
  }

  function ReceiptRow(status: Status, hash: Option<Hash>, response: Response, at: Time): Tx {
    Tx(OWNER, 1, 100, SubmitReceipt, 2, 2, 143, 9, 6, hash, if hash.Some? then Some(1) else None, status, None, None,
       None, response, 6000, at)
  }

  function Opening(): IntentInput {
    IntentInput(OWNER, 100, 200, 1, 2, 2000)
  }

  lemma Opened(reservations: map<ApiKey, Reservation>)
    ensures var db := Db(TheTask(Draft, NoChain, None, 1000), map[], map[], map[], map[], reservations);
            var after := CreateIntentStep(db, Opening()).tables;
            200 in after.txs
            && after == Db(TheTask(AwaitingChain, NoChain, None, 2000),
                           map[200 := CreationRow(WalletRequested, None, None, after.txs[200].response, 2000)],
                           map[], map[], map[], reservations)
  {
    hide Consistent, ReadTask, AcceptsCanonical;
    TaskIsReadable(Draft, NoChain, None, 1000);
  }

  function Sending(tx: TxId, hash: Hash, nonce: int, key: Key, at: Time): OutcomeInput {
    OutcomeInput(OWNER, 100, tx, Submitted, Some(hash), Some(nonce), None, key, 2, at)
  }

  lemma CreationSent(response: Response, reservations: map<ApiKey, Reservation>)
    requires ApiKey(OWNER, OpSubmitted, 1) !in reservations
    ensures var db := Db(TheTask(AwaitingChain, NoChain, None, 2000),
                         map[200 := CreationRow(WalletRequested, None, None, response, 2000)],
                         map[], map[], map[], reservations);
            var after := OutcomeStep(db, Sending(200, 301, 0, 1, 3000)).tables;
            && ApiKey(OWNER, OpSubmitted, 1) in after.reservations
            && after.reservations == reservations[ApiKey(OWNER, OpSubmitted, 1) :=
                                       after.reservations[ApiKey(OWNER, OpSubmitted, 1)]]
            && after == Db(TheTask(AwaitingChain, NoChain, None, 2000),
                        map[200 := CreationRow(Submitted, Some(301), None, response, 3000)],
                        map[], map[], map[], after.reservations)
  {
    hide ReplayTx;
  }

  function CreationReceipt(): Receipt {
    Receipt(true, 301, 1, 1, [Log(6, 0, TaskCreatedLog(5, 8, 9, 77, 55, 1, 0))])
  }

  function Indexed(): map<EventKey, ContractEvent> {
    map[EventKey(143, 301, 0) := ContractEvent(6, TaskCreated, 5, 1, 1)]
  }

  lemma CreationDecided(c: Context)
    requires c == CreationContext(200, 301, Submitted, 143, 6, 100, 77, 55, 8, 9, 1, 0)
    ensures Decide(c, Found(CreationReceipt())) == DecideConfirmed(CreationReceipt().logs[0], 1, 1)
  {
    RepeatedCreationProves(c, CreationReceipt(), CreationReceipt().logs[0]);
  }

  lemma CreationDone(response: Response, reservations: map<ApiKey, Reservation>)
    ensures var db := Db(TheTask(AwaitingChain, NoChain, None, 2000),
                         map[200 := CreationRow(Submitted, Some(301), None, response, 3000)],
                         map[], map[], map[], reservations);
            ReadContext(db, Job, 200, 0) == Some(CreationContext(200, 301, Submitted, 143, 6, 100, 77, 55, 8, 9, 1, 0))
            && ConfirmCreationStep(db, Confirmation(200, Submitted, 1, 1, 0, 4000), 5).tables
               == Db(TheTask(Open, ChainOpen, Some(5), 4000),
                     map[200 := CreationRow(Confirmed, Some(301), Some(1), response, 4000)],
                     map[], Indexed(), map[], reservations)
  {
  }

  function Checks(): seq<Evidence.CheckResult> {
    var silent := Evidence.Output("", 0, 0, false);
    [Evidence.CheckResult("test", "Tests", true, Evidence.Passed, Some(0), None, silent, silent)]
  }

  function Uploading(): EvidenceInput {
    EvidenceInput(400,
                  Evidence.Bundle(100, 77, 55,
                                  Evidence.GitEvidence(11, 12, 13, "main", Evidence.Remote("owner", "repo"), true, []),
                                  Checks(), Evidence.Derived(true, 1, 1, {})),
                  401, 1, false, 5000)
  }

  function Stored(): map<BundleId, StoredBundle> {
    map[400 := StoredBundle(100, Uploading().bundle, 401, 13, true, 5000)]
  }

  lemma ChecksPass()
    ensures Evidence.SchemaAccepts(Uploading().bundle)
    ensures Evidence.AnyRequired(Checks()) && Evidence.AllRequiredPassed(Checks())
    ensures Evidence.PersistMatch(Checks(), POLICY)
  {
    assert Checks()[0].required;
    assert Checks()[1..] == [];
    assert Evidence.PersistedAs(Checks(), POLICY.checks[0]);
  }

  lemma Uploaded(creation: Tx, reservations: map<ApiKey, Reservation>)
    ensures var db := Db(TheTask(Open, ChainOpen, Some(5), 4000), map[200 := creation], map[], Indexed(), map[],
                         reservations);
            PersistEvidenceStep(db, Uploading()).tables
            == Db(TheTask(Open, ChainOpen, Some(5), 4000), map[200 := creation], map[], Indexed(), Stored(),
                  reservations)
  {
    hide Evidence.SchemaAccepts, Evidence.PersistMatch, Evidence.AnyRequired, Evidence.AllRequiredPassed;
    ChecksPass();
  }

  function Attesting(): ReceiptInput {
    ReceiptInput(IntentInput(OWNER, 100, 201, 2, 2, 6000), 9, 400, 401, 13, 1_000_000, 21, 22, true)
  }

  function Attested(): map<TxId, Attestation> {
    map[201 := AttestationOf(Attesting())]
  }

  lemma ReceiptOpened(response: Response, reservations: map<ApiKey, Reservation>)
    ensures var creation := CreationRow(Confirmed, Some(301), Some(1), response, 4000);
            var db := Db(TheTask(Open, ChainOpen, Some(5), 4000), map[200 := creation], map[], Indexed(), Stored(),
                         reservations);
            var after := CreateReceiptStep(db, Attesting()).tables;
            201 in after.txs
            && after == Db(TheTask(Open, ChainOpen, Some(5), 4000),
                           map[200 := creation,
                               201 := ReceiptRow(WalletRequested, None, after.txs[201].response, 6000)],
                           Attested(), Indexed(), Stored(), reservations)
  {
    hide Consistent, ReadTask, AcceptsCanonical, Indexed, ReplayIntent;
    TaskIsReadable(Open, ChainOpen, Some(5), 4000);
  }

  lemma ReceiptSent(creation: Tx, response: Response, reservations: map<ApiKey, Reservation>)
    requires ApiKey(OWNER, OpSubmitted, 2) !in reservations && creation.hash == Some(301)
    ensures var db := Db(TheTask(Open, ChainOpen, Some(5), 4000),
                         map[200 := creation, 201 := ReceiptRow(WalletRequested, None, response, 6000)],
                         Attested(), Indexed(), Stored(), reservations);
            var after := OutcomeStep(db, Sending(201, 302, 1, 2, 7000)).tables;
            after == Db(TheTask(Open, ChainOpen, Some(5), 4000),
                        map[200 := creation, 201 := ReceiptRow(Submitted, Some(302), response, 7000)],
                        Attested(), Indexed(), Stored(), after.reservations)
  {
    hide ReplayTx, Indexed, Stored, Attested;
  }

  // ----- the run -----

  function Events(): seq<Event> {
    [PostTask(Posting()), OpenIntent(Opening()), ReportOutcome(Sending(200, 301, 0, 1, 3000)),
     Begin(0, Job, 200, 0), Finish(0, Found(CreationReceipt()), 4000),
     UploadEvidence(Uploading()), OpenReceipt(Attesting()), ReportOutcome(Sending(201, 302, 1, 2, 7000))]
  }

  function After(n: nat): State
    requires n <= 8
    decreases n
  {
    if n == 0 then Start() else Next(After(n - 1), Events()[n - 1])
  }

  lemma {:induction false} RunIsAfter(n: nat)
    requires n <= 8
    ensures Run(After(n), Events()[n..]) == After(8) && Routed(After(n), Events()[n..])
    decreases 8 - n
  {
    hide Next, After;
    if n < 8 {
      var rest := Events()[n..];
      assert rest[0] == Events()[n] && rest[1..] == Events()[n + 1..];
      AfterNext(n);
      RunIsAfter(n + 1);
    }
  }

  lemma AfterNext(n: nat)
    requires n < 8
    ensures After(n + 1) == Next(After(n), Events()[n])
    ensures Events()[n].Begin? ==> Events()[n].route == Job
  {
  }

  lemma ClientNext(s: State, e: Event)
    requires !e.Begin? && !e.Finish?
    ensures Next(s, e) == s.(db := ClientTables(s.db, e))
  {
  }

  ghost predicate CreationIsSent(s: State, response: Response) {
    && ApiKey(OWNER, OpSubmitted, 2) !in s.db.reservations
    && s.db == Db(TheTask(AwaitingChain, NoChain, None, 2000),
                  map[200 := CreationRow(Submitted, Some(301), None, response, 3000)],
                  map[], map[], map[], s.db.reservations)
    && s.threads == map[] && s.witnesses == map[] && s.failures == map[]
  }

  lemma FirstTwo() returns (response: Response, reservations: map<ApiKey, Reservation>)
    ensures forall k | k in reservations :: k.operation == OpTaskCreate
    ensures After(2) == Start().(db := Db(TheTask(AwaitingChain, NoChain, None, 2000),
                                          map[200 := CreationRow(WalletRequested, None, None, response, 2000)],
                                          map[], map[], map[], reservations))
  {
    hide CreateTaskStep, CreateIntentStep;
    Posted();
    PostedReservations();
    AfterNext(0);
    reservations := After(1).db.reservations;
    assert After(1).db == Db(TheTask(Draft, NoChain, None, 1000), map[], map[], map[], map[], reservations);
    AfterNext(1);
    Opened(reservations);
    response := After(2).db.txs[200].response;
  }

  lemma FirstThree() returns (response: Response)
    ensures CreationIsSent(After(3), response)
  {
    hide OutcomeStep, After, Events, CreationRow, TheTask, Db;
    var reservations;
    response, reservations := FirstTwo();
    AfterNext(2);
    ThirdEvent();
    CreationSent(response, reservations);
  }

  lemma ThirdEvent()
    ensures Events()[2] == ReportOutcome(Sending(200, 301, 0, 1, 3000))
  {
  }

  lemma PostedReservations()
    ensures var after := CreateTaskStep(Start().db, Posting()).tables;
            forall k | k in after.reservations :: k.operation == OpTaskCreate
  {
    hide ReadTask, AcceptsCanonical;
  }

  /** A report of the sent creation that names another task throws, and has changed the tables. */
  lemma MisdirectedOutcomeCommits()
    ensures var s, i := Run(Start(), Events()[..2]), Sending(200, 301, 0, 1, 3000).(task := 999);
            Misdirected(s.db, i) && OutcomeStep(s.db, i).result.Err? && OutcomeStep(s.db, i).tables != s.db
  {
    hide CreateTaskStep, CreateIntentStep, OutcomeStep, HashTaken;
    RunIsPrefix(2);
    var response, reservations := FirstTwo();
    var i := Sending(200, 301, 0, 1, 3000).(task := 999);
    NoHashYet(After(2).db, response, reservations);
    OutcomeCommitsUnderErrorExactly(After(2).db, i);
  }

  lemma NoHashYet(db: Tables, response: Response, reservations: map<ApiKey, Reservation>)
    requires ApiKey(OWNER, OpSubmitted, 1) !in reservations
    requires db == Db(TheTask(AwaitingChain, NoChain, None, 2000),
                      map[200 := CreationRow(WalletRequested, None, None, response, 2000)],
                      map[], map[], map[], reservations)
    ensures Misdirected(db, Sending(200, 301, 0, 1, 3000).(task := 999))
  {
  }

  lemma {:induction false} RunIsPrefix(n: nat)
    requires n <= 8
    ensures Run(Start(), Events()[..n]) == After(n)
  {
    hide Next;
    if n == 0 {
      assert Events()[..0] == [];
    } else {
      RunIsPrefix(n - 1);
      var all := Events()[..n];
      assert all == Events()[..n - 1] + [Events()[n - 1]];
      RunAppends(Start(), Events()[..n - 1], [Events()[n - 1]]);
      RunOne(After(n - 1), Events()[n - 1]);
    }
  }

  function CreationAsked(): Context {
    CreationContext(200, 301, Submitted, 143, 6, 100, 77, 55, 8, 9, 1, 0)
  }

  lemma FinishedByWrite(s: State, c: Context, answer: RpcAnswer, at: Time)
    requires s.threads == map[0 := c]
    ensures Next(s, Finish(0, answer, at)).db == WriteBack(s.db, c, Decide(c, answer), at).tables
    ensures Next(s, Finish(0, answer, at)).threads == map[]
  {
    hide WriteBack, Decide;
  }

  lemma CreationWritten(db: Tables)
    ensures WriteBack(db, CreationAsked(), DecideConfirmed(CreationReceipt().logs[0], 1, 1), 4000)
            == ConfirmCreationStep(db, Confirmation(200, Submitted, 1, 1, 0, 4000), 5)
  {
    hide ConfirmCreationStep;
  }

  lemma CreationFinished(response: Response)
    requires CreationIsSent(After(3), response)
    ensures var r := After(3).db.reservations;
            After(5).db == Db(TheTask(Open, ChainOpen, Some(5), 4000),
                              map[200 := CreationRow(Confirmed, Some(301), Some(1), response, 4000)],
                              map[], Indexed(), map[], r)
    ensures After(5).threads == map[]
  {
    hide ConfirmCreationStep, ReadContext, Decide, WriteBack, After, CreationReceipt, Next;
    CreationDone(response, After(3).db.reservations);
    AfterNext(3);
    JobAsks(After(3), 200, CreationAsked());
    AfterNext(4);
    CreationDecided(CreationAsked());
    FinishedByWrite(After(4), CreationAsked(), Found(CreationReceipt()), 4000);
    CreationWritten(After(4).db);
  }

  lemma JobAsks(s: State, x: TxId, c: Context)
    requires ReadContext(s.db, Job, x, 0) == Some(c) && s.threads == map[]
    ensures Next(s, Begin(0, Job, x, 0)) == s.(threads := map[0 := c])
  {
    hide ReadContext;
  }

  /** Eight calls take the task to a receipt that waits for the chain, by routed events only. */
  lemma ReceiptIsPending() returns (s: State)
    ensures Initial(Start()) && Routed(Start(), Events()) && s == Run(Start(), Events()) && Good(s)
    ensures 201 in s.db.txs && 100 in s.db.tasks
    ensures s.db.txs[201].intent == SubmitReceipt && s.db.txs[201].status == Submitted && s.db.txs[201].task == 100
    ensures s.db.txs[201].hash == Some(302) && s.db.tasks[100].chainTaskId == Some(5)
    ensures s.db.txs[201].user == OWNER && s.db.tasks.Keys == {100} && ReceiptIsSent(s)
    ensures ReadContext(s.db, Job, 201, 0)
            == Some(ReceiptContext(201, 302, Submitted, 143, 6, 100, 5, 9, 401, 13, 1_000_000, 21, 22))
  {
    hide *;
    RunIsAfter(0);
    s := After(8);
    AllEvents();
    StartIsInitial();
    ReachableGood(Start(), Events());
    s := LastThree();
    PendingFacts(s);
  }

  lemma StartIsInitial()
    ensures Initial(Start()) && After(0) == Start()
  {
  }

  /** What can be read off the tables with the sent receipt in them. */
  lemma PendingFacts(s: State)
    requires ReceiptIsSent(s)
    ensures 201 in s.db.txs && 100 in s.db.tasks
    ensures s.db.txs[201].intent == SubmitReceipt && s.db.txs[201].status == Submitted && s.db.txs[201].task == 100
    ensures s.db.txs[201].hash == Some(302) && s.db.tasks[100].chainTaskId == Some(5)
    ensures s.db.txs[201].user == OWNER && s.db.tasks.Keys == {100}
    ensures ReadContext(s.db, Job, 201, 0)
            == Some(ReceiptContext(201, 302, Submitted, 143, 6, 100, 5, 9, 401, 13, 1_000_000, 21, 22))
  {
  }

  ghost predicate ReceiptIsSent(s: State) {
    && 200 in s.db.txs && 201 in s.db.txs
    && s.db.txs[200].intent == CreateTask && s.db.txs[200].hash == Some(301)
    && s.db == Db(TheTask(Open, ChainOpen, Some(5), 4000),
                  map[200 := s.db.txs[200], 201 := ReceiptRow(Submitted, Some(302), s.db.txs[201].response, 7000)],
                  Attested(), Indexed(), Stored(), s.db.reservations)
  }

  lemma LastThree() returns (s: State)
    ensures s == After(8) && ReceiptIsSent(s)
  {
    hide Next, PersistEvidenceStep, CreateReceiptStep, OutcomeStep, Events, Attested, Indexed, Stored;
    s := After(8);
    AllEvents();
    var response := FirstThree();
    CreationFinished(response);
    var r := After(3).db.reservations;
    var creation := CreationRow(Confirmed, Some(301), Some(1), response, 4000);
    AfterNext(5);
    ClientNext(After(5), UploadEvidence(Uploading()));
    Uploaded(creation, r);
    AfterNext(6);
    ClientNext(After(6), OpenReceipt(Attesting()));
    ReceiptOpened(response, r);
    AfterNext(7);
    ClientNext(After(7), ReportOutcome(Sending(201, 302, 1, 2, 7000)));
    ReceiptSent(creation, After(7).db.txs[201].response, r);
  }

  lemma AllEvents()
    ensures Events()[0..] == Events()
    ensures Events()[5] == UploadEvidence(Uploading()) && Events()[6] == OpenReceipt(Attesting())
    ensures Events()[7] == ReportOutcome(Sending(201, 302, 1, 2, 7000))
  {
  }

  // ----- and the two ways it can end -----

  function SubmissionReceipt(): Receipt {
    Receipt(true, 302, 2, 2, [Log(6, 0, ReceiptSubmittedLog(5, 9, 401, 13)),
                              Log(6, 1, AttestationConsumedLog(5, 22, 21, 1_000_000))])
  }

  lemma SubmissionProves(c: Context)
    requires c == ReceiptContext(201, 302, Submitted, 143, 6, 100, 5, 9, 401, 13, 1_000_000, 21, 22)
    ensures Proves(c, SubmissionReceipt(), SubmissionReceipt().logs[0])
  {
    var logs := SubmissionReceipt().logs;
    assert AttestationMatches(c, logs[1]);
    assert OnlyMatch(c, logs, 0);
  }

  lemma SubmissionStorable(db: Tables, c: Context)
    requires c == ReceiptContext(201, 302, Submitted, 143, 6, 100, 5, 9, 401, 13, 1_000_000, 21, 22)
    requires 201 in db.txs && db.txs[201].task in db.tasks
    ensures Storable(db, c, SubmissionReceipt(), SubmissionReceipt().logs[0], 8000)
  {
  }

  /** The happy path exists: one pass of the job over the pending receipt confirms it. */
  lemma ReceiptIsConfirmed() returns (s: State)
    ensures s == Run(Start(), Events())
    ensures var done := Attempt(s, 0, 201, Found(SubmissionReceipt()), 8000).db;
            201 in done.txs && done.txs[201].status == Confirmed
  {
    hide *;
    s := ReceiptIsPending();
    var c := ReadContext(s.db, Job, 201, 0).value;
    SubmissionProves(c);
    GoodParts(s);
    SubmissionLog();
    SubmissionStorable(s.db, c);
    GoodReceiptStillConfirms(s, 0, 201, [], SubmissionReceipt(), SubmissionReceipt().logs[0], 8000);
    NoAttempt(s, 0, 201);
  }

  lemma SubmissionLog()
    ensures |SubmissionReceipt().logs| == 2 && SubmissionReceipt().logs[0] in SubmissionReceipt().logs
  {
  }

  lemma NoAttempt(s: State, thread: ThreadId, x: TxId)
    ensures Attempts(s, thread, x, []) == s
  {
  }

  /** The owner's route confirms the same receipt as if it created the task, and the task is stuck with it. */
  lemma ReceiptIsMisconfirmed() returns (s: State)
    ensures s == Run(Start(), Events()) && Good(s) && 201 in s.db.txs && 100 in s.db.tasks
    ensures s.db.txs[201].hash.Some?
    ensures var receipt := RepeatedCreation(s.db.txs[201], s.db.tasks[100], 6);
            var later := Run(s, [Begin(0, OwnerRequest, 201, OWNER), Finish(0, Found(receipt), 8000)]);
            && IsMisconfirmed(later.db, 100) && later.db.tasks[100].chainTaskId == Some(6)
            && s.db.tasks[100].chainTaskId == Some(5)
  {
    hide Run, Good, Phases, Next, RepeatedCreation, TaskMisconfirmed, Misconfirms;
    s := ReceiptIsPending();
    OnlyTaskIsFree(s.db);
    EveryPendingReceiptCanBeMisconfirmed(s, 0, 201, 6, 8000);
    var receipt := RepeatedCreation(s.db.txs[201], s.db.tasks[100], 6);
    RunPair(s, Begin(0, OwnerRequest, 201, OWNER), Finish(0, Found(receipt), 8000));
  }

  /** No other task could have the id. */
  lemma OnlyTaskIsFree(db: Tables)
    requires db.tasks.Keys == {100}
    ensures Free(db, 100, 6)
  {
  }

  function Replacing(): ReplacementInput {
    ReplacementInput(OWNER, 201, 202, 303, 1, 3, 2, 7500)
  }

  lemma NothingTaken(db: Tables)
    requires 200 in db.txs && 201 in db.txs && db.txs.Keys == {200, 201}
    requires db.txs[200].intent == CreateTask && db.txs[200].hash == Some(301)
    requires db.txs[201].key == 2 && db.txs[201].hash == Some(302)
    ensures !KeyTaken(db, OWNER, SubmitReceipt, 3) && !HashTaken(db, 202, 143, 303)
  {
  }

  lemma ReceiptReplaced(s: State)
    requires ReceiptIsSent(s)
    ensures var db := Next(s, ReportReplacement(Replacing())).db;
            && IsPendingReceipt(db, 202) && 202 !in db.attestations && db.txs[202].task == 100
            && db.txs[202].user == OWNER && db.txs[202].hash == Some(303) && db.tasks == s.db.tasks
            && 201 in db.txs && db.txs[201].status == Replaced
  {
    hide KeyTaken, HashTaken, Indexed, Stored, ReplayReplacement, TheTask;
    NothingTaken(s.db);
  }

  /** Replaced first, the receipt that the owner's route confirms was never attested. */
  lemma UnattestedReceiptIsConfirmed() returns (s: State, receipt: Receipt)
    ensures s == Run(Start(), Events() + [ReportReplacement(Replacing())]) && Good(s)
    ensures var end := Run(s, [Begin(0, OwnerRequest, 202, OWNER), Finish(0, Found(receipt), 8000)]);
            IsConfirmed(end.db, 202, SubmitReceipt) && 202 !in end.db.attestations && !Backed(end, 202)
  {
    hide *;
    var sent := ReceiptIsPending();
    var replace := ReportReplacement(Replacing());
    ReceiptReplaced(sent);
    s := Next(sent, replace);
    RunAppends(Start(), Events(), [replace]);
    RunOne(sent, replace);
    NextGood(sent, replace);
    OnlyTaskIsFree(s.db);
    SmallDate();
    receipt := Repeated(s.db);
    EveryPendingReceiptCanEndUnbacked(s, 0, 202, 6, 8000);
  }

  lemma Repeated(db: Tables) returns (receipt: Receipt)
    requires IsPendingReceipt(db, 202) && db.txs[202].hash.Some? && db.txs[202].task in db.tasks
    ensures receipt == RepeatedCreation(db.txs[202], db.tasks[db.txs[202].task], 6)
  {
    receipt := RepeatedCreation(db.txs[202], db.tasks[db.txs[202].task], 6);
  }

  lemma SmallDate()
    ensures ValidDate(8000)
  {
  }

  lemma RunOne(s: State, e: Event)
    ensures Run(s, [e]) == Next(s, e)
  {
    hide Next;
    assert [e][1..] == [];
    assert Run(Next(s, e), []) == Next(s, e);
  }
}
