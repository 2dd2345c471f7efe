/** A used key, in every later state: the first response again, or an error, and never a second change. */
module Idempotency {
  import opened Prelude
  import opened Tasks
  import opened ChainTransactions
  import opened Store
  import opened Invariants
  import opened System

  // ----- errors roll back -----

  /** A step that throws leaves the tables as they were; `OutcomeStep` is the one exception, below. */
  lemma ErrorsRollBack(db: Tables)
    ensures forall i :: CreateTaskStep(db, i).result.Err? ==> CreateTaskStep(db, i).tables == db
    ensures forall i :: CreateIntentStep(db, i).result.Err? ==> CreateIntentStep(db, i).tables == db
    ensures forall i :: CreateReceiptStep(db, i).result.Err? ==> CreateReceiptStep(db, i).tables == db
    ensures forall i :: TransitionStep(db, i).result.Err? ==> TransitionStep(db, i).tables == db
    ensures forall i :: ReplacementStep(db, i).result.Err? ==> ReplacementStep(db, i).tables == db
    ensures forall i :: PersistEvidenceStep(db, i).result.Err? ==> PersistEvidenceStep(db, i).tables == db
    ensures forall p :: UpdateProjectStep(db, p).result.Err? ==> UpdateProjectStep(db, p).tables == db
    ensures forall i :: CreatePolicyStep(db, i).result.Err? ==> CreatePolicyStep(db, i).tables == db
    ensures forall c, n :: ConfirmCreationStep(db, c, n).result.Err? ==> ConfirmCreationStep(db, c, n).tables == db
    ensures forall c :: ConfirmReceiptStep(db, c).result.Err? ==> ConfirmReceiptStep(db, c).tables == db
  {
  }

  /**
   * The outcome names another task than the row's, and nothing else is wrong with it: the key is new, the row is the
   * caller's, in a project the caller owns, still in the status the outcome starts from, and a sent hash is free.
   */
  predicate Misdirected(db: Tables, i: OutcomeInput) {
    && OutcomeAccepted(i)
    && i.tx in db.txs && db.txs[i.tx].task in db.tasks
    && db.txs[i.tx].user == i.actor && IsOwner(db, db.txs[i.tx].project, i.actor)
    && OutcomeKey(i) !in db.reservations
    && db.txs[i.tx].status == OutcomeTransition(i).expected
    && (i.status == Submitted ==> !HashTaken(db, i.tx, db.txs[i.tx].chainId, i.hash.value))
    && i.task != db.txs[i.tx].task
  }

  /**
   * A wallet outcome that throws has nevertheless changed the tables exactly when it was misdirected: the task is
   * only compared after the transition has committed. What is then stored is what the rightly directed outcome
   * stores.
   */
  lemma OutcomeCommitsUnderErrorExactly(db: Tables, i: OutcomeInput)
    ensures OutcomeStep(db, i).result.Err? && OutcomeStep(db, i).tables != db <==> Misdirected(db, i)
    ensures Misdirected(db, i) ==>
              OutcomeStep(db, i).tables == OutcomeStep(db, i.(task := db.txs[i.tx].task)).tables
  {
    hide ReplayTx, HashTaken, IsOwner;
    RedirectedTransition(db, i);
    if Misdirected(db, i) {
      assert OutcomeKey(i) in OutcomeStep(db, i).tables.reservations;
    }
  }

  /** The client's call ends in an error. */
  predicate Throws(db: Tables, e: Event)
    requires !e.Begin? && !e.Finish?
  {
    match e
    case PostTask(i) => CreateTaskStep(db, i).result.Err?
    case OpenIntent(i) => CreateIntentStep(db, i).result.Err?
    case OpenReceipt(i) => CreateReceiptStep(db, i).result.Err?
    case ReportOutcome(i) => OutcomeStep(db, i).result.Err?
    case ReportReplacement(i) => ReplacementStep(db, i).result.Err?
    case UploadEvidence(i) => PersistEvidenceStep(db, i).result.Err?
    case PatchProject(p) => UpdateProjectStep(db, p).result.Err?
    case StorePolicy(i) => CreatePolicyStep(db, i).result.Err?
  }

  /** Of all calls of clients, exactly the misdirected outcomes throw and have changed the tables all the same. */
  lemma OnlyMisdirectedCommitUnderError(db: Tables, e: Event)
    requires !e.Begin? && !e.Finish?
    ensures Throws(db, e) && ClientTables(db, e) != db <==> e.ReportOutcome? && Misdirected(db, e.outcome)
  {
    hide CreateTaskStep, CreateIntentStep, CreateReceiptStep, OutcomeStep, TransitionStep, ReplacementStep,
         PersistEvidenceStep, UpdateProjectStep, CreatePolicyStep, ConfirmCreationStep, ConfirmReceiptStep, Misdirected;
    ErrorsRollBack(db);
    if e.ReportOutcome? {
      OutcomeCommitsUnderErrorExactly(db, e.outcome);
    }
  }

  /** The transition itself does not look at the task the outcome names. */
  lemma RedirectedTransition(db: Tables, i: OutcomeInput)
    ensures forall t :: TransitionStep(db, i.(task := t)) == TransitionStep(db, i)
  {
    hide ReplayTx, HashTaken, IsOwner, TransitionAccepted, Patched;
  }

  // ----- task creation -----

  lemma FirstTask(db: Tables, i: CreateTaskInput)
    requires CreateTaskStep(db, i).result.Ok? && ApiKey(i.actor, OpTaskCreate, i.key) !in db.reservations
    ensures var k, first := ApiKey(i.actor, OpTaskCreate, i.key), CreateTaskStep(db, i).result.value;
            && k in CreateTaskStep(db, i).tables.reservations
            && CreateTaskStep(db, i).tables.reservations[k]
               == Reservation(i.requestHash, i.publicId, TaskResponse(first))
            && first.publicId == i.publicId
            && Consistent(first.columns, first.repositoryUrl) && IsoReadable(first.columns.updatedAt)
  {
  }

  lemma ReservationKept(after: Tables, later: Tables, k: ApiKey)
    requires Extends(after, later) && k in after.reservations
    ensures k in later.reservations && later.reservations[k] == after.reservations[k]
  {
  }

  /** What a call with a used key answers, once its input has been accepted. */
  lemma ReplayedTask(later: Tables, j: CreateTaskInput, requestHash: Hash, publicId: TaskId, first: TaskView)
    requires ApiKey(j.actor, OpTaskCreate, j.key) in later.reservations
    requires later.reservations[ApiKey(j.actor, OpTaskCreate, j.key)]
             == Reservation(requestHash, publicId, TaskResponse(first))
    requires first.publicId == publicId
    requires Consistent(first.columns, first.repositoryUrl) && IsoReadable(first.columns.updatedAt)
    ensures CreateTaskStep(later, j) == Step(later,
              if !CreateTaskAccepted(j) then Err(InvalidInput)
              else if !IsOwner(later, j.project, j.actor) then Err(NotFound)
              else if j.requestHash == requestHash && j.publicId == publicId
              then Ok(first.(repositoryUrl := StripGit(first.repositoryUrl)))
              else Err(IdempotencyConflict))
  {
    hide CreateTaskAccepted, IsOwner, Consistent;
    ReparseReturnsView(first);
  }

  /**
   * The first successful creation under a key decides every later call with it, whatever has happened since:
   * the same request gets the first view back (with the URL as the schema normalises it), any other request a
   * conflict, and nothing is changed.
   */
  lemma TaskCreationIsIdempotent(db: Tables, i: CreateTaskInput, later: Tables, j: CreateTaskInput)
    requires CreateTaskStep(db, i).result.Ok? && ApiKey(i.actor, OpTaskCreate, i.key) !in db.reservations
    requires Extends(CreateTaskStep(db, i).tables, later) && j.actor == i.actor && j.key == i.key
    ensures CreateTaskStep(later, j) == Step(later,
              if !CreateTaskAccepted(j) then Err(InvalidInput)
              else if !IsOwner(later, j.project, j.actor) then Err(NotFound)
              else if j.requestHash == i.requestHash && j.publicId == i.publicId
              then Ok(CreateTaskStep(db, i).result.value.(
                        repositoryUrl := StripGit(CreateTaskStep(db, i).result.value.repositoryUrl)))
              else Err(IdempotencyConflict))
  {
    hide *;
    FirstTask(db, i);
    ReservationKept(CreateTaskStep(db, i).tables, later, ApiKey(i.actor, OpTaskCreate, i.key));
    ReplayedTask(later, j, i.requestHash, i.publicId, CreateTaskStep(db, i).result.value);
  }

  // ----- chain intents -----

  /** What the row of a first intent carries for ever. */
  ghost predicate FirstIntentRow(r: Tx, i: IntentInput, intent: Intent, reply: IntentReply) {
    && SameKey(r, i.actor, intent, i.key)
    && r.requestHash == i.requestHash
    && r.task == i.task
    && (if intent == CreateTask then r.response == IntentResponse(reply.task, reply.tx)
        else r.response.ReceiptResponse? && r.response.task == reply.task && r.response.tx == reply.tx)
  }

  /** The reply's task reads back, and its transaction differs from a valid snapshot in its date at most. */
  ghost predicate FirstIntentReply(i: IntentInput, reply: IntentReply) {
    && reply.task.publicId == i.task
    && Consistent(reply.task.columns, reply.task.repositoryUrl) && IsoReadable(reply.task.columns.updatedAt)
    && reply.tx.publicId == i.publicId && reply.tx.task == i.task
    && reply.tx.nonce.None? && reply.tx.failureCode.None?
    && SupportedChain(reply.tx.chainId) && reply.tx.fromAddress != 0 && reply.tx.toAddress != 0
    && reply.tx.createdAt == i.at && reply.tx.updatedAt == i.at
  }

  lemma FirstIntent(db: Tables, i: IntentInput)
    requires CreateIntentStep(db, i).result.Ok? && !KeyTaken(db, i.actor, CreateTask, i.key)
    requires i.task in db.tasks ==> TaskSound(db, i.task)
    ensures var step := CreateIntentStep(db, i);
            && i.publicId in step.tables.txs
            && FirstIntentRow(step.tables.txs[i.publicId], i, CreateTask, step.result.value)
            && FirstIntentReply(i, step.result.value)
            && !step.result.value.replayed
  {
  }

  lemma FirstReceipt(db: Tables, i: ReceiptInput)
    requires CreateReceiptStep(db, i).result.Ok? && !KeyTaken(db, i.intent.actor, SubmitReceipt, i.intent.key)
    requires i.intent.task in db.tasks ==> TaskSound(db, i.intent.task)
    ensures var step := CreateReceiptStep(db, i);
            && i.intent.publicId in step.tables.txs
            && FirstIntentRow(step.tables.txs[i.intent.publicId], i.intent, SubmitReceipt, step.result.value)
            && FirstIntentReply(i.intent, step.result.value)
            && !step.result.value.replayed
  {
  }

  lemma RowStaysFirst(after: Tables, later: Tables, x: TxId, i: IntentInput, intent: Intent, reply: IntentReply)
    requires Extends(after, later) && x in after.txs && FirstIntentRow(after.txs[x], i, intent, reply)
    ensures x in later.txs && FirstIntentRow(later.txs[x], i, intent, reply)
  {
    assert RowKept(after.txs[x], later.txs[x]);
  }

  /** What a replay under the key answers. */
  function IntentAnswer(i: IntentInput, j: IntentInput, first: IntentReply): Result<IntentReply, Error> {
    if j.requestHash != i.requestHash || j.publicId != i.publicId || j.task != i.task then Err(IdempotencyConflict)
    else if !IsoReadable(i.at) then Err(Conflict)
    else Ok(IntentReply(first.task.(repositoryUrl := StripGit(first.task.repositoryUrl)), first.tx, true))
  }

  lemma SnapshotsReplay(i: IntentInput, j: IntentInput, first: IntentReply)
    requires FirstIntentReply(i, first) && j.publicId == i.publicId && j.task == i.task
    ensures ReplaySnapshots(j, first.task, first.tx)
            == if IsoReadable(i.at)
               then Ok(IntentReply(first.task.(repositoryUrl := StripGit(first.task.repositoryUrl)), first.tx, true))
               else Err(Conflict)
  {
    hide Consistent;
    ReparseReturnsView(first.task);
  }

  lemma ReplayedIntent(later: Tables, i: IntentInput, j: IntentInput, intent: Intent, first: IntentReply)
    requires intent in {CreateTask, SubmitReceipt} && j.actor == i.actor && j.key == i.key
    requires KeysUnique(later.txs) && i.publicId in later.txs
    requires FirstIntentRow(later.txs[i.publicId], i, intent, first) && FirstIntentReply(i, first)
    ensures KeyTaken(later, j.actor, intent, j.key)
    ensures ReplayIntent(later, j, intent) == IntentAnswer(i, j, first)
  {
    hide FirstIntentReply, ReplaySnapshots, KeysUnique;
    assert SameKey(later.txs[i.publicId], j.actor, intent, j.key);
    if j.publicId in later.txs && j.publicId != i.publicId {
      OnlyKeyHolder(later, i.publicId, j.publicId, j.actor, intent, j.key);
    }
    if j.publicId == i.publicId && j.task == i.task {
      SnapshotsReplay(i, j, first);
    }
  }

  lemma OnlyKeyHolder(db: Tables, x: TxId, y: TxId, user: UserId, intent: Intent, key: Key)
    requires KeysUnique(db.txs) && x in db.txs && y in db.txs && x != y && SameKey(db.txs[x], user, intent, key)
    ensures !SameKey(db.txs[y], user, intent, key)
  {
  }

  lemma IntentStepReplays(later: Tables, j: IntentInput)
    requires KeyTaken(later, j.actor, CreateTask, j.key)
    ensures CreateIntentStep(later, j) == Step(later,
              if !ValidDate(j.at) then Err(InvalidInput)
              else if j.task !in later.tasks || !IsOwner(later, later.tasks[j.task].project, j.actor) then Err(NotFound)
              else ReplayIntent(later, j, CreateTask))
  {
  }

  lemma ReceiptStepReplays(later: Tables, j: ReceiptInput)
    requires KeyTaken(later, j.intent.actor, SubmitReceipt, j.intent.key)
    ensures CreateReceiptStep(later, j) == Step(later,
              if !ReceiptAccepted(j) then Err(InvalidInput)
              else if j.intent.task !in later.tasks
                      || !IsMember(later, later.tasks[j.intent.task].project, j.intent.actor) then Err(NotFound)
              else ReplayIntent(later, j.intent, SubmitReceipt))
  {
  }

  lemma StructureKeys(db: Tables)
    requires Structure(db)
    ensures KeysUnique(db.txs)
    ensures forall t | t in db.tasks :: TaskSound(db, t)
  {
  }

  /** A task-creation intent, ever after, even once its row has been sent, replaced or confirmed. */
  lemma IntentIsIdempotent(db: Tables, i: IntentInput, later: Tables, j: IntentInput)
    requires Structure(db) && Structure(later)
    requires CreateIntentStep(db, i).result.Ok? && !KeyTaken(db, i.actor, CreateTask, i.key)
    requires Extends(CreateIntentStep(db, i).tables, later) && j.actor == i.actor && j.key == i.key
    ensures CreateIntentStep(later, j) == Step(later,
              if !ValidDate(j.at) then Err(InvalidInput)
              else if j.task !in later.tasks || !IsOwner(later, later.tasks[j.task].project, j.actor) then Err(NotFound)
              else IntentAnswer(i, j, CreateIntentStep(db, i).result.value))
  {
    hide *;
    StructureKeys(db);
    StructureKeys(later);
    FirstIntent(db, i);
    var first := CreateIntentStep(db, i).result.value;
    RowStaysFirst(CreateIntentStep(db, i).tables, later, i.publicId, i, CreateTask, first);
    ReplayedIntent(later, i, j, CreateTask, first);
    IntentStepReplays(later, j);
  }

  /** A receipt intent, ever after. */
  lemma ReceiptIntentIsIdempotent(db: Tables, i: ReceiptInput, later: Tables, j: ReceiptInput)
    requires Structure(db) && Structure(later)
    requires CreateReceiptStep(db, i).result.Ok? && !KeyTaken(db, i.intent.actor, SubmitReceipt, i.intent.key)
    requires Extends(CreateReceiptStep(db, i).tables, later)
    requires j.intent.actor == i.intent.actor && j.intent.key == i.intent.key
    ensures CreateReceiptStep(later, j) == Step(later,
              if !ReceiptAccepted(j) then Err(InvalidInput)
              else if j.intent.task !in later.tasks
                      || !IsMember(later, later.tasks[j.intent.task].project, j.intent.actor) then Err(NotFound)
              else IntentAnswer(i.intent, j.intent, CreateReceiptStep(db, i).result.value))
  {
    hide *;
    StructureKeys(db);
    StructureKeys(later);
    FirstReceipt(db, i);
    var first := CreateReceiptStep(db, i).result.value;
    RowStaysFirst(CreateReceiptStep(db, i).tables, later, i.intent.publicId, i.intent, SubmitReceipt, first);
    ReplayedIntent(later, i.intent, j.intent, SubmitReceipt, first);
    ReceiptStepReplays(later, j);
  }

  // ----- wallet outcomes -----

  lemma FirstOutcome(db: Tables, i: OutcomeInput)
    requires TransitionStep(db, i).result.Ok? && OutcomeKey(i) !in db.reservations
    ensures var first := TransitionStep(db, i).result.value;
            && OutcomeAccepted(i)
            && OutcomeKey(i) in TransitionStep(db, i).tables.reservations
            && TransitionStep(db, i).tables.reservations[OutcomeKey(i)]
               == Reservation(i.requestHash, i.tx, TxResponse(first))
            && i.tx in db.txs
            && TransitionRow(db.txs[i.tx], OutcomeTransition(i)).Ok?
            && first == ViewOf(i.tx, TransitionRow(db.txs[i.tx], OutcomeTransition(i)).value)
  {
  }

  /** The snapshot of a rejected outcome replays exactly when its two dates do; that of a sent one never does. */
  lemma OutcomeSnapshot(db: Tables, i: OutcomeInput)
    requires i.tx in db.txs && RowSound(db, i.tx) && TaskSound(db, db.txs[i.tx].task)
    requires OutcomeAccepted(i) && TransitionRow(db.txs[i.tx], OutcomeTransition(i)).Ok?
    ensures var view := ViewOf(i.tx, TransitionRow(db.txs[i.tx], OutcomeTransition(i)).value);
            && i.status in {Submitted, RejectedByUser}
            && view.publicId == i.tx && view.task == db.txs[i.tx].task
            && ReparseTx(view) == if i.status == RejectedByUser && IsoReadable(view.createdAt) && IsoReadable(i.at)
                                  then Ok(view) else Err(Conflict)
  {
    hide AcceptsCanonical, AcceptsCriteria;
    NonceNeverReparses(ViewOf(i.tx, TransitionRow(db.txs[i.tx], OutcomeTransition(i)).value));
  }

  lemma TransitionReplays(later: Tables, j: OutcomeInput)
    requires OutcomeAccepted(j) && OutcomeKey(j) in later.reservations
    ensures TransitionStep(later, j) == Step(later,
              if j.tx !in later.txs || later.txs[j.tx].user != j.actor || later.txs[j.tx].task !in later.tasks
                 || !IsOwner(later, later.txs[j.tx].project, j.actor) then Err(NotFound)
              else ReplayTx(later, OutcomeKey(j), j.requestHash, j.tx))
  {
  }

  /** What a later outcome call under the same key answers, before the task is compared. */
  function OutcomeAnswer(i: OutcomeInput, j: OutcomeInput, first: TxView): Result<TxView, Error> {
    if j.requestHash != i.requestHash || j.tx != i.tx then Err(IdempotencyConflict)
    else if i.status == RejectedByUser && IsoReadable(first.createdAt) && IsoReadable(i.at) then Ok(first)
    else Err(Conflict)
  }

  lemma ReplayedOutcome(later: Tables, i: OutcomeInput, j: OutcomeInput, first: TxView)
    requires j.status in {WalletRequested, Submitted, RejectedByUser} && OutcomeKey(j) in later.reservations
    requires later.reservations[OutcomeKey(j)] == Reservation(i.requestHash, i.tx, TxResponse(first))
    requires first.publicId == i.tx
    requires ReparseTx(first) == if i.status == RejectedByUser && IsoReadable(first.createdAt) && IsoReadable(i.at)
                                 then Ok(first) else Err(Conflict)
    ensures ReplayTx(later, OutcomeKey(j), j.requestHash, j.tx) == OutcomeAnswer(i, j, first)
  {
    hide ReparseTx;
  }

  /**
   * Reporting an outcome again under its key changes nothing. A rejection gets its first view back, however
   * far the task has moved on; a sent transaction's replay always ends in a conflict, because its nonce comes
   * back as a number where the schema wants text.
   */
  lemma OutcomeIsIdempotent(db: Tables, i: OutcomeInput, later: Tables, j: OutcomeInput)
    requires Structure(db)
    requires TransitionStep(db, i).result.Ok? && OutcomeKey(i) !in db.reservations
    requires Extends(TransitionStep(db, i).tables, later) && OutcomeAccepted(j)
    requires j.actor == i.actor && j.key == i.key && j.status == i.status
    ensures TransitionStep(later, j) == Step(later,
              if j.tx !in later.txs || later.txs[j.tx].user != j.actor || later.txs[j.tx].task !in later.tasks
                 || !IsOwner(later, later.txs[j.tx].project, j.actor) then Err(NotFound)
              else OutcomeAnswer(i, j, TransitionStep(db, i).result.value))
    ensures OutcomeStep(later, j).tables == later
    ensures i.status == Submitted ==> OutcomeStep(later, j).result.Err?
  {
    hide *;
    FirstOutcome(db, i);
    AcceptedStatus(i);
    AcceptedStatus(j);
    OutcomeKeysDiffer(i, j);
    StructureRow(db, i.tx);
    RowTask(db, i.tx);
    StructureKeys(db);
    OutcomeSnapshot(db, i);
    var first := TransitionStep(db, i).result.value;
    ReservationKept(TransitionStep(db, i).tables, later, OutcomeKey(i));
    ReplayedOutcome(later, i, j, first);
    TransitionReplays(later, j);
    OutcomeTables(later, j);
    SentNeverReplays(i, j, first);
    OutcomeErrors(later, j);
  }

  /**
   * Reporting a misdirected outcome again, now for the right task: a rejection is answered with what the failed call
   * stored, a sent transaction with an error for ever, and nothing more is changed.
   */
  lemma CorrectedOutcome(db: Tables, i: OutcomeInput, later: Tables, j: OutcomeInput)
    requires Structure(db) && Misdirected(db, i) && Extends(OutcomeStep(db, i).tables, later)
    requires j == i.(task := db.txs[i.tx].task)
    ensures OutcomeStep(later, j) == Step(later,
              if i.status == RejectedByUser && IsoReadable(db.txs[i.tx].createdAt) && IsoReadable(i.at)
              then TransitionStep(db, i).result else Err(Conflict))
  {
    hide Structure, Extends, HashTaken, OutcomeStep, TransitionStep, ReplayTx, TransitionAccepted, RowKept;
    MisdirectedTransition(db, i);
    OutcomeTables(db, i);
    RowSurvives(db, TransitionStep(db, i).tables, later, i);
    OutcomeIsIdempotent(db, i, later, j);
    OutcomeOfTransition(later, j);
  }

  lemma MisdirectedTransition(db: Tables, i: OutcomeInput)
    requires Misdirected(db, i)
    ensures TransitionStep(db, i).result.Ok?
    ensures TransitionStep(db, i).result.value.createdAt == db.txs[i.tx].createdAt
    ensures TransitionStep(db, i).result.value.task == db.txs[i.tx].task
  {
    hide ReplayTx, HashTaken;
  }

  lemma OutcomeOfTransition(db: Tables, i: OutcomeInput)
    ensures var done := TransitionStep(db, i).result;
            OutcomeStep(db, i).result == if done.Ok? && done.value.task != i.task then Err(NotFound) else done
  {
    hide TransitionStep;
  }

  lemma RowSurvives(db: Tables, after: Tables, later: Tables, i: OutcomeInput)
    requires Structure(db) && Misdirected(db, i) && after == TransitionStep(db, i).tables && Extends(after, later)
    ensures i.tx in later.txs && later.txs[i.tx].user == i.actor && later.txs[i.tx].task in later.tasks
    ensures IsOwner(later, later.txs[i.tx].project, i.actor)
  {
    hide Structure, HashTaken, TransitionStep, RowKept, TaskKept;
    OutcomeTables(db, i);
    OutcomeKeeps(db, i);
    ExtendsTransitive(db, after, later);
    assert RowKept(db.txs[i.tx], later.txs[i.tx]);
    RowScope(db.txs[i.tx], later.txs[i.tx]);
  }

  /** Reports of different outcomes never share a record, even under one key. */
  lemma OutcomeKeysDiffer(i: OutcomeInput, j: OutcomeInput)
    requires i.status in {WalletRequested, Submitted, RejectedByUser}
    requires j.status in {WalletRequested, Submitted, RejectedByUser}
    ensures OutcomeKey(i) == OutcomeKey(j) <==> i.actor == j.actor && i.key == j.key && i.status == j.status
  {
  }

  lemma AcceptedStatus(i: OutcomeInput)
    requires OutcomeAccepted(i)
    ensures i.status in {WalletRequested, Submitted, RejectedByUser}
  {
  }

  lemma RowTask(db: Tables, x: TxId)
    requires x in db.txs && RowSound(db, x)
    ensures db.txs[x].task in db.tasks
  {
  }

  lemma SentNeverReplays(i: OutcomeInput, j: OutcomeInput, first: TxView)
    ensures i.status == Submitted ==> OutcomeAnswer(i, j, first).Err?
  {
  }

  lemma OutcomeErrors(db: Tables, i: OutcomeInput)
    ensures TransitionStep(db, i).result.Err? ==> OutcomeStep(db, i).result.Err?
  {
  }

  // ----- replacements -----

  /** The row a repeated replacement names is one of the caller's creations, under the same key, request and task. */
  ghost predicate RepeatsReplacement(db: Tables, i: ReplacementInput) {
    && i.prior in db.txs && i.publicId in db.txs
    && var r := db.txs[i.publicId];
    && r.user == i.actor && r.intent == CreateTask && r.key == i.key && r.requestHash == i.requestHash
    && r.task == db.txs[i.prior].task
  }

  /**
   * Reporting a replacement under a key that is taken always fails, even when it repeats what was taken, and changes
   * nothing.
   */
  lemma ReplacementNeverReplays(db: Tables, i: ReplacementInput)
    requires Structure(db) && i.prior in db.txs && KeyTaken(db, db.txs[i.prior].user, db.txs[i.prior].intent, i.key)
    ensures ReplacementStep(db, i) == Step(db, Err(
              if !ReplacementAccepted(i) then InvalidInput
              else if db.txs[i.prior].user != i.actor || !IsOwner(db, db.txs[i.prior].project, i.actor) then NotFound
              else if RepeatsReplacement(db, i) then Conflict
              else IdempotencyConflict))
  {
    hide Structure, KeyTaken, HashTaken, ReplacedRow, IsOwner, RowSound, ReparseTx, ReplacementAccepted;
    StructureRow(db, i.prior);
    RowTask(db, i.prior);
    if i.publicId in db.txs {
      StructureRow(db, i.publicId);
      TakenResponse(db, i.publicId);
    }
  }

  lemma TakenResponse(db: Tables, x: TxId)
    requires x in db.txs && RowSound(db, x)
    ensures db.txs[x].response.TxResponse? ==> ReparseTx(db.txs[x].response.tx) == Err(Conflict)
    ensures !db.txs[x].response.NoResponse?
  {
  }

  /** After a first replacement its key is taken for good. */
  lemma ReplacementIsNeverRepeated(db: Tables, i: ReplacementInput, later: Tables, j: ReplacementInput)
    requires Structure(db) && Structure(later)
    requires ReplacementStep(db, i).result.Ok? && ReplacementStep(db, i).tables != db
    requires Extends(ReplacementStep(db, i).tables, later) && j.key == i.key
    requires j.prior in later.txs && later.txs[j.prior].user == db.txs[i.prior].user
    requires later.txs[j.prior].intent == db.txs[i.prior].intent
    ensures ReplacementStep(later, j).result.Err? && ReplacementStep(later, j).tables == later
  {
    hide *;
    ReplacementShape(db, i);
    var after := ReplacementStep(db, i).tables;
    KeyStaysTaken(after, later, i.publicId);
    ReplacementHolder(db, after, i);
    ReplacementNeverReplays(later, j);
  }

  lemma ReplacementHolder(db: Tables, after: Tables, i: ReplacementInput)
    requires ReplacementAccepted(i) && i.prior in db.txs && i.publicId in after.txs
    requires after.txs[i.publicId]
             == ReplacementRow(i, db.txs[i.prior]).(response := after.txs[i.publicId].response)
    ensures after.txs[i.publicId].user == db.txs[i.prior].user
    ensures after.txs[i.publicId].intent == db.txs[i.prior].intent && after.txs[i.publicId].key == i.key
  {
  }

  lemma KeyStaysTaken(after: Tables, later: Tables, x: TxId)
    requires Extends(after, later) && x in after.txs
    ensures KeyTaken(later, after.txs[x].user, after.txs[x].intent, after.txs[x].key)
  {
    assert RowKept(after.txs[x], later.txs[x]);
    assert SameKey(later.txs[x], after.txs[x].user, after.txs[x].intent, after.txs[x].key);
  }
}
