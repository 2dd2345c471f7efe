/**
 * The running system: clients that call the repository, and any number of reconcilers, each holding the
 * context it once read while everybody else goes on.
 */
module System {
  import opened Prelude
  import opened Tasks
  import opened ChainTransactions
  import opened Store
  import opened Invariants
  import opened Lifecycle
  import opened Reconciliation

  type ThreadId = nat

  /** What a row was confirmed on. */
  datatype Witness = Witness(context: Context, receipt: Receipt, log: Log)

  /** `witnesses` and `failures` only record; no step reads them. */
  datatype State = State(
    db: Tables,
    threads: map<ThreadId, Context>,
    witnesses: map<TxId, Witness>,
    failures: map<TxId, Receipt>)

  /** Who started a reconciler: the job, the owner's task route, or a member's receipt route. */
  datatype Route = Job | OwnerRequest | MemberRequest

  datatype Event =
    | PostTask(task: CreateTaskInput)
    | OpenIntent(intent: IntentInput)
    | OpenReceipt(receipt: ReceiptInput)
    | ReportOutcome(outcome: OutcomeInput)
    | ReportReplacement(replacement: ReplacementInput)
    | UploadEvidence(evidence: EvidenceInput)
    | PatchProject(patch: ProjectPatch)
    | StorePolicy(version: PolicyInput)
    | Begin(thread: ThreadId, route: Route, tx: TxId, actor: UserId)
    | Finish(thread: ThreadId, answer: RpcAnswer, at: Time)

  /** The context a reconciler reads. The job acts as the row's user and picks its kind by the row's intent. */
  function ReadContext(db: Tables, route: Route, tx: TxId, actor: UserId): Option<Context> {
    match route
    case OwnerRequest => ReadCreationContext(db, tx, actor)
    case MemberRequest => ReadReceiptContext(db, tx, actor)
    case Job =>
      if tx !in db.txs then None
      else if db.txs[tx].intent == CreateTask then ReadCreationContext(db, tx, db.txs[tx].user)
      else ReadReceiptContext(db, tx, db.txs[tx].user)
  }

  function ClientTables(db: Tables, e: Event): Tables
    requires !e.Begin? && !e.Finish?
  {
    match e
    case PostTask(i) => CreateTaskStep(db, i).tables
    case OpenIntent(i) => CreateIntentStep(db, i).tables
    case OpenReceipt(i) => CreateReceiptStep(db, i).tables
    case ReportOutcome(i) => OutcomeStep(db, i).tables
    case ReportReplacement(i) => ReplacementStep(db, i).tables
    case UploadEvidence(i) => PersistEvidenceStep(db, i).tables
    case PatchProject(p) => UpdateProjectStep(db, p).tables
    case StorePolicy(i) => CreatePolicyStep(db, i).tables
  }

  /** A reconciler writes what it decided from the answer, under the status it once read, and ends. */
  function FinishThread(s: State, thread: ThreadId, answer: RpcAnswer, at: Time): State
    requires thread in s.threads
  {
    var c := s.threads[thread];
    var d := Decide(c, answer);
    var after := WriteBack(s.db, c, d, at).tables;
    State(after, s.threads - {thread},
          if d.DecideConfirmed? && after != s.db then s.witnesses[c.tx := Witness(c, answer.receipt, d.log)]
          else s.witnesses,
          if d.DecideReverted? && after != s.db then s.failures[c.tx := answer.receipt] else s.failures)
  }

  function Next(s: State, e: Event): State {
    match e
    case Begin(thread, route, tx, actor) =>
      (match ReadContext(s.db, route, tx, actor)
       case None => s
       case Some(c) => s.(threads := s.threads[thread := c]))
    case Finish(thread, answer, at) => if thread in s.threads then FinishThread(s, thread, answer, at) else s
    case _ => s.(db := ClientTables(s.db, e))
  }

  function Run(s: State, events: seq<Event>): State
    decreases |events|
  {
    if events == [] then s else Run(Next(s, events[0]), events[1..])
  }

  /** Projects and policies under unique hashes, and nothing else yet. */
  ghost predicate Initial(s: State) {
    && s.db.tasks == map[] && s.db.txs == map[] && s.db.attestations == map[] && s.db.events == map[]
    && s.db.bundles == map[] && s.db.reservations == map[]
    && s.threads == map[] && s.witnesses == map[] && s.failures == map[]
    && PolicyHashesUnique(s.db.policies)
  }

  // ----- what holds in every run -----

  /** All a context says of its row and task is still true, except for the status it saw. */
  ghost predicate Bound(db: Tables, c: Context) {
    && c.status in {Submitted, UnknownReconcile}
    && c.tx in db.txs
    && db.txs[c.tx].hash == Some(c.hash)
    && db.txs[c.tx].chainId == c.chainId
    && db.txs[c.tx].task == c.task
    && c.task in db.tasks
    && db.tasks[c.task].contract == c.contract
    && db.tasks[c.task].assignee == c.assignee
    && (c.CreationContext? ==>
          && db.tasks[c.task].taskHash == c.taskHash
          && db.tasks[c.task].policyHash == c.policyHash
          && db.tasks[c.task].creator == c.creator
          && db.tasks[c.task].reward == c.reward
          && SecondsOf(db.tasks[c.task].canonical.deadlineSeconds) == c.deadlineSeconds)
    && (c.ReceiptContext? ==>
          && db.txs[c.tx].intent == SubmitReceipt
          && c.tx in db.attestations
          && db.attestations[c.tx] == Attestation(
               c.task, db.attestations[c.tx].bundle, c.evidenceHash, c.commitHash, c.expirySeconds, c.verifier,
               c.digest))
  }

  /**
   * The row was confirmed on a successful receipt of its own hash with exactly one matching log; its block
   * and the indexed event come from that receipt and that log.
   */
  ghost predicate Witnessed(db: Tables, x: TxId, w: Witness)
    requires x in db.txs
  {
    && w.context.tx == x
    && Bound(db, w.context)
    && Proves(w.context, w.receipt, w.log)
    && db.txs[x].blockNumber == Some(w.receipt.blockNumber)
    && var k := EventKey(db.txs[x].chainId, w.context.hash, w.log.logIndex);
       && k in db.events
       && db.events[k].blockNumber == w.receipt.blockNumber
       && db.events[k].blockHash == w.receipt.blockHash
  }

  ghost predicate ThreadsBound(s: State) {
    forall thread | thread in s.threads :: Bound(s.db, s.threads[thread])
  }

  ghost predicate ConfirmedWitnessed(s: State) {
    forall x | x in s.db.txs && s.db.txs[x].status == Confirmed ::
      x in s.witnesses && Witnessed(s.db, x, s.witnesses[x])
  }

  /** The row was reverted on a failed receipt of its own hash, whose block it carries. */
  ghost predicate Failed(db: Tables, x: TxId, receipt: Receipt)
    requires x in db.txs
  {
    !receipt.success && db.txs[x].hash == Some(receipt.hash) && db.txs[x].blockNumber == Some(receipt.blockNumber)
  }

  ghost predicate RevertedFailed(s: State) {
    forall x | x in s.db.txs && s.db.txs[x].status == Reverted :: x in s.failures && Failed(s.db, x, s.failures[x])
  }

  ghost predicate Sound(s: State) {
    Structure(s.db) && ThreadsBound(s) && ConfirmedWitnessed(s) && RevertedFailed(s)
  }

  lemma InitialSound(s: State)
    requires Initial(s)
    ensures Sound(s) && Phases(s.db) && Tracked(s.db)
  {
  }

  lemma BoundKept(db: Tables, later: Tables, c: Context)
    requires Bound(db, c) && Extends(db, later) && AttestationsSound(db)
    ensures Bound(later, c)
  {
    assert RowKept(db.txs[c.tx], later.txs[c.tx]);
    assert TaskKept(db.tasks[c.task], later.tasks[c.task]);
  }

  lemma WitnessedKept(db: Tables, later: Tables, x: TxId, w: Witness)
    requires x in db.txs && db.txs[x].status == Confirmed && Witnessed(db, x, w)
    requires Extends(db, later) && AttestationsSound(db)
    ensures x in later.txs && later.txs[x] == db.txs[x] && Witnessed(later, x, w)
  {
    assert RowKept(db.txs[x], later.txs[x]);
    BoundKept(db, later, w.context);
  }

  /** Rows that are confirmed or reverted now were so before. */
  ghost predicate NoneNewlySettled(db: Tables, later: Tables) {
    forall x | x in later.txs && later.txs[x].status in {Confirmed, Reverted} ::
      x in db.txs && db.txs[x].status == later.txs[x].status
  }

  lemma FailedKept(db: Tables, later: Tables, x: TxId, receipt: Receipt)
    requires x in db.txs && db.txs[x].status == Reverted && Failed(db, x, receipt) && Extends(db, later)
    ensures x in later.txs && later.txs[x] == db.txs[x] && Failed(later, x, receipt)
  {
    assert RowKept(db.txs[x], later.txs[x]);
  }

  lemma FailuresKept(s: State, later: State)
    requires RevertedFailed(s) && Extends(s.db, later.db)
    ensures forall x | x in s.db.txs && s.db.txs[x].status == Reverted ::
              x in later.db.txs && x in s.failures && Failed(later.db, x, s.failures[x])
  {
    hide Extends, Failed;
    forall x | x in s.db.txs && s.db.txs[x].status == Reverted
      ensures x in later.db.txs && Failed(later.db, x, s.failures[x])
    {
      FailedKept(s.db, later.db, x, s.failures[x]);
    }
  }

  lemma SoundKept(s: State, later: State)
    requires Sound(s) && Structure(later.db) && Extends(s.db, later.db)
    requires later.threads.Keys <= s.threads.Keys
    requires forall thread | thread in later.threads :: later.threads[thread] == s.threads[thread]
    requires later.witnesses == s.witnesses && later.failures == s.failures && NoneNewlySettled(s.db, later.db)
    ensures Sound(later)
  {
    hide Structure, Extends, Bound, Witnessed, Failed;
    StructureAttestations(s.db);
    FailuresKept(s, later);
    forall thread | thread in later.threads ensures Bound(later.db, later.threads[thread]) {
      BoundKept(s.db, later.db, s.threads[thread]);
    }
    forall x | x in later.db.txs && later.db.txs[x].status == Confirmed
      ensures x in later.witnesses && Witnessed(later.db, x, later.witnesses[x])
    {
      WitnessedKept(s.db, later.db, x, s.witnesses[x]);
    }
  }

  lemma ClientKeeps(db: Tables, e: Event)
    requires Structure(db) && !e.Begin? && !e.Finish?
    ensures var after := ClientTables(db, e); Structure(after) && Extends(db, after)
  {
    hide Structure, Extends, CreateTaskStep, CreateIntentStep, CreateReceiptStep, OutcomeStep, ReplacementStep,
         PersistEvidenceStep, UpdateProjectStep, CreatePolicyStep;
    match e
    case PostTask(i) => CreateTaskKeeps(db, i);
    case OpenIntent(i) => CreateIntentKeeps(db, i);
    case OpenReceipt(i) => CreateReceiptKeeps(db, i);
    case ReportOutcome(i) => OutcomeKeeps(db, i);
    case ReportReplacement(i) => ReplacementKeeps(db, i);
    case UploadEvidence(i) => PersistEvidenceKeeps(db, i);
    case PatchProject(p) => UpdateProjectKeeps(db, p);
    case StorePolicy(i) => CreatePolicyKeeps(db, i);
  }

  lemma NotSettledBySet(db: Tables, later: Tables, x: TxId)
    requires x in later.txs && later.txs == db.txs[x := later.txs[x]]
    requires later.txs[x].status !in {Confirmed, Reverted}
    ensures NoneNewlySettled(db, later)
  {
  }

  lemma SameRowsSettleNone(db: Tables, later: Tables)
    requires later.txs == db.txs
    ensures NoneNewlySettled(db, later)
  {
  }

  lemma NotSettledByTwo(db: Tables, later: Tables, x: TxId, y: TxId)
    requires x in later.txs && y in later.txs && later.txs == db.txs[y := later.txs[y]][x := later.txs[x]]
    requires later.txs[x].status !in {Confirmed, Reverted} && later.txs[y].status !in {Confirmed, Reverted}
    ensures NoneNewlySettled(db, later)
  {
  }

  lemma ReceiptOpensUnsettled(db: Tables, i: ReceiptInput)
    ensures NoneNewlySettled(db, CreateReceiptStep(db, i).tables)
  {
    hide *;
    var after := CreateReceiptStep(db, i).tables;
    if after == db {
      SameRowsSettleNone(db, after);
    } else {
      CreateReceiptShape(db, i);
      MemberProject(db, db.tasks[i.intent.task].project, i.intent.actor);
      ReceiptNotRefused(db, i);
      ReceiptRowSound(db, after, i);
      NotSettledBySet(db, after, i.intent.publicId);
    }
  }

  lemma OutcomeSettlesNone(db: Tables, i: OutcomeInput)
    requires Structure(db)
    ensures NoneNewlySettled(db, OutcomeStep(db, i).tables)
  {
    hide *;
    OutcomeTables(db, i);
    var after := TransitionStep(db, i).tables;
    if after == db {
      SameRowsSettleNone(db, after);
    } else {
      if i.tx in db.txs {
        StructureRow(db, i.tx);
      }
      TransitionShape(db, i);
      StructureIdentities(db);
      OutcomeTasksMoved(db, after, i);
      TasksMovedKept(db, after);
      TransitionRowSound(db, after, i);
      NotSettledBySet(db, after, i.tx);
    }
  }

  /** No client call confirms or reverts anything: only reconcilers do. */
  lemma ClientsSettleNone(db: Tables, e: Event)
    requires Structure(db) && !e.Begin? && !e.Finish?
    ensures NoneNewlySettled(db, ClientTables(db, e))
  {
    hide Structure, NoneNewlySettled, CreateTaskStep, CreateIntentStep, CreateReceiptStep, OutcomeStep,
         ReplacementStep, PersistEvidenceStep, UpdateProjectStep, CreatePolicyStep;
    var after := ClientTables(db, e);
    if after == db {
      SameRowsSettleNone(db, after);
    } else {
      match e
      case PostTask(i) => CreateTaskShape(db, i); SameRowsSettleNone(db, after);
      case OpenIntent(i) => CreateIntentShape(db, i); NotSettledBySet(db, after, i.publicId);
      case OpenReceipt(i) => ReceiptOpensUnsettled(db, i);
      case ReportOutcome(i) => OutcomeSettlesNone(db, i);
      case ReportReplacement(i) =>
        ReplacementShape(db, i);
        ReplacementStatuses(db, after, i);
        NotSettledByTwo(db, after, i.prior, i.publicId);
      case UploadEvidence(i) => PersistEvidenceShape(db, i); SameRowsSettleNone(db, after);
      case PatchProject(p) => UpdateProjectShape(db, p); SameRowsSettleNone(db, after);
      case StorePolicy(i) => CreatePolicyShape(db, i); SameRowsSettleNone(db, after);
    }
  }

  // ----- what a reconciler reads and writes -----

  lemma ReadBound(db: Tables, route: Route, tx: TxId, actor: UserId)
    requires Structure(db) && ReadContext(db, route, tx, actor).Some?
    ensures Bound(db, ReadContext(db, route, tx, actor).value)
  {
    hide IdentitiesSound, HashesUnique, KeysUnique, EventsSound, BundlesSound, TasksSound;
    assert RowSound(db, tx);
    if tx in db.attestations {
      assert AttestationSound(db, tx);
    }
  }

  /** A log can only match a creation as a TaskCreated event, and a receipt as a ReceiptSubmitted one. */
  lemma WriteBackConfirms(db: Tables, c: Context, answer: RpcAnswer, at: Time)
    requires Decide(c, answer).DecideConfirmed?
    ensures c.CreationContext? ==> Decide(c, answer).log.event.TaskCreatedLog?
    ensures var d := Decide(c, answer);
            var confirmation := Confirmation(c.tx, c.status, d.blockHash, d.blockNumber, d.log.logIndex, at);
            WriteBack(db, c, d, at)
            == if c.CreationContext? then ConfirmCreationStep(db, confirmation, d.log.event.taskId)
               else ConfirmReceiptStep(db, confirmation)
  {
    ConfirmedExactlyWhenProved(c, answer);
  }

  function ConfirmationOf(c: Context, d: Decision, at: Time): Confirmation
    requires d.DecideConfirmed?
  {
    Confirmation(c.tx, c.status, d.blockHash, d.blockNumber, d.log.logIndex, at)
  }

  lemma FinishKeeps(db: Tables, c: Context, answer: RpcAnswer, at: Time)
    requires Structure(db) && c.status in {Submitted, UnknownReconcile}
    ensures var after := WriteBack(db, c, Decide(c, answer), at).tables; Structure(after) && Extends(db, after)
  {
    hide Structure, Extends, Decide, MarkUnknownStep, MarkRevertedStep, ConfirmCreationStep, ConfirmReceiptStep;
    match Decide(c, answer)
    case DecideUnknown(code) => MarkUnknownKeeps(db, c.tx, c.status, code, at);
    case DecideReverted(block) => MarkRevertedKeeps(db, c.tx, c.status, block, at);
    case DecideConfirmed(log, blockHash, block) =>
      var confirmation := Confirmation(c.tx, c.status, blockHash, block, log.logIndex, at);
      if log.event.TaskCreatedLog? {
        ConfirmCreationKeeps(db, confirmation, log.event.taskId);
      }
      ConfirmReceiptKeeps(db, confirmation);
  }

  lemma MarkedRows(db: Tables, c: Context, d: Decision, at: Time)
    requires !d.DecideConfirmed?
    ensures var after := WriteBack(db, c, d, at).tables;
            after != db ==> && c.tx in db.txs && c.tx in after.txs
                            && after == db.(txs := db.txs[c.tx := after.txs[c.tx]])
                            && (d.DecideUnknown? ==> after.txs[c.tx].status == UnknownReconcile)
                            && (d.DecideReverted? ==>
                                  after.txs[c.tx] == db.txs[c.tx]
                                  || (after.txs[c.tx].status == Reverted && db.txs[c.tx].hash == after.txs[c.tx].hash
                                      && after.txs[c.tx].blockNumber == Some(d.blockNumber)))
  {
  }

  lemma UnknownSettlesNone(db: Tables, c: Context, d: Decision, at: Time)
    requires d.DecideUnknown?
    ensures NoneNewlySettled(db, WriteBack(db, c, d, at).tables)
  {
    hide *;
    MarkedRows(db, c, d, at);
    if WriteBack(db, c, d, at).tables == db {
      SameRowsSettleNone(db, db);
    } else {
      NotSettledBySet(db, WriteBack(db, c, d, at).tables, c.tx);
    }
  }

  /** A confirming write changes one row, indexes one event, and both carry what the receipt says. */
  lemma ConfirmedAsDecided(db: Tables, c: Context, answer: RpcAnswer, at: Time)
    requires Decide(c, answer).DecideConfirmed?
    requires WriteBack(db, c, Decide(c, answer), at).tables != db
    ensures var after := WriteBack(db, c, Decide(c, answer), at).tables;
            Confirms(db, after, ConfirmationOf(c, Decide(c, answer), at))
            && after.events[EventKeyOf(db.txs[c.tx], ConfirmationOf(c, Decide(c, answer), at))].blockNumber
               == Decide(c, answer).blockNumber
            && after.events[EventKeyOf(db.txs[c.tx], ConfirmationOf(c, Decide(c, answer), at))].blockHash
               == Decide(c, answer).blockHash
            && (c.CreationContext? ==>
                  Decide(c, answer).log.event.TaskCreatedLog?
                  && after.tasks[db.txs[c.tx].task].chainTaskId == Some(Decide(c, answer).log.event.taskId))
            && (c.ReceiptContext? ==>
                  after.tasks[db.txs[c.tx].task].chainTaskId == db.tasks[db.txs[c.tx].task].chainTaskId)
  {
    hide Decide, ConfirmCreationStep, ConfirmReceiptStep, WriteBack;
    WriteBackConfirms(db, c, answer, at);
    var d := Decide(c, answer);
    if c.CreationContext? {
      ConfirmCreationShape(db, ConfirmationOf(c, d, at), d.log.event.taskId);
    } else {
      ConfirmReceiptShape(db, ConfirmationOf(c, d, at));
    }
  }

  lemma ConfirmedIsWitnessed(db: Tables, c: Context, answer: RpcAnswer, at: Time)
    requires Structure(db) && Bound(db, c)
    requires Decide(c, answer).DecideConfirmed?
    requires WriteBack(db, c, Decide(c, answer), at).tables != db
    ensures var after := WriteBack(db, c, Decide(c, answer), at).tables;
            && answer.Found?
            && c.tx in after.txs && after.txs == db.txs[c.tx := after.txs[c.tx]]
            && after.txs[c.tx].status == Confirmed
            && Witnessed(after, c.tx, Witness(c, answer.receipt, Decide(c, answer).log))
  {
    hide Structure, Extends, Decide, WriteBack, Proves, Bound;
    var after := WriteBack(db, c, Decide(c, answer), at).tables;
    ConfirmedExactlyWhenProved(c, answer);
    ConfirmedAsDecided(db, c, answer, at);
    BoundContext(db, c);
    FinishKeeps(db, c, answer, at);
    StructureAttestations(db);
    BoundKept(db, after, c);
    BoundContext(after, c);
  }

  lemma StructureAttestations(db: Tables)
    requires Structure(db)
    ensures AttestationsSound(db)
  {
  }

  lemma BoundContext(db: Tables, c: Context)
    requires Bound(db, c)
    ensures c.status in {Submitted, UnknownReconcile} && c.tx in db.txs && db.txs[c.tx].hash == Some(c.hash)
    ensures db.txs[c.tx].task == c.task && c.task in db.tasks
  {
  }

  // ----- when a confirming write goes through -----

  /** No other task of the same contract on the same chain has this chain task id. */
  predicate IdentityIsFree(db: Tables, t: TaskId, chainTaskId: nat)
    requires t in db.tasks
  {
    forall u | u in db.tasks && u != t && db.tasks[u].chainId == db.tasks[t].chainId
               && db.tasks[u].contract == db.tasks[t].contract ::
      db.tasks[u].chainTaskId != Some(chainTaskId)
  }

  lemma FreeIsNotTaken(db: Tables, t: TaskId, chainTaskId: nat)
    requires t in db.tasks
    ensures IdentityIsFree(db, t, chainTaskId) <==> !ChainIdentityTaken(db, t, db.tasks[t], chainTaskId)
  {
  }

  /** What the columns can hold, and that no other task has the chain id: all that can still stop a confirmation. */
  predicate Storable(db: Tables, c: Context, receipt: Receipt, log: Log, at: Time)
    requires c.tx in db.txs && db.txs[c.tx].task in db.tasks
  {
    && -8_640_000_000_000_000 <= at <= 8_640_000_000_000_000
    && receipt.blockNumber <= 0x7FFF_FFFF_FFFF_FFFF
    && log.logIndex <= 0x7FFF_FFFF
    && (c.CreationContext? && log.event.TaskCreatedLog? ==>
          log.event.taskId <= 0x7FFF_FFFF_FFFF_FFFF && IdentityIsFree(db, db.txs[c.tx].task, log.event.taskId))
  }

  /** An indexed event of a pending row's own hash cannot exist. */
  lemma NoEventYet(db: Tables, x: TxId, logIndex: nat)
    requires EventsSound(db) && HashesUnique(db.txs)
    requires x in db.txs && db.txs[x].hash.Some? && db.txs[x].status != Confirmed
    ensures EventKey(db.txs[x].chainId, db.txs[x].hash.value, logIndex) !in db.events
  {
    var k := EventKey(db.txs[x].chainId, db.txs[x].hash.value, logIndex);
    assert k in db.events ==> EventSound(db, k);
  }

  lemma CreationConfirms(db: Tables, c: Confirmation, chainTaskId: nat)
    requires c.tx in db.txs && db.txs[c.tx].task in db.tasks && db.txs[c.tx].hash.Some?
    requires db.txs[c.tx].status in {Submitted, UnknownReconcile} && c.expected == db.txs[c.tx].status
    requires EventKey(db.txs[c.tx].chainId, db.txs[c.tx].hash.value, c.logIndex) !in db.events
    ensures var after := ConfirmCreationStep(db, c, chainTaskId).tables;
            c.tx in after.txs
            && (after != db <==> after.txs[c.tx].status == Confirmed)
            && (after.txs[c.tx].status == Confirmed <==>
                && ValidDate(c.at) && c.blockNumber <= BIGINT_MAX && c.logIndex <= INTEGER_MAX
                && chainTaskId <= BIGINT_MAX
                && IdentityIsFree(db, db.txs[c.tx].task, chainTaskId))
  {
    hide IdentityIsFree, ChainIdentityTaken;
    FreeIsNotTaken(db, db.txs[c.tx].task, chainTaskId);
  }

  lemma ReceiptConfirms(db: Tables, c: Confirmation)
    requires c.tx in db.txs && db.txs[c.tx].task in db.tasks && db.txs[c.tx].hash.Some?
    requires db.txs[c.tx].intent == SubmitReceipt && c.tx in db.attestations
    requires db.txs[c.tx].status in {Submitted, UnknownReconcile} && c.expected == db.txs[c.tx].status
    requires EventKey(db.txs[c.tx].chainId, db.txs[c.tx].hash.value, c.logIndex) !in db.events
    ensures var after := ConfirmReceiptStep(db, c).tables;
            c.tx in after.txs
            && (after != db <==> after.txs[c.tx].status == Confirmed)
            && (after.txs[c.tx].status == Confirmed <==>
                ValidDate(c.at) && c.blockNumber <= BIGINT_MAX && c.logIndex <= INTEGER_MAX)
  {
  }

  lemma StructureEvents(db: Tables)
    requires Structure(db)
    ensures EventsSound(db) && HashesUnique(db.txs)
  {
  }

  /**
   * A confirming write changes the tables exactly when the row still has the status the reconciler saw, the
   * numbers fit the columns and no other task has the chain task id.
   */
  lemma ConfirmingWriteExactly(db: Tables, c: Context, receipt: Receipt, at: Time)
    requires Structure(db) && Bound(db, c) && Decide(c, Found(receipt)).DecideConfirmed?
    ensures var d := Decide(c, Found(receipt));
            && c.tx in db.txs && db.txs[c.tx].task in db.tasks
            && (WriteBack(db, c, d, at).tables != db <==>
                db.txs[c.tx].status == c.status && Storable(db, c, receipt, d.log, at))
  {
    hide Structure, Decide, WriteBack, Bound, ConfirmCreationStep, ConfirmReceiptStep, IdentityIsFree, Proves;
    var d := Decide(c, Found(receipt));
    BoundContext(db, c);
    BoundReceipt(db, c);
    StructureEvents(db);
    WriteBackConfirms(db, c, Found(receipt), at);
    ConfirmedExactlyWhenProved(c, Found(receipt));
    if db.txs[c.tx].status == c.status {
      NoEventYet(db, c.tx, d.log.logIndex);
      if c.CreationContext? {
        CreationConfirms(db, ConfirmationOf(c, d, at), d.log.event.taskId);
      } else {
        ReceiptConfirms(db, ConfirmationOf(c, d, at));
      }
    } else {
      StaleWrite(db, c, d, at);
    }
  }

  /** Compare-and-set: a confirming write under another status than the row's changes nothing. */
  lemma StaleWrite(db: Tables, c: Context, d: Decision, at: Time)
    requires d.DecideConfirmed? && c.tx in db.txs && db.txs[c.tx].status != c.status
    ensures WriteBack(db, c, d, at).tables == db
  {
  }

  lemma BoundReceipt(db: Tables, c: Context)
    requires Bound(db, c)
    ensures c.tx in db.txs && (c.ReceiptContext? ==> db.txs[c.tx].intent == SubmitReceipt && c.tx in db.attestations)
  {
  }

  lemma BeginSound(s: State, e: Event)
    requires Sound(s) && e.Begin?
    ensures Sound(Next(s, e)) && Next(s, e).db == s.db
  {
    hide Structure, Bound, Witnessed, ReadContext;
    if ReadContext(s.db, e.route, e.tx, e.actor).Some? {
      ReadBound(s.db, e.route, e.tx, e.actor);
    }
  }

  lemma FinishSound(s: State, e: Event)
    requires Sound(s) && e.Finish?
    ensures Sound(Next(s, e)) && Extends(s.db, Next(s, e).db)
  {
    hide Structure, Extends, Bound, Witnessed, Decide, WriteBack, NoneNewlySettled;
    ExtendsReflexive(s.db);
    if e.thread in s.threads {
      var c := s.threads[e.thread];
      var d := Decide(c, e.answer);
      var next := FinishThread(s, e.thread, e.answer, e.at);
      BoundContext(s.db, c);
      FinishKeeps(s.db, c, e.answer, e.at);
      if next.db == s.db {
        SameRowsSettleNone(s.db, next.db);
        SoundKept(s, next);
      } else if d.DecideUnknown? {
        UnknownSettlesNone(s.db, c, d, e.at);
        SoundKept(s, next);
      } else if d.DecideReverted? {
        RevertedIsFailed(s.db, c, e.answer, e.at);
        RevertedSound(s, next, c.tx);
      } else {
        ConfirmedIsWitnessed(s.db, c, e.answer, e.at);
        ConfirmedSound(s, next, c.tx);
      }
    }
  }

  lemma ConfirmedSound(s: State, later: State, x: TxId)
    requires Sound(s) && Structure(later.db) && Extends(s.db, later.db)
    requires forall thread | thread in later.threads ::
               thread in s.threads && later.threads[thread] == s.threads[thread]
    requires x in later.db.txs && later.db.txs == s.db.txs[x := later.db.txs[x]]
    requires x in later.witnesses && later.witnesses == s.witnesses[x := later.witnesses[x]]
    requires Witnessed(later.db, x, later.witnesses[x])
    requires later.db.txs[x].status == Confirmed && later.failures == s.failures
    ensures Sound(later)
  {
    hide Structure, Extends, Bound, Witnessed, Failed;
    StructureAttestations(s.db);
    FailuresKept(s, later);
    forall thread | thread in later.threads ensures Bound(later.db, later.threads[thread]) {
      BoundKept(s.db, later.db, s.threads[thread]);
    }
    forall y | y in later.db.txs && later.db.txs[y].status == Confirmed && y != x
      ensures y in later.witnesses && Witnessed(later.db, y, later.witnesses[y])
    {
      WitnessedKept(s.db, later.db, y, s.witnesses[y]);
    }
  }

  lemma RevertedIsFailed(db: Tables, c: Context, answer: RpcAnswer, at: Time)
    requires Bound(db, c) && Decide(c, answer).DecideReverted?
    requires WriteBack(db, c, Decide(c, answer), at).tables != db
    ensures var after := WriteBack(db, c, Decide(c, answer), at).tables;
            && answer.Found?
            && c.tx in after.txs && after.txs == db.txs[c.tx := after.txs[c.tx]]
            && after.txs[c.tx].status == Reverted && Failed(after, c.tx, answer.receipt)
  {
    hide WriteBack, Decide;
    RevertedExactlyWhenFailed(c, answer);
    RevertedBlock(c, answer);
    MarkedRows(db, c, Decide(c, answer), at);
    var after := WriteBack(db, c, Decide(c, answer), at).tables;
    assert after.txs[c.tx] == db.txs[c.tx] ==> after.txs == db.txs;
  }

  lemma RevertedBlock(c: Context, answer: RpcAnswer)
    requires Decide(c, answer).DecideReverted?
    ensures answer.Found? && Decide(c, answer).blockNumber == answer.receipt.blockNumber
  {
  }

  lemma RevertedSound(s: State, later: State, x: TxId)
    requires Sound(s) && Structure(later.db) && Extends(s.db, later.db)
    requires forall thread | thread in later.threads ::
               thread in s.threads && later.threads[thread] == s.threads[thread]
    requires x in later.db.txs && later.db.txs == s.db.txs[x := later.db.txs[x]]
    requires x in later.failures && later.failures == s.failures[x := later.failures[x]]
    requires later.db.txs[x].status == Reverted && Failed(later.db, x, later.failures[x])
    requires later.witnesses == s.witnesses
    ensures Sound(later)
  {
    hide Structure, Extends, Bound, Witnessed, Failed;
    StructureAttestations(s.db);
    FailuresKept(s, later);
    forall thread | thread in later.threads ensures Bound(later.db, later.threads[thread]) {
      BoundKept(s.db, later.db, s.threads[thread]);
    }
    forall y | y in later.db.txs && later.db.txs[y].status == Confirmed
      ensures y in later.witnesses && Witnessed(later.db, y, later.witnesses[y])
    {
      WitnessedKept(s.db, later.db, y, s.witnesses[y]);
    }
  }

  /** Every event, by any route, keeps the state sound and takes nothing back. */
  lemma NextSound(s: State, e: Event)
    requires Sound(s)
    ensures Sound(Next(s, e)) && Extends(s.db, Next(s, e).db)
  {
    hide Structure, Extends, Bound, Witnessed, ClientTables, FinishThread, ReadContext, NoneNewlySettled;
    if e.Begin? {
      BeginSound(s, e);
      ExtendsReflexive(s.db);
    } else if e.Finish? {
      FinishSound(s, e);
    } else {
      ClientKeeps(s.db, e);
      ClientsSettleNone(s.db, e);
      SoundKept(s, Next(s, e));
    }
  }

  /**
   * Over every run, however the reconcilers interleave and whatever the node answers them, the structure
   * holds, every confirmed row is witnessed, every reverted row failed, and terminal rows stay as they are.
   */
  lemma {:induction false} RunSound(s: State, events: seq<Event>)
    requires Sound(s)
    ensures Sound(Run(s, events)) && Extends(s.db, Run(s, events).db)
    decreases |events|
  {
    hide Sound, Extends, Next;
    ExtendsReflexive(s.db);
    if events != [] {
      NextSound(s, events[0]);
      RunSound(Next(s, events[0]), events[1..]);
      ExtendsTransitive(s.db, Next(s, events[0]).db, Run(s, events).db);
    }
  }

  lemma RunPair(s: State, x: Event, y: Event)
    ensures Run(s, [x, y]) == Next(Next(s, x), y)
  {
    hide Next;
    assert [x, y][1..] == [y];
    assert [y][1..] == [];
    assert Run(Next(s, x), [y]) == Run(Next(Next(s, x), y), []);
  }

  lemma {:induction false} RunAppends(s: State, a: seq<Event>, b: seq<Event>)
    ensures Run(s, a + b) == Run(Run(s, a), b)
    decreases |a|
  {
    hide Next;
    if a == [] {
      assert a + b == b;
    } else {
      assert (a + b)[1..] == a[1..] + b;
      RunAppends(Next(s, a[0]), a[1..], b);
    }
  }
}
