/** The tables, and what each wired repository call does to them: one atomic step from tables to tables. */
module Store {
  import opened Prelude
  import opened Tasks
  import opened ChainTransactions
  import Decimals
  import Evidence

  datatype Project = Project(
    owner: UserId,
    members: set<UserId>,
    active: bool,
    repositoryUrl: string,
    activePolicy: Option<PolicyId>)

  datatype PolicyVersion = PolicyVersion(project: ProjectId, policy: Evidence.Policy)

  datatype StoredBundle = StoredBundle(
    task: TaskId,
    bundle: Evidence.Bundle,
    evidenceHash: Hash,
    commitHash: Hash,
    passing: bool,
    createdAt: Time)

  datatype EventName = TaskCreated | ReceiptSubmittedEvent

  /** `decoded_json` of the two event kinds, with the fields that identify what was confirmed. */
  datatype ContractEvent = ContractEvent(
    contract: Address,
    name: EventName,
    chainTaskId: nat,
    blockNumber: nat,
    blockHash: Hash)

  /** `contract_events_chain_tx_log_unique` */
  datatype EventKey = EventKey(chainId: ChainId, hash: Hash, logIndex: nat)

  datatype Operation = OpTaskCreate | OpWalletRequested | OpSubmitted | OpRejected

  /** `api_idempotency_scope_operation_key_unique` */
  datatype ApiKey = ApiKey(user: UserId, operation: Operation, key: Key)

  datatype Reservation = Reservation(requestHash: Hash, resource: nat, response: Response)

  datatype Tables = Tables(
    projects: map<ProjectId, Project>,
    policies: map<PolicyId, PolicyVersion>,
    tasks: map<TaskId, Task>,
    txs: map<TxId, Tx>,
    attestations: map<TxId, Attestation>,
    events: map<EventKey, ContractEvent>,
    bundles: map<BundleId, StoredBundle>,
    reservations: map<ApiKey, Reservation>)

  /** The tables after a call, and what the call returned or threw. */
  datatype Step<+T> = Step(tables: Tables, result: Result<T, Error>)

  /** A thrown error rolls the transaction back. */
  function Refuse<T>(db: Tables, error: Error): Step<T> {
    Step(db, Err(error))
  }

  // ----- lookups -----

  predicate IsOwner(db: Tables, project: ProjectId, user: UserId) {
    project in db.projects && db.projects[project].owner == user
  }

  predicate IsMember(db: Tables, project: ProjectId, user: UserId) {
    project in db.projects && (db.projects[project].owner == user || user in db.projects[project].members)
  }

  /** `chain_transactions_user_intent_idempotency_unique` is taken. */
  predicate KeyTaken(db: Tables, user: UserId, intent: Intent, key: Key) {
    exists id :: id in db.txs && SameKey(db.txs[id], user, intent, key)
  }

  predicate SameKey(r: Tx, user: UserId, intent: Intent, key: Key) {
    r.user == user && r.intent == intent && r.key == key
  }

  /** `chain_transactions_hash_unique` is taken by another row. */
  predicate HashTaken(db: Tables, self: TxId, chainId: ChainId, hash: Hash) {
    exists id :: id in db.txs && id != self && db.txs[id].chainId == chainId && db.txs[id].hash == Some(hash)
  }

  /** `tasks_chain_identity_unique` is taken by another task. */
  predicate ChainIdentityTaken(db: Tables, self: TaskId, t: Task, chainTaskId: nat) {
    exists id :: id in db.tasks && id != self && db.tasks[id].chainId == t.chainId
                 && db.tasks[id].contract == t.contract && db.tasks[id].chainTaskId == Some(chainTaskId)
  }

  function UrlOf(db: Tables, t: Task): string {
    if t.project in db.projects then db.projects[t.project].repositoryUrl else ""
  }

  function TaskViewOf(db: Tables, id: TaskId): Result<TaskView, Error>
    requires id in db.tasks
  {
    ReadTask(id, db.tasks[id], UrlOf(db, db.tasks[id]))
  }

  predicate DeadlineElapsed(t: Task, at: Time) {
    t.deadline.Some? && t.deadline.value <= at
  }

  // ----- creating a task -----

  datatype CreateTaskInput = CreateTaskInput(
    actor: UserId,
    publicId: TaskId,
    project: ProjectId,
    policy: PolicyId,
    canonical: Canonical,
    taskHash: Hash,
    repositoryUrl: string,
    creator: Address,
    contract: Address,
    walletChains: seq<ChainId>,
    key: Key,
    requestHash: Hash,
    at: Time)

  /** `parseCanonicalTask` */
  predicate CreateTaskAccepted(i: CreateTaskInput) {
    && i.taskHash != 0 && i.creator != 0 && i.contract != 0
    && ValidDate(i.at)
    && AcceptsCanonical(i.canonical)
    && i.canonical.project == i.project
    && Decimals.Value(i.canonical.rewardWei) <= UINT96_MAX
    && (i.canonical.deadlineSeconds.Some? ==> Decimals.Value(i.canonical.deadlineSeconds.value) * 1000 > i.at)
  }

  /** The row as inserted. */
  function CreatedTask(i: CreateTaskInput, chain: ChainId): Task
    requires AcceptsCanonical(i.canonical)
  {
    NewTask(i.canonical, i.policy, chain, i.contract, i.taskHash, i.creator, i.at)
  }

  /** The locked project's active policy is the one the canonical task commits to. */
  predicate PolicyBound(db: Tables, i: CreateTaskInput) {
    && i.project in db.projects
    && db.projects[i.project].activePolicy == Some(i.policy)
    && i.policy in db.policies
    && db.policies[i.policy].project == i.project
    && db.policies[i.policy].policy.policyHash == i.canonical.policyHash
  }

  predicate TaskHashTaken(db: Tables, project: ProjectId, taskHash: Hash) {
    exists id :: id in db.tasks && db.tasks[id].project == project && db.tasks[id].taskHash == taskHash
  }

  /** What stops a first task creation, in the order of the source. */
  function CreateTaskRefusal(db: Tables, i: CreateTaskInput): Option<Error>
    requires CreateTaskAccepted(i) && i.project in db.projects
  {
    var project := db.projects[i.project];
    if !project.active then Some(ProjectArchived)
    else if RepositoryIdentity(project.repositoryUrl) != i.canonical.repositoryIdentity then Some(InvalidInput)
    else if project.repositoryUrl != i.repositoryUrl then Some(InvalidInput)
    else if !PolicyBound(db, i) then Some(NotFound)
    else if |i.walletChains| != 1 then Some(NotFound)
    else if !SupportedChain(i.walletChains[0]) then Some(InvalidInput)
    else if TaskHashTaken(db, i.project, i.taskHash) then Some(TaskHashConflict)
    else if DeadlineDate(i.canonical).Some? && !ValidDate(DeadlineDate(i.canonical).value) then Some(InvalidInput)
    else if Decimals.Value(i.canonical.rewardWei) > BIGINT_MAX then Some(InvalidInput)
    else if i.publicId in db.tasks then Some(Conflict)
    else if ReadTask(i.publicId, CreatedTask(i, i.walletChains[0]), project.repositoryUrl).Err? then Some(Conflict)
    else None
  }

  /** `replayApi`: the same content under a used key finds the stored response. */
  function Replay(db: Tables, k: ApiKey, requestHash: Hash, resource: nat): Result<Response, Error>
    requires k in db.reservations
  {
    var r := db.reservations[k];
    if r.requestHash != requestHash || r.resource != resource then Err(IdempotencyConflict)
    else if r.response.NoResponse? then Err(Conflict)
    else Ok(r.response)
  }

  function ReplayTask(db: Tables, k: ApiKey, requestHash: Hash, task: TaskId): Result<TaskView, Error>
    requires k in db.reservations
  {
    match Replay(db, k, requestHash, task)
    case Err(e) => Err(e)
    case Ok(TaskResponse(view)) =>
      (match ReparseTask(view)
       case Ok(parsed) => if parsed.publicId == task then Ok(parsed) else Err(Conflict)
       case Err(e) => Err(e))
    case Ok(_) => Err(Conflict)
  }

  /** `createTask` */
  function CreateTaskStep(db: Tables, i: CreateTaskInput): Step<TaskView> {
    var k := ApiKey(i.actor, OpTaskCreate, i.key);
    if !CreateTaskAccepted(i) then Refuse(db, InvalidInput)
    else if !IsOwner(db, i.project, i.actor) then Refuse(db, NotFound)
    else if k in db.reservations then Step(db, ReplayTask(db, k, i.requestHash, i.publicId))
    else
      match CreateTaskRefusal(db, i)
      case Some(error) => Refuse(db, error)
      case None =>
        var row := CreatedTask(i, i.walletChains[0]);
        var view := TaskView(i.publicId, db.projects[i.project].repositoryUrl, row);
        Step(db.(tasks := db.tasks[i.publicId := row],
                 reservations := db.reservations[k := Reservation(i.requestHash, i.publicId, TaskResponse(view))]),
             Ok(view))
  }

  // ----- chain intents -----

  datatype IntentInput = IntentInput(
    actor: UserId,
    task: TaskId,
    publicId: TxId,
    key: Key,
    requestHash: Hash,
    at: Time)

  datatype IntentReply = IntentReply(task: TaskView, tx: TxView, replayed: bool)

  /** The row both intent methods insert. */
  function IntentRow(i: IntentInput, t: Task, intent: Intent, fromAddress: Address): Tx {
    Tx(i.actor, t.project, i.task, intent, i.key, i.requestHash, t.chainId, fromAddress, t.contract, None, None,
       WalletRequested, None, None, None, NoResponse, i.at, i.at)
  }

  /** `replayChainIntent` and `replayReceiptChainIntent` up to the shape of the stored snapshot. */
  predicate IntentReplayBound(r: Tx, i: IntentInput, id: TxId) {
    r.requestHash == i.requestHash && id == i.publicId && r.task == i.task && !r.response.NoResponse?
  }

  function ReplaySnapshots(i: IntentInput, task: TaskView, tx: TxView): Result<IntentReply, Error> {
    match (ReparseTask(task), ReparseTx(tx))
    case (Ok(t), Ok(x)) =>
      if x.publicId == i.publicId && x.task == i.task && t.publicId == i.task then Ok(IntentReply(t, x, true))
      else Err(Conflict)
    case _ => Err(Conflict)
  }

  function ReplayIntent(db: Tables, i: IntentInput, intent: Intent): Result<IntentReply, Error> {
    if i.publicId !in db.txs || !SameKey(db.txs[i.publicId], i.actor, intent, i.key)
       || !IntentReplayBound(db.txs[i.publicId], i, i.publicId)
    then Err(IdempotencyConflict)
    else
      match db.txs[i.publicId].response
      case IntentResponse(task, tx) => if intent == CreateTask then ReplaySnapshots(i, task, tx) else Err(Conflict)
      case ReceiptResponse(task, tx, _) =>
        if intent == SubmitReceipt then ReplaySnapshots(i, task, tx) else Err(Conflict)
      case _ => Err(Conflict)
  }

  function CreateIntentRefusal(db: Tables, i: IntentInput): Option<Error>
    requires i.task in db.tasks && db.tasks[i.task].project in db.projects
  {
    var t := db.tasks[i.task];
    if i.publicId in db.txs then Some(Conflict)
    else if !db.projects[t.project].active then Some(ProjectArchived)
    else if t.offchain != Draft || t.chain != NoChain then Some(Conflict)
    else if DeadlineElapsed(t, i.at) then Some(Conflict)
    else if TaskViewOf(db, i.task).Err? then Some(Conflict)
    else None
  }

  /** `createChainIntent` */
  function CreateIntentStep(db: Tables, i: IntentInput): Step<IntentReply> {
    if !ValidDate(i.at) then Refuse(db, InvalidInput)
    else if i.task !in db.tasks || !IsOwner(db, db.tasks[i.task].project, i.actor) then Refuse(db, NotFound)
    else if KeyTaken(db, i.actor, CreateTask, i.key) then Step(db, ReplayIntent(db, i, CreateTask))
    else
      match CreateIntentRefusal(db, i)
      case Some(error) => Refuse(db, error)
      case None =>
        var t := db.tasks[i.task];
        var row := IntentRow(i, t, CreateTask, t.creator);
        var view := TaskViewOf(db, i.task).value;
        var tx := ViewOf(i.publicId, row);
        Step(db.(txs := db.txs[i.publicId := row.(response := IntentResponse(view, tx))],
                 tasks := db.tasks[i.task := t.(offchain := AwaitingChain, updatedAt := i.at)]),
             Ok(IntentReply(view, tx, false)))
  }

  datatype ReceiptInput = ReceiptInput(
    intent: IntentInput,
    assignee: Address,
    bundle: BundleId,
    evidenceHash: Hash,
    commitHash: Hash,
    expirySeconds: nat,
    verifier: Address,
    digest: Hash,
    winsTie: bool)

  predicate ReceiptAccepted(i: ReceiptInput) {
    && i.assignee != 0 && i.evidenceHash != 0 && i.commitHash != 0 && i.verifier != 0 && i.digest != 0
    && ValidDate(i.intent.at)
    && 0 < i.expirySeconds <= UINT64_MAX
    && i.expirySeconds * 1000 > i.intent.at
  }

  predicate OtherReceiptPending(db: Tables, task: TaskId) {
    exists id :: id in db.txs && db.txs[id].task == task && db.txs[id].intent == SubmitReceipt
                 && db.txs[id].status !in {RejectedByUser, Reverted}
  }

  /** The bundle is a passing bundle of the task, with the hashes the attestation signs. */
  predicate BundleBound(db: Tables, i: ReceiptInput) {
    && i.bundle in db.bundles
    && db.bundles[i.bundle].task == i.intent.task
    && db.bundles[i.bundle].passing
    && db.bundles[i.bundle].evidenceHash == i.evidenceHash
    && db.bundles[i.bundle].commitHash == i.commitHash
  }

  predicate NewerPassing(db: Tables, i: ReceiptInput)
    requires i.bundle in db.bundles
  {
    exists b :: b in db.bundles && b != i.bundle && db.bundles[b].task == i.intent.task && db.bundles[b].passing
                && (db.bundles[b].createdAt > db.bundles[i.bundle].createdAt
                    || (db.bundles[b].createdAt == db.bundles[i.bundle].createdAt && !i.winsTie))
  }

  function CreateReceiptRefusal(db: Tables, i: ReceiptInput): Option<Error>
    requires i.intent.task in db.tasks && db.tasks[i.intent.task].project in db.projects
  {
    var t := db.tasks[i.intent.task];
    if i.intent.publicId in db.txs then Some(Conflict)
    else if !db.projects[t.project].active then Some(ProjectArchived)
    else if t.assignee != i.assignee then Some(InvalidInput)
    else if t.chain != ChainOpen || t.offchain != Open then Some(Conflict)
    else if DeadlineElapsed(t, i.intent.at) then Some(Conflict)
    else if OtherReceiptPending(db, i.intent.task) then Some(Conflict)
    else if !BundleBound(db, i) then Some(InvalidInput)
    else if NewerPassing(db, i) then Some(Conflict)
    else if i.expirySeconds > BIGINT_MAX then Some(InvalidInput)
    else if TaskViewOf(db, i.intent.task).Err? then Some(Conflict)
    else None
  }

  function AttestationOf(i: ReceiptInput): Attestation {
    Attestation(i.intent.task, i.bundle, i.evidenceHash, i.commitHash, i.expirySeconds, i.verifier, i.digest)
  }

  /** `createReceiptChainIntent` */
  function CreateReceiptStep(db: Tables, i: ReceiptInput): Step<IntentReply> {
    var task := i.intent.task;
    if !ReceiptAccepted(i) then Refuse(db, InvalidInput)
    else if task !in db.tasks || !IsMember(db, db.tasks[task].project, i.intent.actor) then Refuse(db, NotFound)
    else if KeyTaken(db, i.intent.actor, SubmitReceipt, i.intent.key)
    then Step(db, ReplayIntent(db, i.intent, SubmitReceipt))
    else
      match CreateReceiptRefusal(db, i)
      case Some(error) => Refuse(db, error)
      case None =>
        var t := db.tasks[task];
        var row := IntentRow(i.intent, t, SubmitReceipt, t.assignee);
        var view := TaskViewOf(db, task).value;
        var tx := ViewOf(i.intent.publicId, row);
        Step(db.(txs := db.txs[i.intent.publicId := row.(response := ReceiptResponse(view, tx, AttestationOf(i)))],
                 attestations := db.attestations[i.intent.publicId := AttestationOf(i)]),
             Ok(IntentReply(view, tx, false)))
  }

  // ----- wallet outcomes -----

  datatype OutcomeInput = OutcomeInput(
    actor: UserId,
    task: TaskId,
    tx: TxId,
    status: Status,
    hash: Option<Hash>,
    nonce: Option<int>,
    failureCode: Option<string>,
    key: Key,
    requestHash: Hash,
    at: Time)

  function OutcomeTransition(i: OutcomeInput): Transition {
    Transition(
      if i.status == WalletRequested then Prepared else WalletRequested,
      i.status, i.at, i.hash, i.nonce, None,
      if i.status == RejectedByUser then Some(if i.failureCode.Some? then i.failureCode.value else USER_REJECTED)
      else None,
      None)
  }

  predicate OutcomeAccepted(i: OutcomeInput) {
    PublicTransition(OutcomeTransition(i)) && TransitionAccepted(OutcomeTransition(i))
  }

  function OutcomeKey(i: OutcomeInput): ApiKey
    requires i.status in {WalletRequested, Submitted, RejectedByUser}
  {
    ApiKey(
      i.actor,
      if i.status == WalletRequested then OpWalletRequested
      else if i.status == Submitted then OpSubmitted
      else OpRejected,
      i.key)
  }

  function ReplayTx(db: Tables, k: ApiKey, requestHash: Hash, tx: TxId): Result<TxView, Error>
    requires k in db.reservations
  {
    match Replay(db, k, requestHash, tx)
    case Err(e) => Err(e)
    case Ok(TxResponse(view)) =>
      (match ReparseTx(view)
       case Ok(parsed) => if parsed.publicId == tx then Ok(parsed) else Err(Conflict)
       case Err(e) => Err(e))
    case Ok(_) => Err(Conflict)
  }

  /** `transitionChainTransaction` as `recordWalletOutcome` calls it. */
  function TransitionStep(db: Tables, i: OutcomeInput): Step<TxView> {
    if !OutcomeAccepted(i) then Refuse(db, InvalidInput)
    else if i.tx !in db.txs || db.txs[i.tx].user != i.actor || db.txs[i.tx].task !in db.tasks
            || !IsOwner(db, db.txs[i.tx].project, i.actor) then Refuse(db, NotFound)
    else if OutcomeKey(i) in db.reservations then Step(db, ReplayTx(db, OutcomeKey(i), i.requestHash, i.tx))
    else
      var row := db.txs[i.tx];
      match TransitionRow(row, OutcomeTransition(i))
      case Err(error) => Refuse(db, error)
      case Ok(updated) =>
        if i.status == Submitted && HashTaken(db, i.tx, row.chainId, i.hash.value) then Refuse(db, Conflict)
        else
          var view := ViewOf(i.tx, updated);
          var t := db.tasks[row.task];
          Step(db.(txs := db.txs[i.tx := updated],
                   tasks := if i.status == RejectedByUser
                            then db.tasks[row.task := t.(offchain := Draft, updatedAt := i.at)] else db.tasks,
                   reservations := db.reservations[OutcomeKey(i) :=
                     Reservation(i.requestHash, i.tx, TxResponse(view))]),
               Ok(view))
  }

  /** `recordWalletOutcome`: the task binding is compared only after the transition has committed. */
  function OutcomeStep(db: Tables, i: OutcomeInput): Step<TxView> {
    var done := TransitionStep(db, i);
    if done.result.Ok? && done.result.value.task != i.task then Step(done.tables, Err(NotFound)) else done
  }

  // ----- replacements -----

  datatype ReplacementInput = ReplacementInput(
    actor: UserId,
    prior: TxId,
    publicId: TxId,
    hash: Hash,
    nonce: int,
    key: Key,
    requestHash: Hash,
    at: Time)

  datatype ReplacementReply = ReplacementReply(replaced: TxView, replacement: TxView)

  predicate ReplacementAccepted(i: ReplacementInput) {
    i.hash != 0 && ValidDate(i.at) && 0 <= i.nonce <= MAX_SAFE_INTEGER
  }

  /** The row inserted for the replacing transaction: everything but hash, key and times comes from the prior. */
  function ReplacementRow(i: ReplacementInput, prior: Tx): Tx
    requires ReplacementAccepted(i)
  {
    Tx(prior.user, prior.project, prior.task, prior.intent, i.key, i.requestHash, prior.chainId, prior.fromAddress,
       prior.toAddress, Some(i.hash), Some(i.nonce), Submitted, None, None, None, NoResponse, i.at, i.at)
  }

  /** `replayReplacement` looks the key up under the create_task intent, whatever the prior's intent is. */
  function ReplayReplacement(db: Tables, i: ReplacementInput, prior: Tx): Result<ReplacementReply, Error>
    requires i.prior in db.txs
  {
    if i.publicId !in db.txs || !SameKey(db.txs[i.publicId], i.actor, CreateTask, i.key)
       || db.txs[i.publicId].requestHash != i.requestHash || db.txs[i.publicId].task != prior.task
       || db.txs[i.publicId].response.NoResponse?
    then Err(IdempotencyConflict)
    else
      match db.txs[i.publicId].response
      case TxResponse(view) =>
        (match ReparseTx(view)
         case Err(e) => Err(e)
         case Ok(parsed) =>
           if parsed.publicId != i.publicId || parsed.task != prior.task then Err(Conflict)
           else if prior.status != Replaced || prior.replacedBy.None? then Err(Conflict)
           else Ok(ReplacementReply(ViewOf(i.prior, prior), parsed)))
      case _ => Err(Conflict)
  }

  /** `recordReplacement` */
  function ReplacementStep(db: Tables, i: ReplacementInput): Step<ReplacementReply> {
    if !ReplacementAccepted(i) then Refuse(db, InvalidInput)
    else if i.prior !in db.txs || db.txs[i.prior].user != i.actor || db.txs[i.prior].task !in db.tasks
            || !IsOwner(db, db.txs[i.prior].project, i.actor) then Refuse(db, NotFound)
    else
      var prior := db.txs[i.prior];
      if KeyTaken(db, prior.user, prior.intent, i.key) then Step(db, ReplayReplacement(db, i, prior))
      else if i.publicId in db.txs || HashTaken(db, i.publicId, prior.chainId, i.hash) then Refuse(db, Conflict)
      else
        match ReplacedRow(prior, i.publicId, i.nonce, i.hash, i.at)
        case Err(error) => Refuse(db, error)
        case Ok(replaced) =>
          var row := ReplacementRow(i, prior);
          var view := ViewOf(i.publicId, row);
          Step(db.(txs := db.txs[i.publicId := row.(response := TxResponse(view))][i.prior := replaced]),
               Ok(ReplacementReply(ViewOf(i.prior, replaced), view)))
  }

  // ----- writes of the reconcilers -----

  /** `markTransactionUnknown` */
  function MarkUnknownStep(db: Tables, tx: TxId, expected: Status, failureCode: string, at: Time): Step<TxView> {
    if !UnknownAccepted(expected, failureCode, at) then Refuse(db, InvalidInput)
    else if tx !in db.txs then Refuse(db, NotFound)
    else
      match UnknownRow(db.txs[tx], expected, failureCode, at)
      case Err(error) => Refuse(db, error)
      case Ok(row) => Step(db.(txs := db.txs[tx := row]), Ok(ViewOf(tx, row)))
  }

  /** `markTransactionReverted` */
  function MarkRevertedStep(db: Tables, tx: TxId, expected: Status, blockNumber: nat, at: Time): Step<TxView> {
    if !SettleAccepted(expected, at) then Refuse(db, InvalidInput)
    else if tx !in db.txs then Refuse(db, NotFound)
    else
      match RevertedRow(db.txs[tx], expected, blockNumber, at)
      case Err(error) => Refuse(db, error)
      case Ok(row) => Step(db.(txs := db.txs[tx := row]), Ok(ViewOf(tx, row)))
  }

  datatype Confirmation = Confirmation(
    tx: TxId,
    expected: Status,
    blockHash: Hash,
    blockNumber: nat,
    logIndex: nat,
    at: Time)

  /** `confirmTaskCreatedFromReconciliation`; the row's intent is not looked at. */
  function ConfirmCreationStep(db: Tables, c: Confirmation, chainTaskId: nat): Step<TxView> {
    if !SettleAccepted(c.expected, c.at) then Refuse(db, InvalidInput)
    else if c.tx !in db.txs || db.txs[c.tx].task !in db.tasks then Refuse(db, NotFound)
    else
      var row := db.txs[c.tx];
      var t := db.tasks[row.task];
      if row.status == Confirmed && t.chainTaskId == Some(chainTaskId) then Step(db, Ok(ViewOf(c.tx, row)))
      else
        match ConfirmedRow(row, c.expected, c.blockNumber, c.at)
        case Err(error) => Refuse(db, error)
        case Ok(confirmed) =>
          var k := EventKey(row.chainId, row.hash.value, c.logIndex);
          if k in db.events then Refuse(db, Conflict)
          else if c.logIndex > INTEGER_MAX || chainTaskId > BIGINT_MAX then Refuse(db, InvalidInput)
          else if ChainIdentityTaken(db, row.task, t, chainTaskId) then Refuse(db, Conflict)
          else
            Step(db.(txs := db.txs[c.tx := confirmed],
                     tasks := db.tasks[row.task := t.(chainTaskId := Some(chainTaskId), offchain := Open,
                                                      chain := ChainOpen, updatedAt := c.at)],
                     events := db.events[k :=
                       ContractEvent(t.contract, TaskCreated, chainTaskId, c.blockNumber, c.blockHash)]),
                 Ok(ViewOf(c.tx, confirmed)))
  }

  /** `confirmReceiptSubmittedFromReconciliation` */
  function ConfirmReceiptStep(db: Tables, c: Confirmation): Step<TxView> {
    if !SettleAccepted(c.expected, c.at) then Refuse(db, InvalidInput)
    else if c.tx !in db.txs || db.txs[c.tx].intent != SubmitReceipt || db.txs[c.tx].task !in db.tasks
       || c.tx !in db.attestations then Refuse(db, NotFound)
    else
      var row := db.txs[c.tx];
      var t := db.tasks[row.task];
      if row.status == Confirmed && t.chain == ChainReceiptSubmitted then Step(db, Ok(ViewOf(c.tx, row)))
      else
        match ConfirmedRow(row, c.expected, c.blockNumber, c.at)
        case Err(error) => Refuse(db, error)
        case Ok(confirmed) =>
          var k := EventKey(row.chainId, row.hash.value, c.logIndex);
          if k in db.events then Refuse(db, Conflict)
          else if c.logIndex > INTEGER_MAX then Refuse(db, InvalidInput)
          else
            Step(db.(txs := db.txs[c.tx := confirmed],
                     tasks := db.tasks[row.task := t.(offchain := ReceiptSubmitted, chain := ChainReceiptSubmitted,
                                                      updatedAt := c.at)],
                     events := db.events[k :=
                       ContractEvent(t.contract, ReceiptSubmittedEvent,
                                     if t.chainTaskId.Some? then t.chainTaskId.value else 0,
                                     c.blockNumber, c.blockHash)]),
                 Ok(ViewOf(c.tx, confirmed)))
  }

  // ----- evidence and projects -----

  datatype EvidenceInput = EvidenceInput(
    publicId: BundleId,
    bundle: Evidence.Bundle,
    evidenceHash: Hash,
    tokenProject: ProjectId,
    tokenRevoked: bool,
    at: Time)

  predicate EvidenceHashTaken(db: Tables, task: TaskId, evidenceHash: Hash) {
    exists b :: b in db.bundles && db.bundles[b].task == task && db.bundles[b].evidenceHash == evidenceHash
  }

  /** The submission route: schema, task binding, then `persistEvidence`. A replayed upload changes nothing. */
  function PersistEvidenceStep(db: Tables, i: EvidenceInput): Step<BundleId> {
    var b := i.bundle;
    if !Evidence.SchemaAccepts(b) then Refuse(db, InvalidInput)
    else if b.task !in db.tasks then Refuse(db, NotFound)
    else
      var t := db.tasks[b.task];
      if b.taskHash != t.taskHash || t.policy !in db.policies
         || b.policyHash != db.policies[t.policy].policy.policyHash then Refuse(db, Conflict)
      else if t.policyHash != db.policies[t.policy].policy.policyHash || db.policies[t.policy].project != t.project
              || i.tokenProject != t.project || i.tokenRevoked then Refuse(db, InvalidInput)
      else if !Evidence.PersistMatch(b.checks, db.policies[t.policy].policy) then Refuse(db, InvalidInput)
      else if !Evidence.AnyRequired(b.checks) then Refuse(db, InvalidInput)
      else if b.result.passing != Evidence.AllRequiredPassed(b.checks) then Refuse(db, InvalidInput)
      else if i.publicId in db.bundles || EvidenceHashTaken(db, b.task, i.evidenceHash) then Refuse(db, Conflict)
      else
        Step(db.(bundles := db.bundles[i.publicId :=
                   StoredBundle(b.task, b, i.evidenceHash, b.git.derivedCommitHash, b.result.passing, i.at)]),
             Ok(i.publicId))
  }

  datatype ProjectPatch = ProjectPatch(
    actor: UserId,
    project: ProjectId,
    repositoryUrl: Option<string>,
    active: Option<bool>,
    activePolicy: Option<PolicyId>)

  predicate ProjectHasTask(db: Tables, project: ProjectId) {
    exists id :: id in db.tasks && db.tasks[id].project == project
  }

  /** `updateProject` (URL and status) and `activatePolicy`; the repository URL is fixed by the first task. */
  function UpdateProjectStep(db: Tables, p: ProjectPatch): Step<ProjectId> {
    if !IsOwner(db, p.project, p.actor) then Refuse(db, NotFound)
    else
      var project := db.projects[p.project];
      if p.repositoryUrl.Some? && p.repositoryUrl.value != project.repositoryUrl && ProjectHasTask(db, p.project)
      then Refuse(db, RepositoryImmutable)
      else if p.activePolicy.Some?
              && (p.activePolicy.value !in db.policies || db.policies[p.activePolicy.value].project != p.project)
      then Refuse(db, NotFound)
      else if p.activePolicy.Some? && !project.active then Refuse(db, ProjectArchived)
      else
        Step(db.(projects := db.projects[p.project := project.(
                   repositoryUrl := if p.repositoryUrl.Some? then p.repositoryUrl.value else project.repositoryUrl,
                   active := if p.active.Some? then p.active.value else project.active,
                   activePolicy := if p.activePolicy.Some? then p.activePolicy else project.activePolicy)]),
             Ok(p.project))
  }

  datatype PolicyInput = PolicyInput(
    actor: UserId,
    project: ProjectId,
    publicId: PolicyId,
    policy: Evidence.Policy,
    activate: bool)

  predicate PolicyHashTaken(db: Tables, project: ProjectId, policyHash: Hash) {
    exists id :: id in db.policies && db.policies[id].project == project
                 && db.policies[id].policy.policyHash == policyHash
  }

  function Activated(db: Tables, i: PolicyInput): map<ProjectId, Project>
    requires i.project in db.projects
  {
    if i.activate then db.projects[i.project := db.projects[i.project].(activePolicy := Some(i.publicId))]
    else db.projects
  }

  /** `createPolicyVersion`: a hash stands for one immutable version, which storing it again may activate. */
  function CreatePolicyStep(db: Tables, i: PolicyInput): Step<PolicyId> {
    if !IsOwner(db, i.project, i.actor) then Refuse(db, NotFound)
    else if !db.projects[i.project].active then Refuse(db, ProjectArchived)
    else if PolicyHashTaken(db, i.project, i.policy.policyHash) then
      if i.publicId in db.policies && db.policies[i.publicId] == PolicyVersion(i.project, i.policy)
      then Step(db.(projects := Activated(db, i)), Ok(i.publicId))
      else Refuse(db, PolicyHashConflict)
    else if i.publicId in db.policies then Refuse(db, Conflict)
    else
      Step(db.(policies := db.policies[i.publicId := PolicyVersion(i.project, i.policy)],
               projects := Activated(db, i)),
           Ok(i.publicId))
  }
}
