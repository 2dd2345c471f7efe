/** The chain_transactions row, every public mutator of the task repository at row level, and the CHECK constraints. */
module ChainTransactions {
  import opened Prelude
  import opened Tasks
  import Decimals

  type TxId = nat
  type BundleId = nat

  /** An idempotency key, a token. */
  type Key = nat

  datatype Intent = CreateTask | SubmitReceipt | ApproveTask | RejectTask | CancelTask | Withdraw

  datatype Status =
    | Prepared
    | WalletRequested
    | Submitted
    | Confirmed
    | RejectedByUser
    | Replaced
    | Reverted
    | UnknownReconcile

  datatype Attestation = Attestation(
    task: TaskId,
    bundle: BundleId,
    evidenceHash: Hash,
    commitHash: Hash,
    expirySeconds: nat,
    verifier: Address,
    digest: Hash)

  datatype TxView = TxView(
    publicId: TxId,
    task: TaskId,
    intent: Intent,
    key: Key,
    chainId: ChainId,
    fromAddress: Address,
    toAddress: Address,
    hash: Option<Hash>,
    nonce: Option<nat>,
    status: Status,
    blockNumber: Option<nat>,
    failureCode: Option<string>,
    createdAt: Time,
    updatedAt: Time)

  /** The response snapshot a row or an idempotency record stores for replays. */
  datatype Response =
    | NoResponse
    | TaskResponse(task: TaskView)
    | TxResponse(tx: TxView)
    | IntentResponse(task: TaskView, tx: TxView)
    | ReceiptResponse(task: TaskView, tx: TxView, attestation: Attestation)

  datatype Tx = Tx(
    user: UserId,
    project: ProjectId,
    task: TaskId,
    intent: Intent,
    key: Key,
    requestHash: Hash,
    chainId: ChainId,
    fromAddress: Address,
    toAddress: Address,
    hash: Option<Hash>,
    nonce: Option<nat>,
    status: Status,
    blockNumber: Option<nat>,
    failureCode: Option<string>,
    replacedBy: Option<TxId>,
    response: Response,
    createdAt: Time,
    updatedAt: Time)

  const TRANSACTION_REPLACED := "TRANSACTION_REPLACED"
  const TRANSACTION_REVERTED := "TRANSACTION_REVERTED"
  const USER_REJECTED := "USER_REJECTED"

  predicate IsUpper(c: char) {
    'A' <= c <= 'Z'
  }

  /** `/^[A-Z][A-Z0-9_]{0,99}$/` */
  predicate ValidFailureCode(s: string) {
    && 1 <= |s| <= 100
    && IsUpper(s[0])
    && (forall i | 1 <= i < |s| :: IsUpper(s[i]) || Decimals.IsDigit(s[i]) || s[i] == '_')
  }

  /** Still able to end as confirmed. */
  predicate Live(s: Status) {
    s in {Prepared, WalletRequested, Submitted, UnknownReconcile}
  }

  predicate Terminal(s: Status) {
    s in {Confirmed, RejectedByUser, Replaced, Reverted}
  }

  /** The `transitions` table. */
  predicate Allowed(before: Status, after: Status) {
    match before
    case Prepared => after in {WalletRequested, RejectedByUser}
    case WalletRequested => after in {Submitted, RejectedByUser, UnknownReconcile}
    case Submitted => after in {Replaced, Reverted, UnknownReconcile}
    case UnknownReconcile => after in {Submitted, Replaced, Reverted}
    case _ => false
  }

  /** The moves of the `transitions` table: nothing leaves a terminal status, and none of them confirms. */
  lemma AllowedExactly(before: Status, after: Status)
    ensures Allowed(before, after) <==>
            || (before == Prepared && (after == WalletRequested || after == RejectedByUser))
            || (before == WalletRequested
                && (after == Submitted || after == RejectedByUser || after == UnknownReconcile))
            || (before == Submitted && (after == Replaced || after == Reverted || after == UnknownReconcile))
            || (before == UnknownReconcile && (after == Submitted || after == Replaced || after == Reverted))
    ensures Allowed(before, after) ==> Live(before) && !Terminal(before) && after != Confirmed && after != Prepared
    ensures Live(before) <==> !Terminal(before)
    ensures Live(before) <==> exists next :: Allowed(before, next)
  {
    assert Allowed(Prepared, WalletRequested) && Allowed(WalletRequested, Submitted) && Allowed(Submitted, Reverted)
           && Allowed(UnknownReconcile, Reverted);
  }

  // ----- the constraints of the table -----

  /** The three state CHECK constraints of `chain_transactions`. */
  predicate SchemaChecks(r: Tx) {
    && (r.status == Confirmed ==> r.hash.Some? && r.blockNumber.Some?)
    && (r.status in {Submitted, Confirmed, Replaced, Reverted} ==> r.hash.Some? && r.nonce.Some?)
    && (r.status == Replaced <==> r.replacedBy.Some?)
  }

  /** The columns each status has to have: the constraints, status by status. */
  ghost predicate HasColumns(r: Tx) {
    match r.status
    case Prepared => r.replacedBy.None?
    case WalletRequested => r.replacedBy.None?
    case RejectedByUser => r.replacedBy.None?
    case UnknownReconcile => r.replacedBy.None?
    case Submitted => r.hash.Some? && r.nonce.Some? && r.replacedBy.None?
    case Reverted => r.hash.Some? && r.nonce.Some? && r.replacedBy.None?
    case Confirmed => r.hash.Some? && r.nonce.Some? && r.blockNumber.Some? && r.replacedBy.None?
    case Replaced => r.hash.Some? && r.nonce.Some? && r.replacedBy.Some?
  }

  lemma ChecksExactly(r: Tx)
    ensures SchemaChecks(r) <==> HasColumns(r)
  {
  }

  /** What the code itself maintains, and what makes the CHECK constraints hold. */
  predicate RowInvariant(r: Tx) {
    && (r.hash.Some? <==> r.nonce.Some?)
    && (r.status in {Submitted, Confirmed, Replaced, Reverted} ==> r.hash.Some?)
    && (r.status in {Prepared, WalletRequested, RejectedByUser} ==> r.hash.None?)
    && (r.status == Confirmed ==> r.blockNumber.Some?)
    && (r.blockNumber.Some? ==> r.status in {Confirmed, Reverted})
    && (r.failureCode.None? <==> r.status in {Prepared, WalletRequested, Submitted, Confirmed})
    && (r.status == Replaced <==> r.replacedBy.Some?)
    && (r.nonce.Some? ==> r.nonce.value <= MAX_SAFE_INTEGER)
  }

  // ----- row-level mutators -----

  /** `ChainTransitionInput`; `None` is an absent field. */
  datatype Transition = Transition(
    expected: Status,
    status: Status,
    at: Time,
    hash: Option<Hash>,
    nonce: Option<int>,
    blockNumber: Option<nat>,
    failureCode: Option<string>,
    replacement: Option<TxId>)

  /** `assertTransition` */
  predicate TransitionAccepted(t: Transition) {
    && Allowed(t.expected, t.status)
    && ValidDate(t.at)
    && (if t.status == Submitted
        then t.hash.Some? && t.hash.value != 0 && t.nonce.Some? && 0 <= t.nonce.value <= MAX_SAFE_INTEGER
        else t.hash.None? && t.nonce.None?)
    && (t.blockNumber.Some? ==> t.status == Reverted)
    && (t.status == Replaced <==> t.replacement.Some?)
    && (if t.status in {RejectedByUser, Reverted, UnknownReconcile}
        then t.failureCode.Some? && ValidFailureCode(t.failureCode.value)
        else t.failureCode.None?)
  }

  /** `transitionPatch` applied to the row. */
  function Patched(r: Tx, t: Transition): Tx
    requires TransitionAccepted(t)
  {
    r.(status := t.status,
       updatedAt := t.at,
       hash := if t.status == Submitted then t.hash else r.hash,
       nonce := if t.status == Submitted then Some(t.nonce.value as nat) else r.nonce,
       blockNumber :=
         if t.status == Submitted && r.status == UnknownReconcile then None
         else if t.blockNumber.Some? then t.blockNumber
         else r.blockNumber,
       failureCode := t.failureCode,
       replacedBy := t.replacement)
  }

  /** The body of `transitionChainTransaction` on the row it locked. */
  function TransitionRow(r: Tx, t: Transition): Result<Tx, Error> {
    if !TransitionAccepted(t) then Err(InvalidInput)
    else if r.status != t.expected then Err(Conflict)
    else Ok(Patched(r, t))
  }

  /** `reconcileTransaction` */
  function ReconcileRow(
    r: Tx, expected: Status, status: Status, failureCode: string, blockNumber: Option<nat>, at: Time
  ): Result<Tx, Error> {
    var allowed := || (status == UnknownReconcile && expected in {WalletRequested, Submitted})
                   || (status == Reverted && expected in {Submitted, UnknownReconcile});
    if !ValidFailureCode(failureCode) || !ValidDate(at) || !allowed || (blockNumber.Some? && status != Reverted)
    then Err(InvalidInput)
    else if r.status == status then
      if r.failureCode != Some(failureCode) || (blockNumber.Some? && r.blockNumber != blockNumber) then Err(Conflict)
      else Ok(r)
    else if r.status != expected then Err(Conflict)
    else if status == Reverted && r.hash.None? then Err(InvalidInput)
    else Ok(r.(status := status, failureCode := Some(failureCode), updatedAt := at,
               blockNumber := if blockNumber.Some? then blockNumber else r.blockNumber))
  }

  predicate UnknownAccepted(expected: Status, failureCode: string, at: Time) {
    ValidFailureCode(failureCode) && ValidDate(at) && expected in {WalletRequested, Submitted, UnknownReconcile}
  }

  /** What both other writes of a reconciler ask of their input. */
  predicate SettleAccepted(expected: Status, at: Time) {
    ValidDate(at) && expected in {Submitted, UnknownReconcile}
  }

  /** `markTransactionUnknown` */
  function UnknownRow(r: Tx, expected: Status, failureCode: string, at: Time): Result<Tx, Error> {
    if !UnknownAccepted(expected, failureCode, at) then Err(InvalidInput)
    else if r.status == UnknownReconcile && r.failureCode == Some(failureCode) then Ok(r)
    else if r.status != expected then Err(Conflict)
    else Ok(r.(status := UnknownReconcile, failureCode := Some(failureCode), updatedAt := at))
  }

  /** `markTransactionReverted` */
  function RevertedRow(r: Tx, expected: Status, blockNumber: nat, at: Time): Result<Tx, Error> {
    if !SettleAccepted(expected, at) then Err(InvalidInput)
    else if r.status == Reverted && r.blockNumber == Some(blockNumber) then Ok(r)
    else if r.status != expected then Err(Conflict)
    else if r.hash.None? || blockNumber > BIGINT_MAX then Err(InvalidInput)
    else Ok(r.(status := Reverted, blockNumber := Some(blockNumber),
               failureCode := Some(TRANSACTION_REVERTED), updatedAt := at))
  }

  /** The row part of both `confirm...FromReconciliation` methods, past their replay test. */
  function ConfirmedRow(r: Tx, expected: Status, blockNumber: nat, at: Time): Result<Tx, Error> {
    if !SettleAccepted(expected, at) then Err(InvalidInput)
    else if r.status != expected then Err(Conflict)
    else if r.hash.None? || blockNumber > BIGINT_MAX then Err(InvalidInput)
    else Ok(r.(status := Confirmed, blockNumber := Some(blockNumber), failureCode := None, updatedAt := at))
  }

  /** The row part of `confirmTaskCreatedEvent`, whose event must carry the row's own hash. */
  function EventConfirmedRow(r: Tx, eventHash: Hash, blockNumber: nat, at: Time): Result<Tx, Error> {
    if r.hash != Some(eventHash) then Err(Conflict)
    else if r.status == Confirmed then Ok(r)
    else if r.status !in {Submitted, UnknownReconcile} then Err(Conflict)
    else Ok(r.(status := Confirmed, blockNumber := Some(blockNumber), failureCode := None, updatedAt := at))
  }

  /** The update `recordReplacement` makes to the prior row. */
  function ReplacedRow(prior: Tx, replacement: TxId, nonce: nat, hash: Hash, at: Time): Result<Tx, Error> {
    if prior.status !in {Submitted, UnknownReconcile} || prior.nonce != Some(nonce) || prior.hash == Some(hash)
    then Err(InvalidInput)
    else Ok(prior.(status := Replaced, replacedBy := Some(replacement),
                   failureCode := Some(TRANSACTION_REPLACED), updatedAt := at))
  }

  /** The targets `markWalletRequested`, `recordWalletOutcome` and `registerSubmittedTransaction` pass on. */
  predicate PublicTransition(t: Transition) {
    t.status in {WalletRequested, Submitted, RejectedByUser}
  }

  /** One call of a public mutator that reaches a row. */
  datatype Mutation =
    | Transit(transition: Transition)
    | Reconcile(expected: Status, status: Status, failureCode: string, blockNumber: Option<nat>, at: Time)
    | MarkUnknown(expected: Status, failureCode: string, at: Time)
    | MarkReverted(expected: Status, minedIn: nat, at: Time)
    | Confirm(expected: Status, minedIn: nat, at: Time)
    | ConfirmEvent(eventHash: Hash, minedIn: nat, at: Time)
    | Replace(replacement: TxId, nonce: nat, hash: Hash, at: Time)

  function Mutate(r: Tx, m: Mutation): Result<Tx, Error> {
    match m
    case Transit(t) => if PublicTransition(t) then TransitionRow(r, t) else Err(InvalidInput)
    case Reconcile(e, s, f, b, at) => ReconcileRow(r, e, s, f, b, at)
    case MarkUnknown(e, f, at) => UnknownRow(r, e, f, at)
    case MarkReverted(e, b, at) => RevertedRow(r, e, b, at)
    case Confirm(e, b, at) => ConfirmedRow(r, e, b, at)
    case ConfirmEvent(h, b, at) => EventConfirmedRow(r, h, b, at)
    case Replace(x, n, h, at) => ReplacedRow(r, x, n, h, at)
  }

  /** A rejected call rolls its database transaction back. */
  function MutateAll(r: Tx, ms: seq<Mutation>): Tx
    decreases |ms|
  {
    if ms == [] then r
    else
      var rest := ms[1..];
      match Mutate(r, ms[0])
      case Ok(next) => MutateAll(next, rest)
      case Err(_) => MutateAll(r, rest)
  }

  // ----- what each mutator does -----

  /** A transition as `assertTransition` takes it, target by target. */
  ghost predicate IsTransition(t: Transition) {
    && -8_640_000_000_000_000 <= t.at <= 8_640_000_000_000_000
    && match t.status
       case WalletRequested => t.expected == Prepared && Bare(t) && t.failureCode.None? && t.replacement.None?
       case RejectedByUser =>
         (t.expected == Prepared || t.expected == WalletRequested) && Bare(t) && Coded(t) && t.replacement.None?
       case Submitted =>
         && (t.expected == WalletRequested || t.expected == UnknownReconcile)
         && t.hash.Some? && t.hash.value != 0 && t.nonce.Some? && 0 <= t.nonce.value <= 9_007_199_254_740_991
         && t.blockNumber.None? && t.failureCode.None? && t.replacement.None?
       case UnknownReconcile =>
         (t.expected == WalletRequested || t.expected == Submitted) && Bare(t) && Coded(t) && t.replacement.None?
       case Reverted =>
         && (t.expected == Submitted || t.expected == UnknownReconcile)
         && t.hash.None? && t.nonce.None? && Coded(t) && t.replacement.None?
       case Replaced =>
         (t.expected == Submitted || t.expected == UnknownReconcile) && Bare(t) && t.failureCode.None?
         && t.replacement.Some?
       case _ => false
  }

  ghost predicate Bare(t: Transition) {
    t.hash.None? && t.nonce.None? && t.blockNumber.None?
  }

  ghost predicate Coded(t: Transition) {
    t.failureCode.Some? && ValidFailureCode(t.failureCode.value)
  }

  /**
   * A transition goes through exactly in the status it expects, and then writes the target's columns: a hash and a
   * nonce when sent, a block when reverted in one, a code for what failed, a pointer when replaced.
   */
  lemma TransitionExactly(r: Tx, t: Transition)
    ensures TransitionRow(r, t).Ok? <==> IsTransition(t) && r.status == t.expected
    ensures !IsTransition(t) ==> TransitionRow(r, t) == Err(InvalidInput)
    ensures IsTransition(t) && r.status == t.expected ==>
              var after := TransitionRow(r, t).value;
              && after == r.(status := t.status, updatedAt := t.at, hash := after.hash, nonce := after.nonce,
                             blockNumber := after.blockNumber, failureCode := t.failureCode,
                             replacedBy := t.replacement)
              && (if t.status == Submitted then after.hash == t.hash && Some(t.nonce.value as nat) == after.nonce
                  else after.hash == r.hash && after.nonce == r.nonce)
              && after.blockNumber == (if t.blockNumber.Some? then t.blockNumber
                                       else if t.status == Submitted && r.status == UnknownReconcile then None
                                       else r.blockNumber)
  {
    hide ValidFailureCode;
  }

  /** What `reconcileTransaction` takes, and what it then writes. */
  lemma ReconcileExactly(r: Tx, expected: Status, status: Status, code: string, block: Option<nat>, at: Time)
    ensures var result := ReconcileRow(r, expected, status, code, block, at);
            && (result.Ok? <==>
                && ValidFailureCode(code) && -8_640_000_000_000_000 <= at <= 8_640_000_000_000_000
                && ((status == UnknownReconcile && block.None?
                     && (expected == WalletRequested || expected == Submitted))
                    || (status == Reverted && (expected == Submitted || expected == UnknownReconcile)))
                && (if r.status == status
                    then r.failureCode == Some(code) && (block.Some? ==> r.blockNumber == block)
                    else r.status == expected && (status == Reverted ==> r.hash.Some?)))
            && (result.Ok? ==>
                  result.value == if r.status == status then r
                                  else r.(status := status, failureCode := Some(code), updatedAt := at,
                                          blockNumber := if block.Some? then block else r.blockNumber))
  {
    hide ValidFailureCode;
  }

  /** What `confirmTaskCreatedEvent` takes, and what it then writes. */
  lemma EventConfirmExactly(r: Tx, eventHash: Hash, block: nat, at: Time)
    ensures var result := EventConfirmedRow(r, eventHash, block, at);
            && (result.Ok? <==>
                && r.hash == Some(eventHash)
                && (r.status == Submitted || r.status == UnknownReconcile || r.status == Confirmed))
            && (result.Ok? ==>
                  result.value == if r.status == Confirmed then r
                                  else r.(status := Confirmed, blockNumber := Some(block), failureCode := None,
                                          updatedAt := at))
  {
  }

  lemma MutationKeepsRowInvariant(r: Tx, m: Mutation)
    requires RowInvariant(r) && Mutate(r, m).Ok?
    ensures RowInvariant(Mutate(r, m).value)
    ensures Terminal(r.status) ==> Mutate(r, m).value == r
  {
  }

  /**
   * Over any sequence of public mutators, wired or not, the three CHECK constraints hold without the
   * database having to enforce them, and a terminal row is never changed again.
   */
  lemma {:induction false} MutatorsImplySchemaChecks(r: Tx, ms: seq<Mutation>)
    requires RowInvariant(r)
    ensures HasColumns(MutateAll(r, ms)) && RowInvariant(MutateAll(r, ms))
    ensures Terminal(r.status) ==> MutateAll(r, ms) == r
    decreases |ms|
  {
    if ms != [] {
      match Mutate(r, ms[0])
      case Ok(next) =>
        MutationKeepsRowInvariant(r, ms[0]);
        MutatorsImplySchemaChecks(next, ms[1..]);
      case Err(_) =>
        MutatorsImplySchemaChecks(r, ms[1..]);
    }
  }

  // ----- views and their replay -----

  /** `chainView` */
  function ViewOf(id: TxId, r: Tx): TxView {
    TxView(id, r.task, r.intent, r.key, r.chainId, r.fromAddress, r.toAddress, r.hash, r.nonce, r.status,
           r.blockNumber, r.failureCode, r.createdAt, r.updatedAt)
  }

  /** A nonce as JSON: the snapshot stores text, the replay turns it into a number before validating. */
  datatype JsonNonce = NullNonce | TextNonce(digits: string) | NumberNonce(number: nat) | NotANumber

  function SnapshotNonce(nonce: Option<nat>): JsonNonce {
    match nonce
    case None => NullNonce
    case Some(n) => TextNonce(Decimals.Text(n))
  }

  function ReparsedNonce(nonce: JsonNonce): JsonNonce {
    match nonce
    case NullNonce => NullNonce
    case TextNonce(digits) => if Decimals.IsDecimal(digits) then NumberNonce(Decimals.Value(digits)) else NotANumber
    case NumberNonce(_) => NotANumber
    case NotANumber => NotANumber
  }

  /** `DecimalWeiSchema.nullable()` takes null or canonical decimal text. */
  predicate SchemaTakesNonce(nonce: JsonNonce) {
    nonce.NullNonce? || (nonce.TextNonce? && Decimals.IsDecimal(nonce.digits))
  }

  /** `parseChainSnapshot(chainSnapshot(view))` */
  function ReparseTx(view: TxView): Result<TxView, Error> {
    if && SchemaTakesNonce(ReparsedNonce(SnapshotNonce(view.nonce)))
       && SupportedChain(view.chainId)
       && view.fromAddress != 0
       && view.toAddress != 0
       && (view.failureCode.Some? ==> |view.failureCode.value| <= 128)
       && IsoReadable(view.createdAt)
       && IsoReadable(view.updatedAt)
    then Ok(view)
    else Err(Conflict)
  }

  /**
   * A snapshot replays exactly when it carries no nonce, because the number a nonce comes back as fails the text
   * schema, and its chain, wallets, code and dates are within the written limits; it then comes back unchanged.
   */
  lemma ReparseExactly(view: TxView)
    ensures ReparseTx(view) ==
            if && view.nonce.None?
               && (view.chainId == 143 || view.chainId == 10_143) && view.fromAddress != 0 && view.toAddress != 0
               && (view.failureCode.Some? ==> |view.failureCode.value| <= 128)
               && -62_167_219_200_000 <= view.createdAt <= 253_402_300_799_999
               && -62_167_219_200_000 <= view.updatedAt <= 253_402_300_799_999
            then Ok(view) else Err(Conflict)
  {
  }

  /** A snapshot that carries a nonce can never be replayed: the number fails the text schema. */
  lemma NonceNeverReparses(view: TxView)
    ensures view.nonce.Some? ==> ReparseTx(view) == Err(Conflict)
  {
  }
}
