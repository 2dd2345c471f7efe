/** What callers are told and what is then stored, column by column. */
module Replies {
  import opened Prelude
  import opened Tasks
  import opened ChainTransactions
  import opened Store
  import opened Invariants
  import opened System

  /** The view agrees with the stored row in every column it has. */
  ghost predicate Shows(view: TxView, x: TxId, db: Tables) {
    && x in db.txs && view.publicId == x
    && view.task == db.txs[x].task && view.intent == db.txs[x].intent && view.key == db.txs[x].key
    && view.chainId == db.txs[x].chainId
    && view.fromAddress == db.txs[x].fromAddress && view.toAddress == db.txs[x].toAddress
    && view.hash == db.txs[x].hash && view.nonce == db.txs[x].nonce
    && view.status == db.txs[x].status
    && view.blockNumber == db.txs[x].blockNumber && view.failureCode == db.txs[x].failureCode
    && view.createdAt == db.txs[x].createdAt && view.updatedAt == db.txs[x].updatedAt
  }

  /** The view shows the task as it was before the call, under its project's URL. */
  ghost predicate ShowsTask(view: TaskView, t: TaskId, db: Tables) {
    && t in db.tasks && view.publicId == t && view.columns == db.tasks[t]
    && db.tasks[t].project in db.projects && view.repositoryUrl == db.projects[db.tasks[t].project].repositoryUrl
  }

  // ----- first creations and intents -----

  /** The reply to a first posting is the task then stored, which is also what replays will find. */
  lemma PostingReplies(db: Tables, i: CreateTaskInput)
    requires CreateTaskStep(db, i).tables != db
    ensures var after, result := CreateTaskStep(db, i).tables, CreateTaskStep(db, i).result;
            var k := ApiKey(i.actor, OpTaskCreate, i.key);
            && result.Ok? && ShowsTask(result.value, i.publicId, after)
            && result.value.columns.updatedAt == i.at
            && k in after.reservations
            && after.reservations[k] == Reservation(i.requestHash, i.publicId, TaskResponse(result.value))
  {
    hide ReadTask, AcceptsCanonical, TaskHashTaken;
  }

  /** The row of a first intent: for the wallet, sent to the task's contract, and nothing known of it on chain yet. */
  ghost predicate FirstRow(r: Tx, i: IntentInput, t: Task, intent: Intent, wallet: Address) {
    && r.user == i.actor && r.project == t.project && r.task == i.task && r.intent == intent
    && r.key == i.key && r.requestHash == i.requestHash
    && r.chainId == t.chainId && r.fromAddress == wallet && r.toAddress == t.contract
    && r.status == WalletRequested && r.hash.None? && r.nonce.None? && r.blockNumber.None?
    && r.failureCode.None? && r.replacedBy.None?
    && r.createdAt == i.at && r.updatedAt == i.at
  }

  /** The reply to a first creation intent shows the task as it was and the row as stored, and so does its snapshot. */
  lemma IntentReplies(db: Tables, i: IntentInput)
    requires CreateIntentStep(db, i).tables != db
    ensures var after, result := CreateIntentStep(db, i).tables, CreateIntentStep(db, i).result;
            && result.Ok? && !result.value.replayed
            && ShowsTask(result.value.task, i.task, db) && Shows(result.value.tx, i.publicId, after)
            && FirstRow(after.txs[i.publicId], i, db.tasks[i.task], CreateTask, db.tasks[i.task].creator)
            && after.txs[i.publicId].response == IntentResponse(result.value.task, result.value.tx)
            && i.task in after.tasks && after.tasks[i.task].offchain == AwaitingChain
            && after.tasks[i.task].updatedAt == i.at
  {
    hide Consistent, KeyTaken;
  }

  /** So does the reply to a first receipt intent, whose row is the assignee's. */
  lemma ReceiptReplies(db: Tables, i: ReceiptInput)
    requires CreateReceiptStep(db, i).tables != db
    ensures var after, result := CreateReceiptStep(db, i).tables, CreateReceiptStep(db, i).result;
            var id := i.intent.publicId;
            && result.Ok? && !result.value.replayed
            && ShowsTask(result.value.task, i.intent.task, db) && Shows(result.value.tx, id, after)
            && FirstRow(after.txs[id], i.intent, db.tasks[i.intent.task], SubmitReceipt,
                        db.tasks[i.intent.task].assignee)
            && id in after.attestations
            && after.txs[id].response == ReceiptResponse(result.value.task, result.value.tx, after.attestations[id])
            && after.attestations[id]
               == Attestation(i.intent.task, i.bundle, i.evidenceHash, i.commitHash, i.expirySeconds, i.verifier,
                              i.digest)
            && after.tasks == db.tasks
  {
    hide Consistent, KeyTaken, OtherReceiptPending, BundleBound, NewerPassing;
  }

  // ----- outcomes and replacements -----

  /** Row `x` before and after, but for what the report says of the wallet. */
  ghost predicate Reported(before: Tx, after: Tx, i: OutcomeInput) {
    && after == before.(status := after.status, hash := after.hash, nonce := after.nonce,
                        failureCode := after.failureCode, updatedAt := after.updatedAt)
    && after.status == i.status && after.updatedAt == i.at
    && (i.status == Submitted ==>
          after.hash == i.hash && after.nonce.Some? && Some(after.nonce.value as int) == i.nonce
          && after.failureCode.None?)
    && (i.status == RejectedByUser ==>
          after.hash.None? && after.nonce.None? && after.failureCode.Some?
          && after.failureCode.value == if i.failureCode.Some? then i.failureCode.value else "USER_REJECTED")
  }

  /** A first outcome stores what the wallet reported, answers with it, and keeps it for replays. */
  lemma OutcomeReplies(db: Tables, i: OutcomeInput)
    requires Structure(db) && OutcomeStep(db, i).tables != db
    ensures var after := OutcomeStep(db, i).tables;
            && i.tx in db.txs && i.tx in after.txs && Reported(db.txs[i.tx], after.txs[i.tx], i)
            && (exists k :: k in after.reservations && k !in db.reservations
                            && k.user == i.actor && k.key == i.key
                            && k.operation == (if i.status == Submitted then OpSubmitted else OpRejected)
                            && after.reservations[k].requestHash == i.requestHash
                            && after.reservations[k].resource == i.tx
                            && after.reservations[k].response.TxResponse?
                            && Shows(after.reservations[k].response.tx, i.tx, after))
    ensures var after, result := OutcomeStep(db, i).tables, OutcomeStep(db, i).result;
            if i.task == db.txs[i.tx].task then result.Ok? && Shows(result.value, i.tx, after)
            else result == Err(NotFound)
  {
    hide Structure, ReplayTx, HashTaken, RowSound, ValidFailureCode;
    OutcomeTables(db, i);
    if i.tx in db.txs {
      StructureRow(db, i.tx);
      RequestedRow(db, i.tx);
    }
    assert OutcomeKey(i) in OutcomeStep(db, i).tables.reservations;
  }

  lemma RequestedRow(db: Tables, x: TxId)
    requires x in db.txs && RowSound(db, x)
    ensures db.txs[x].status != Prepared
    ensures db.txs[x].status == WalletRequested ==>
              db.txs[x].hash.None? && db.txs[x].nonce.None? && db.txs[x].replacedBy.None? && db.txs[x].blockNumber.None?
  {
  }

  /** The new row of a replacement: all of the prior one's scope, sent under the new hash. */
  ghost predicate ReplacesRow(prior: Tx, r: Tx, i: ReplacementInput) {
    && r.user == prior.user && r.project == prior.project && r.task == prior.task && r.intent == prior.intent
    && r.chainId == prior.chainId && r.fromAddress == prior.fromAddress && r.toAddress == prior.toAddress
    && r.key == i.key && r.requestHash == i.requestHash
    && r.status == Submitted && r.hash == Some(i.hash) && r.nonce == prior.nonce
    && r.blockNumber.None? && r.failureCode.None? && r.replacedBy.None?
    && r.createdAt == i.at && r.updatedAt == i.at
  }

  /** A first replacement answers with both rows as stored, and keeps the new one for replays. */
  lemma ReplacementReplies(db: Tables, i: ReplacementInput)
    requires ReplacementStep(db, i).tables != db
    ensures var after, result := ReplacementStep(db, i).tables, ReplacementStep(db, i).result;
            && result.Ok? && Shows(result.value.replaced, i.prior, after)
            && Shows(result.value.replacement, i.publicId, after)
            && i.prior in db.txs && ReplacesRow(db.txs[i.prior], after.txs[i.publicId], i)
            && after.txs[i.publicId].response == TxResponse(result.value.replacement)
            && after.txs[i.prior] == db.txs[i.prior].(status := Replaced, replacedBy := Some(i.publicId),
                                                      failureCode := Some("TRANSACTION_REPLACED"), updatedAt := i.at)
  {
    hide ReplayReplacement, HashTaken, KeyTaken;
    if i.publicId == i.prior {
      ReplacementShape(db, i);
    }
  }

  // ----- the reconcilers' writes -----

  /** A mark goes through exactly on a row in the status it expects, or that already carries it, and shows the row. */
  lemma UnknownReplies(db: Tables, x: TxId, expected: Status, code: string, at: Time)
    ensures var after, result := MarkUnknownStep(db, x, expected, code, at).tables,
                                 MarkUnknownStep(db, x, expected, code, at).result;
            && (result.Ok? <==>
                && ValidFailureCode(code) && -8_640_000_000_000_000 <= at <= 8_640_000_000_000_000
                && (expected == WalletRequested || expected == Submitted || expected == UnknownReconcile)
                && x in db.txs && (db.txs[x].status == expected
                                   || (db.txs[x].status == UnknownReconcile && db.txs[x].failureCode == Some(code))))
            && (result.Ok? ==>
                  && Shows(result.value, x, after)
                  && after.txs == db.txs[x := after.txs[x]]
                  && after.txs[x] == if db.txs[x].status == UnknownReconcile && db.txs[x].failureCode == Some(code)
                                     then db.txs[x]
                                     else db.txs[x].(status := UnknownReconcile, failureCode := Some(code),
                                                     updatedAt := at))
  {
    hide ValidFailureCode;
    assert x in db.txs ==> db.txs == db.txs[x := db.txs[x]];
  }

  lemma RevertedReplies(db: Tables, x: TxId, expected: Status, block: nat, at: Time)
    requires Structure(db) && expected in {Submitted, UnknownReconcile} && ValidDate(at)
    ensures var after, result := MarkRevertedStep(db, x, expected, block, at).tables,
                                 MarkRevertedStep(db, x, expected, block, at).result;
            && (result.Ok? <==>
                && x in db.txs
                && ((db.txs[x].status == expected && block <= 0x7FFF_FFFF_FFFF_FFFF)
                    || (db.txs[x].status == Reverted && db.txs[x].blockNumber == Some(block))))
            && (result.Ok? ==>
                  && Shows(result.value, x, after)
                  && after.txs == db.txs[x := after.txs[x]]
                  && after.txs[x] == if db.txs[x].status == Reverted then db.txs[x]
                                     else db.txs[x].(status := Reverted, blockNumber := Some(block),
                                                     failureCode := Some("TRANSACTION_REVERTED"), updatedAt := at))
  {
    hide Structure, RowSound;
    if x in db.txs {
      StructureRow(db, x);
      PendingHash(db, x);
      assert db.txs == db.txs[x := db.txs[x]];
    }
  }

  lemma PendingHash(db: Tables, x: TxId)
    requires x in db.txs && RowSound(db, x)
    ensures db.txs[x].status in {Submitted, UnknownReconcile} ==> db.txs[x].hash.Some?
  {
  }

  /** What a confirmation writes to its row. */
  ghost predicate ConfirmsRow(before: Tx, after: Tx, c: Confirmation) {
    && before.status == c.expected
    && after == before.(status := Confirmed, blockNumber := Some(c.blockNumber), failureCode := None, updatedAt := c.at)
  }

  lemma ViewShows(db: Tables, x: TxId)
    requires x in db.txs
    ensures Shows(ViewOf(x, db.txs[x]), x, db)
  {
  }

  lemma CreationShows(db: Tables, c: Confirmation, chainTaskId: nat)
    ensures var step := ConfirmCreationStep(db, c, chainTaskId);
            step.result.Ok? ==> Shows(step.result.value, c.tx, step.tables)
  {
    hide ChainIdentityTaken, ConfirmedRow, SettleAccepted, ViewOf, Shows;
    if ConfirmCreationStep(db, c, chainTaskId).result.Ok? {
      ViewShows(ConfirmCreationStep(db, c, chainTaskId).tables, c.tx);
    }
  }

  lemma SubmissionShows(db: Tables, c: Confirmation)
    ensures var step := ConfirmReceiptStep(db, c); step.result.Ok? ==> Shows(step.result.value, c.tx, step.tables)
  {
    hide ConfirmedRow, SettleAccepted, ViewOf, Shows;
    if ConfirmReceiptStep(db, c).result.Ok? {
      ViewShows(ConfirmReceiptStep(db, c).tables, c.tx);
    }
  }

  /** A confirmation that answers at all answers with the row as it is then stored. */
  lemma ConfirmationsShow(db: Tables, c: Confirmation, chainTaskId: nat)
    ensures var step := ConfirmCreationStep(db, c, chainTaskId);
            step.result.Ok? ==> Shows(step.result.value, c.tx, step.tables)
    ensures var step := ConfirmReceiptStep(db, c); step.result.Ok? ==> Shows(step.result.value, c.tx, step.tables)
  {
    hide *;
    CreationShows(db, c, chainTaskId);
    SubmissionShows(db, c);
  }

  lemma ConfirmedColumns(r: Tx, c: Confirmation)
    requires ConfirmedRow(r, c.expected, c.blockNumber, c.at).Ok?
    ensures ConfirmsRow(r, ConfirmedRow(r, c.expected, c.blockNumber, c.at).value, c) && r.hash.Some?
  {
  }

  /** A creation confirmation that changes anything opens the task under the chain id, and indexes the event. */
  lemma CreationReplies(db: Tables, c: Confirmation, chainTaskId: nat)
    requires ConfirmCreationStep(db, c, chainTaskId).tables != db
    ensures ConfirmCreationStep(db, c, chainTaskId).result.Ok?
    ensures c.tx in db.txs && db.txs[c.tx].hash.Some? && db.txs[c.tx].task in db.tasks
    ensures var after := ConfirmCreationStep(db, c, chainTaskId).tables;
            var r, t := db.txs[c.tx], db.tasks[db.txs[c.tx].task];
            && c.tx in after.txs && ConfirmsRow(r, after.txs[c.tx], c)
            && after == db.(
                 txs := db.txs[c.tx := after.txs[c.tx]],
                 tasks := db.tasks[r.task := t.(chainTaskId := Some(chainTaskId), offchain := Open,
                                                chain := ChainOpen, updatedAt := c.at)],
                 events := db.events[EventKey(r.chainId, r.hash.value, c.logIndex) :=
                   ContractEvent(t.contract, TaskCreated, chainTaskId, c.blockNumber, c.blockHash)])
  {
    hide ChainIdentityTaken, ConfirmedRow, ConfirmsRow, SettleAccepted, ViewOf;
    if c.tx in db.txs && ConfirmedRow(db.txs[c.tx], c.expected, c.blockNumber, c.at).Ok? {
      ConfirmedColumns(db.txs[c.tx], c);
    }
  }

  /** A receipt confirmation that changes anything submits the task's receipt, and indexes the event. */
  lemma SubmissionReplies(db: Tables, c: Confirmation)
    requires ConfirmReceiptStep(db, c).tables != db
    ensures ConfirmReceiptStep(db, c).result.Ok?
    ensures c.tx in db.txs && db.txs[c.tx].hash.Some? && db.txs[c.tx].task in db.tasks
    ensures var after := ConfirmReceiptStep(db, c).tables;
            var r, t := db.txs[c.tx], db.tasks[db.txs[c.tx].task];
            && c.tx in after.txs && ConfirmsRow(r, after.txs[c.tx], c)
            && after == db.(
                 txs := db.txs[c.tx := after.txs[c.tx]],
                 tasks := db.tasks[r.task := t.(offchain := ReceiptSubmitted, chain := ChainReceiptSubmitted,
                                                updatedAt := c.at)],
                 events := db.events[EventKey(r.chainId, r.hash.value, c.logIndex) :=
                   ContractEvent(t.contract, ReceiptSubmittedEvent,
                                 if t.chainTaskId.Some? then t.chainTaskId.value else 0,
                                 c.blockNumber, c.blockHash)])
  {
    hide ConfirmedRow, ConfirmsRow, SettleAccepted, ViewOf;
    if c.tx in db.txs && ConfirmedRow(db.txs[c.tx], c.expected, c.blockNumber, c.at).Ok? {
      ConfirmedColumns(db.txs[c.tx], c);
    }
  }

  /**
   * What a creation confirmation answers: the row again if it is confirmed under this very id, and otherwise success
   * exactly when the row is in the status expected, the numbers fit the columns and the id is free.
   */
  lemma CreationAnswers(db: Tables, c: Confirmation, chainTaskId: nat)
    requires Structure(db) && ValidDate(c.at) && c.expected in {Submitted, UnknownReconcile} && c.tx in db.txs
    ensures db.txs[c.tx].task in db.tasks
    ensures var row, t := db.txs[c.tx], db.tasks[db.txs[c.tx].task];
            var step := ConfirmCreationStep(db, c, chainTaskId);
            if row.status == Confirmed && t.chainTaskId == Some(chainTaskId) then step.result.Ok? && step.tables == db
            else if row.status != c.expected then step == Step(db, Err(Conflict))
            else if c.blockNumber > 0x7FFF_FFFF_FFFF_FFFF || c.logIndex > 0x7FFF_FFFF
                    || chainTaskId > 0x7FFF_FFFF_FFFF_FFFF then step == Step(db, Err(InvalidInput))
            else if !IdentityIsFree(db, row.task, chainTaskId) then step == Step(db, Err(Conflict))
            else step.result.Ok? && step.tables != db
  {
    hide Structure, RowSound, IdentityIsFree, ChainIdentityTaken, ViewOf;
    StructureRow(db, c.tx);
    AnsweredRow(db, c.tx);
    FreeIsNotTaken(db, db.txs[c.tx].task, chainTaskId);
    StructureEvents(db);
    if db.txs[c.tx].status == c.expected {
      NoEventYet(db, c.tx, c.logIndex);
    }
  }

  lemma AnsweredRow(db: Tables, x: TxId)
    requires x in db.txs && RowSound(db, x)
    ensures db.txs[x].task in db.tasks
    ensures db.txs[x].status in {Submitted, UnknownReconcile} ==> db.txs[x].hash.Some?
  {
  }

  /** What a receipt confirmation answers, likewise; a row that is no attested receipt is not found. */
  lemma SubmissionAnswers(db: Tables, c: Confirmation)
    requires Structure(db) && ValidDate(c.at) && c.expected in {Submitted, UnknownReconcile} && c.tx in db.txs
    ensures db.txs[c.tx].task in db.tasks
    ensures var row, t := db.txs[c.tx], db.tasks[db.txs[c.tx].task];
            var step := ConfirmReceiptStep(db, c);
            if row.intent != SubmitReceipt || c.tx !in db.attestations then step == Step(db, Err(NotFound))
            else if row.status == Confirmed && t.chain == ChainReceiptSubmitted
            then step.result.Ok? && step.tables == db
            else if row.status != c.expected then step == Step(db, Err(Conflict))
            else if c.blockNumber > 0x7FFF_FFFF_FFFF_FFFF || c.logIndex > 0x7FFF_FFFF
            then step == Step(db, Err(InvalidInput))
            else step.result.Ok? && step.tables != db
  {
    hide Structure, RowSound, ViewOf;
    StructureRow(db, c.tx);
    AnsweredRow(db, c.tx);
    StructureEvents(db);
    if db.txs[c.tx].status == c.expected {
      NoEventYet(db, c.tx, c.logIndex);
    }
  }

  /** Malformed writes and rows that do not exist are turned down before anything is looked at. */
  lemma WritesRefused(db: Tables, c: Confirmation, chainTaskId: nat, code: string)
    ensures !(-8_640_000_000_000_000 <= c.at <= 8_640_000_000_000_000)
            || (c.expected != Submitted && c.expected != UnknownReconcile) ==>
              && ConfirmCreationStep(db, c, chainTaskId) == Step(db, Err(InvalidInput))
              && ConfirmReceiptStep(db, c) == Step(db, Err(InvalidInput))
              && MarkRevertedStep(db, c.tx, c.expected, c.blockNumber, c.at) == Step(db, Err(InvalidInput))
    ensures -8_640_000_000_000_000 <= c.at <= 8_640_000_000_000_000
            && (c.expected == Submitted || c.expected == UnknownReconcile) && c.tx !in db.txs ==>
              && ConfirmCreationStep(db, c, chainTaskId) == Step(db, Err(NotFound))
              && ConfirmReceiptStep(db, c) == Step(db, Err(NotFound))
              && MarkRevertedStep(db, c.tx, c.expected, c.blockNumber, c.at) == Step(db, Err(NotFound))
              && (ValidFailureCode(code) ==>
                    MarkUnknownStep(db, c.tx, c.expected, code, c.at) == Step(db, Err(NotFound)))
  {
    hide ValidFailureCode, ConfirmedRow, RevertedRow, UnknownRow, ChainIdentityTaken;
  }

  // ----- evidence -----

  /** An upload is stored with the hashes, the commit and the flag the bundle carries. */
  lemma UploadReplies(db: Tables, i: EvidenceInput)
    requires PersistEvidenceStep(db, i).tables != db
    ensures var after := PersistEvidenceStep(db, i).tables;
            && PersistEvidenceStep(db, i).result == Ok(i.publicId)
            && i.publicId in after.bundles
            && after == db.(bundles := db.bundles[i.publicId := after.bundles[i.publicId]])
            && after.bundles[i.publicId].task == i.bundle.task && after.bundles[i.publicId].bundle == i.bundle
            && after.bundles[i.publicId].evidenceHash == i.evidenceHash
            && after.bundles[i.publicId].commitHash == i.bundle.git.derivedCommitHash
            && after.bundles[i.publicId].passing == i.bundle.result.passing
            && after.bundles[i.publicId].createdAt == i.at
  {
  }
}
