/** The two reconcilers: what they read, how they scan the logs of a receipt, and what they decide to write. */
module Reconciliation {
  import opened Prelude
  import opened Tasks
  import opened ChainTransactions
  import opened Store
  import Decimals

  // ----- what a reconciler reads before its RPC call -----

  datatype Context =
    | CreationContext(
        tx: TxId, hash: Hash, status: Status, chainId: ChainId, contract: Address, task: TaskId,
        taskHash: Hash, policyHash: Hash, creator: Address, assignee: Address, reward: nat, deadlineSeconds: nat)
    | ReceiptContext(
        tx: TxId, hash: Hash, status: Status, chainId: ChainId, contract: Address, task: TaskId,
        chainTaskId: nat, assignee: Address, evidenceHash: Hash, commitHash: Hash, expirySeconds: nat,
        verifier: Address, digest: Hash)

  predicate Pending(db: Tables, tx: TxId, actor: UserId) {
    && tx in db.txs
    && db.txs[tx].task in db.tasks
    && db.txs[tx].user == actor
    && db.txs[tx].status in {Submitted, UnknownReconcile}
    && db.txs[tx].hash.Some?
  }

  function SecondsOf(deadline: Option<string>): nat {
    match deadline
    case Some(s) => if Decimals.IsDecimal(s) then Decimals.Value(s) else 0
    case None => 0
  }

  /** The context of `row`, a creation of `t`. */
  function CreationContextOf(tx: TxId, row: Tx, t: Task): Context
    requires row.hash.Some?
  {
    CreationContext(tx, row.hash.value, row.status, row.chainId, t.contract, row.task, t.taskHash, t.policyHash,
                    t.creator, t.assignee, t.reward, SecondsOf(t.canonical.deadlineSeconds))
  }

  /** The context of `row`, a receipt of `t` attested by `a`. */
  function ReceiptContextOf(tx: TxId, row: Tx, t: Task, a: Attestation): Context
    requires row.hash.Some? && t.chainTaskId.Some?
  {
    ReceiptContext(tx, row.hash.value, row.status, row.chainId, t.contract, row.task, t.chainTaskId.value,
                   t.assignee, a.evidenceHash, a.commitHash, a.expirySeconds, a.verifier, a.digest)
  }

  /** `getTaskChainReconciliationContext`, for the project owner only; the intent is not looked at. */
  function ReadCreationContext(db: Tables, tx: TxId, actor: UserId): Option<Context> {
    if Pending(db, tx, actor) && IsOwner(db, db.txs[tx].project, actor)
    then Some(CreationContextOf(tx, db.txs[tx], db.tasks[db.txs[tx].task]))
    else None
  }

  /** `getReceiptChainReconciliationContext`, for any member, joined with the row's own attestation. */
  function ReadReceiptContext(db: Tables, tx: TxId, actor: UserId): Option<Context> {
    if && Pending(db, tx, actor)
       && db.txs[tx].intent == SubmitReceipt
       && IsMember(db, db.txs[tx].project, actor)
       && tx in db.attestations
       && db.tasks[db.txs[tx].task].chainTaskId.Some?
    then Some(ReceiptContextOf(tx, db.txs[tx], db.tasks[db.txs[tx].task], db.attestations[tx]))
    else None
  }

  // ----- what the RPC answers -----

  /** A log whose strict decoding succeeded for one of the three event shapes, or for none. */
  datatype LogEvent =
    | TaskCreatedLog(
        taskId: nat, creator: Address, assignee: Address, taskHash: Hash, policyHash: Hash, reward: nat,
        deadlineSeconds: nat)
    | ReceiptSubmittedLog(taskId: nat, assignee: Address, evidenceHash: Hash, commitHash: Hash)
    | AttestationConsumedLog(taskId: nat, digest: Hash, verifier: Address, expirySeconds: nat)
    | OtherLog

  datatype Log = Log(address: Address, logIndex: nat, event: LogEvent)

  datatype Receipt = Receipt(success: bool, hash: Hash, blockHash: Hash, blockNumber: nat, logs: seq<Log>)

  datatype RpcAnswer = Unavailable | NoReceipt | Found(receipt: Receipt)

  // ----- which logs match -----

  predicate CreationMatches(c: Context, log: Log)
    requires c.CreationContext?
  {
    && log.address == c.contract
    && log.event.TaskCreatedLog?
    && log.event.creator == c.creator
    && log.event.assignee == c.assignee
    && log.event.taskHash == c.taskHash
    && log.event.policyHash == c.policyHash
    && log.event.reward == c.reward
    && log.event.deadlineSeconds == c.deadlineSeconds
  }

  predicate SubmissionMatches(c: Context, log: Log)
    requires c.ReceiptContext?
  {
    && log.address == c.contract
    && log.event.ReceiptSubmittedLog?
    && log.event.taskId == c.chainTaskId
    && log.event.assignee == c.assignee
    && log.event.evidenceHash == c.evidenceHash
    && log.event.commitHash == c.commitHash
  }

  predicate AttestationMatches(c: Context, log: Log)
    requires c.ReceiptContext?
  {
    && log.address == c.contract
    && log.event.AttestationConsumedLog?
    && log.event.taskId == c.chainTaskId
    && log.event.verifier == c.verifier
    && log.event.digest == c.digest
    && log.event.expirySeconds == c.expirySeconds
  }

  /** The log that a confirmation of `c` rests on. */
  predicate Matches(c: Context, log: Log) {
    if c.CreationContext? then CreationMatches(c, log) else SubmissionMatches(c, log)
  }

  function Matching(c: Context, logs: seq<Log>): seq<Log> {
    if logs == [] then []
    else (if Matches(c, logs[0]) then [logs[0]] else []) + Matching(c, logs[1..])
  }

  predicate ConsumesAttestation(c: Context, logs: seq<Log>)
    requires c.ReceiptContext?
  {
    exists i :: 0 <= i < |logs| && AttestationMatches(c, logs[i])
  }

  /** One log matches, and no other. */
  ghost predicate OnlyMatch(c: Context, logs: seq<Log>, i: nat) {
    i < |logs| && Matches(c, logs[i]) && forall j | 0 <= j < |logs| && j != i :: !Matches(c, logs[j])
  }

  // ----- what is decided -----

  datatype Decision =
    | DecideUnknown(failureCode: string)
    | DecideReverted(blockNumber: nat)
    | DecideConfirmed(log: Log, blockHash: Hash, blockNumber: nat)

  const RPC_UNAVAILABLE := "RPC_UNAVAILABLE"
  const RECEIPT_PENDING := "RECEIPT_PENDING"
  const RECEIPT_HASH_MISMATCH := "RECEIPT_HASH_MISMATCH"
  const TASK_CREATED_EVENT_MISSING := "TASK_CREATED_EVENT_MISSING"
  const TASK_CREATED_EVENT_AMBIGUOUS := "TASK_CREATED_EVENT_AMBIGUOUS"
  const RECEIPT_SUBMITTED_EVENT_MISSING := "RECEIPT_SUBMITTED_EVENT_MISSING"
  const RECEIPT_SUBMITTED_EVENT_AMBIGUOUS := "RECEIPT_SUBMITTED_EVENT_AMBIGUOUS"

  /** The choice after the scan, from the matching logs alone. */
  function Choose(c: Context, receipt: Receipt): Decision {
    var matching := Matching(c, receipt.logs);
    if c.CreationContext? then
      if |matching| == 1 then DecideConfirmed(matching[0], receipt.blockHash, receipt.blockNumber)
      else DecideUnknown(if |matching| == 0 then TASK_CREATED_EVENT_MISSING else TASK_CREATED_EVENT_AMBIGUOUS)
    else
      if |matching| == 1 && ConsumesAttestation(c, receipt.logs)
      then DecideConfirmed(matching[0], receipt.blockHash, receipt.blockNumber)
      else DecideUnknown(
             if |matching| == 0 || !ConsumesAttestation(c, receipt.logs) then RECEIPT_SUBMITTED_EVENT_MISSING
             else RECEIPT_SUBMITTED_EVENT_AMBIGUOUS)
  }

  function Decide(c: Context, answer: RpcAnswer): Decision {
    match answer
    case Unavailable => DecideUnknown(RPC_UNAVAILABLE)
    case NoReceipt => DecideUnknown(RECEIPT_PENDING)
    case Found(receipt) =>
      if receipt.hash != c.hash then DecideUnknown(RECEIPT_HASH_MISMATCH)
      else if !receipt.success then DecideReverted(receipt.blockNumber)
      else Choose(c, receipt)
  }

  /** `reconcileTaskCreation` between its read and its write: one pass over the logs. */
  method DecideTaskCreation(c: Context, answer: RpcAnswer) returns (d: Decision)
    requires c.CreationContext?
    ensures d == Decide(c, answer)
  {
    match answer
    case Unavailable => return DecideUnknown(RPC_UNAVAILABLE);
    case NoReceipt => return DecideUnknown(RECEIPT_PENDING);
    case Found(receipt) =>
      if receipt.hash != c.hash {
        return DecideUnknown(RECEIPT_HASH_MISMATCH);
      }
      if !receipt.success {
        return DecideReverted(receipt.blockNumber);
      }
      var matching: seq<Log> := [];
      for i := 0 to |receipt.logs|
        invariant matching + Matching(c, receipt.logs[i..]) == Matching(c, receipt.logs)
      {
        var log := receipt.logs[i];
        assert receipt.logs[i..][1..] == receipt.logs[i + 1..];
        if log.address != c.contract {
          continue;
        }
        if log.event.TaskCreatedLog? {
          if log.event.creator != c.creator || log.event.assignee != c.assignee || log.event.taskHash != c.taskHash
             || log.event.policyHash != c.policyHash || log.event.reward != c.reward
             || log.event.deadlineSeconds != c.deadlineSeconds {
            continue;
          }
          matching := matching + [log];
        }
      }
      if |matching| != 1 {
        return DecideUnknown(if |matching| == 0 then TASK_CREATED_EVENT_MISSING else TASK_CREATED_EVENT_AMBIGUOUS);
      }
      return DecideConfirmed(matching[0], receipt.blockHash, receipt.blockNumber);
  }

  /** `reconcileReceiptSubmission` between its read and its write: one pass for both event shapes. */
  method DecideReceiptSubmission(c: Context, answer: RpcAnswer) returns (d: Decision)
    requires c.ReceiptContext?
    ensures d == Decide(c, answer)
  {
    match answer
    case Unavailable => return DecideUnknown(RPC_UNAVAILABLE);
    case NoReceipt => return DecideUnknown(RECEIPT_PENDING);
    case Found(receipt) =>
      if receipt.hash != c.hash {
        return DecideUnknown(RECEIPT_HASH_MISMATCH);
      }
      if !receipt.success {
        return DecideReverted(receipt.blockNumber);
      }
      var matching: seq<Log> := [];
      var consumed := false;
      for i := 0 to |receipt.logs|
        invariant matching + Matching(c, receipt.logs[i..]) == Matching(c, receipt.logs)
        invariant consumed <==> exists j :: 0 <= j < i && AttestationMatches(c, receipt.logs[j])
      {
        var log := receipt.logs[i];
        assert receipt.logs[i..][1..] == receipt.logs[i + 1..];
        if log.address != c.contract {
          continue;
        }
        if log.event.ReceiptSubmittedLog? {
          if log.event.taskId == c.chainTaskId && log.event.assignee == c.assignee
             && log.event.evidenceHash == c.evidenceHash && log.event.commitHash == c.commitHash {
            matching := matching + [log];
          }
          continue;
        }
        if log.event.AttestationConsumedLog? && log.event.taskId == c.chainTaskId && log.event.verifier == c.verifier
           && log.event.digest == c.digest && log.event.expirySeconds == c.expirySeconds {
          consumed := true;
        }
      }
      assert consumed == ConsumesAttestation(c, receipt.logs);
      if |matching| != 1 || !consumed {
        return DecideUnknown(if |matching| == 0 || !consumed then RECEIPT_SUBMITTED_EVENT_MISSING
                             else RECEIPT_SUBMITTED_EVENT_AMBIGUOUS);
      }
      return DecideConfirmed(matching[0], receipt.blockHash, receipt.blockNumber);
  }

  // ----- what the decision means -----

  lemma {:induction false} MatchingNone(c: Context, logs: seq<Log>)
    ensures Matching(c, logs) == [] <==> forall i | 0 <= i < |logs| :: !Matches(c, logs[i])
  {
    if logs != [] {
      MatchingNone(c, logs[1..]);
      assert forall i | 1 <= i < |logs| :: logs[i] == logs[1..][i - 1];
    }
  }

  lemma {:induction false} MatchingOne(c: Context, logs: seq<Log>)
    ensures |Matching(c, logs)| == 1 <==> exists i: nat :: OnlyMatch(c, logs, i)
    ensures forall i: nat | OnlyMatch(c, logs, i) :: Matching(c, logs) == [logs[i]]
  {
    if logs != [] {
      var rest := logs[1..];
      MatchingOne(c, rest);
      MatchingNone(c, rest);
      assert forall i | 1 <= i < |logs| :: logs[i] == rest[i - 1];
      forall i: nat | OnlyMatch(c, logs, i) ensures Matching(c, logs) == [logs[i]] {
        if i > 0 {
          assert !Matches(c, logs[0]);
          assert OnlyMatch(c, rest, i - 1);
        }
      }
      if |Matching(c, logs)| == 1 {
        if Matches(c, logs[0]) {
          assert OnlyMatch(c, logs, 0);
        } else {
          var k: nat :| OnlyMatch(c, rest, k);
          assert OnlyMatch(c, logs, k + 1);
        }
      }
    }
  }

  /** The receipt is a successful one of the very hash, and `log` is its one matching log. */
  ghost predicate Proves(c: Context, receipt: Receipt, log: Log) {
    && receipt.hash == c.hash
    && receipt.success
    && (exists i: nat :: OnlyMatch(c, receipt.logs, i) && receipt.logs[i] == log)
    && (c.ReceiptContext? ==> ConsumesAttestation(c, receipt.logs))
  }

  /**
   * A reconciler confirms exactly on a successful receipt of the row's own hash in which exactly one log
   * matches (and, for a receipt, some log consumes the attestation); what it then writes comes from that log.
   */
  lemma ConfirmedExactlyWhenProved(c: Context, answer: RpcAnswer)
    ensures Decide(c, answer).DecideConfirmed? <==>
            && answer.Found?
            && exists i: nat :: i < |answer.receipt.logs| && Proves(c, answer.receipt, answer.receipt.logs[i])
    ensures Decide(c, answer).DecideConfirmed? ==>
              && Proves(c, answer.receipt, Decide(c, answer).log)
              && Decide(c, answer).blockHash == answer.receipt.blockHash
              && Decide(c, answer).blockNumber == answer.receipt.blockNumber
  {
    if answer.Found? {
      var logs := answer.receipt.logs;
      MatchingOne(c, logs);
      if Decide(c, answer).DecideConfirmed? {
        var i: nat :| OnlyMatch(c, logs, i);
        assert Proves(c, answer.receipt, logs[i]);
      }
    }
  }

  /** The log repeats what the context knows of its task, or what its attestation signs. */
  ghost predicate Repeats(c: Context, log: Log) {
    && log.address == c.contract
    && if c.CreationContext? then
         && log.event.TaskCreatedLog?
         && log.event == TaskCreatedLog(log.event.taskId, c.creator, c.assignee, c.taskHash, c.policyHash, c.reward,
                                        c.deadlineSeconds)
       else log.event == ReceiptSubmittedLog(c.chainTaskId, c.assignee, c.evidenceHash, c.commitHash)
  }

  ghost predicate SomeRepeats(c: Context, logs: seq<Log>) {
    exists i :: 0 <= i < |logs| && Repeats(c, logs[i])
  }

  ghost predicate TwoRepeat(c: Context, logs: seq<Log>) {
    exists i, j :: 0 <= i < j < |logs| && Repeats(c, logs[i]) && Repeats(c, logs[j])
  }

  ghost predicate ConsumedIn(c: Context, logs: seq<Log>)
    requires c.ReceiptContext?
  {
    exists i :: 0 <= i < |logs| && logs[i].address == c.contract
                && logs[i].event == AttestationConsumedLog(c.chainTaskId, c.digest, c.verifier, c.expirySeconds)
  }

  lemma {:induction false} MatchingCounts(c: Context, logs: seq<Log>)
    ensures Matching(c, logs) != [] <==> SomeRepeats(c, logs)
    ensures |Matching(c, logs)| >= 2 <==> TwoRepeat(c, logs)
  {
    if logs != [] {
      var rest := logs[1..];
      MatchingCounts(c, rest);
      assert forall i | 1 <= i < |logs| :: logs[i] == rest[i - 1];
      assert Matches(c, logs[0]) <==> Repeats(c, logs[0]);
      if SomeRepeats(c, rest) {
        var i :| 0 <= i < |rest| && Repeats(c, rest[i]);
        assert Repeats(c, logs[i + 1]);
        assert Repeats(c, logs[0]) ==> TwoRepeat(c, logs);
      }
      if TwoRepeat(c, rest) {
        var i, j :| 0 <= i < j < |rest| && Repeats(c, rest[i]) && Repeats(c, rest[j]);
        assert Repeats(c, logs[i + 1]) && Repeats(c, logs[j + 1]);
      }
      if TwoRepeat(c, logs) {
        var i, j :| 0 <= i < j < |logs| && Repeats(c, logs[i]) && Repeats(c, logs[j]);
        assert Repeats(c, rest[j - 1]);
        assert i > 0 ==> Repeats(c, rest[i - 1]) && TwoRepeat(c, rest);
      }
    }
  }

  /**
   * What is decided, and under which failure code a row is marked: the code says whether the node was not reached,
   * had no receipt, had another one, or whether the event is missing or comes more than once.
   */
  lemma DecisionSaysWhy(c: Context, answer: RpcAnswer)
    ensures answer.Unavailable? ==> Decide(c, answer) == DecideUnknown("RPC_UNAVAILABLE")
    ensures answer.NoReceipt? ==> Decide(c, answer) == DecideUnknown("RECEIPT_PENDING")
    ensures answer.Found? && answer.receipt.hash != c.hash ==>
              Decide(c, answer) == DecideUnknown("RECEIPT_HASH_MISMATCH")
    ensures answer.Found? && answer.receipt.hash == c.hash && !answer.receipt.success ==>
              Decide(c, answer) == DecideReverted(answer.receipt.blockNumber)
    ensures answer.Found? && answer.receipt.hash == c.hash && answer.receipt.success && c.CreationContext? ==>
              var logs := answer.receipt.logs;
              if !SomeRepeats(c, logs) then Decide(c, answer) == DecideUnknown("TASK_CREATED_EVENT_MISSING")
              else if TwoRepeat(c, logs) then Decide(c, answer) == DecideUnknown("TASK_CREATED_EVENT_AMBIGUOUS")
              else Decide(c, answer).DecideConfirmed? && Repeats(c, Decide(c, answer).log)
    ensures answer.Found? && answer.receipt.hash == c.hash && answer.receipt.success && c.ReceiptContext? ==>
              var logs := answer.receipt.logs;
              if !SomeRepeats(c, logs) || !ConsumedIn(c, logs)
              then Decide(c, answer) == DecideUnknown("RECEIPT_SUBMITTED_EVENT_MISSING")
              else if TwoRepeat(c, logs) then Decide(c, answer) == DecideUnknown("RECEIPT_SUBMITTED_EVENT_AMBIGUOUS")
              else Decide(c, answer).DecideConfirmed? && Repeats(c, Decide(c, answer).log)
  {
    hide Matching, SomeRepeats, TwoRepeat;
    if answer.Found? {
      var logs := answer.receipt.logs;
      MatchingCounts(c, logs);
      if |Matching(c, logs)| == 1 {
        MatchingRepeats(c, logs);
      }
      if c.ReceiptContext? {
        ConsumedExactly(c, logs);
      }
    }
  }

  lemma ConsumedExactly(c: Context, logs: seq<Log>)
    requires c.ReceiptContext?
    ensures ConsumesAttestation(c, logs) <==> ConsumedIn(c, logs)
  {
    forall i | 0 <= i < |logs|
      ensures AttestationMatches(c, logs[i]) <==>
              logs[i].address == c.contract
              && logs[i].event == AttestationConsumedLog(c.chainTaskId, c.digest, c.verifier, c.expirySeconds)
    {
    }
  }

  lemma {:induction false} MatchingRepeats(c: Context, logs: seq<Log>)
    ensures forall i | 0 <= i < |Matching(c, logs)| :: Repeats(c, Matching(c, logs)[i])
  {
    if logs != [] {
      MatchingRepeats(c, logs[1..]);
    }
  }

  /** A row is only marked reverted on a failed receipt of its own hash. */
  lemma RevertedExactlyWhenFailed(c: Context, answer: RpcAnswer)
    ensures Decide(c, answer).DecideReverted? <==>
            answer.Found? && answer.receipt.hash == c.hash && !answer.receipt.success
  {
  }

  lemma {:induction false} MatchingBag(c: Context, logs: seq<Log>, log: Log)
    ensures multiset(Matching(c, logs))[log] == if Matches(c, log) then multiset(logs)[log] else 0
  {
    if logs != [] {
      MatchingBag(c, logs[1..], log);
      assert logs == [logs[0]] + logs[1..];
    }
  }

  lemma SingletonBag<T>(a: seq<T>, b: seq<T>)
    requires multiset(a) == multiset(b)
    ensures |a| == |b|
    ensures |a| == 1 ==> a == b
  {
    assert |multiset(a)| == |a| && |multiset(b)| == |b|;
    if |a| == 1 {
      assert a == [a[0]] && b == [b[0]];
      assert a[0] in multiset(a);
      assert b[0] in multiset(b);
    }
  }

  /** The decision does not depend on the order in which the node lists the logs. */
  lemma DecisionIgnoresLogOrder(c: Context, receipt: Receipt, other: Receipt)
    requires multiset(other.logs) == multiset(receipt.logs) && other == receipt.(logs := other.logs)
    ensures Decide(c, Found(other)) == Decide(c, Found(receipt))
  {
    var a, b := Matching(c, receipt.logs), Matching(c, other.logs);
    forall log ensures multiset(a)[log] == multiset(b)[log] {
      MatchingBag(c, receipt.logs, log);
      MatchingBag(c, other.logs, log);
    }
    assert multiset(a) == multiset(b);
    SingletonBag(a, b);
    if c.ReceiptContext? {
      SameLogsConsume(c, receipt.logs, other.logs);
      SameLogsConsume(c, other.logs, receipt.logs);
    }
  }

  lemma SameLogsConsume(c: Context, logs: seq<Log>, other: seq<Log>)
    requires c.ReceiptContext? && multiset(logs) == multiset(other)
    ensures ConsumesAttestation(c, logs) ==> ConsumesAttestation(c, other)
  {
    if ConsumesAttestation(c, logs) {
      var i :| 0 <= i < |logs| && AttestationMatches(c, logs[i]);
      assert logs[i] in multiset(other);
      var j :| 0 <= j < |other| && other[j] == logs[i];
      assert AttestationMatches(c, other[j]);
    }
  }

  // ----- what is written back -----

  /** The compare-and-set write of a reconciler, with the possibly stale status it read. */
  function WriteBack(db: Tables, c: Context, d: Decision, at: Time): Step<TxView> {
    match d
    case DecideUnknown(code) => MarkUnknownStep(db, c.tx, c.status, code, at)
    case DecideReverted(block) => MarkRevertedStep(db, c.tx, c.status, block, at)
    case DecideConfirmed(log, blockHash, block) =>
      var confirmation := Confirmation(c.tx, c.status, blockHash, block, log.logIndex, at);
      if c.CreationContext? && log.event.TaskCreatedLog?
      then ConfirmCreationStep(db, confirmation, log.event.taskId)
      else ConfirmReceiptStep(db, confirmation)
  }
}
