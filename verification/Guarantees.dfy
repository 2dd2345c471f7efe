/** What the reachable states promise to those who use them. */
module Guarantees {
  import opened Prelude
  import opened Tasks
  import opened ChainTransactions
  import opened Store
  import opened Invariants
  import opened Lifecycle
  import opened Reconciliation
  import opened System
  import opened Runs
  import opened Misrouting
  import Evidence

  // ----- how many transactions each pair allows -----

  function Counted(db: Tables, t: TaskId, k: Intent): set<TxId> {
    set x | x in db.txs && Counts(db.txs, x, t, k)
  }

  function ConfirmedOnes(db: Tables, t: TaskId, k: Intent): set<TxId> {
    set x | x in db.txs && Counts(db.txs, x, t, k) && db.txs[x].status == Confirmed
  }

  /**
   * Live-or-confirmed and confirmed transactions of both intents, per pair; an open task has a confirmed receipt
   * only if it was misconfirmed.
   */
  ghost predicate CountsFitPair(db: Tables, t: TaskId, misconfirmed: bool)
    requires t in db.tasks
  {
    var creations, creationsDone := |Counted(db, t, CreateTask)|, |ConfirmedOnes(db, t, CreateTask)|;
    var receipts, receiptsDone := |Counted(db, t, SubmitReceipt)|, |ConfirmedOnes(db, t, SubmitReceipt)|;
    && (misconfirmed ==> db.tasks[t].offchain == Open)
    && match (db.tasks[t].offchain, db.tasks[t].chain)
       case (Draft, NoChain) => creations == 0 && receipts == 0
       case (AwaitingChain, NoChain) => creations <= 1 && creationsDone == 0 && receipts == 0
       case (Open, ChainOpen) =>
         creations == creationsDone == 1 && receipts <= 1 && receiptsDone == if misconfirmed then 1 else 0
       case (Draft, ChainOpen) => creations == creationsDone == 1 && receipts == 0
       case (ReceiptSubmitted, ChainReceiptSubmitted) =>
         creations == creationsDone == 1 && receipts == receiptsDone == 1
       case _ => false
  }

  lemma AtMostOneCounted(db: Tables, t: TaskId, k: Intent)
    requires AtMostOne(db.txs, t, k)
    ensures |Counted(db, t, k)| <= 1
    ensures SomeConfirmed(db.txs, t, k) ==> |Counted(db, t, k)| == |ConfirmedOnes(db, t, k)| == 1
    ensures NoneConfirmed(db.txs, t, k) ==> ConfirmedOnes(db, t, k) == {}
    ensures NoneCounts(db.txs, t, k) ==> Counted(db, t, k) == {} && ConfirmedOnes(db, t, k) == {}
  {
    if SomeConfirmed(db.txs, t, k) {
      var a: TxId :| Counts(db.txs, a, t, k) && db.txs[a].status == Confirmed;
      assert a in Counted(db, t, k);
      assert Counted(db, t, k) == ConfirmedOnes(db, t, k) == {a};
    } else if Counted(db, t, k) != {} {
      var a :| a in Counted(db, t, k);
      assert Counted(db, t, k) == {a};
    }
  }

  lemma TrackedCounts(db: Tables, t: TaskId)
    requires t in db.tasks && (TaskPhase(db, t) || TaskMisconfirmed(db, t))
    ensures CountsFitPair(db, t, TaskMisconfirmed(db, t))
    ensures db.tasks[t].chainTaskId.Some? <==> db.tasks[t].chain != NoChain
  {
    hide Counts, AttestationRules, ReplacedUnattested, Counted, ConfirmedOnes, SomeConfirmed, NoneConfirmed, NoneCounts,
         AtMostOne;
    PhaseIsNotMisconfirmed(db, t);
    PhaseOrNot(db, t);
    AtMostOneCounted(db, t, CreateTask);
    AtMostOneCounted(db, t, SubmitReceipt);
  }

  lemma PhaseOrNot(db: Tables, t: TaskId)
    requires t in db.tasks && (TaskPhase(db, t) || TaskMisconfirmed(db, t))
    ensures AtMostOne(db.txs, t, CreateTask) && AtMostOne(db.txs, t, SubmitReceipt)
  {
  }

  lemma NothingMisconfirmed(s: State, t: TaskId)
    requires Initial(s)
    ensures !IsMisconfirmed(s.db, t)
  {
  }

  /**
   * In every reachable state, by whatever routes, a task is in one of the five pairs, has a chain task id exactly
   * when it is on chain, and has the transactions its pair fixes; an open one has a confirmed receipt exactly when
   * some event of the run misconfirmed it.
   */
  lemma ReachableCounts(s: State, events: seq<Event>, t: TaskId)
    requires Initial(s) && t in Run(s, events).db.tasks
    ensures CountsFitPair(Run(s, events).db, t, !NeverMisconfirmsAt(s, events, t))
    ensures var task := Run(s, events).db.tasks[t]; task.chainTaskId.Some? <==> task.chain != NoChain
  {
    hide *;
    InitialGood(s);
    GoodParts(s);
    RunGood(s, events);
    GoodParts(Run(s, events));
    MisconfirmedExactly(s, events, t);
    NothingMisconfirmed(s, t);
    TrackedTask(Run(s, events).db, t);
    TrackedCounts(Run(s, events).db, t);
    MisconfirmedTask(Run(s, events).db, t);
  }

  lemma MisconfirmedTask(db: Tables, t: TaskId)
    requires t in db.tasks
    ensures IsMisconfirmed(db, t) <==> TaskMisconfirmed(db, t)
  {
  }

  // ----- from a confirmed receipt back to the policy -----

  lemma PassingBundle(db: Tables, b: BundleId)
    requires b in db.bundles && BundleSound(db, b) && db.bundles[b].passing
    ensures var s := db.bundles[b];
            && Evidence.EveryRequiredPassed(s.bundle.checks, db.policies[db.tasks[s.task].policy].policy)
            && s.bundle.git.clean && s.bundle.git.changedFiles == []
            && s.bundle.taskHash == db.tasks[s.task].taskHash
            && s.commitHash == s.bundle.git.derivedCommitHash
  {
    hide Evidence.SchemaAccepts;
    var s := db.bundles[b];
    var p := db.policies[db.tasks[s.task].policy].policy;
    Evidence.PassingAgreement(s.bundle);
    forall j | 0 <= j < |p.checks| && p.checks[j].required ensures Evidence.PassedUnder(s.bundle.checks, p.checks[j]) {
      assert Evidence.PersistedAs(s.bundle.checks, p.checks[j]);
      var i :| 0 <= i < |s.bundle.checks| && s.bundle.checks[i].key == p.checks[j].key
               && s.bundle.checks[i].required == p.checks[j].required
               && s.bundle.checks[i].checkLabel == p.checks[j].checkLabel;
      assert Evidence.CheckPassed(s.bundle.checks[i]);
    }
  }

  lemma StructureAttestation(db: Tables, x: TxId)
    requires Structure(db) && x in db.attestations
    ensures AttestationSound(db, x) && BundleSound(db, db.attestations[x].bundle)
  {
  }

  /** The row's attestation names a bundle of its task that passed the task's own policy on a clean tree. */
  ghost predicate RestsOnBundle(db: Tables, x: TxId) {
    && x in db.txs && x in db.attestations
    && db.attestations[x].bundle in db.bundles && db.txs[x].task in db.tasks
    && var b, t := db.bundles[db.attestations[x].bundle], db.tasks[db.txs[x].task];
       && b.task == db.txs[x].task
       && b.bundle.taskHash == t.taskHash
       && t.policy in db.policies && db.policies[t.policy].policy.policyHash == t.policyHash
       && Evidence.EveryRequiredPassed(b.bundle.checks, db.policies[t.policy].policy)
       && b.bundle.git.clean && b.bundle.git.changedFiles == []
       && b.commitHash == b.bundle.git.derivedCommitHash
  }

  lemma AttestedRestsOnBundle(db: Tables, x: TxId)
    requires Structure(db) && x in db.attestations
    ensures RestsOnBundle(db, x)
  {
    hide Structure, BundleSound, Evidence.EveryRequiredPassed, Consistent;
    StructureAttestation(db, x);
    PassingBundle(db, db.attestations[x].bundle);
    StructureRow(db, x);
    StructureTask(db, db.txs[x].task);
  }

  /** The receipt's logs name the bundle by its evidence hash and its commit, and consume the attestation. */
  ghost predicate SubmittedOnChain(w: Witness, task: Task, a: Attestation, b: StoredBundle) {
    && w.receipt.success
    && w.log in w.receipt.logs
    && w.log.address == task.contract
    && w.log.event.ReceiptSubmittedLog?
    && task.chainTaskId == Some(w.log.event.taskId)
    && w.log.event.assignee == task.assignee
    && w.log.event.evidenceHash == b.evidenceHash
    && w.log.event.commitHash == b.commitHash
    && (exists log :: log in w.receipt.logs && log.address == task.contract
                      && log.event == AttestationConsumedLog(w.log.event.taskId, a.digest, a.verifier, a.expirySeconds))
  }

  /**
   * Behind the receipt stands an attestation of a bundle of the same task, in which every required check of the
   * task's own policy passed with exit code zero on a clean tree, and the chain logged that bundle's evidence hash
   * and commit under the task's chain id, and the attestation as consumed, in a receipt of the row's own hash.
   */
  ghost predicate Backed(s: State, x: TxId) {
    && RestsOnBundle(s.db, x)
    && x in s.witnesses
    && SubmittedOnChain(s.witnesses[x], s.db.tasks[s.db.txs[x].task], s.db.attestations[x],
                        s.db.bundles[s.db.attestations[x].bundle])
    && s.db.txs[x].hash == Some(s.witnesses[x].receipt.hash)
  }

  predicate IsConfirmed(db: Tables, x: TxId, k: Intent) {
    x in db.txs && db.txs[x].intent == k && db.txs[x].status == Confirmed
  }

  lemma ConfirmedParts(s: State, x: TxId)
    requires Good(s) && x in s.db.txs && s.db.txs[x].status == Confirmed
    ensures x in s.witnesses && Witnessed(s.db, x, s.witnesses[x]) && RowSound(s.db, x)
    ensures s.db.txs[x].task in s.db.tasks && WitnessTracked(s.db, x, s.witnesses[x])
    ensures TaskPhase(s.db, s.db.txs[x].task) || TaskMisconfirmed(s.db, s.db.txs[x].task)
  {
    hide Structure, Tracked, TaskPhase, TaskMisconfirmed, Witnessed, WitnessTracked, ThreadsBound, RowSound;
    StructureRow(s.db, x);
    RowsHaveTasks(s.db);
    TrackedTask(s.db, s.db.txs[x].task);
  }

  lemma WitnessedSubmission(db: Tables, x: TxId, w: Witness)
    requires x in db.txs && db.txs[x].task in db.tasks && w.context.ReceiptContext? && Witnessed(db, x, w)
    requires WitnessTracked(db, x, w)
    ensures x in db.attestations && db.txs[x].hash == Some(w.receipt.hash)
    ensures forall b: StoredBundle | b.evidenceHash == db.attestations[x].evidenceHash
                                     && b.commitHash == db.attestations[x].commitHash ::
              SubmittedOnChain(w, db.tasks[db.txs[x].task], db.attestations[x], b)
  {
    hide TaskPhase, TaskMisconfirmed;
    var i :| 0 <= i < |w.receipt.logs| && AttestationMatches(w.context, w.receipt.logs[i]);
    assert w.receipt.logs[i] in w.receipt.logs;
  }

  lemma AttestedHashes(db: Tables, x: TxId)
    requires Structure(db) && x in db.attestations
    ensures db.attestations[x].bundle in db.bundles
    ensures db.bundles[db.attestations[x].bundle].evidenceHash == db.attestations[x].evidenceHash
    ensures db.bundles[db.attestations[x].bundle].commitHash == db.attestations[x].commitHash
  {
    hide BundleSound;
    StructureAttestation(db, x);
  }

  lemma ReceiptOfPhase(db: Tables, x: TxId)
    requires IsConfirmed(db, x, SubmitReceipt) && db.txs[x].task in db.tasks
    ensures TaskPhase(db, db.txs[x].task) ==> db.tasks[db.txs[x].task].chain == ChainReceiptSubmitted
    ensures TaskMisconfirmed(db, db.txs[x].task) ==> db.tasks[db.txs[x].task].chain == ChainOpen
  {
    assert Counts(db.txs, x, db.txs[x].task, SubmitReceipt);
  }

  lemma WitnessKind(db: Tables, x: TxId, w: Witness)
    requires IsConfirmed(db, x, SubmitReceipt) && db.txs[x].task in db.tasks && WitnessTracked(db, x, w)
    ensures if w.context.ReceiptContext? then db.tasks[db.txs[x].task].chain == ChainReceiptSubmitted
            else w.log.event.TaskCreatedLog? && TaskMisconfirmed(db, db.txs[x].task)
                 && db.tasks[db.txs[x].task].chainTaskId == Some(w.log.event.taskId)
  {
  }

  /**
   * End to end, in every state that runs reach: a confirmed receipt is backed by a passing bundle and by the chain
   * exactly when the receipt reconciler confirmed it, which is exactly when its task is in (receipt_submitted,
   * receipt_submitted).
   */
  lemma ConfirmedReceiptRestsOnPassingBundle(s: State, x: TxId)
    requires Good(s) && IsConfirmed(s.db, x, SubmitReceipt)
    ensures x in s.witnesses && s.db.txs[x].task in s.db.tasks
    ensures Backed(s, x) <==> s.witnesses[x].context.ReceiptContext?
    ensures Backed(s, x) <==> s.db.tasks[s.db.txs[x].task].chain == ChainReceiptSubmitted
    ensures s.witnesses[x].context.CreationContext? <==> IsMisconfirmed(s.db, s.db.txs[x].task)
  {
    hide Structure, TaskPhase, TaskMisconfirmed, Witnessed, WitnessTracked, RestsOnBundle, SubmittedOnChain,
         Tracked, ThreadsBound, ConfirmedWitnessed, RevertedFailed, RowSound;
    ConfirmedParts(s, x);
    var w := s.witnesses[x];
    WitnessKind(s.db, x, w);
    ReceiptOfPhase(s.db, x);
    if w.context.ReceiptContext? {
      WitnessedSubmission(s.db, x, w);
      AttestedRestsOnBundle(s.db, x);
      AttestedHashes(s.db, x);
    } else {
      NotSubmitted(s, x);
    }
  }

  /** A log of a creation is not the log of a submission. */
  lemma NotSubmitted(s: State, x: TxId)
    requires x in s.witnesses && s.witnesses[x].log.event.TaskCreatedLog?
    ensures !Backed(s, x)
  {
    hide RestsOnBundle;
  }

  /** From the empty tables, by whatever routes: it is backed exactly when no event misconfirmed its task. */
  lemma ReachableReceiptRestsOnPassingBundle(s: State, events: seq<Event>, x: TxId)
    requires Initial(s) && IsConfirmed(Run(s, events).db, x, SubmitReceipt)
    ensures Backed(Run(s, events), x) <==> NeverMisconfirmsAt(s, events, Run(s, events).db.txs[x].task)
  {
    hide Good, Sound, Tracked, Run, Backed, IsMisconfirmed;
    InitialGood(s);
    GoodParts(s);
    RunGood(s, events);
    ConfirmedReceiptRestsOnPassingBundle(Run(s, events), x);
    var t := Run(s, events).db.txs[x].task;
    MisconfirmedExactly(s, events, t);
    NothingMisconfirmed(s, t);
  }

  /** On every receipt that waits for the chain, two events end with it confirmed and not backed. */
  lemma EveryPendingReceiptCanEndUnbacked(s: State, thread: ThreadId, x: TxId, id: nat, at: Time)
    requires Good(s) && IsPendingReceipt(s.db, x) && Free(s.db, s.db.txs[x].task, id) && ValidDate(at)
    ensures s.db.txs[x].hash.Some? && s.db.txs[x].task in s.db.tasks
    ensures var receipt := RepeatedCreation(s.db.txs[x], s.db.tasks[s.db.txs[x].task], id);
            var later := Run(s, [Begin(thread, OwnerRequest, x, s.db.txs[x].user), Finish(thread, Found(receipt), at)]);
            && IsConfirmed(later.db, x, SubmitReceipt) && !Backed(later, x)
            && (x in later.db.attestations <==> x in s.db.attestations)
  {
    hide Good, Run, Next, Free, RepeatedCreation, TaskMisconfirmed, Backed, Misconfirms, Phases;
    EveryPendingReceiptCanBeMisconfirmed(s, thread, x, id, at);
    var receipt := RepeatedCreation(s.db.txs[x], s.db.tasks[s.db.txs[x].task], id);
    var begin, finish := Begin(thread, OwnerRequest, x, s.db.txs[x].user), Finish(thread, Found(receipt), at);
    RunPair(s, begin, finish);
    NextGood(s, begin);
    NextGood(Next(s, begin), finish);
    var later := Next(Next(s, begin), finish);
    ConfirmedReceiptRestsOnPassingBundle(later, x);
    SameTask(s.db, Next(s, begin).db, x);
    SameTask(Next(s, begin).db, later.db, x);
  }

  lemma SameTask(db: Tables, later: Tables, x: TxId)
    requires Extends(db, later) && x in db.txs
    ensures x in later.txs && later.txs[x].task == db.txs[x].task
  {
    assert RowKept(db.txs[x], later.txs[x]);
  }

  // ----- what a creation witness says -----

  /** A successful receipt of the row's own hash and block logged the task's creation, with the task's own columns. */
  ghost predicate CreationLogged(w: Witness, row: Tx, t: Task) {
    && w.receipt.success && row.hash == Some(w.receipt.hash) && row.blockNumber == Some(w.receipt.blockNumber)
    && w.log in w.receipt.logs && w.log.address == t.contract && w.log.event.TaskCreatedLog?
    && w.log.event == TaskCreatedLog(w.log.event.taskId, t.creator, t.assignee, t.taskHash, t.policyHash,
                                     t.reward, w.log.event.deadlineSeconds)
    && (if t.deadline.Some? then w.log.event.deadlineSeconds * 1000 == t.deadline.value
        else w.log.event.deadlineSeconds == 0)
  }

  lemma CreationWitness(db: Tables, x: TxId, w: Witness)
    requires x in db.txs && db.txs[x].task in db.tasks && w.context.CreationContext? && Witnessed(db, x, w)
    requires TaskSound(db, db.txs[x].task)
    ensures CreationLogged(w, db.txs[x], db.tasks[db.txs[x].task])
  {
    hide Consistent, SecondsOf;
    var t := db.tasks[db.txs[x].task];
    SecondsOfDeadline(t, db.projects[t.project].repositoryUrl);
  }

  /** The seconds a reconciler compares with the log are those of the deadline column, and zero without one. */
  lemma SecondsOfDeadline(t: Task, url: string)
    requires Consistent(t, url)
    ensures if t.deadline.Some? then SecondsOf(t.canonical.deadlineSeconds) * 1000 == t.deadline.value
            else SecondsOf(t.canonical.deadlineSeconds) == 0
  {
    hide AcceptsCanonical, AcceptsColumns;
  }

  /**
   * What a misconfirmed receipt still has: its task is (open, open) under the chain task id of a log that repeats
   * the task's columns; it is attested exactly when it replaces no other row, and then by a passing bundle.
   */
  lemma MisconfirmedReceiptStillHas(s: State, x: TxId)
    requires Good(s) && IsConfirmed(s.db, x, SubmitReceipt)
    requires x in s.witnesses && s.witnesses[x].context.CreationContext?
    ensures s.db.txs[x].task in s.db.tasks
    ensures CreationLogged(s.witnesses[x], s.db.txs[x], s.db.tasks[s.db.txs[x].task])
    ensures var t := s.db.tasks[s.db.txs[x].task];
            t.offchain == Open && t.chain == ChainOpen && t.chainTaskId == Some(s.witnesses[x].log.event.taskId)
    ensures x in s.db.attestations <==> !s.db.txs[x].response.TxResponse?
    ensures RestsOnBundle(s.db, x) <==> x in s.db.attestations
  {
    hide Structure, Witnessed, WitnessTracked, RestsOnBundle, Tracked, ThreadsBound, ConfirmedWitnessed, RevertedFailed,
         TaskPhase, CreationLogged, BundleSound, RowSound, AtMostOne, SomeConfirmed, ReplacedUnattested;
    ConfirmedParts(s, x);
    WitnessKind(s.db, x, s.witnesses[x]);
    StructureTask(s.db, s.db.txs[x].task);
    CreationWitness(s.db, x, s.witnesses[x]);
    AttestedExactly(s.db, x);
    if x in s.db.attestations {
      AttestedRestsOnBundle(s.db, x);
    } else {
      UnattestedRestsOnNothing(s.db, x);
    }
  }

  lemma AttestedExactly(db: Tables, x: TxId)
    requires Structure(db) && x in db.txs && db.txs[x].intent == SubmitReceipt
    ensures x in db.attestations <==> !db.txs[x].response.TxResponse?
  {
    hide BundleSound;
    StructureRow(db, x);
    if x in db.attestations {
      StructureAttestation(db, x);
    }
  }

  lemma UnattestedRestsOnNothing(db: Tables, x: TxId)
    requires x !in db.attestations
    ensures !RestsOnBundle(db, x)
  {
    hide Evidence.EveryRequiredPassed;
  }

  /** Every misconfirmed receipt of the task was logged under this chain task id. */
  ghost predicate MisconfirmedUnder(s: State, t: TaskId, id: nat) {
    forall y | IsConfirmed(s.db, y, SubmitReceipt) && s.db.txs[y].task == t ::
      y in s.witnesses && (s.witnesses[y].context.CreationContext? && s.witnesses[y].log.event.TaskCreatedLog? ==>
                             s.witnesses[y].log.event.taskId == id)
  }

  /**
   * A confirmed creation was logged with the task's own columns; the logged chain id is the one the task carries
   * exactly when no misconfirmed receipt of the task was logged under another.
   */
  lemma ConfirmedCreationRestsOnLog(s: State, x: TxId)
    requires Good(s) && IsConfirmed(s.db, x, CreateTask)
    ensures s.db.txs[x].task in s.db.tasks && x in s.witnesses
    ensures CreationLogged(s.witnesses[x], s.db.txs[x], s.db.tasks[s.db.txs[x].task])
    ensures s.db.tasks[s.db.txs[x].task].chainTaskId == Some(s.witnesses[x].log.event.taskId) <==>
            MisconfirmedUnder(s, s.db.txs[x].task, s.witnesses[x].log.event.taskId)
  {
    hide Structure, Witnessed, Tracked, ThreadsBound, ConfirmedWitnessed, RevertedFailed, TaskPhase, TaskMisconfirmed,
         CreationLogged, RowSound, WitnessTracked;
    ConfirmedParts(s, x);
    var w, t := s.witnesses[x], s.db.txs[x].task;
    CreationContextOnly(s.db, x, w);
    StructureTask(s.db, t);
    CreationWitness(s.db, x, w);
    CreationLoggedKind(w, s.db.txs[x], s.db.tasks[t]);
    forall y | IsConfirmed(s.db, y, SubmitReceipt) && s.db.txs[y].task == t
      ensures y in s.witnesses
      ensures if s.witnesses[y].context.ReceiptContext? then !TaskMisconfirmed(s.db, t)
              else s.witnesses[y].log.event.TaskCreatedLog? && TaskMisconfirmed(s.db, t)
                   && s.db.tasks[t].chainTaskId == Some(s.witnesses[y].log.event.taskId)
    {
      ConfirmedParts(s, y);
      WitnessKind(s.db, y, s.witnesses[y]);
      ReceiptOfPhase(s.db, y);
    }
    if TaskMisconfirmed(s.db, t) {
      var y := MisconfirmedRowOf(s.db, t);
      assert IsConfirmed(s.db, y, SubmitReceipt) && s.db.txs[y].task == t;
    }
  }

  lemma CreationLoggedKind(w: Witness, row: Tx, t: Task)
    requires CreationLogged(w, row, t)
    ensures w.log.event.TaskCreatedLog?
  {
  }

  lemma MisconfirmedRowOf(db: Tables, t: TaskId) returns (y: TxId)
    requires t in db.tasks && TaskMisconfirmed(db, t)
    ensures IsConfirmed(db, y, SubmitReceipt) && db.txs[y].task == t
  {
    y :| Counts(db.txs, y, t, SubmitReceipt) && db.txs[y].status == Confirmed;
  }

  lemma CreationContextOnly(db: Tables, x: TxId, w: Witness)
    requires IsConfirmed(db, x, CreateTask) && db.txs[x].task in db.tasks && WitnessTracked(db, x, w)
    ensures w.context.CreationContext? && w.log.event.TaskCreatedLog?
    ensures TaskMisconfirmed(db, db.txs[x].task) || db.tasks[db.txs[x].task].chainTaskId == Some(w.log.event.taskId)
  {
  }

  // ----- who gets a context, and what it says -----

  /** The row waits for the chain and is this user's. */
  ghost predicate WaitsFor(db: Tables, x: TxId, user: UserId) {
    && x in db.txs && db.txs[x].user == user
    && (db.txs[x].status == Submitted || db.txs[x].status == UnknownReconcile)
  }

  /** The context repeats the columns of the row and its task at the time it was read. */
  ghost predicate RepeatsColumns(db: Tables, x: TxId, c: Context) {
    && x in db.txs && db.txs[x].task in db.tasks
    && var row, t := db.txs[x], db.tasks[db.txs[x].task];
    && c.tx == x && Some(c.hash) == row.hash && c.status == row.status && c.chainId == row.chainId
    && c.task == row.task && c.contract == t.contract && c.assignee == t.assignee
    && (c.CreationContext? ==>
          && c.taskHash == t.taskHash && c.policyHash == t.policyHash && c.creator == t.creator && c.reward == t.reward
          && (if t.deadline.Some? then c.deadlineSeconds * 1000 == t.deadline.value else c.deadlineSeconds == 0))
    && (c.ReceiptContext? ==>
          && Some(c.chainTaskId) == t.chainTaskId && x in db.attestations
          && var a := db.attestations[x];
          && c.evidenceHash == a.evidenceHash && c.commitHash == a.commitHash && c.expirySeconds == a.expirySeconds
          && c.verifier == a.verifier && c.digest == a.digest)
  }

  /**
   * In every reachable state: the owner's route gets a context for each of the caller's waiting rows, whatever its
   * intent; the members' route for each of the caller's waiting receipts that is attested; the job for every waiting
   * creation and attested receipt. What they get repeats the columns.
   */
  lemma RoutesReadExactly(s: State, route: Route, x: TxId, actor: UserId)
    requires Good(s)
    ensures ReadContext(s.db, route, x, actor).Some? <==>
            match route
            case OwnerRequest => WaitsFor(s.db, x, actor)
            case MemberRequest =>
              WaitsFor(s.db, x, actor) && s.db.txs[x].intent == SubmitReceipt && x in s.db.attestations
            case Job => x in s.db.txs && WaitsFor(s.db, x, s.db.txs[x].user)
                        && (s.db.txs[x].intent == CreateTask || x in s.db.attestations)
    ensures ReadContext(s.db, route, x, actor).Some? ==>
              var c := ReadContext(s.db, route, x, actor).value;
              && RepeatsColumns(s.db, x, c)
              && (c.CreationContext? <==> route == OwnerRequest || (route == Job && s.db.txs[x].intent == CreateTask))
  {
    hide Structure, Tracked, ThreadsTracked, WitnessesTracked, ThreadsBound, ConfirmedWitnessed, RevertedFailed,
         TaskPhase, TaskMisconfirmed, Consistent, SecondsOf, RowSound;
    if x in s.db.txs {
      StructureRow(s.db, x);
      WaitingRow(s.db, x);
      var t := s.db.tasks[s.db.txs[x].task];
      StructureTask(s.db, s.db.txs[x].task);
      SecondsOfDeadline(t, s.db.projects[t.project].repositoryUrl);
      if IsPendingReceipt(s.db, x) {
        PendingReceiptFacts(s.db, x);
      }
    }
  }

  /** In any tables at all, the routes give nothing to somebody who is not the owner, or not a member. */
  lemma RoutesAreGuarded(db: Tables, x: TxId, actor: UserId)
    ensures ReadContext(db, OwnerRequest, x, actor).Some? ==>
              && x in db.txs && db.txs[x].user == actor && db.txs[x].project in db.projects
              && db.projects[db.txs[x].project].owner == actor
    ensures ReadContext(db, MemberRequest, x, actor).Some? ==>
              && x in db.txs && db.txs[x].user == actor && db.txs[x].project in db.projects
              && (db.projects[db.txs[x].project].owner == actor
                  || actor in db.projects[db.txs[x].project].members)
  {
  }

  lemma WaitingRow(db: Tables, x: TxId)
    requires x in db.txs && RowSound(db, x)
    ensures db.txs[x].task in db.tasks && (db.txs[x].intent == CreateTask || db.txs[x].intent == SubmitReceipt)
    ensures db.txs[x].status in {Submitted, UnknownReconcile} ==>
              db.txs[x].hash.Some? && IsOwner(db, db.txs[x].project, db.txs[x].user)
  {
  }

  // ----- what never happens any more -----

  /** Over every run, a confirmed, reverted, replaced or rejected row stays exactly as it is. */
  lemma TerminalRowsNeverChange(s: State, events: seq<Event>, x: TxId)
    requires Sound(s) && x in s.db.txs && Terminal(s.db.txs[x].status)
    ensures x in Run(s, events).db.txs && Run(s, events).db.txs[x] == s.db.txs[x]
  {
    hide Sound, Extends, Run, RowKept;
    RunSound(s, events);
    ExtendsRow(s.db, Run(s, events).db, x);
    TerminalRowKept(s.db.txs[x], Run(s, events).db.txs[x]);
  }

  /** Only the project owner can report a wallet outcome, so another member's receipt row waits for ever. */
  lemma ForeignReceiptWaitsForever(s: State, events: seq<Event>, x: TxId)
    requires Sound(s) && x in s.db.txs && !IsOwner(s.db, s.db.txs[x].project, s.db.txs[x].user)
    ensures s.db.txs[x].intent == SubmitReceipt
    ensures x in Run(s, events).db.txs && Run(s, events).db.txs[x].status == WalletRequested
  {
    hide Structure, ThreadsBound, ConfirmedWitnessed, Extends, Run;
    var later := Run(s, events).db;
    RunSound(s, events);
    StructureRow(s.db, x);
    ExtendsRow(s.db, later, x);
    StructureRow(later, x);
    OwnersKept(s.db, later, s.db.txs[x].project, s.db.txs[x].user);
  }

  lemma OwnersKept(db: Tables, later: Tables, project: ProjectId, user: UserId)
    requires Extends(db, later) && project in db.projects
    ensures IsOwner(later, project, user) == IsOwner(db, project, user)
  {
  }

  /**
   * A replaced receipt leaves its task without a backed one for good: no run takes the task to
   * (receipt_submitted, receipt_submitted), and a receipt of it is confirmed only unattested, by a misconfirmation.
   */
  lemma ReplacedReceiptNeverConfirms(s: State, events: seq<Event>, x: TxId)
    requires Good(s) && x in s.db.txs && s.db.txs[x].intent == SubmitReceipt && s.db.txs[x].status == Replaced
    ensures var later, t := Run(s, events).db, s.db.txs[x].task;
            && t in later.tasks && later.tasks[t].chain != ChainReceiptSubmitted
            && (forall y | IsConfirmed(later, y, SubmitReceipt) && later.txs[y].task == t :: y !in later.attestations)
            && (NoneConfirmed(later.txs, t, SubmitReceipt) <==>
                !IsMisconfirmed(s.db, t) && NeverMisconfirmsAt(s, events, t))
  {
    hide Structure, Good, Sound, Tracked, Extends, Run, AllAdvanced, TaskPhase, TaskMisconfirmed, IsConfirmed,
         NoneConfirmed, RowKept;
    var later, t := Run(s, events), s.db.txs[x].task;
    RunGood(s, events);
    GoodParts(s);
    GoodParts(later);
    ExtendsRow(s.db, later.db, x);
    TerminalRowKept(s.db.txs[x], later.db.txs[x]);
    RowsHaveTasks(later.db);
    TrackedTask(later.db, t);
    MisconfirmedExactly(s, events, t);
    ReplacedBlocks(later.db, t, x);
  }

  lemma ReplacedBlocks(db: Tables, t: TaskId, x: TxId)
    requires t in db.tasks && (TaskPhase(db, t) || TaskMisconfirmed(db, t))
    requires x in db.txs && db.txs[x].task == t && db.txs[x].intent == SubmitReceipt && db.txs[x].status == Replaced
    ensures db.tasks[t].chain != ChainReceiptSubmitted
    ensures forall y | IsConfirmed(db, y, SubmitReceipt) && db.txs[y].task == t :: y !in db.attestations
    ensures NoneConfirmed(db.txs, t, SubmitReceipt) <==> !TaskMisconfirmed(db, t)
  {
    forall y | IsConfirmed(db, y, SubmitReceipt) && db.txs[y].task == t ensures y !in db.attestations {
      assert Counts(db.txs, y, t, SubmitReceipt);
    }
  }

  // ----- a reverted creation strands its task -----

  /** Waiting for the chain with no creation that could still arrive. */
  ghost predicate Stranded(db: Tables, t: TaskId) {
    && t in db.tasks
    && db.tasks[t].offchain == AwaitingChain && db.tasks[t].chain == NoChain
    && NoneCounts(db.txs, t, CreateTask)
  }

  lemma StrandedHasNoLiveRow(db: Tables, t: TaskId, x: TxId)
    requires Stranded(db, t) && Tracked(db) && x in db.txs && Live(db.txs[x].status)
    requires db.txs[x].intent in {CreateTask, SubmitReceipt}
    ensures db.txs[x].task != t
  {
    if db.txs[x].task == t {
      assert Counts(db.txs, x, t, db.txs[x].intent);
    }
  }

  lemma SameForReflexive(db: Tables, later: Tables, t: TaskId)
    requires t in db.tasks && t in later.tasks && later.tasks[t] == db.tasks[t]
    requires later.txs == db.txs && later.attestations == db.attestations
    ensures SameFor(db, later, t)
  {
  }

  lemma ConcernsOthers(db: Tables, later: Tables, t: TaskId, u: TaskId)
    requires Concerns(db, later, u) && t in db.tasks && t != u
    ensures SameFor(db, later, t)
  {
  }


  lemma OutcomeSparesStranded(db: Tables, i: OutcomeInput, t: TaskId)
    requires Structure(db) && Tracked(db) && Stranded(db, t)
    ensures SameFor(db, OutcomeStep(db, i).tables, t)
  {
    hide *;
    StrandedPair(db, t);
    OutcomeTables(db, i);
    var after := TransitionStep(db, i).tables;
    if after == db {
      SameForReflexive(db, db, t);
    } else {
      if i.tx in db.txs {
        StructureRow(db, i.tx);
      }
      TransitionShape(db, i);
      StructureIdentities(db);
      OutcomeTasksMoved(db, after, i);
      TasksMovedKept(db, after);
      TransitionRowSound(db, after, i);
      RowScope(db.txs[i.tx], after.txs[i.tx]);
      RowsHaveTasks(db);
      WaitingIsLive(db.txs[i.tx].status);
      StrandedHasNoLiveRow(db, t, i.tx);
      RowConcerns(db, after, i.tx, db.txs[i.tx].task);
      ConcernsOthers(db, after, t, db.txs[i.tx].task);
    }
  }

  lemma ReceiptSparesStranded(db: Tables, i: ReceiptInput, t: TaskId)
    requires Structure(db) && Stranded(db, t)
    ensures SameFor(db, CreateReceiptStep(db, i).tables, t)
  {
    hide *;
    var after := CreateReceiptStep(db, i).tables;
    StrandedPair(db, t);
    if after == db {
      SameForReflexive(db, db, t);
    } else {
      CreateReceiptShape(db, i);
      MemberProject(db, db.tasks[i.intent.task].project, i.intent.actor);
      ReceiptNotRefused(db, i);
      ReceiptRowSound(db, after, i);
      RowConcerns(db, after, i.intent.publicId, i.intent.task);
      ConcernsOthers(db, after, t, i.intent.task);
    }
  }

  lemma StrandedPair(db: Tables, t: TaskId)
    requires Stranded(db, t)
    ensures t in db.tasks && db.tasks[t].offchain == AwaitingChain && db.tasks[t].chain == NoChain
  {
  }

  lemma ReplacementSparesStranded(db: Tables, i: ReplacementInput, t: TaskId)
    requires Structure(db) && Tracked(db) && Stranded(db, t)
    ensures SameFor(db, ReplacementStep(db, i).tables, t)
  {
    hide *;
    var after := ReplacementStep(db, i).tables;
    StrandedPair(db, t);
    if after == db {
      SameForReflexive(db, db, t);
    } else {
      ReplacementShape(db, i);
      ReplacementStatuses(db, after, i);
      RowsHaveTasks(db);
      StrandedHasNoLiveRow(db, t, i.prior);
      TwoRowsConcern(db, after, i.prior, i.publicId, db.txs[i.prior].task);
      ConcernsOthers(db, after, t, db.txs[i.prior].task);
    }
  }

  lemma IntentSparesStranded(db: Tables, i: IntentInput, t: TaskId)
    requires Stranded(db, t)
    ensures SameFor(db, CreateIntentStep(db, i).tables, t)
  {
    hide *;
    var after := CreateIntentStep(db, i).tables;
    StrandedPair(db, t);
    if after == db {
      SameForReflexive(db, db, t);
    } else {
      CreateIntentShape(db, i);
      RowConcerns(db, after, i.publicId, i.task);
      ConcernsOthers(db, after, t, i.task);
    }
  }

  lemma ClientSparesStranded(db: Tables, e: Event, t: TaskId)
    requires Structure(db) && Tracked(db) && Stranded(db, t) && !e.Begin? && !e.Finish?
    ensures SameFor(db, ClientTables(db, e), t)
  {
    hide Structure, Tracked, Stranded, SameFor, CreateTaskStep, CreateIntentStep, CreateReceiptStep, OutcomeStep,
         ReplacementStep, PersistEvidenceStep, UpdateProjectStep, CreatePolicyStep, TaskSound, BundleSound;
    StrandedPair(db, t);
    var after := ClientTables(db, e);
    if after == db {
      SameForReflexive(db, db, t);
    } else {
      match e
      case PostTask(i) => CreateTaskShape(db, i); SameForReflexive(db, after, t);
      case OpenIntent(i) => IntentSparesStranded(db, i, t);
      case OpenReceipt(i) => ReceiptSparesStranded(db, i, t);
      case ReportOutcome(i) => OutcomeSparesStranded(db, i, t);
      case ReportReplacement(i) => ReplacementSparesStranded(db, i, t);
      case UploadEvidence(i) => PersistEvidenceShape(db, i); SameForReflexive(db, after, t);
      case PatchProject(p) => UpdateProjectShape(db, p); SameForReflexive(db, after, t);
      case StorePolicy(i) => CreatePolicyShape(db, i); SameForReflexive(db, after, t);
    }
  }

  lemma MarkedFromLive(db: Tables, c: Context, d: Decision, at: Time)
    requires !d.DecideConfirmed? && c.status in {Submitted, UnknownReconcile}
    requires WriteBack(db, c, d, at).tables != db
    ensures c.tx in db.txs
    ensures var after := WriteBack(db, c, d, at).tables;
            && c.tx in after.txs && after == db.(txs := db.txs[c.tx := after.txs[c.tx]])
            && after.txs[c.tx].task == db.txs[c.tx].task
            && (after.txs[c.tx] != db.txs[c.tx] ==> Live(db.txs[c.tx].status))
  {
  }

  lemma SameRowWritten(db: Tables, later: Tables, x: TxId)
    requires x in db.txs && x in later.txs && later == db.(txs := db.txs[x := later.txs[x]])
    requires later.txs[x] == db.txs[x]
    ensures later == db
  {
    assert later.txs == db.txs;
  }

  /** Whatever a reconciler's write changes, it starts from a row that is still live. */
  lemma WrittenFromLive(db: Tables, c: Context, answer: RpcAnswer, at: Time)
    requires Structure(db) && c.status in {Submitted, UnknownReconcile}
    requires WriteBack(db, c, Decide(c, answer), at).tables != db
    ensures var after := WriteBack(db, c, Decide(c, answer), at).tables;
            && c.tx in db.txs && Live(db.txs[c.tx].status) && db.txs[c.tx].task in db.tasks
            && db.txs[c.tx].intent in {CreateTask, SubmitReceipt}
            && c.tx in after.txs && after.txs == db.txs[c.tx := after.txs[c.tx]]
            && after.txs[c.tx].task == db.txs[c.tx].task
            && Concerns(db, after, db.txs[c.tx].task)
            && (after.txs[c.tx].status != Confirmed ==> after.tasks == db.tasks)
  {
    hide Structure, Decide, WriteBack, Confirms, Concerns, RowSound, Live;
    var d := Decide(c, answer);
    var after := WriteBack(db, c, d, at).tables;
    RowsHaveTasks(db);
    if d.DecideConfirmed? {
      ConfirmedAsDecided(db, c, answer, at);
      ConfirmationMoves(db, after, ConfirmationOf(c, d, at));
    } else {
      MarkedFromLive(db, c, d, at);
      if after.txs[c.tx] == db.txs[c.tx] {
        SameRowWritten(db, after, c.tx);
      }
      var u := db.txs[c.tx].task;
      assert after.tasks == db.tasks[u := after.tasks[u]];
      RowConcerns(db, after, c.tx, u);
    }
  }

  lemma FinishSparesStranded(db: Tables, c: Context, answer: RpcAnswer, at: Time, t: TaskId)
    requires Structure(db) && Tracked(db) && Stranded(db, t) && c.status in {Submitted, UnknownReconcile}
    ensures SameFor(db, WriteBack(db, c, Decide(c, answer), at).tables, t)
  {
    hide *;
    var d := Decide(c, answer);
    var after := WriteBack(db, c, d, at).tables;
    StrandedPair(db, t);
    RowsHaveTasks(db);
    if after == db {
      SameForReflexive(db, db, t);
    } else {
      WrittenFromLive(db, c, answer, at);
      StrandedHasNoLiveRow(db, t, c.tx);
      ConcernsOthers(db, after, t, db.txs[c.tx].task);
    }
  }

  lemma StrandedKept(db: Tables, later: Tables, t: TaskId)
    requires Stranded(db, t) && SameFor(db, later, t)
    ensures Stranded(later, t)
  {
    SameForCounts(db, later, t, CreateTask);
  }

  lemma NextStranded(s: State, e: Event, t: TaskId)
    requires Good(s) && Stranded(s.db, t)
    ensures Stranded(Next(s, e).db, t)
  {
    hide Structure, Tracked, ThreadsTracked, WitnessesTracked, Stranded, ClientTables, Bound, Decide, WriteBack,
         ReadContext, SameFor, ConfirmedWitnessed, RevertedFailed;
    if e.Finish? {
      if e.thread in s.threads {
        BoundContext(s.db, s.threads[e.thread]);
        FinishSparesStranded(s.db, s.threads[e.thread], e.answer, e.at, t);
        StrandedKept(s.db, Next(s, e).db, t);
      }
    } else if !e.Begin? {
      ClientSparesStranded(s.db, e, t);
      StrandedKept(s.db, Next(s, e).db, t);
    }
  }

  /** Once its last creation has reverted, a task awaits the chain for ever: no run takes it anywhere else. */
  lemma {:induction false} StrandedForever(s: State, events: seq<Event>, t: TaskId)
    requires Good(s) && Stranded(s.db, t)
    ensures Stranded(Run(s, events).db, t)
    decreases |events|
  {
    hide Good, Next, Misconfirms, Stranded;
    if events != [] {
      NextGood(s, events[0]);
      NextStranded(s, events[0], t);
      StrandedForever(Next(s, events[0]), events[1..], t);
    }
  }

  lemma RevertingWriteStrands(db: Tables, c: Context, answer: RpcAnswer, at: Time, x: TxId)
    requires Structure(db) && Tracked(db) && c.status in {Submitted, UnknownReconcile}
    requires x in db.txs && db.txs[x].intent == CreateTask && Live(db.txs[x].status)
    requires var after := WriteBack(db, c, Decide(c, answer), at).tables;
             x in after.txs && after.txs[x].status == Reverted
    ensures Stranded(WriteBack(db, c, Decide(c, answer), at).tables, db.txs[x].task)
  {
    hide Structure, Tracked, Stranded, Decide, WriteBack, TaskPhase, Concerns, TransitionRow;
    var after := WriteBack(db, c, Decide(c, answer), at).tables;
    RowsHaveTasks(db);
    TrackedTask(db, db.txs[x].task);
    LiveRowFixesPair(db, x);
    WrittenFromLive(db, c, answer, at);
    assert c.tx == x;
    WrittenIntent(db, c, answer, at);
    RevertedLast(db, after, x, db.txs[x].task);
  }

  lemma WrittenIntent(db: Tables, c: Context, answer: RpcAnswer, at: Time)
    requires Structure(db) && c.status in {Submitted, UnknownReconcile}
    ensures var after := WriteBack(db, c, Decide(c, answer), at).tables;
            c.tx in db.txs ==> c.tx in after.txs && after.txs[c.tx].intent == db.txs[c.tx].intent
  {
    hide *;
    FinishKeeps(db, c, answer, at);
    if c.tx in db.txs {
      ExtendsRow(db, WriteBack(db, c, Decide(c, answer), at).tables, c.tx);
      RowScope(db.txs[c.tx], WriteBack(db, c, Decide(c, answer), at).tables.txs[c.tx]);
    }
  }

  /** A reconciler that marks a live creation as reverted strands its task. */
  lemma RevertStrands(s: State, e: Event, x: TxId)
    requires Good(s) && e.Finish?
    requires x in s.db.txs && s.db.txs[x].intent == CreateTask && Live(s.db.txs[x].status)
    requires x in Next(s, e).db.txs && Next(s, e).db.txs[x].status == Reverted
    ensures Stranded(Next(s, e).db, s.db.txs[x].task)
  {
    hide Structure, Tracked, ThreadsTracked, WitnessesTracked, Stranded, Bound, Decide, WriteBack, ConfirmedWitnessed;
    BoundContext(s.db, s.threads[e.thread]);
    RevertingWriteStrands(s.db, s.threads[e.thread], e.answer, e.at, x);
  }

  lemma RevertedLast(db: Tables, later: Tables, x: TxId, t: TaskId)
    requires t in db.tasks && TaskPhase(db, t) && db.tasks[t].offchain == AwaitingChain && db.tasks[t].chain == NoChain
    requires later.tasks == db.tasks && x in later.txs && later.txs == db.txs[x := later.txs[x]]
    requires Counts(db.txs, x, t, CreateTask) && later.txs[x].status == Reverted
    requires later.txs[x].task == t && later.txs[x].intent == CreateTask
    ensures Stranded(later, t)
  {
    MovePhase(db.txs, later.txs, x, t, CreateTask);
  }

  // ----- archived projects -----

  /** What is new in `later` belongs to active projects, except for rows that replace others. */
  ghost predicate GrowsOnlyActive(db: Tables, later: Tables) {
    && (forall t | t in later.tasks && t !in db.tasks :: ActiveProject(db, later.tasks[t].project))
    && (forall x | x in later.txs && x !in db.txs ::
          ActiveProject(db, later.txs[x].project) || later.txs[x].response.TxResponse?)
    && (forall p | p in later.policies && p !in db.policies :: ActiveProject(db, later.policies[p].project))
  }

  predicate ActiveProject(db: Tables, p: ProjectId) {
    p in db.projects && db.projects[p].active
  }

  lemma TaskNeedsActive(db: Tables, i: CreateTaskInput)
    ensures GrowsOnlyActive(db, CreateTaskStep(db, i).tables)
  {
    hide CreateTaskStep, TaskSound;
    if CreateTaskStep(db, i).tables != db {
      CreateTaskShape(db, i);
    }
  }

  lemma IntentNeedsActive(db: Tables, i: IntentInput)
    ensures GrowsOnlyActive(db, CreateIntentStep(db, i).tables)
  {
    hide ReadTask, KeyTaken;
  }

  lemma ReceiptNeedsActive(db: Tables, i: ReceiptInput)
    ensures GrowsOnlyActive(db, CreateReceiptStep(db, i).tables)
  {
    hide ReadTask, KeyTaken, BundleBound, NewerPassing, OtherReceiptPending;
  }

  lemma PolicyNeedsActive(db: Tables, i: PolicyInput)
    ensures GrowsOnlyActive(db, CreatePolicyStep(db, i).tables)
  {
    hide CreatePolicyStep, PolicyHashTaken, Activated;
    if CreatePolicyStep(db, i).tables != db {
      PolicyAdded(db, i);
    }
  }

  lemma ReplacementNeedsResponse(db: Tables, i: ReplacementInput)
    ensures GrowsOnlyActive(db, ReplacementStep(db, i).tables)
  {
    if ReplacementStep(db, i).tables != db {
      ReplacementShape(db, i);
    }
  }

  /** An archived project gains no task, no intent and no policy; only what is under way can still be replaced. */
  lemma ArchivedProjectsGainNothing(db: Tables, e: Event)
    requires Structure(db) && !e.Begin? && !e.Finish?
    ensures GrowsOnlyActive(db, ClientTables(db, e))
  {
    hide Structure, CreateTaskStep, CreateIntentStep, CreateReceiptStep, OutcomeStep, ReplacementStep,
         PersistEvidenceStep, UpdateProjectStep, CreatePolicyStep, TaskSound, BundleSound, RowSound;
    var after := ClientTables(db, e);
    match e
    case PostTask(i) => TaskNeedsActive(db, i);
    case OpenIntent(i) => IntentNeedsActive(db, i);
    case OpenReceipt(i) => ReceiptNeedsActive(db, i);
    case ReportOutcome(i) =>
      if after != db {
        if i.tx in db.txs {
          StructureRow(db, i.tx);
        }
        OutcomeTables(db, i);
        TransitionShape(db, i);
      }
    case ReportReplacement(i) => ReplacementNeedsResponse(db, i);
    case UploadEvidence(i) =>
      if after != db {
        PersistEvidenceShape(db, i);
      }
    case PatchProject(p) => UpdateProjectShape(db, p);
    case StorePolicy(i) => PolicyNeedsActive(db, i);
  }
}
