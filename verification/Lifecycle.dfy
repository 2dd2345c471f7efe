/** The states a task and its transactions go through together. */
module Lifecycle {
  import opened Prelude
  import opened Tasks
  import opened ChainTransactions
  import opened Store
  import opened Invariants

  /** A live or confirmed transaction of the task with this intent. */
  predicate Counts(txs: map<TxId, Tx>, x: TxId, t: TaskId, k: Intent) {
    && x in txs
    && txs[x].task == t
    && txs[x].intent == k
    && (Live(txs[x].status) || txs[x].status == Confirmed)
  }

  ghost predicate AtMostOne(txs: map<TxId, Tx>, t: TaskId, k: Intent) {
    forall a, b | Counts(txs, a, t, k) && Counts(txs, b, t, k) :: a == b
  }

  ghost predicate NoneCounts(txs: map<TxId, Tx>, t: TaskId, k: Intent) {
    forall a :: !Counts(txs, a, t, k)
  }

  ghost predicate NoneConfirmed(txs: map<TxId, Tx>, t: TaskId, k: Intent) {
    forall a | Counts(txs, a, t, k) :: txs[a].status != Confirmed
  }

  ghost predicate SomeConfirmed(txs: map<TxId, Tx>, t: TaskId, k: Intent) {
    exists a :: Counts(txs, a, t, k) && txs[a].status == Confirmed
  }

  /** Once a receipt has been replaced, none that counts is attested. */
  ghost predicate ReplacedUnattested(txs: map<TxId, Tx>, attestations: map<TxId, Attestation>, t: TaskId) {
    forall a, r | Counts(txs, a, t, SubmitReceipt) && r in txs && txs[r].task == t
                  && txs[r].intent == SubmitReceipt && txs[r].status == Replaced :: a !in attestations
  }

  /** Moreover only attested receipts confirm. */
  ghost predicate AttestationRules(txs: map<TxId, Tx>, attestations: map<TxId, Attestation>, t: TaskId) {
    && (forall a | Counts(txs, a, t, SubmitReceipt) && txs[a].status == Confirmed :: a in attestations)
    && ReplacedUnattested(txs, attestations, t)
  }

  /** The five pairs of statuses, and what each says about the task's transactions. */
  ghost predicate PairSound(txs: map<TxId, Tx>, task: Task, t: TaskId) {
    match (task.offchain, task.chain)
    case (Draft, NoChain) => NoneCounts(txs, t, CreateTask) && NoneCounts(txs, t, SubmitReceipt)
    case (AwaitingChain, NoChain) => NoneConfirmed(txs, t, CreateTask) && NoneCounts(txs, t, SubmitReceipt)
    case (Open, ChainOpen) => SomeConfirmed(txs, t, CreateTask) && NoneConfirmed(txs, t, SubmitReceipt)
    case (Draft, ChainOpen) => SomeConfirmed(txs, t, CreateTask) && NoneCounts(txs, t, SubmitReceipt)
    case (ReceiptSubmitted, ChainReceiptSubmitted) =>
      SomeConfirmed(txs, t, CreateTask) && SomeConfirmed(txs, t, SubmitReceipt)
    case _ => false
  }

  ghost predicate TaskPhase(db: Tables, t: TaskId)
    requires t in db.tasks
  {
    && PairSound(db.txs, db.tasks[t], t)
    && (db.tasks[t].chainTaskId.Some? <==> db.tasks[t].chain != NoChain)
    && AtMostOne(db.txs, t, CreateTask)
    && AtMostOne(db.txs, t, SubmitReceipt)
    && AttestationRules(db.txs, db.attestations, t)
  }

  /**
   * A receipt has been confirmed as if it were the task's creation: the task is still (open, open), now with a
   * confirmed transaction of either intent and none that could move it on.
   */
  ghost predicate TaskMisconfirmed(db: Tables, t: TaskId)
    requires t in db.tasks
  {
    && db.tasks[t].offchain == Open && db.tasks[t].chain == ChainOpen && db.tasks[t].chainTaskId.Some?
    && AtMostOne(db.txs, t, CreateTask) && SomeConfirmed(db.txs, t, CreateTask)
    && AtMostOne(db.txs, t, SubmitReceipt) && SomeConfirmed(db.txs, t, SubmitReceipt)
    && ReplacedUnattested(db.txs, db.attestations, t)
  }

  /** Every task has the transactions its pair allows. */
  ghost predicate Phases(db: Tables) {
    forall t | t in db.tasks :: TaskPhase(db, t)
  }

  /** What every run keeps: a task has the transactions its pair allows, or one of its receipts was misconfirmed. */
  ghost predicate Tracked(db: Tables) {
    forall t | t in db.tasks :: TaskPhase(db, t) || TaskMisconfirmed(db, t)
  }

  lemma PhaseIsNotMisconfirmed(db: Tables, t: TaskId)
    requires t in db.tasks
    ensures !(TaskPhase(db, t) && TaskMisconfirmed(db, t))
  {
  }

  /** The five ways one step can move a task's pair, apart from leaving it. */
  predicate PairEdge(before: Task, after: Task) {
    || (after.offchain == before.offchain && after.chain == before.chain && after.chainTaskId == before.chainTaskId)
    || (before.chain == NoChain && after.chain == NoChain && after.chainTaskId == before.chainTaskId
        && before.offchain == Draft && after.offchain == AwaitingChain)
    || (before.chain == NoChain && after.chain == NoChain && after.chainTaskId == before.chainTaskId
        && before.offchain == AwaitingChain && after.offchain == Draft)
    || (before.chain == NoChain && before.offchain == AwaitingChain && after.chain == ChainOpen
        && after.offchain == Open && after.chainTaskId.Some?)
    || (before.chain == ChainOpen && before.offchain == Open && after.chainTaskId == before.chainTaskId
        && after.chain == ChainOpen && after.offchain == Draft)
    || (before.chain == ChainOpen && before.offchain == Open && after.chainTaskId == before.chainTaskId
        && after.chain == ChainReceiptSubmitted && after.offchain == ReceiptSubmitted)
  }

  // ----- tasks a step does not concern -----

  /** The rows of task `t`, and the task itself, are the same. */
  ghost predicate SameFor(db: Tables, later: Tables, t: TaskId) {
    && t in db.tasks && t in later.tasks && later.tasks[t] == db.tasks[t]
    && (forall x | x in db.txs && db.txs[x].task == t :: x in later.txs && later.txs[x] == db.txs[x])
    && (forall x | x in later.txs && later.txs[x].task == t :: x in db.txs && later.txs[x] == db.txs[x])
    && (forall x | x in later.txs && later.txs[x].task == t :: x in db.attestations <==> x in later.attestations)
  }

  lemma SameForCounts(db: Tables, later: Tables, t: TaskId, k: Intent)
    requires SameFor(db, later, t)
    ensures forall x :: Counts(db.txs, x, t, k) <==> Counts(later.txs, x, t, k)
    ensures forall x | Counts(db.txs, x, t, k) :: x in later.txs && later.txs[x] == db.txs[x]
    ensures SomeConfirmed(db.txs, t, k) ==> SomeConfirmed(later.txs, t, k)
  {
    if SomeConfirmed(db.txs, t, k) {
      var a :| Counts(db.txs, a, t, k) && db.txs[a].status == Confirmed;
      assert Counts(later.txs, a, t, k);
    }
  }

  lemma SamePhase(db: Tables, later: Tables, t: TaskId)
    requires SameFor(db, later, t)
    ensures TaskPhase(db, t) ==> TaskPhase(later, t)
    ensures TaskMisconfirmed(db, t) ==> TaskMisconfirmed(later, t)
  {
    SameForCounts(db, later, t, CreateTask);
    SameForCounts(db, later, t, SubmitReceipt);
  }

  /** The task keeps its phase and moves along an edge; if one of its receipts was misconfirmed, nothing moves. */
  ghost predicate TaskMoves(db: Tables, later: Tables, t: TaskId) {
    && t in db.tasks && t in later.tasks
    && (TaskPhase(db, t) ==> TaskPhase(later, t) && PairEdge(db.tasks[t], later.tasks[t]))
    && (TaskMisconfirmed(db, t) ==> TaskMisconfirmed(later, t) && SameFor(db, later, t))
  }

  /** Every task moves, and new ones are in phase. */
  ghost predicate Moves(db: Tables, later: Tables) {
    && (forall t | t in db.tasks :: TaskMoves(db, later, t))
    && (forall t | t in later.tasks && t !in db.tasks :: TaskPhase(later, t))
  }

  lemma SameMoves(db: Tables, later: Tables, t: TaskId)
    requires SameFor(db, later, t)
    ensures TaskMoves(db, later, t)
  {
    SamePhase(db, later, t);
  }

  lemma NoMove(db: Tables)
    ensures Moves(db, db)
  {
    forall t | t in db.tasks ensures TaskMoves(db, db, t) {
    }
  }

  lemma MovesKeep(db: Tables, later: Tables)
    requires Moves(db, later)
    ensures Tracked(db) ==> Tracked(later)
    ensures Phases(db) ==> Phases(later)
  {
    hide TaskPhase, TaskMisconfirmed, PairEdge, SameFor;
    forall t | t in later.tasks && t in db.tasks ensures TaskMoves(db, later, t) {
    }
  }

  /** Only the rows and the task of `t` change. */
  ghost predicate Concerns(db: Tables, later: Tables, t: TaskId) {
    && later.tasks.Keys == db.tasks.Keys
    && (forall u | u in db.tasks && u != t :: SameFor(db, later, u))
  }

  lemma OneMoveIsEnough(db: Tables, later: Tables, t: TaskId)
    requires Concerns(db, later, t) && t in db.tasks && t in later.tasks
    requires TaskPhase(db, t) && TaskPhase(later, t) && PairEdge(db.tasks[t], later.tasks[t])
    ensures Moves(db, later)
  {
    hide TaskPhase, TaskMisconfirmed, SameFor, PairEdge;
    PhaseIsNotMisconfirmed(db, t);
    forall u | u in db.tasks ensures TaskMoves(db, later, u) {
      if u != t {
        SameMoves(db, later, u);
      }
    }
  }

  lemma RowConcerns(db: Tables, later: Tables, x: TxId, t: TaskId)
    requires x in later.txs && later.txs == db.txs[x := later.txs[x]]
    requires later.txs[x].task == t && (x in db.txs ==> db.txs[x].task == t)
    requires t in db.tasks && t in later.tasks && later.tasks == db.tasks[t := later.tasks[t]]
    requires forall a | a != x :: a in db.attestations <==> a in later.attestations
    ensures Concerns(db, later, t)
  {
    forall u | u in db.tasks && u != t ensures SameFor(db, later, u) {
    }
  }

  // ----- steps without rows -----

  lemma NewTaskMoves(db: Tables, later: Tables, id: TaskId)
    requires id !in db.tasks && id in later.tasks
    requires forall x | x in db.txs :: db.txs[x].task in db.tasks
    requires later.tasks == db.tasks[id := later.tasks[id]]
    requires later.txs == db.txs && later.attestations == db.attestations
    requires later.tasks[id].offchain == Draft && later.tasks[id].chain == NoChain
    requires later.tasks[id].chainTaskId.None?
    ensures Moves(db, later)
  {
    assert NoneCounts(later.txs, id, CreateTask) && NoneCounts(later.txs, id, SubmitReceipt);
    assert TaskPhase(later, id);
    hide TaskPhase, TaskMisconfirmed, PairEdge;
    forall u | u in db.tasks ensures TaskMoves(db, later, u) {
      assert SameFor(db, later, u);
      SameMoves(db, later, u);
    }
  }

  lemma SameRowsMove(db: Tables, later: Tables)
    requires later.tasks == db.tasks && later.txs == db.txs && later.attestations == db.attestations
    ensures Moves(db, later)
  {
    hide TaskPhase, TaskMisconfirmed, PairEdge;
    forall u | u in db.tasks ensures TaskMoves(db, later, u) {
      assert SameFor(db, later, u);
      SameMoves(db, later, u);
    }
  }

  // ----- the changes of one task's rows -----

  lemma CountsElsewhere(txs: map<TxId, Tx>, later: map<TxId, Tx>, x: TxId, t: TaskId, k: Intent)
    requires x in later && later == txs[x := later[x]]
    ensures forall a {:trigger Counts(later, a, t, k)} {:trigger Counts(txs, a, t, k)} | a != x ::
              Counts(later, a, t, k) <==> Counts(txs, a, t, k)
  {
  }

  /** A row enters as live: nothing counted under its intent before. */
  lemma EnterPhase(txs: map<TxId, Tx>, later: map<TxId, Tx>, x: TxId, t: TaskId, k: Intent)
    requires x !in txs && x in later && later == txs[x := later[x]]
    requires later[x].task == t && later[x].intent == k && Live(later[x].status)
    requires NoneCounts(txs, t, k)
    ensures AtMostOne(later, t, k) && NoneConfirmed(later, t, k)
  {
    CountsElsewhere(txs, later, x, t, k);
  }

  /** Rows of the other intent are not affected by a change of `x`. */
  lemma OtherIntent(txs: map<TxId, Tx>, later: map<TxId, Tx>, x: TxId, t: TaskId, k: Intent)
    requires x in later && later == txs[x := later[x]]
    requires later[x].intent != k && (x in txs ==> txs[x].intent != k)
    ensures forall a :: Counts(later, a, t, k) <==> Counts(txs, a, t, k)
    ensures AtMostOne(txs, t, k) ==> AtMostOne(later, t, k)
    ensures NoneCounts(txs, t, k) ==> NoneCounts(later, t, k)
    ensures NoneConfirmed(txs, t, k) ==> NoneConfirmed(later, t, k)
    ensures SomeConfirmed(txs, t, k) ==> SomeConfirmed(later, t, k)
  {
    CountsElsewhere(txs, later, x, t, k);
    if SomeConfirmed(txs, t, k) {
      var a :| Counts(txs, a, t, k) && txs[a].status == Confirmed;
      assert Counts(later, a, t, k);
    }
  }

  /** The one counting row of its intent changes status. */
  lemma MovePhase(txs: map<TxId, Tx>, later: map<TxId, Tx>, x: TxId, t: TaskId, k: Intent)
    requires Counts(txs, x, t, k) && AtMostOne(txs, t, k)
    requires x in later && later == txs[x := later[x]] && later[x].task == t && later[x].intent == k
    ensures AtMostOne(later, t, k)
    ensures later[x].status == Confirmed ==> SomeConfirmed(later, t, k)
    ensures Live(later[x].status) ==> NoneConfirmed(later, t, k)
    ensures !Live(later[x].status) && later[x].status != Confirmed ==> NoneCounts(later, t, k)
  {
    CountsElsewhere(txs, later, x, t, k);
    if later[x].status == Confirmed {
      assert Counts(later, x, t, k);
    }
  }

  /** A live creation is only possible before the task is on chain, a live receipt only while it is open. */
  lemma LiveRowFixesPair(db: Tables, x: TxId)
    requires x in db.txs && db.txs[x].task in db.tasks
    requires TaskPhase(db, db.txs[x].task) || TaskMisconfirmed(db, db.txs[x].task)
    requires Live(db.txs[x].status) && db.txs[x].intent in {CreateTask, SubmitReceipt}
    ensures TaskPhase(db, db.txs[x].task)
    ensures var task := db.tasks[db.txs[x].task];
            if db.txs[x].intent == CreateTask then task.offchain == AwaitingChain && task.chain == NoChain
            else task.offchain == Open && task.chain == ChainOpen
  {
    var t := db.txs[x].task;
    assert Counts(db.txs, x, t, db.txs[x].intent);
    LiveExcludesConfirmed(db.txs, x, t, db.txs[x].intent);
  }

  lemma LiveExcludesConfirmed(txs: map<TxId, Tx>, x: TxId, t: TaskId, k: Intent)
    requires Counts(txs, x, t, k) && Live(txs[x].status) && AtMostOne(txs, t, k)
    ensures !SomeConfirmed(txs, t, k)
  {
  }

  // ----- the phase of the one task a step concerns -----

  lemma IntentPhase(db: Tables, later: Tables, x: TxId, t: TaskId)
    requires t in db.tasks && TaskPhase(db, t) && db.tasks[t].offchain == Draft && db.tasks[t].chain == NoChain
    requires x !in db.txs && x in later.txs && later.txs == db.txs[x := later.txs[x]]
    requires later.txs[x].task == t && later.txs[x].intent == CreateTask && later.txs[x].status == WalletRequested
    requires later.attestations == db.attestations
    requires t in later.tasks && later.tasks[t] == db.tasks[t].(offchain := AwaitingChain,
                                                                updatedAt := later.tasks[t].updatedAt)
    ensures TaskPhase(later, t) && PairEdge(db.tasks[t], later.tasks[t])
  {
    EnterPhase(db.txs, later.txs, x, t, CreateTask);
    OtherIntent(db.txs, later.txs, x, t, SubmitReceipt);
  }

  lemma ReceiptPhase(db: Tables, later: Tables, x: TxId, t: TaskId)
    requires t in db.tasks && TaskPhase(db, t) && db.tasks[t].offchain == Open && db.tasks[t].chain == ChainOpen
    requires !OtherReceiptPending(db, t)
    requires x !in db.txs && x in later.txs && later.txs == db.txs[x := later.txs[x]]
    requires later.txs[x].task == t && later.txs[x].intent == SubmitReceipt
    requires later.txs[x].status == WalletRequested
    requires x in later.attestations
    requires t in later.tasks && later.tasks[t] == db.tasks[t]
    ensures TaskPhase(later, t) && PairEdge(db.tasks[t], later.tasks[t])
  {
    assert NoneCounts(db.txs, t, SubmitReceipt);
    EnterPhase(db.txs, later.txs, x, t, SubmitReceipt);
    OtherIntent(db.txs, later.txs, x, t, CreateTask);
    assert forall r | r in later.txs && later.txs[r].task == t && later.txs[r].intent == SubmitReceipt ::
        later.txs[r].status != Replaced;
  }

  /** The row `x` of task `t` moves from one status that counts to another status; the task moves with it. */
  ghost predicate RowMoves(db: Tables, later: Tables, x: TxId, t: TaskId) {
    && x in db.txs && x in later.txs && later.txs == db.txs[x := later.txs[x]]
    && db.txs[x].task == t && later.txs[x].task == t
    && db.txs[x].intent in {CreateTask, SubmitReceipt} && later.txs[x].intent == db.txs[x].intent
    && Live(db.txs[x].status)
    && later.attestations == db.attestations
    && t in db.tasks && t in later.tasks
  }

  lemma OutcomePhase(db: Tables, later: Tables, x: TxId, t: TaskId)
    requires RowMoves(db, later, x, t) && TaskPhase(db, t)
    requires later.txs[x].status in {Submitted, UnknownReconcile, Reverted}
    requires later.tasks[t] == db.tasks[t]
    ensures TaskPhase(later, t) && PairEdge(db.tasks[t], later.tasks[t])
  {
    var k := db.txs[x].intent;
    var other := if k == CreateTask then SubmitReceipt else CreateTask;
    LiveRowFixesPair(db, x);
    assert Counts(db.txs, x, t, k);
    MovePhase(db.txs, later.txs, x, t, k);
    OtherIntent(db.txs, later.txs, x, t, other);
    AttestationRulesMoved(db, later, x, t);
  }

  /** A misconfirmed receipt leaves its task where it is, with its confirmed creation and now a confirmed receipt. */
  lemma MisconfirmedPhase(db: Tables, later: Tables, x: TxId, t: TaskId)
    requires RowMoves(db, later, x, t) && TaskPhase(db, t)
    requires db.txs[x].intent == SubmitReceipt && later.txs[x].status == Confirmed
    requires later.tasks[t].offchain == Open && later.tasks[t].chain == ChainOpen && later.tasks[t].chainTaskId.Some?
    ensures TaskMisconfirmed(later, t)
  {
    LiveRowFixesPair(db, x);
    assert Counts(db.txs, x, t, SubmitReceipt);
    MovePhase(db.txs, later.txs, x, t, SubmitReceipt);
    OtherIntent(db.txs, later.txs, x, t, CreateTask);
    CountsElsewhere(db.txs, later.txs, x, t, SubmitReceipt);
  }

  lemma AttestationRulesMoved(db: Tables, later: Tables, x: TxId, t: TaskId)
    requires RowMoves(db, later, x, t) && AttestationRules(db.txs, db.attestations, t)
    requires later.txs[x].status in {Submitted, UnknownReconcile, Reverted, RejectedByUser}
             || (later.txs[x].status == Confirmed && (later.txs[x].intent == SubmitReceipt ==> x in db.attestations))
    ensures AttestationRules(later.txs, later.attestations, t)
  {
    CountsElsewhere(db.txs, later.txs, x, t, SubmitReceipt);
    assert db.txs[x].intent == SubmitReceipt ==> Counts(db.txs, x, t, SubmitReceipt);
  }

  lemma RejectedPhase(db: Tables, later: Tables, x: TxId, t: TaskId)
    requires RowMoves(db, later, x, t) && TaskPhase(db, t)
    requires later.txs[x].status == RejectedByUser
    requires later.tasks[t] == db.tasks[t].(offchain := Draft, updatedAt := later.tasks[t].updatedAt)
    ensures TaskPhase(later, t) && PairEdge(db.tasks[t], later.tasks[t])
  {
    var k := db.txs[x].intent;
    var other := if k == CreateTask then SubmitReceipt else CreateTask;
    LiveRowFixesPair(db, x);
    assert Counts(db.txs, x, t, k);
    MovePhase(db.txs, later.txs, x, t, k);
    OtherIntent(db.txs, later.txs, x, t, other);
    AttestationRulesMoved(db, later, x, t);
  }

  lemma CreatedPhase(db: Tables, later: Tables, x: TxId, t: TaskId)
    requires RowMoves(db, later, x, t) && TaskPhase(db, t)
    requires db.txs[x].intent == CreateTask && later.txs[x].status == Confirmed
    requires later.tasks[t].offchain == Open && later.tasks[t].chain == ChainOpen && later.tasks[t].chainTaskId.Some?
    ensures TaskPhase(later, t) && PairEdge(db.tasks[t], later.tasks[t])
  {
    LiveRowFixesPair(db, x);
    assert Counts(db.txs, x, t, CreateTask);
    MovePhase(db.txs, later.txs, x, t, CreateTask);
    OtherIntent(db.txs, later.txs, x, t, SubmitReceipt);
    AttestationRulesMoved(db, later, x, t);
    assert NoneConfirmed(later.txs, t, SubmitReceipt);
  }

  lemma SubmittedPhase(db: Tables, later: Tables, x: TxId, t: TaskId)
    requires RowMoves(db, later, x, t) && TaskPhase(db, t)
    requires db.txs[x].intent == SubmitReceipt && later.txs[x].status == Confirmed && x in db.attestations
    requires later.tasks[t] == db.tasks[t].(offchain := ReceiptSubmitted, chain := ChainReceiptSubmitted,
                                            updatedAt := later.tasks[t].updatedAt)
    ensures TaskPhase(later, t) && PairEdge(db.tasks[t], later.tasks[t])
  {
    LiveRowFixesPair(db, x);
    assert Counts(db.txs, x, t, SubmitReceipt);
    MovePhase(db.txs, later.txs, x, t, SubmitReceipt);
    OtherIntent(db.txs, later.txs, x, t, CreateTask);
    AttestationRulesMoved(db, later, x, t);
  }

  /** A replacement passes the prior row's place on to the new row. */
  lemma ReplacedPhase(db: Tables, later: Tables, x: TxId, y: TxId, t: TaskId)
    requires t in db.tasks && TaskPhase(db, t) && later.tasks == db.tasks && later.attestations == db.attestations
    requires x in db.txs && y !in db.txs && y !in db.attestations && x in later.txs && y in later.txs
    requires later.txs == db.txs[y := later.txs[y]][x := later.txs[x]]
    requires db.txs[x].task == t && db.txs[x].intent in {CreateTask, SubmitReceipt} && Live(db.txs[x].status)
    requires later.txs[x].task == t && later.txs[x].intent == db.txs[x].intent && later.txs[x].status == Replaced
    requires later.txs[y].task == t && later.txs[y].intent == db.txs[x].intent && later.txs[y].status == Submitted
    ensures TaskPhase(later, t) && PairEdge(db.tasks[t], later.tasks[t])
  {
    var k := db.txs[x].intent;
    var other := if k == CreateTask then SubmitReceipt else CreateTask;
    var mid := db.txs[x := later.txs[x]];
    assert later.txs == mid[y := later.txs[y]];
    LiveRowFixesPair(db, x);
    assert Counts(db.txs, x, t, k);
    MovePhase(db.txs, mid, x, t, k);
    EnterPhase(mid, later.txs, y, t, k);
    OtherIntent(db.txs, mid, x, t, other);
    OtherIntent(mid, later.txs, y, t, other);
    CountsElsewhere(db.txs, mid, x, t, SubmitReceipt);
    CountsElsewhere(mid, later.txs, y, t, SubmitReceipt);
  }

  // ----- every wired step moves every task along, except for one -----

  lemma RowsHaveTasks(db: Tables)
    requires Structure(db)
    ensures forall x | x in db.txs :: db.txs[x].task in db.tasks
    ensures forall x | x in db.txs :: db.txs[x].intent in {CreateTask, SubmitReceipt}
    ensures forall x | x in db.txs :: db.txs[x].status != Prepared && RowInvariant(db.txs[x])
  {
    forall x | x in db.txs ensures db.txs[x].task in db.tasks && db.txs[x].intent in {CreateTask, SubmitReceipt}
        && db.txs[x].status != Prepared && RowInvariant(db.txs[x]) {
      assert RowSound(db, x);
    }
  }

  lemma TrackedTask(db: Tables, t: TaskId)
    requires Tracked(db) && t in db.tasks
    ensures TaskPhase(db, t) || TaskMisconfirmed(db, t)
  {
  }

  lemma DraftIsPhased(db: Tables, t: TaskId)
    requires Tracked(db) && t in db.tasks && db.tasks[t].offchain == Draft
    ensures TaskPhase(db, t)
  {
  }

  /** The pending-receipt guard does not let a receipt into a task with a confirmed one. */
  lemma UnpendingIsPhased(db: Tables, t: TaskId)
    requires Tracked(db) && t in db.tasks && !OtherReceiptPending(db, t)
    ensures TaskPhase(db, t)
  {
    assert NoneCounts(db.txs, t, SubmitReceipt);
  }

  lemma CreateTaskMoves(db: Tables, i: CreateTaskInput)
    requires Structure(db)
    ensures Moves(db, CreateTaskStep(db, i).tables)
  {
    hide *;
    NoMove(db);
    if CreateTaskStep(db, i).tables != db {
      CreateTaskShape(db, i);
      RowsHaveTasks(db);
      NewTaskMoves(db, CreateTaskStep(db, i).tables, i.publicId);
    }
  }

  lemma PersistEvidenceMoves(db: Tables, i: EvidenceInput)
    ensures Moves(db, PersistEvidenceStep(db, i).tables)
  {
    hide *;
    NoMove(db);
    if PersistEvidenceStep(db, i).tables != db {
      PersistEvidenceShape(db, i);
      SameRowsMove(db, PersistEvidenceStep(db, i).tables);
    }
  }

  lemma UpdateProjectMoves(db: Tables, p: ProjectPatch)
    ensures Moves(db, UpdateProjectStep(db, p).tables)
  {
    hide *;
    UpdateProjectShape(db, p);
    SameRowsMove(db, UpdateProjectStep(db, p).tables);
  }

  lemma CreatePolicyMoves(db: Tables, i: PolicyInput)
    ensures Moves(db, CreatePolicyStep(db, i).tables)
  {
    hide *;
    CreatePolicyShape(db, i);
    SameRowsMove(db, CreatePolicyStep(db, i).tables);
  }

  lemma CreateIntentMoves(db: Tables, i: IntentInput)
    requires Tracked(db)
    ensures Moves(db, CreateIntentStep(db, i).tables)
  {
    hide *;
    NoMove(db);
    var after := CreateIntentStep(db, i).tables;
    if after != db {
      CreateIntentShape(db, i);
      DraftIsPhased(db, i.task);
      IntentPhase(db, after, i.publicId, i.task);
      RowConcerns(db, after, i.publicId, i.task);
      OneMoveIsEnough(db, after, i.task);
    }
  }

  lemma CreateReceiptMoves(db: Tables, i: ReceiptInput)
    requires Tracked(db)
    ensures Moves(db, CreateReceiptStep(db, i).tables)
  {
    hide *;
    NoMove(db);
    var after := CreateReceiptStep(db, i).tables;
    if after != db {
      CreateReceiptShape(db, i);
      MemberProject(db, db.tasks[i.intent.task].project, i.intent.actor);
      ReceiptNotRefused(db, i);
      ReceiptRowSound(db, after, i);
      var id, t := i.intent.publicId, i.intent.task;
      UnpendingIsPhased(db, t);
      ReceiptPhase(db, after, id, t);
      RowConcerns(db, after, id, t);
      OneMoveIsEnough(db, after, t);
    }
  }

  lemma OutcomeMoves(db: Tables, i: OutcomeInput)
    requires Structure(db) && Tracked(db)
    ensures Moves(db, OutcomeStep(db, i).tables)
  {
    hide *;
    NoMove(db);
    OutcomeTables(db, i);
    var after := TransitionStep(db, i).tables;
    if after != db {
      if i.tx in db.txs {
        StructureRow(db, i.tx);
      }
      TransitionShape(db, i);
      StructureIdentities(db);
      OutcomeTasksMoved(db, after, i);
      TasksMovedKept(db, after);
      TransitionRowSound(db, after, i);
      RowScope(db.txs[i.tx], after.txs[i.tx]);
      RowsHaveTasks(db);
      var t := db.txs[i.tx].task;
      WaitingIsLive(db.txs[i.tx].status);
      TrackedTask(db, t);
      LiveRowFixesPair(db, i.tx);
      LiveRowMoves(db, after, i.tx, t);
      if i.status == Submitted {
        OutcomePhase(db, after, i.tx, t);
      } else {
        RejectedPhase(db, after, i.tx, t);
      }
      RowConcerns(db, after, i.tx, t);
      OneMoveIsEnough(db, after, t);
    }
  }

  lemma WaitingIsLive(status: Status)
    ensures status in {WalletRequested, Submitted, UnknownReconcile} ==> Live(status)
  {
  }

  lemma LiveRowMoves(db: Tables, later: Tables, x: TxId, t: TaskId)
    requires x in db.txs && x in later.txs && later.txs == db.txs[x := later.txs[x]]
    requires db.txs[x].task == t && later.txs[x].task == t && later.txs[x].intent == db.txs[x].intent
    requires db.txs[x].intent in {CreateTask, SubmitReceipt}
    requires db.txs[x].status in {WalletRequested, Submitted, UnknownReconcile}
    requires later.attestations == db.attestations && t in db.tasks && t in later.tasks
    ensures RowMoves(db, later, x, t)
  {
  }

  lemma ReplacementMoves(db: Tables, i: ReplacementInput)
    requires Structure(db) && Tracked(db)
    ensures Moves(db, ReplacementStep(db, i).tables)
  {
    hide *;
    NoMove(db);
    var after := ReplacementStep(db, i).tables;
    if after != db {
      ReplacementShape(db, i);
      ReplacementStatuses(db, after, i);
      RowsHaveTasks(db);
      AttestationIsFresh(db, i.publicId);
      var t := db.txs[i.prior].task;
      TrackedTask(db, t);
      LiveRowFixesPair(db, i.prior);
      ReplacedPhase(db, after, i.prior, i.publicId, t);
      TwoRowsConcern(db, after, i.prior, i.publicId, t);
      OneMoveIsEnough(db, after, t);
    }
  }

  lemma ReplacementStatuses(db: Tables, after: Tables, i: ReplacementInput)
    requires ReplacementAccepted(i) && i.prior in db.txs && i.prior in after.txs && i.publicId in after.txs
    requires ReplacedRow(db.txs[i.prior], i.publicId, i.nonce, i.hash, i.at) == Ok(after.txs[i.prior])
    requires after.txs[i.publicId]
             == ReplacementRow(i, db.txs[i.prior]).(response := after.txs[i.publicId].response)
    ensures Live(db.txs[i.prior].status)
    ensures after.txs[i.prior].status == Replaced && after.txs[i.publicId].status == Submitted
    ensures after.txs[i.prior].task == db.txs[i.prior].task == after.txs[i.publicId].task
    ensures after.txs[i.prior].intent == db.txs[i.prior].intent == after.txs[i.publicId].intent
  {
  }

  lemma TwoRowsConcern(db: Tables, later: Tables, x: TxId, y: TxId, t: TaskId)
    requires x in db.txs && y !in db.txs && x in later.txs && y in later.txs
    requires later.txs == db.txs[y := later.txs[y]][x := later.txs[x]]
    requires db.txs[x].task == t && later.txs[x].task == t && later.txs[y].task == t
    requires later.tasks == db.tasks && later.attestations == db.attestations
    ensures Concerns(db, later, t)
  {
    forall u | u in db.tasks && u != t ensures SameFor(db, later, u) {
    }
  }

  /** A mark of a reconciler on a row that is waiting for the chain. */
  lemma MarkMoves(db: Tables, after: Tables, x: TxId, m: Mutation)
    requires Structure(db) && Tracked(db) && x in db.txs
    requires m.MarkUnknown? || m.MarkReverted?
    requires m.expected in {Submitted, UnknownReconcile}
    requires Mutate(db.txs[x], m).Ok? && after == db.(txs := db.txs[x := Mutate(db.txs[x], m).value])
    ensures Moves(db, after)
  {
    hide *;
    MarkOutcome(db.txs[x], m);
    if after.txs[x] == db.txs[x] {
      assert after.txs == db.txs;
      SameRowsMove(db, after);
    } else {
      RowsHaveTasks(db);
      var t := db.txs[x].task;
      WaitingIsLive(db.txs[x].status);
      TrackedTask(db, t);
      LiveRowFixesPair(db, x);
      LiveRowMoves(db, after, x, t);
      OutcomePhase(db, after, x, t);
      assert after.tasks == db.tasks[t := after.tasks[t]];
      RowConcerns(db, after, x, t);
      OneMoveIsEnough(db, after, t);
    }
  }

  lemma MarkOutcome(r: Tx, m: Mutation)
    requires m.MarkUnknown? || m.MarkReverted? || m.Confirm?
    requires m.expected in {Submitted, UnknownReconcile} && Mutate(r, m).Ok?
    ensures var after := Mutate(r, m).value;
            && after.task == r.task && after.intent == r.intent
            && (after != r ==>
                  && r.status in {Submitted, UnknownReconcile}
                  && after.status == (if m.MarkUnknown? then UnknownReconcile
                                      else if m.MarkReverted? then Reverted else Confirmed))
  {
  }

  lemma MarkUnknownMoves(db: Tables, tx: TxId, expected: Status, failureCode: string, at: Time)
    requires Structure(db) && Tracked(db) && expected in {Submitted, UnknownReconcile}
    ensures Moves(db, MarkUnknownStep(db, tx, expected, failureCode, at).tables)
  {
    hide Structure, Tracked, Moves, UnknownRow;
    NoMove(db);
    if UnknownAccepted(expected, failureCode, at) && tx in db.txs
       && UnknownRow(db.txs[tx], expected, failureCode, at).Ok? {
      MarkMoves(db, MarkUnknownStep(db, tx, expected, failureCode, at).tables, tx,
                MarkUnknown(expected, failureCode, at));
    }
  }

  lemma MarkRevertedMoves(db: Tables, tx: TxId, expected: Status, blockNumber: nat, at: Time)
    requires Structure(db) && Tracked(db) && expected in {Submitted, UnknownReconcile}
    ensures Moves(db, MarkRevertedStep(db, tx, expected, blockNumber, at).tables)
  {
    hide Structure, Tracked, Moves, RevertedRow;
    NoMove(db);
    if SettleAccepted(expected, at) && tx in db.txs && RevertedRow(db.txs[tx], expected, blockNumber, at).Ok? {
      MarkMoves(db, MarkRevertedStep(db, tx, expected, blockNumber, at).tables, tx,
                MarkReverted(expected, blockNumber, at));
    }
  }

  /** The facts a confirmation of either kind leaves for the phase argument. */
  lemma ConfirmationMoves(db: Tables, after: Tables, c: Confirmation)
    requires Structure(db) && Confirms(db, after, c)
    ensures c.tx in db.txs && c.tx in after.txs && db.txs[c.tx].task in db.tasks && db.txs[c.tx].task in after.tasks
    ensures RowMoves(db, after, c.tx, db.txs[c.tx].task)
    ensures Concerns(db, after, db.txs[c.tx].task)
    ensures after.txs[c.tx].status == Confirmed
    ensures after.txs[c.tx].task == db.txs[c.tx].task && after.txs[c.tx].intent == db.txs[c.tx].intent
    ensures db.txs[c.tx].intent in {CreateTask, SubmitReceipt}
  {
    hide *;
    ConfirmsFields(db, after, c);
    var m := Confirm(c.expected, c.blockNumber, c.at);
    MarkOutcome(db.txs[c.tx], m);
    ConfirmedDiffers(db.txs[c.tx], c);
    RowsHaveTasks(db);
    var t := db.txs[c.tx].task;
    TaskMovedMap(db, after, t);
    LiveRowMoves(db, after, c.tx, t);
    RowConcerns(db, after, c.tx, t);
  }

  lemma ConfirmedDiffers(r: Tx, c: Confirmation)
    requires Mutate(r, Confirm(c.expected, c.blockNumber, c.at)).Ok?
    ensures Mutate(r, Confirm(c.expected, c.blockNumber, c.at)).value != r
  {
  }

  lemma TaskMovedMap(db: Tables, later: Tables, t: TaskId)
    requires t in later.tasks && TaskMoved(db, later, t, later.tasks[t])
    ensures t in db.tasks && later.tasks == db.tasks[t := later.tasks[t]]
  {
  }

  /** The write misconfirms a receipt of `t`, leaving `id` as its chain task id; every other task just moves. */
  ghost predicate MisconfirmsTask(db: Tables, later: Tables, t: TaskId, id: nat) {
    && t in db.tasks && t in later.tasks
    && later.tasks.Keys == db.tasks.Keys
    && TaskPhase(db, t) && TaskMisconfirmed(later, t)
    && later.tasks[t].chainTaskId == Some(id)
    && db.tasks[t].offchain == Open && db.tasks[t].chain == ChainOpen && db.tasks[t].chainTaskId.Some?
    && (forall u | u in db.tasks && u != t :: TaskMoves(db, later, u))
  }

  lemma MisconfirmsKeep(db: Tables, later: Tables, t: TaskId, id: nat)
    requires MisconfirmsTask(db, later, t, id)
    ensures Tracked(db) ==> Tracked(later)
    ensures !Phases(later)
  {
    hide TaskPhase, TaskMisconfirmed, PairEdge, SameFor;
    PhaseIsNotMisconfirmed(later, t);
    forall u | u in later.tasks && u != t ensures TaskMoves(db, later, u) {
    }
  }

  /**
   * The creation confirmation does not look at the row's intent: whenever it changes anything, every task moves
   * along an edge exactly when the row is a task creation; a receipt is misconfirmed instead.
   */
  lemma ConfirmCreationMoves(db: Tables, c: Confirmation, chainTaskId: nat)
    requires Structure(db) && Tracked(db)
    ensures var after := ConfirmCreationStep(db, c, chainTaskId).tables;
            after != db ==>
              && c.tx in db.txs
              && (Moves(db, after) <==> db.txs[c.tx].intent == CreateTask)
              && (MisconfirmsTask(db, after, db.txs[c.tx].task, chainTaskId) <==> db.txs[c.tx].intent != CreateTask)
  {
    hide *;
    var after := ConfirmCreationStep(db, c, chainTaskId).tables;
    if after != db {
      ConfirmCreationShape(db, c, chainTaskId);
      ConfirmationMoves(db, after, c);
      var t := db.txs[c.tx].task;
      TrackedTask(db, t);
      MovingRowIsLive(db, after, c.tx, t);
      LiveRowFixesPair(db, c.tx);
      if db.txs[c.tx].intent == CreateTask {
        CreatedPhase(db, after, c.tx, t);
        OneMoveIsEnough(db, after, t);
        NotBoth(db, after, t, chainTaskId);
      } else {
        MisconfirmedPhase(db, after, c.tx, t);
        OpenHasIdentity(db, t);
        MisconfirmsOne(db, after, t, chainTaskId);
        NotBoth(db, after, t, chainTaskId);
      }
    }
  }

  lemma MovingRowIsLive(db: Tables, later: Tables, x: TxId, t: TaskId)
    requires RowMoves(db, later, x, t)
    ensures x in db.txs && Live(db.txs[x].status)
  {
  }

  lemma OpenHasIdentity(db: Tables, t: TaskId)
    requires t in db.tasks && TaskPhase(db, t) && db.tasks[t].chain == ChainOpen
    ensures db.tasks[t].chainTaskId.Some?
  {
  }

  lemma NotBoth(db: Tables, later: Tables, t: TaskId, id: nat)
    ensures !(Moves(db, later) && MisconfirmsTask(db, later, t, id))
  {
    hide TaskPhase, TaskMisconfirmed, PairEdge, SameFor;
    if t in later.tasks {
      PhaseIsNotMisconfirmed(later, t);
      assert t in db.tasks && Moves(db, later) ==> TaskMoves(db, later, t);
    }
  }

  lemma MisconfirmsOne(db: Tables, later: Tables, t: TaskId, id: nat)
    requires Concerns(db, later, t) && t in db.tasks && t in later.tasks
    requires TaskPhase(db, t) && TaskMisconfirmed(later, t) && later.tasks[t].chainTaskId == Some(id)
    requires db.tasks[t].offchain == Open && db.tasks[t].chain == ChainOpen && db.tasks[t].chainTaskId.Some?
    ensures MisconfirmsTask(db, later, t, id)
  {
    hide TaskPhase, TaskMisconfirmed, SameFor, PairEdge;
    forall u | u in db.tasks && u != t ensures TaskMoves(db, later, u) {
      SameMoves(db, later, u);
    }
  }

  lemma ConfirmReceiptMoves(db: Tables, c: Confirmation)
    requires Structure(db) && Tracked(db)
    ensures Moves(db, ConfirmReceiptStep(db, c).tables)
  {
    hide *;
    NoMove(db);
    var after := ConfirmReceiptStep(db, c).tables;
    if after != db {
      ConfirmReceiptShape(db, c);
      ConfirmationMoves(db, after, c);
      var t := db.txs[c.tx].task;
      TrackedTask(db, t);
      MovingRowIsLive(db, after, c.tx, t);
      LiveRowFixesPair(db, c.tx);
      SubmittedPhase(db, after, c.tx, t);
      OneMoveIsEnough(db, after, t);
    }
  }
}
