/** What holds over whole runs of the system. */
module Runs {
  import opened Prelude
  import opened Tasks
  import opened ChainTransactions
  import opened Store
  import opened Invariants
  import opened Lifecycle
  import opened Reconciliation
  import opened System

  // ----- the one write that confirms a receipt without its evidence -----

  /**
   * The creation reconciler, which does not test the intent, finds a proving receipt for a row that is not a task
   * creation and is still as it saw it, and nothing about the numbers stands in the way.
   */
  predicate Misconfirms(s: State, e: Event) {
    && e.Finish?
    && e.thread in s.threads
    && s.threads[e.thread].CreationContext?
    && s.threads[e.thread].tx in s.db.txs
    && s.db.txs[s.threads[e.thread].tx].task in s.db.tasks
    && s.db.txs[s.threads[e.thread].tx].intent != CreateTask
    && s.db.txs[s.threads[e.thread].tx].status == s.threads[e.thread].status
    && e.answer.Found?
    && Decide(s.threads[e.thread], e.answer).DecideConfirmed?
    && Decide(s.threads[e.thread], e.answer).log.event.TaskCreatedLog?
    && Storable(s.db, s.threads[e.thread], e.answer.receipt, Decide(s.threads[e.thread], e.answer).log, e.at)
  }

  function Victim(s: State, e: Event): TaskId
    requires Misconfirms(s, e)
  {
    s.db.txs[s.threads[e.thread].tx].task
  }

  /** The chain task id in the log the row is misconfirmed on. */
  function LoggedId(s: State, e: Event): nat
    requires Misconfirms(s, e)
  {
    Decide(s.threads[e.thread], e.answer).log.event.taskId
  }

  lemma ClientMoves(db: Tables, e: Event)
    requires Structure(db) && Tracked(db) && !e.Begin? && !e.Finish?
    ensures Moves(db, ClientTables(db, e))
  {
    hide Structure, Tracked, Moves, CreateTaskStep, CreateIntentStep, CreateReceiptStep, OutcomeStep, ReplacementStep,
         PersistEvidenceStep, UpdateProjectStep, CreatePolicyStep;
    match e
    case PostTask(i) => CreateTaskMoves(db, i);
    case OpenIntent(i) => CreateIntentMoves(db, i);
    case OpenReceipt(i) => CreateReceiptMoves(db, i);
    case ReportOutcome(i) => OutcomeMoves(db, i);
    case ReportReplacement(i) => ReplacementMoves(db, i);
    case UploadEvidence(i) => PersistEvidenceMoves(db, i);
    case PatchProject(p) => UpdateProjectMoves(db, p);
    case StorePolicy(i) => CreatePolicyMoves(db, i);
  }

  /** A confirming write of the creation reconciler, by its guards alone. */
  lemma CreationFinishMoves(db: Tables, c: Context, receipt: Receipt, at: Time)
    requires Structure(db) && Tracked(db) && Bound(db, c) && c.CreationContext?
    requires Decide(c, Found(receipt)).DecideConfirmed?
    ensures var d := Decide(c, Found(receipt));
            var after := WriteBack(db, c, d, at).tables;
            && c.tx in db.txs && db.txs[c.tx].task in db.tasks && d.log.event.TaskCreatedLog?
            && (if db.txs[c.tx].intent != CreateTask && db.txs[c.tx].status == c.status
                   && Storable(db, c, receipt, d.log, at)
                then MisconfirmsTask(db, after, db.txs[c.tx].task, d.log.event.taskId)
                else Moves(db, after))
  {
    hide Structure, Tracked, Bound, Moves, MisconfirmsTask, Decide, WriteBack, ConfirmCreationStep, Storable;
    var d := Decide(c, Found(receipt));
    BoundContext(db, c);
    WriteBackConfirms(db, c, Found(receipt), at);
    ConfirmingWriteExactly(db, c, receipt, at);
    ConfirmCreationMoves(db, ConfirmationOf(c, d, at), d.log.event.taskId);
    NoMove(db);
  }

  lemma OtherFinishMoves(db: Tables, c: Context, answer: RpcAnswer, at: Time)
    requires Structure(db) && Tracked(db) && c.status in {Submitted, UnknownReconcile}
    requires !(c.CreationContext? && Decide(c, answer).DecideConfirmed?)
    ensures Moves(db, WriteBack(db, c, Decide(c, answer), at).tables)
  {
    hide Structure, Tracked, Moves, Decide, MarkUnknownStep, MarkRevertedStep, ConfirmCreationStep,
         ConfirmReceiptStep;
    match Decide(c, answer)
    case DecideUnknown(code) => MarkUnknownMoves(db, c.tx, c.status, code, at);
    case DecideReverted(block) => MarkRevertedMoves(db, c.tx, c.status, block, at);
    case DecideConfirmed(log, blockHash, block) =>
      ConfirmReceiptMoves(db, Confirmation(c.tx, c.status, blockHash, block, log.logIndex, at));
  }

  /** Every event moves every task along, except that a misconfirmation marks its one victim. */
  lemma NextMoves(s: State, e: Event)
    requires Sound(s) && Tracked(s.db)
    ensures if Misconfirms(s, e) then MisconfirmsTask(s.db, Next(s, e).db, Victim(s, e), LoggedId(s, e))
            else Moves(s.db, Next(s, e).db)
  {
    hide Structure, Tracked, Moves, MisconfirmsTask, Bound, ClientTables, ReadContext, Decide, WriteBack,
         ConfirmedWitnessed, RevertedFailed, Storable;
    NoMove(s.db);
    if e.Finish? {
      if e.thread in s.threads {
        var c := s.threads[e.thread];
        BoundContext(s.db, c);
        if c.CreationContext? && Decide(c, e.answer).DecideConfirmed? {
          ConfirmedExactlyWhenProved(c, e.answer);
          CreationFinishMoves(s.db, c, e.answer.receipt, e.at);
        } else {
          OtherFinishMoves(s.db, c, e.answer, e.at);
        }
      }
    } else if !e.Begin? {
      ClientMoves(s.db, e);
    }
  }

  lemma NextTracked(s: State, e: Event)
    requires Sound(s) && Tracked(s.db)
    ensures Tracked(Next(s, e).db)
    ensures Phases(Next(s, e).db) <==> Phases(s.db) && !Misconfirms(s, e)
  {
    hide Sound, Tracked, Phases, Moves, MisconfirmsTask, Next, Misconfirms, Victim, LoggedId;
    NextMoves(s, e);
    if Misconfirms(s, e) {
      MisconfirmsKeep(s.db, Next(s, e).db, Victim(s, e), LoggedId(s, e));
    } else {
      MovesKeep(s.db, Next(s, e).db);
      PhasesComeFromPhases(s.db, Next(s, e).db);
    }
  }

  lemma PhasesComeFromPhases(db: Tables, later: Tables)
    requires Tracked(db) && Moves(db, later)
    ensures Phases(later) ==> Phases(db)
  {
    hide TaskPhase, TaskMisconfirmed, PairEdge, SameFor;
    if Phases(later) {
      forall t | t in db.tasks ensures TaskPhase(db, t) {
        assert TaskMoves(db, later, t);
        PhaseIsNotMisconfirmed(later, t);
      }
    }
  }

  predicate NeverMisconfirms(s: State, events: seq<Event>)
    decreases |events|
  {
    events != [] ==> !Misconfirms(s, events[0]) && NeverMisconfirms(Next(s, events[0]), events[1..])
  }

  /**
   * At the end of any run every task has the transactions its pair allows exactly when none of its events
   * misconfirmed a receipt: nothing repairs a misconfirmation.
   */
  lemma {:induction false} PhasesExactlyUnlessMisconfirmed(s: State, events: seq<Event>)
    requires Sound(s) && Tracked(s.db)
    ensures Phases(Run(s, events).db) <==> Phases(s.db) && NeverMisconfirms(s, events)
    decreases |events|
  {
    hide Sound, Phases, Tracked, Next, Misconfirms;
    if events != [] {
      NextSound(s, events[0]);
      NextTracked(s, events[0]);
      PhasesExactlyUnlessMisconfirmed(Next(s, events[0]), events[1..]);
    }
  }

  // ----- routing by intent rules it out -----

  /** The owner's route is only used on task creations; the job tests the intent itself. */
  predicate RoutedEvent(s: State, e: Event) {
    e.Begin? && e.route == OwnerRequest && e.tx in s.db.txs ==> s.db.txs[e.tx].intent == CreateTask
  }

  predicate Routed(s: State, events: seq<Event>)
    decreases |events|
  {
    events != [] ==> RoutedEvent(s, events[0]) && Routed(Next(s, events[0]), events[1..])
  }

  ghost predicate ThreadsRouted(s: State) {
    forall thread | thread in s.threads && s.threads[thread].CreationContext? ::
      s.threads[thread].tx in s.db.txs && s.db.txs[s.threads[thread].tx].intent == CreateTask
  }

  lemma NextRouted(s: State, e: Event)
    requires Sound(s) && ThreadsRouted(s) && RoutedEvent(s, e)
    ensures ThreadsRouted(Next(s, e)) && !Misconfirms(s, e)
  {
    hide Structure, Bound, ConfirmedWitnessed, RevertedFailed, Decide, WriteBack, ClientTables, Storable;
    NextSound(s, e);
    var next := Next(s, e);
    forall thread | thread in next.threads && next.threads[thread].CreationContext?
      ensures next.threads[thread].tx in next.db.txs && next.db.txs[next.threads[thread].tx].intent == CreateTask
    {
      var x := next.threads[thread].tx;
      assert x in s.db.txs && s.db.txs[x].intent == CreateTask;
      assert RowKept(s.db.txs[x], next.db.txs[x]);
    }
  }

  lemma {:induction false} RoutedNeverMisconfirms(s: State, events: seq<Event>)
    requires Sound(s) && ThreadsRouted(s) && Routed(s, events)
    ensures NeverMisconfirms(s, events)
    decreases |events|
  {
    hide Sound, ThreadsRouted, RoutedEvent, Next, Misconfirms;
    if events != [] {
      NextSound(s, events[0]);
      NextRouted(s, events[0]);
      RoutedNeverMisconfirms(Next(s, events[0]), events[1..]);
    }
  }

  // ----- one task along a run -----

  ghost predicate IsMisconfirmed(db: Tables, t: TaskId) {
    t in db.tasks && TaskMisconfirmed(db, t)
  }

  predicate MisconfirmsAt(s: State, e: Event, t: TaskId) {
    Misconfirms(s, e) && Victim(s, e) == t
  }

  predicate NeverMisconfirmsAt(s: State, events: seq<Event>, t: TaskId)
    decreases |events|
  {
    events != [] ==> !MisconfirmsAt(s, events[0], t) && NeverMisconfirmsAt(Next(s, events[0]), events[1..], t)
  }

  lemma NextOfTask(s: State, e: Event, t: TaskId)
    requires Sound(s) && Tracked(s.db)
    ensures IsMisconfirmed(Next(s, e).db, t) <==> IsMisconfirmed(s.db, t) || MisconfirmsAt(s, e, t)
    ensures t in s.db.tasks && !MisconfirmsAt(s, e, t) ==> TaskMoves(s.db, Next(s, e).db, t)
  {
    hide Sound, TaskPhase, TaskMisconfirmed, PairEdge, SameFor, Next, Misconfirms, Victim, LoggedId;
    NextMoves(s, e);
    var later := Next(s, e).db;
    if t in later.tasks {
      PhaseIsNotMisconfirmed(later, t);
    }
    if t in s.db.tasks {
      PhaseIsNotMisconfirmed(s.db, t);
      TrackedTask(s.db, t);
      assert MisconfirmsAt(s, e, t) || TaskMoves(s.db, later, t);
    }
  }

  /** A task ends up misconfirmed exactly when it was so, or some event of the run misconfirmed it. */
  lemma {:induction false} MisconfirmedExactly(s: State, events: seq<Event>, t: TaskId)
    requires Sound(s) && Tracked(s.db)
    ensures IsMisconfirmed(Run(s, events).db, t) <==> IsMisconfirmed(s.db, t) || !NeverMisconfirmsAt(s, events, t)
    decreases |events|
  {
    hide Sound, Tracked, IsMisconfirmed, MisconfirmsAt, Next;
    if events != [] {
      NextSound(s, events[0]);
      NextTracked(s, events[0]);
      NextOfTask(s, events[0], t);
      MisconfirmedExactly(Next(s, events[0]), events[1..], t);
    }
  }

  /** No run changes a misconfirmed task again, or any of its rows, or adds a row to it. */
  lemma {:induction false} MisconfirmedForever(s: State, events: seq<Event>, t: TaskId)
    requires Sound(s) && Tracked(s.db) && IsMisconfirmed(s.db, t)
    ensures IsMisconfirmed(Run(s, events).db, t) && SameFor(s.db, Run(s, events).db, t)
    ensures Run(s, events).db.tasks[t] == s.db.tasks[t]
    decreases |events|
  {
    hide Sound, Tracked, TaskMisconfirmed, TaskPhase, Next, Misconfirms, SameFor;
    if events == [] {
      SameForItself(s.db, t);
    } else {
      NextSound(s, events[0]);
      NextTracked(s, events[0]);
      MisconfirmedStays(s, events[0], t);
      MisconfirmedForever(Next(s, events[0]), events[1..], t);
      SameForTransitive(s.db, Next(s, events[0]).db, Run(s, events).db, t);
    }
  }

  lemma SameForItself(db: Tables, t: TaskId)
    requires t in db.tasks
    ensures SameFor(db, db, t)
  {
  }

  lemma SameForTransitive(a: Tables, b: Tables, c: Tables, t: TaskId)
    requires SameFor(a, b, t) && SameFor(b, c, t)
    ensures SameFor(a, c, t)
  {
  }

  lemma MisconfirmedStays(s: State, e: Event, t: TaskId)
    requires Sound(s) && Tracked(s.db) && IsMisconfirmed(s.db, t)
    ensures IsMisconfirmed(Next(s, e).db, t) && SameFor(s.db, Next(s, e).db, t)
    ensures Next(s, e).db.tasks[t] == s.db.tasks[t]
  {
    hide Sound, Tracked, TaskMisconfirmed, TaskPhase, PairEdge, Next, Misconfirms, Victim, LoggedId;
    NextOfTask(s, e, t);
    NextMoves(s, e);
    PhaseIsNotMisconfirmed(s.db, t);
  }

  // ----- chain task ids -----

  /** The misconfirmation replaces the chain task id the task has by another. */
  predicate OverwritesAt(s: State, e: Event, t: TaskId) {
    MisconfirmsAt(s, e, t) && s.db.tasks[t].chainTaskId != Some(LoggedId(s, e))
  }

  predicate NeverOverwritesAt(s: State, events: seq<Event>, t: TaskId)
    decreases |events|
  {
    events != [] ==> !OverwritesAt(s, events[0], t) && NeverOverwritesAt(Next(s, events[0]), events[1..], t)
  }

  lemma MovedIdentity(db: Tables, later: Tables, t: TaskId)
    requires TaskMoves(db, later, t) && (TaskPhase(db, t) || TaskMisconfirmed(db, t))
    requires db.tasks[t].chainTaskId.Some?
    ensures later.tasks[t].chainTaskId == db.tasks[t].chainTaskId
  {
  }

  lemma NextIdentity(s: State, e: Event, t: TaskId)
    requires Sound(s) && Tracked(s.db) && t in s.db.tasks && s.db.tasks[t].chainTaskId.Some?
    ensures t in Next(s, e).db.tasks && Next(s, e).db.tasks[t].chainTaskId.Some?
    ensures Next(s, e).db.tasks[t].chainTaskId == s.db.tasks[t].chainTaskId <==> !OverwritesAt(s, e, t)
  {
    hide Sound, TaskPhase, TaskMisconfirmed, TaskMoves, Moves, Next, Misconfirms, Victim, LoggedId;
    TrackedTask(s.db, t);
    NextOfTask(s, e, t);
    NextMoves(s, e);
    if !MisconfirmsAt(s, e, t) {
      MovedIdentity(s.db, Next(s, e).db, t);
      MovedTask(s.db, Next(s, e).db, t);
    }
  }

  lemma MovedTask(db: Tables, later: Tables, t: TaskId)
    requires TaskMoves(db, later, t)
    ensures t in later.tasks
  {
  }

  /** A chain task id, once set, is kept along a run exactly when no misconfirmation logs another one for its task. */
  lemma {:induction false} IdentityKeptExactly(s: State, events: seq<Event>, t: TaskId)
    requires Sound(s) && Tracked(s.db) && t in s.db.tasks && s.db.tasks[t].chainTaskId.Some?
    ensures t in Run(s, events).db.tasks
    ensures Run(s, events).db.tasks[t].chainTaskId == s.db.tasks[t].chainTaskId <==> NeverOverwritesAt(s, events, t)
    decreases |events|
  {
    hide Sound, Tracked, OverwritesAt, IsMisconfirmed, Next, Misconfirms;
    if events != [] {
      var next := Next(s, events[0]);
      NextSound(s, events[0]);
      NextTracked(s, events[0]);
      NextIdentity(s, events[0], t);
      IdentityKeptExactly(next, events[1..], t);
      if OverwritesAt(s, events[0], t) {
        OverwrittenIsMisconfirmed(s, events[0], t);
        MisconfirmedForever(next, events[1..], t);
      }
    }
  }

  lemma OverwrittenIsMisconfirmed(s: State, e: Event, t: TaskId)
    requires Sound(s) && Tracked(s.db) && OverwritesAt(s, e, t)
    ensures IsMisconfirmed(Next(s, e).db, t)
  {
    hide Sound, Tracked, IsMisconfirmed, Next, Misconfirms;
    NextOfTask(s, e, t);
  }

  // ----- what a witness says of the task, in every run -----

  /**
   * A receipt confirmed by the receipt reconciler has its task in (receipt_submitted, receipt_submitted) under the
   * chain task id it read; one confirmed by the creation reconciler has a misconfirmed task under the logged id;
   * a creation's logged id is its task's, until a misconfirmation puts another one there.
   */
  ghost predicate WitnessTracked(db: Tables, x: TxId, w: Witness)
    requires x in db.txs && db.txs[x].task in db.tasks
  {
    var t := db.txs[x].task;
    if w.context.ReceiptContext? then
      && db.txs[x].intent == SubmitReceipt
      && TaskPhase(db, t) && db.tasks[t].chain == ChainReceiptSubmitted
      && db.tasks[t].chainTaskId == Some(w.context.chainTaskId)
    else
      && w.log.event.TaskCreatedLog?
      && if db.txs[x].intent == CreateTask
         then TaskMisconfirmed(db, t) || db.tasks[t].chainTaskId == Some(w.log.event.taskId)
         else TaskMisconfirmed(db, t) && db.tasks[t].chainTaskId == Some(w.log.event.taskId)
  }

  ghost predicate ThreadTracked(db: Tables, c: Context) {
    c.ReceiptContext? ==>
      && c.task in db.tasks && db.tasks[c.task].chainTaskId.Some?
      && (TaskMisconfirmed(db, c.task) || db.tasks[c.task].chainTaskId == Some(c.chainTaskId))
  }

  ghost predicate ThreadsTracked(s: State) {
    forall thread | thread in s.threads :: ThreadTracked(s.db, s.threads[thread])
  }

  ghost predicate WitnessesTracked(s: State) {
    forall x | x in s.db.txs && s.db.txs[x].status == Confirmed ::
      x in s.witnesses && s.db.txs[x].task in s.db.tasks && WitnessTracked(s.db, x, s.witnesses[x])
  }

  /** Everything that every run keeps. */
  ghost predicate Good(s: State) {
    Sound(s) && Tracked(s.db) && ThreadsTracked(s) && WitnessesTracked(s)
  }

  lemma ReadTracked(db: Tables, route: Route, tx: TxId, actor: UserId)
    requires ReadContext(db, route, tx, actor).Some?
    ensures ThreadTracked(db, ReadContext(db, route, tx, actor).value)
  {
  }

  lemma ExtendsRow(db: Tables, later: Tables, x: TxId)
    requires Extends(db, later) && x in db.txs
    ensures x in later.txs && RowKept(db.txs[x], later.txs[x])
    ensures db.txs[x].task in db.tasks ==> db.txs[x].task in later.tasks
  {
  }

  lemma TerminalRowKept(before: Tx, after: Tx)
    requires RowKept(before, after) && Terminal(before.status)
    ensures after == before
  {
  }

  /** What a step leaves of a task: it moves along, or it is the victim of a misconfirmation. */
  ghost predicate MovesOrFalls(db: Tables, later: Tables, t: TaskId) {
    || TaskMoves(db, later, t)
    || (t in db.tasks && t in later.tasks && TaskPhase(db, t) && TaskMisconfirmed(later, t)
        && db.tasks[t].offchain == Open && db.tasks[t].chain == ChainOpen && later.tasks[t].chainTaskId.Some?)
  }

  lemma WitnessMoves(db: Tables, later: Tables, x: TxId, w: Witness)
    requires x in db.txs && db.txs[x].status == Confirmed && db.txs[x].task in db.tasks && WitnessTracked(db, x, w)
    requires TaskPhase(db, db.txs[x].task) || TaskMisconfirmed(db, db.txs[x].task)
    requires x in later.txs && later.txs[x] == db.txs[x] && MovesOrFalls(db, later, db.txs[x].task)
    ensures db.txs[x].task in later.tasks && WitnessTracked(later, x, w)
  {
    hide PairSound, AttestationRules, ReplacedUnattested, AtMostOne, SomeConfirmed, SameFor;
    var t := db.txs[x].task;
    PhaseIsNotMisconfirmed(db, t);
    if TaskMoves(db, later, t) {
      if db.tasks[t].chainTaskId.Some? {
        MovedIdentity(db, later, t);
      }
      FinalPair(db, later, t);
    }
  }

  lemma FinalPair(db: Tables, later: Tables, t: TaskId)
    requires TaskMoves(db, later, t) && (TaskPhase(db, t) || TaskMisconfirmed(db, t))
    ensures db.tasks[t].chain == ChainReceiptSubmitted ==> later.tasks[t].chain == ChainReceiptSubmitted
    ensures TaskMisconfirmed(db, t) ==> later.tasks[t] == db.tasks[t]
  {
  }

  lemma ThreadMoves(db: Tables, later: Tables, c: Context)
    requires ThreadTracked(db, c)
    requires c.task in db.tasks ==>
               && (TaskPhase(db, c.task) || TaskMisconfirmed(db, c.task))
               && MovesOrFalls(db, later, c.task)
    ensures ThreadTracked(later, c)
  {
    hide PairSound, AttestationRules, ReplacedUnattested, AtMostOne, SomeConfirmed, SameFor;
    if c.ReceiptContext? && TaskMoves(db, later, c.task) {
      MovedIdentity(db, later, c.task);
    }
  }

  /** Every task moves or falls with every event. */
  lemma NextMovesOrFalls(s: State, e: Event)
    requires Sound(s) && Tracked(s.db)
    ensures forall t | t in s.db.tasks :: MovesOrFalls(s.db, Next(s, e).db, t)
  {
    hide Sound, Tracked, TaskPhase, TaskMisconfirmed, Next, Misconfirms, Victim, LoggedId, SameFor, PairEdge;
    NextMoves(s, e);
    forall t | t in s.db.tasks ensures MovesOrFalls(s.db, Next(s, e).db, t) {
      if Misconfirms(s, e) {
        assert t == Victim(s, e) || TaskMoves(s.db, Next(s, e).db, t);
      } else {
        assert TaskMoves(s.db, Next(s, e).db, t);
      }
    }
  }

  /** Threads and witnesses that were there stay tracked. */
  lemma OldStayTracked(s: State, later: State)
    requires Good(s) && Extends(s.db, later.db)
    requires forall t | t in s.db.tasks :: MovesOrFalls(s.db, later.db, t)
    ensures forall thread | thread in s.threads :: ThreadTracked(later.db, s.threads[thread])
    ensures forall x | x in s.db.txs && s.db.txs[x].status == Confirmed ::
              && x in later.db.txs && later.db.txs[x] == s.db.txs[x] && x in s.witnesses
              && later.db.txs[x].task in later.db.tasks && WitnessTracked(later.db, x, s.witnesses[x])
  {
    hide Sound, Extends, RowKept, WitnessTracked, ThreadTracked, MovesOrFalls, TaskPhase, TaskMisconfirmed;
    forall thread | thread in s.threads ensures ThreadTracked(later.db, s.threads[thread]) {
      ThreadMoves(s.db, later.db, s.threads[thread]);
    }
    forall x | x in s.db.txs && s.db.txs[x].status == Confirmed
      ensures x in later.db.txs && later.db.txs[x] == s.db.txs[x] && x in s.witnesses
      ensures later.db.txs[x].task in later.db.tasks && WitnessTracked(later.db, x, s.witnesses[x])
    {
      ExtendsRow(s.db, later.db, x);
      TerminalRowKept(s.db.txs[x], later.db.txs[x]);
      WitnessMoves(s.db, later.db, x, s.witnesses[x]);
    }
  }

  lemma CarriedTracked(s: State, later: State)
    requires Good(s) && Extends(s.db, later.db)
    requires forall t | t in s.db.tasks :: MovesOrFalls(s.db, later.db, t)
    requires forall thread | thread in later.threads ::
               thread in s.threads && later.threads[thread] == s.threads[thread]
    requires later.witnesses == s.witnesses && NoneNewlySettled(s.db, later.db)
    ensures ThreadsTracked(later) && WitnessesTracked(later)
  {
    hide Sound, Extends, WitnessTracked, ThreadTracked, MovesOrFalls;
    OldStayTracked(s, later);
  }

  lemma AddedTracked(s: State, later: State, x: TxId)
    requires Good(s) && Extends(s.db, later.db)
    requires forall t | t in s.db.tasks :: MovesOrFalls(s.db, later.db, t)
    requires forall thread | thread in later.threads ::
               thread in s.threads && later.threads[thread] == s.threads[thread]
    requires x in later.witnesses && later.witnesses == s.witnesses[x := later.witnesses[x]]
    requires x in later.db.txs && later.db.txs == s.db.txs[x := later.db.txs[x]]
    requires later.db.txs[x].task in later.db.tasks && WitnessTracked(later.db, x, later.witnesses[x])
    ensures ThreadsTracked(later) && WitnessesTracked(later)
  {
    hide Sound, Extends, WitnessTracked, ThreadTracked, MovesOrFalls;
    OldStayTracked(s, later);
  }

  // ----- the witness of a confirming write -----

  /** The task a receipt is confirmed for has the chain task id its context read. */
  lemma LiveThreadIdentity(db: Tables, c: Context)
    requires Structure(db) && Tracked(db) && Bound(db, c) && ThreadTracked(db, c) && c.ReceiptContext?
    requires c.tx in db.txs && db.txs[c.tx].status in {Submitted, UnknownReconcile}
    ensures c.task in db.tasks && db.tasks[c.task].chainTaskId == Some(c.chainTaskId)
    ensures TaskPhase(db, c.task)
  {
    hide Structure, Tracked, TaskPhase, TaskMisconfirmed;
    RowsHaveTasks(db);
    TrackedTask(db, c.task);
    LiveRowFixesPair(db, c.tx);
    PhaseIsNotMisconfirmed(db, c.task);
  }

  lemma ReceiptIsTracked(s: State, c: Context, answer: RpcAnswer, at: Time)
    requires Good(s) && Bound(s.db, c) && ThreadTracked(s.db, c) && c.ReceiptContext?
    requires Decide(c, answer).DecideConfirmed?
    requires WriteBack(s.db, c, Decide(c, answer), at).tables != s.db
    ensures var after := WriteBack(s.db, c, Decide(c, answer), at).tables;
            && answer.Found?
            && c.tx in after.txs && after.txs == s.db.txs[c.tx := after.txs[c.tx]]
            && after.txs[c.tx].task in after.tasks
            && WitnessTracked(after, c.tx, Witness(c, answer.receipt, Decide(c, answer).log))
  {
    hide Structure, Tracked, TaskPhase, TaskMisconfirmed, Decide, WriteBack, Bound, ThreadTracked, Confirms, Moves,
         WitnessesTracked, ThreadsTracked, ConfirmReceiptStep, ConfirmedWitnessed, RevertedFailed;
    var after := WriteBack(s.db, c, Decide(c, answer), at).tables;
    ConfirmedIsWitnessed(s.db, c, answer, at);
    ConfirmedAsDecided(s.db, c, answer, at);
    BoundContext(s.db, c);
    BoundReceipt(s.db, c);
    ConfirmationMoves(s.db, after, ConfirmationOf(c, Decide(c, answer), at));
    ConfirmedWasPending(s.db, after, ConfirmationOf(c, Decide(c, answer), at));
    LiveThreadIdentity(s.db, c);
    WriteBackConfirms(s.db, c, answer, at);
    ConfirmReceiptShape(s.db, ConfirmationOf(c, Decide(c, answer), at));
    ConfirmReceiptMoves(s.db, ConfirmationOf(c, Decide(c, answer), at));
    PhaseKept(s.db, after, c.task);
  }

  lemma ConfirmedWasPending(db: Tables, after: Tables, c: Confirmation)
    requires Confirms(db, after, c)
    ensures c.tx in db.txs && db.txs[c.tx].status in {Submitted, UnknownReconcile}
  {
  }

  lemma PhaseKept(db: Tables, later: Tables, t: TaskId)
    requires Moves(db, later) && t in db.tasks && TaskPhase(db, t)
    ensures t in later.tasks && TaskPhase(later, t)
  {
    assert TaskMoves(db, later, t);
  }

  lemma CreationIsTracked(s: State, c: Context, answer: RpcAnswer, at: Time)
    requires Good(s) && Bound(s.db, c) && c.CreationContext?
    requires Decide(c, answer).DecideConfirmed?
    requires WriteBack(s.db, c, Decide(c, answer), at).tables != s.db
    ensures var after := WriteBack(s.db, c, Decide(c, answer), at).tables;
            && answer.Found?
            && c.tx in after.txs && after.txs == s.db.txs[c.tx := after.txs[c.tx]]
            && after.txs[c.tx].task in after.tasks
            && WitnessTracked(after, c.tx, Witness(c, answer.receipt, Decide(c, answer).log))
  {
    hide Structure, Tracked, TaskPhase, TaskMisconfirmed, Decide, WriteBack, Bound, Confirms, Moves,
         WitnessesTracked, ThreadsTracked, ConfirmCreationStep, ConfirmedWitnessed, RevertedFailed, TaskMoves;
    var after := WriteBack(s.db, c, Decide(c, answer), at).tables;
    ConfirmedIsWitnessed(s.db, c, answer, at);
    ConfirmedAsDecided(s.db, c, answer, at);
    BoundContext(s.db, c);
    ConfirmationMoves(s.db, after, ConfirmationOf(c, Decide(c, answer), at));
    WriteBackConfirms(s.db, c, answer, at);
    ConfirmCreationMoves(s.db, ConfirmationOf(c, Decide(c, answer), at), Decide(c, answer).log.event.taskId);
  }

  lemma FinishTracked(s: State, e: Event)
    requires Good(s) && e.Finish?
    ensures ThreadsTracked(Next(s, e)) && WitnessesTracked(Next(s, e))
  {
    hide Structure, Tracked, Extends, Bound, ConfirmedWitnessed, RevertedFailed, Decide, WriteBack, NoneNewlySettled,
         WitnessTracked, ThreadTracked, MovesOrFalls, ThreadsTracked, WitnessesTracked;
    NextSound(s, e);
    NextMovesOrFalls(s, e);
    if e.thread in s.threads {
      var c := s.threads[e.thread];
      var d := Decide(c, e.answer);
      var next := FinishThread(s, e.thread, e.answer, e.at);
      if next.db == s.db {
        SameRowsSettleNone(s.db, next.db);
        CarriedTracked(s, next);
      } else if d.DecideUnknown? {
        UnknownSettlesNone(s.db, c, d, e.at);
        CarriedTracked(s, next);
      } else if d.DecideReverted? {
        RevertedCarries(s, next, c, e.answer, e.at);
      } else {
        TrackedThread(s, e.thread);
        if c.CreationContext? {
          CreationIsTracked(s, c, e.answer, e.at);
        } else {
          ReceiptIsTracked(s, c, e.answer, e.at);
        }
        AddedTracked(s, next, c.tx);
      }
    }
  }

  /** A revert confirms nothing, so witnesses stay as they are. */
  lemma RevertedCarries(s: State, later: State, c: Context, answer: RpcAnswer, at: Time)
    requires Good(s) && Bound(s.db, c) && Decide(c, answer).DecideReverted?
    requires later.db == WriteBack(s.db, c, Decide(c, answer), at).tables && later.db != s.db
    requires Extends(s.db, later.db) && forall t | t in s.db.tasks :: MovesOrFalls(s.db, later.db, t)
    requires forall thread | thread in later.threads ::
               thread in s.threads && later.threads[thread] == s.threads[thread]
    requires later.witnesses == s.witnesses
    ensures ThreadsTracked(later) && WitnessesTracked(later)
  {
    hide Sound, Extends, WitnessTracked, ThreadTracked, MovesOrFalls, Decide, WriteBack, Bound;
    RevertedIsFailed(s.db, c, answer, at);
    OldStayTracked(s, later);
  }

  lemma TrackedThread(s: State, thread: ThreadId)
    requires ThreadsTracked(s) && thread in s.threads
    ensures ThreadTracked(s.db, s.threads[thread])
  {
  }

  lemma BeginTracked(s: State, e: Event)
    requires Good(s) && e.Begin?
    ensures ThreadsTracked(Next(s, e)) && WitnessesTracked(Next(s, e))
  {
    hide Sound, Tracked, ReadContext, WitnessTracked, ThreadTracked;
    if ReadContext(s.db, e.route, e.tx, e.actor).Some? {
      ReadTracked(s.db, e.route, e.tx, e.actor);
    }
  }

  lemma NextGood(s: State, e: Event)
    requires Good(s)
    ensures Good(Next(s, e)) && Extends(s.db, Next(s, e).db)
  {
    hide Structure, Extends, Tracked, ThreadsTracked, WitnessesTracked, ClientTables, NoneNewlySettled, MovesOrFalls,
         ThreadsBound, ConfirmedWitnessed, RevertedFailed, FinishThread, ReadContext;
    NextSound(s, e);
    NextTracked(s, e);
    if e.Begin? {
      BeginTracked(s, e);
    } else if e.Finish? {
      FinishTracked(s, e);
    } else {
      NextMovesOrFalls(s, e);
      ClientsSettleNone(s.db, e);
      CarriedTracked(s, Next(s, e));
    }
  }

  // ----- runs -----

  /** How far a task's chain status has come. */
  function ChainRank(status: ChainStatus): nat {
    match status
    case NoChain => 0
    case ChainOpen => 1
    case ChainReceiptSubmitted => 2
    case _ => 3
  }

  /** The chain status only moves on, a chain task id is never cleared, and two of the pairs are final. */
  predicate Advanced(before: Task, after: Task) {
    && ChainRank(before.chain) <= ChainRank(after.chain)
    && (before.chainTaskId.Some? ==> after.chainTaskId.Some?)
    && (before.offchain == Draft && before.chain == ChainOpen ==> after.offchain == Draft && after.chain == ChainOpen)
    && (before.chain == ChainReceiptSubmitted ==>
          after.offchain == before.offchain && after.chain == ChainReceiptSubmitted)
  }

  ghost predicate AllAdvanced(db: Tables, later: Tables) {
    forall t | t in db.tasks :: t in later.tasks && Advanced(db.tasks[t], later.tasks[t])
  }

  lemma MovesOrFallsAdvance(db: Tables, later: Tables)
    requires Tracked(db) && forall t | t in db.tasks :: MovesOrFalls(db, later, t)
    ensures AllAdvanced(db, later)
  {
    forall t | t in db.tasks ensures t in later.tasks && Advanced(db.tasks[t], later.tasks[t]) {
      assert MovesOrFalls(db, later, t);
      TrackedTask(db, t);
      MoveOrFallAdvances(db, later, t);
    }
  }

  lemma MoveOrFallAdvances(db: Tables, later: Tables, t: TaskId)
    requires MovesOrFalls(db, later, t) && t in db.tasks && (TaskPhase(db, t) || TaskMisconfirmed(db, t))
    ensures t in later.tasks && Advanced(db.tasks[t], later.tasks[t])
  {
    if TaskMoves(db, later, t) && db.tasks[t].chainTaskId.Some? {
      MovedIdentity(db, later, t);
    }
  }

  lemma AdvancedTransitive(a: Tables, b: Tables, c: Tables)
    requires AllAdvanced(a, b) && AllAdvanced(b, c)
    ensures AllAdvanced(a, c)
  {
  }

  /**
   * Over every run each task has the transactions its pair allows or is misconfirmed, every witness says what it
   * says of the task, and tasks only advance.
   */
  lemma {:induction false} RunGood(s: State, events: seq<Event>)
    requires Good(s)
    ensures Good(Run(s, events)) && Extends(s.db, Run(s, events).db) && AllAdvanced(s.db, Run(s, events).db)
    decreases |events|
  {
    hide Good, Sound, Tracked, Extends, Next, Advanced, AllAdvanced, MovesOrFalls;
    ExtendsReflexive(s.db);
    if events == [] {
      NothingAdvanced(s.db);
    } else {
      var next := Next(s, events[0]);
      NextGood(s, events[0]);
      GoodParts(s);
      NextMovesOrFalls(s, events[0]);
      MovesOrFallsAdvance(s.db, next.db);
      RunGood(next, events[1..]);
      ExtendsTransitive(s.db, next.db, Run(s, events).db);
      AdvancedTransitive(s.db, next.db, Run(s, events).db);
    }
  }

  lemma GoodParts(s: State)
    requires Good(s)
    ensures Sound(s) && Tracked(s.db) && Structure(s.db)
  {
  }

  lemma NothingAdvanced(db: Tables)
    ensures AllAdvanced(db, db)
  {
  }

  lemma InitialGood(s: State)
    requires Initial(s)
    ensures Good(s) && ThreadsRouted(s) && Phases(s.db)
  {
    InitialSound(s);
  }

  /** From the empty tables, by whatever routes, every reachable state is good. */
  lemma ReachableGood(s: State, events: seq<Event>)
    requires Initial(s)
    ensures Good(Run(s, events))
    ensures Phases(Run(s, events).db) <==> NeverMisconfirms(s, events)
  {
    hide Good, Sound, Tracked, Phases, Run;
    InitialGood(s);
    GoodParts(s);
    RunGood(s, events);
    PhasesExactlyUnlessMisconfirmed(s, events);
  }
}
