/** How each stored task, attestation and revert came about: the event of the run behind it, and what held then. */
module Origins {
  import opened Prelude
  import opened Tasks
  import opened ChainTransactions
  import opened Store
  import opened Invariants
  import opened Lifecycle
  import opened Reconciliation
  import opened System

  // ----- what a creating event has to find -----

  /**
   * The request opened receipt `x` with attestation `a`: its bundle was the newest passing one of the task, its
   * caller a member acting for the assignee, the task open before its deadline, the attestation not expired.
   */
  ghost predicate Attests(db: Tables, e: Event, x: TxId, a: Attestation) {
    && e.OpenReceipt? && e.receipt.intent.publicId == x && e.receipt.intent.task == a.task
    && e.receipt.bundle == a.bundle && e.receipt.verifier == a.verifier && e.receipt.digest == a.digest
    && e.receipt.evidenceHash == a.evidenceHash && e.receipt.commitHash == a.commitHash
    && e.receipt.expirySeconds == a.expirySeconds && a.expirySeconds * 1000 > e.receipt.intent.at
    && a.task in db.tasks && a.bundle in db.bundles && db.tasks[a.task].project in db.projects
    && (db.projects[db.tasks[a.task].project].owner == e.receipt.intent.actor
        || e.receipt.intent.actor in db.projects[db.tasks[a.task].project].members)
    && db.tasks[a.task].assignee == e.receipt.assignee
    && db.tasks[a.task].offchain == Open && db.tasks[a.task].chain == ChainOpen
    && (db.tasks[a.task].deadline.Some? ==> e.receipt.intent.at < db.tasks[a.task].deadline.value)
    && db.bundles[a.bundle].passing && db.bundles[a.bundle].task == a.task
    && db.bundles[a.bundle].evidenceHash == a.evidenceHash && db.bundles[a.bundle].commitHash == a.commitHash
    && (forall b | b in db.bundles && db.bundles[b].task == a.task && db.bundles[b].passing ::
          db.bundles[b].createdAt <= db.bundles[a.bundle].createdAt)
  }

  /**
   * The owner asked for the task just as it is, under the policy its active project had active, the hash of which
   * its canonical payload commits to, on the chain of the creator's one verified wallet.
   */
  ghost predicate Posts(db: Tables, e: Event, t: TaskId, task: Task) {
    && e.PostTask? && e.task.publicId == t
    && TaskKept(task, task.(canonical := e.task.canonical, taskHash := e.task.taskHash, creator := e.task.creator,
                            contract := e.task.contract, project := e.task.project, policy := e.task.policy,
                            createdAt := e.task.at))
    && e.task.walletChains == [task.chainId]
    && task.project in db.projects && db.projects[task.project].owner == e.task.actor
    && db.projects[task.project].active
    && db.projects[task.project].activePolicy == Some(task.policy)
    && task.policy in db.policies && db.policies[task.policy].policy.policyHash == task.canonical.policyHash
  }

  lemma ReceiptAttests(db: Tables, e: Event, x: TxId)
    requires e.OpenReceipt? && x !in db.attestations && x in CreateReceiptStep(db, e.receipt).tables.attestations
    ensures Attests(db, e, x, CreateReceiptStep(db, e.receipt).tables.attestations[x])
  {
    hide ReadTask, CreateReceiptStep, OtherReceiptPending, KeyTaken;
    CreateReceiptShape(db, e.receipt);
    MemberProject(db, db.tasks[e.receipt.intent.task].project, e.receipt.intent.actor);
  }

  lemma PostedAsAsked(db: Tables, e: Event, t: TaskId)
    requires e.PostTask? && t !in db.tasks && t in CreateTaskStep(db, e.task).tables.tasks
    ensures Posts(db, e, t, CreateTaskStep(db, e.task).tables.tasks[t])
  {
    hide ReadTask, AcceptsCanonical, TaskHashTaken;
  }

  /** Nothing but the one event kind adds tasks or attestations. */
  lemma ClientAdds(db: Tables, e: Event)
    requires Structure(db) && !e.Begin? && !e.Finish?
    ensures !e.OpenReceipt? ==> ClientTables(db, e).attestations == db.attestations
    ensures !e.PostTask? ==> ClientTables(db, e).tasks.Keys == db.tasks.Keys
  {
    hide Structure, CreateTaskStep, CreateIntentStep, CreateReceiptStep, OutcomeStep, ReplacementStep,
         PersistEvidenceStep, UpdateProjectStep, CreatePolicyStep, TaskSound, BundleSound, RowSound;
    var after := ClientTables(db, e);
    if after != db {
      match e
      case PostTask(i) => CreateTaskShape(db, i);
      case OpenIntent(i) => CreateIntentShape(db, i);
      case OpenReceipt(i) => CreateReceiptShape(db, i);
      case ReportOutcome(i) =>
        if i.tx in db.txs {
          StructureRow(db, i.tx);
        }
        OutcomeTables(db, i);
        TransitionShape(db, i);
      case ReportReplacement(i) => ReplacementShape(db, i);
      case UploadEvidence(i) => PersistEvidenceShape(db, i);
      case PatchProject(p) => UpdateProjectShape(db, p);
      case StorePolicy(i) => CreatePolicyShape(db, i);
    }
  }

  lemma FinishAdds(s: State, e: Event)
    requires Sound(s) && e.Finish?
    ensures Next(s, e).db.attestations == s.db.attestations && Next(s, e).db.tasks.Keys == s.db.tasks.Keys
  {
    hide Structure, ConfirmedWitnessed, RevertedFailed, Bound, Decide, WriteBack, Confirms;
    if e.thread in s.threads && Next(s, e).db != s.db {
      var c := s.threads[e.thread];
      if Decide(c, e.answer).DecideConfirmed? {
        ConfirmedAsDecided(s.db, c, e.answer, e.at);
        ConfirmsFields(s.db, Next(s, e).db, ConfirmationOf(c, Decide(c, e.answer), e.at));
      } else {
        MarkedRows(s.db, c, Decide(c, e.answer), e.at);
      }
    }
  }

  lemma NextAttests(s: State, e: Event, x: TxId)
    requires Sound(s) && x in Next(s, e).db.attestations && x !in s.db.attestations
    ensures Attests(s.db, e, x, Next(s, e).db.attestations[x])
  {
    hide Structure, ThreadsBound, ConfirmedWitnessed, RevertedFailed, Attests, CreateReceiptStep, FinishThread,
         ReadContext;
    if e.Finish? {
      FinishAdds(s, e);
    } else if !e.Begin? {
      ClientAdds(s.db, e);
      ReceiptAttests(s.db, e, x);
    }
  }

  lemma NextPosts(s: State, e: Event, t: TaskId)
    requires Sound(s) && t in Next(s, e).db.tasks && t !in s.db.tasks
    ensures Posts(s.db, e, t, Next(s, e).db.tasks[t])
  {
    hide Structure, ThreadsBound, ConfirmedWitnessed, RevertedFailed, Posts, CreateTaskStep, FinishThread, ReadContext;
    if e.Finish? {
      FinishAdds(s, e);
    } else if !e.Begin? {
      ClientAdds(s.db, e);
      PostedAsAsked(s.db, e, t);
    }
  }

  // ----- over whole runs -----

  lemma InitialIsSound(s: State, events: seq<Event>)
    requires Initial(s)
    ensures Sound(Run(s, events))
  {
    hide Run;
    InitialSound(s);
    RunSound(s, events);
  }

  lemma LastEvent(s: State, events: seq<Event>)
    requires events != []
    ensures Run(s, events) == Next(Run(s, events[..|events| - 1]), events[|events| - 1])
  {
    hide Next;
    var n := |events| - 1;
    assert events == events[..n] + [events[n]];
    RunAppends(s, events[..n], [events[n]]);
    assert [events[n]][1..] == [];
    assert Run(Run(s, events[..n]), [events[n]]) == Run(Next(Run(s, events[..n]), events[n]), []);
  }

  ghost predicate AttestedAt(s: State, events: seq<Event>, k: nat, x: TxId, a: Attestation) {
    k < |events| && Attests(Run(s, events[..k]).db, events[k], x, a)
  }

  /**
   * Behind every stored attestation is the event of the run that opened its receipt, and what that event found:
   * among other things, that the bundle was the newest passing one of its task.
   */
  lemma {:induction false} AttestationOrigin(s: State, events: seq<Event>, x: TxId)
    requires Initial(s) && x in Run(s, events).db.attestations
    ensures exists k: nat :: AttestedAt(s, events, k, x, Run(s, events).db.attestations[x])
    decreases |events|
  {
    hide Next, Sound, Extends, Attests;
    if events != [] {
      var n := |events| - 1;
      var mid := Run(s, events[..n]);
      LastEvent(s, events);
      InitialIsSound(s, events[..n]);
      if x in mid.db.attestations {
        AttestationOrigin(s, events[..n], x);
        NextSound(mid, events[n]);
        AttestationKept(mid.db, Run(s, events).db, x);
        var k: nat :| AttestedAt(s, events[..n], k, x, mid.db.attestations[x]);
        assert events[..n][..k] == events[..k] && events[..n][k] == events[k];
        assert AttestedAt(s, events, k, x, mid.db.attestations[x]);
      } else {
        NextAttests(mid, events[n], x);
        assert AttestedAt(s, events, n, x, Run(s, events).db.attestations[x]);
      }
    }
  }

  lemma AttestationKept(db: Tables, later: Tables, x: TxId)
    requires Extends(db, later) && x in db.attestations
    ensures x in later.attestations && later.attestations[x] == db.attestations[x]
  {
  }

  ghost predicate PostedAt(s: State, events: seq<Event>, k: nat, t: TaskId, task: Task) {
    k < |events| && Posts(Run(s, events[..k]).db, events[k], t, task)
  }

  lemma PostsKept(db: Tables, e: Event, t: TaskId, before: Task, after: Task)
    requires Posts(db, e, t, before) && TaskKept(before, after)
    ensures Posts(db, e, t, after)
  {
  }

  lemma TaskStaysKept(db: Tables, later: Tables, t: TaskId)
    requires Extends(db, later) && t in db.tasks
    ensures t in later.tasks && TaskKept(db.tasks[t], later.tasks[t])
  {
  }

  /** Behind every stored task is the event that posted it, with the columns the task still has. */
  lemma {:induction false} TaskOrigin(s: State, events: seq<Event>, t: TaskId)
    requires Initial(s) && t in Run(s, events).db.tasks
    ensures exists k: nat :: PostedAt(s, events, k, t, Run(s, events).db.tasks[t])
    decreases |events|
  {
    hide Next, Sound, Extends, Posts, TaskKept;
    if events != [] {
      var n := |events| - 1;
      var mid := Run(s, events[..n]);
      LastEvent(s, events);
      InitialIsSound(s, events[..n]);
      if t in mid.db.tasks {
        TaskOrigin(s, events[..n], t);
        NextSound(mid, events[n]);
        TaskStaysKept(mid.db, Run(s, events).db, t);
        var k: nat :| PostedAt(s, events[..n], k, t, mid.db.tasks[t]);
        assert events[..n][..k] == events[..k] && events[..n][k] == events[k];
        PostsKept(Run(s, events[..k]).db, events[k], t, mid.db.tasks[t], Run(s, events).db.tasks[t]);
        assert PostedAt(s, events, k, t, Run(s, events).db.tasks[t]);
      } else {
        NextPosts(mid, events[n], t);
        assert PostedAt(s, events, n, t, Run(s, events).db.tasks[t]);
      }
    }
  }

  // ----- what reconcilers record -----

  ghost predicate AnsweredAt(events: seq<Event>, k: nat, receipt: Receipt) {
    k < |events| && events[k].Finish? && events[k].answer == Found(receipt)
  }

  ghost predicate RecordsAnswered(s: State, events: seq<Event>) {
    && (forall x | x in s.witnesses :: exists k: nat :: AnsweredAt(events, k, s.witnesses[x].receipt))
    && (forall x | x in s.failures :: exists k: nat :: AnsweredAt(events, k, s.failures[x]))
  }

  lemma NextRecords(s: State, e: Event)
    ensures forall x | x in Next(s, e).witnesses ::
              || (x in s.witnesses && Next(s, e).witnesses[x] == s.witnesses[x])
              || (e.Finish? && e.answer == Found(Next(s, e).witnesses[x].receipt))
    ensures forall x | x in Next(s, e).failures ::
              || (x in s.failures && Next(s, e).failures[x] == s.failures[x])
              || (e.Finish? && e.answer == Found(Next(s, e).failures[x]))
  {
    hide ReadContext, ClientTables, WriteBack, Matching;
  }

  lemma AnsweredLater(events: seq<Event>, n: nat, receipt: Receipt)
    requires n <= |events| && exists k: nat :: AnsweredAt(events[..n], k, receipt)
    ensures exists k: nat :: AnsweredAt(events, k, receipt)
  {
    var k: nat :| AnsweredAt(events[..n], k, receipt);
    assert AnsweredAt(events, k, receipt);
  }

  /** Every receipt on record was the answer to some reconciler of the run. */
  lemma {:induction false} RecordOrigin(s: State, events: seq<Event>)
    requires Initial(s)
    ensures RecordsAnswered(Run(s, events), events)
    decreases |events|
  {
    hide Next;
    if events != [] {
      var n := |events| - 1;
      var mid, end := Run(s, events[..n]), Run(s, events);
      RecordOrigin(s, events[..n]);
      LastEvent(s, events);
      NextRecords(mid, events[n]);
      forall x | x in end.witnesses ensures exists k: nat :: AnsweredAt(events, k, end.witnesses[x].receipt) {
        if x in mid.witnesses && end.witnesses[x] == mid.witnesses[x] {
          AnsweredLater(events, n, end.witnesses[x].receipt);
        } else {
          assert AnsweredAt(events, n, end.witnesses[x].receipt);
        }
      }
      forall x | x in end.failures ensures exists k: nat :: AnsweredAt(events, k, end.failures[x]) {
        if x in mid.failures && end.failures[x] == mid.failures[x] {
          AnsweredLater(events, n, end.failures[x]);
        } else {
          assert AnsweredAt(events, n, end.failures[x]);
        }
      }
    }
  }

  /** Every reverted row got the node's word that its own transaction failed, in the block the row carries. */
  lemma RevertedRowFailed(s: State, events: seq<Event>, x: TxId)
    requires Initial(s) && x in Run(s, events).db.txs && Run(s, events).db.txs[x].status == Reverted
    ensures exists k: nat, receipt :: AnsweredAt(events, k, receipt) && Failed(Run(s, events).db, x, receipt)
  {
    hide Run, Structure, Failed, ThreadsBound, ConfirmedWitnessed;
    InitialIsSound(s, events);
    RecordOrigin(s, events);
    var end := Run(s, events);
    var k: nat :| AnsweredAt(events, k, end.failures[x]);
    assert Failed(end.db, x, end.failures[x]);
  }

  /** Every confirmed row got its word that it succeeded, with one matching log whose event is now indexed. */
  lemma ConfirmedRowProved(s: State, events: seq<Event>, x: TxId)
    requires Initial(s) && x in Run(s, events).db.txs && Run(s, events).db.txs[x].status == Confirmed
    ensures exists k: nat, w: Witness ::
              AnsweredAt(events, k, w.receipt) && Witnessed(Run(s, events).db, x, w) && w.log in w.receipt.logs
  {
    hide Run, Structure, ThreadsBound, RevertedFailed, Bound;
    InitialIsSound(s, events);
    RecordOrigin(s, events);
    var end := Run(s, events);
    var w := end.witnesses[x];
    var k: nat :| AnsweredAt(events, k, w.receipt);
    assert Witnessed(end.db, x, w);
  }
}
