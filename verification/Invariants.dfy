/** What every wired step keeps: the structure of the tables, and the states a task and its transactions share. */
module Invariants {
  import opened Prelude
  import opened Tasks
  import opened ChainTransactions
  import opened Store
  import Evidence

  // ----- structure -----

  ghost predicate TaskSound(db: Tables, id: TaskId)
    requires id in db.tasks
  {
    var t := db.tasks[id];
    && t.project in db.projects
    && t.policy in db.policies
    && db.policies[t.policy].project == t.project
    && db.policies[t.policy].policy.policyHash == t.policyHash
    && t.contract != 0 && t.taskHash != 0 && t.reward <= BIGINT_MAX
    && (t.deadline.Some? ==> ValidDate(t.deadline.value) && t.deadline.value > t.createdAt)
    && Consistent(t, db.projects[t.project].repositoryUrl)
  }

  ghost predicate TasksSound(db: Tables) {
    forall id | id in db.tasks :: TaskSound(db, id)
  }

  /** A chain task identity fits its column and belongs to one task. */
  ghost predicate IdentitiesSound(db: Tables) {
    && (forall a | a in db.tasks && db.tasks[a].chainTaskId.Some? :: db.tasks[a].chainTaskId.value <= BIGINT_MAX)
    && forall a, b | a in db.tasks && b in db.tasks && a != b && db.tasks[a].chainTaskId.Some? ::
      db.tasks[a].chainId == db.tasks[b].chainId && db.tasks[a].contract == db.tasks[b].contract ==>
      db.tasks[a].chainTaskId != db.tasks[b].chainTaskId
  }

  /**
   * A row is bound to its task's project, chain, contract and wallet, an intent was opened before the deadline,
   * a receipt is attested unless it replaces another row, and only the owner moved it.
   */
  ghost predicate RowSound(db: Tables, id: TxId)
    requires id in db.txs
  {
    var r := db.txs[id];
    && RowInvariant(r)
    && r.task in db.tasks
    && r.project == db.tasks[r.task].project
    && r.chainId == db.tasks[r.task].chainId
    && r.toAddress == db.tasks[r.task].contract
    && r.intent in {CreateTask, SubmitReceipt}
    && r.fromAddress == (if r.intent == CreateTask then db.tasks[r.task].creator else db.tasks[r.task].assignee)
    && r.status != Prepared
    && (r.hash.Some? ==> r.hash.value != 0)
    && (r.status in {Submitted, UnknownReconcile} ==> r.hash.Some?)
    && (r.intent == SubmitReceipt && !r.response.TxResponse? ==> id in db.attestations)
    && !r.response.NoResponse?
    && (!r.response.TxResponse? && db.tasks[r.task].deadline.Some? ==> r.createdAt < db.tasks[r.task].deadline.value)
    && (r.response.TxResponse? ==> r.response.tx.nonce.Some?)
    && r.project in db.projects
    && (r.status != WalletRequested || r.intent == CreateTask ==> IsOwner(db, r.project, r.user))
  }

  ghost predicate RowsSound(db: Tables) {
    forall id | id in db.txs :: RowSound(db, id)
  }

  ghost predicate HashesUnique(txs: map<TxId, Tx>) {
    forall a, b | a in txs && b in txs && a != b && txs[a].hash.Some? && txs[a].chainId == txs[b].chainId ::
      txs[a].hash != txs[b].hash
  }

  ghost predicate KeysUnique(txs: map<TxId, Tx>) {
    forall a, b | a in txs && b in txs && a != b ::
      !SameKey(txs[a], txs[b].user, txs[b].intent, txs[b].key)
  }

  ghost predicate AttestationSound(db: Tables, id: TxId)
    requires id in db.attestations
  {
    var a := db.attestations[id];
    && id in db.txs
    && db.txs[id].intent == SubmitReceipt
    && !db.txs[id].response.TxResponse?
    && a.task == db.txs[id].task
    && a.bundle in db.bundles
    && db.bundles[a.bundle].task == a.task
    && db.bundles[a.bundle].passing
    && db.bundles[a.bundle].evidenceHash == a.evidenceHash
    && db.bundles[a.bundle].commitHash == a.commitHash
    && a.verifier != 0 && a.digest != 0
    && a.expirySeconds <= BIGINT_MAX && a.expirySeconds * 1000 > db.txs[id].createdAt
  }

  ghost predicate AttestationsSound(db: Tables) {
    forall id | id in db.attestations :: AttestationSound(db, id)
  }

  /** The row whose confirmation indexed the event: same chain, hash, contract and block. */
  ghost predicate Indexes(db: Tables, id: TxId, k: EventKey) {
    && id in db.txs && k in db.events
    && db.txs[id].status == Confirmed
    && db.txs[id].chainId == k.chainId
    && db.txs[id].hash == Some(k.hash)
    && db.txs[id].toAddress == db.events[k].contract
    && db.txs[id].blockNumber == Some(db.events[k].blockNumber)
  }

  ghost predicate EventSound(db: Tables, k: EventKey) {
    exists id :: Indexes(db, id, k)
  }

  ghost predicate EventsSound(db: Tables) {
    forall k | k in db.events :: EventSound(db, k)
  }

  /** A stored bundle passed the schema and was recomputed against its task's own policy. */
  ghost predicate BundleSound(db: Tables, b: BundleId)
    requires b in db.bundles
  {
    var s := db.bundles[b];
    && s.task in db.tasks
    && db.tasks[s.task].policy in db.policies
    && s.bundle.task == s.task
    && s.bundle.taskHash == db.tasks[s.task].taskHash
    && Evidence.SchemaAccepts(s.bundle)
    && Evidence.AnyRequired(s.bundle.checks)
    && Evidence.PersistMatch(s.bundle.checks, db.policies[db.tasks[s.task].policy].policy)
    && s.passing == s.bundle.result.passing
    && s.passing == Evidence.AllRequiredPassed(s.bundle.checks)
    && s.commitHash == s.bundle.git.derivedCommitHash
  }

  ghost predicate BundlesSound(db: Tables) {
    forall b | b in db.bundles :: BundleSound(db, b)
  }

  /** `tasks_project_hash_unique` */
  ghost predicate TaskHashesUnique(tasks: map<TaskId, Task>) {
    forall a, b | a in tasks && b in tasks && a != b && tasks[a].project == tasks[b].project ::
      tasks[a].taskHash != tasks[b].taskHash
  }

  ghost predicate EvidenceHashesUnique(bundles: map<BundleId, StoredBundle>) {
    forall a, b | a in bundles && b in bundles && a != b && bundles[a].task == bundles[b].task ::
      bundles[a].evidenceHash != bundles[b].evidenceHash
  }

  /** `policies_project_hash_unique` */
  ghost predicate PolicyHashesUnique(policies: map<PolicyId, PolicyVersion>) {
    forall a, b | a in policies && b in policies && a != b && policies[a].project == policies[b].project ::
      policies[a].policy.policyHash != policies[b].policy.policyHash
  }

  /** A content hash names one task or policy of its project, and one bundle of its task. */
  ghost predicate ContentUnique(db: Tables) {
    TaskHashesUnique(db.tasks) && EvidenceHashesUnique(db.bundles) && PolicyHashesUnique(db.policies)
  }

  ghost predicate Structure(db: Tables) {
    && TasksSound(db)
    && IdentitiesSound(db)
    && RowsSound(db)
    && HashesUnique(db.txs)
    && KeysUnique(db.txs)
    && AttestationsSound(db)
    && EventsSound(db)
    && BundlesSound(db)
    && ContentUnique(db)
  }

  // ----- what is never taken back -----

  /** The columns of a row that no call rewrites; a hash, once known, stays. */
  predicate RowKept(before: Tx, after: Tx) {
    && after.user == before.user
    && after.project == before.project
    && after.task == before.task
    && after.intent == before.intent
    && after.key == before.key
    && after.requestHash == before.requestHash
    && after.chainId == before.chainId
    && after.fromAddress == before.fromAddress
    && after.toAddress == before.toAddress
    && after.response == before.response
    && after.createdAt == before.createdAt
    && (before.hash.Some? ==> after.hash == before.hash && after.nonce == before.nonce)
    && (before.hash.None? && after.hash.Some? ==> before.status in {Prepared, WalletRequested})
    && (Terminal(before.status) ==> after == before)
    && (after.status in {Prepared, WalletRequested} ==> before.status in {Prepared, WalletRequested})
  }

  predicate TaskKept(before: Task, after: Task) {
    && after == before.(chainTaskId := after.chainTaskId, offchain := after.offchain, chain := after.chain,
                        updatedAt := after.updatedAt)
  }

  ghost predicate Kept<K, V>(before: map<K, V>, after: map<K, V>) {
    forall k | k in before :: k in after && after[k] == before[k]
  }

  ghost predicate TasksKept(before: map<TaskId, Task>, after: map<TaskId, Task>) {
    forall t | t in before :: t in after && TaskKept(before[t], after[t])
  }

  ghost predicate RowsKept(before: map<TxId, Tx>, after: map<TxId, Tx>) {
    forall x | x in before :: x in after && RowKept(before[x], after[x])
  }

  ghost predicate ProjectsKept(db: Tables, later: Tables) {
    forall p | p in db.projects ::
      && p in later.projects
      && later.projects[p].owner == db.projects[p].owner
      && (ProjectHasTask(db, p) ==> later.projects[p].repositoryUrl == db.projects[p].repositoryUrl)
  }

  /** Nothing is deleted, and what is immutable stays as it was. */
  ghost predicate Extends(db: Tables, later: Tables) {
    && ProjectsKept(db, later)
    && Kept(db.policies, later.policies)
    && TasksKept(db.tasks, later.tasks)
    && RowsKept(db.txs, later.txs)
    && Kept(db.attestations, later.attestations)
    && Kept(db.events, later.events)
    && Kept(db.bundles, later.bundles)
    && Kept(db.reservations, later.reservations)
  }

  lemma SameKept(db: Tables)
    ensures RowsKept(db.txs, db.txs) && TasksKept(db.tasks, db.tasks)
    ensures Kept(db.attestations, db.attestations) && Kept(db.events, db.events)
    ensures Kept(db.bundles, db.bundles) && Kept(db.reservations, db.reservations)
    ensures Kept(db.policies, db.policies)
  {
  }

  lemma SameProjectsKept(db: Tables, later: Tables)
    requires later.projects == db.projects
    ensures ProjectsKept(db, later)
  {
  }

  lemma ExtendsReflexive(db: Tables)
    ensures Extends(db, db)
  {
    SameKept(db);
    SameProjectsKept(db, db);
  }

  lemma ProjectsKeptTransitive(a: Tables, b: Tables, c: Tables)
    requires ProjectsKept(a, b) && ProjectsKept(b, c) && TasksKept(a.tasks, b.tasks)
    ensures ProjectsKept(a, c)
  {
    forall p | p in a.projects && ProjectHasTask(a, p)
      ensures c.projects[p].repositoryUrl == a.projects[p].repositoryUrl
    {
      var id :| id in a.tasks && a.tasks[id].project == p;
      assert b.tasks[id].project == p;
    }
  }

  lemma RowsKeptTransitive(a: map<TxId, Tx>, b: map<TxId, Tx>, c: map<TxId, Tx>)
    requires RowsKept(a, b) && RowsKept(b, c)
    ensures RowsKept(a, c)
  {
    forall x | x in a ensures x in c && RowKept(a[x], c[x]) {
      assert RowKept(a[x], b[x]) && RowKept(b[x], c[x]);
    }
  }

  lemma TasksKeptTransitive(a: map<TaskId, Task>, b: map<TaskId, Task>, c: map<TaskId, Task>)
    requires TasksKept(a, b) && TasksKept(b, c)
    ensures TasksKept(a, c)
  {
    forall x | x in a ensures x in c && TaskKept(a[x], c[x]) {
      assert TaskKept(a[x], b[x]) && TaskKept(b[x], c[x]);
    }
  }

  lemma ExtendsTransitive(a: Tables, b: Tables, c: Tables)
    requires Extends(a, b) && Extends(b, c)
    ensures Extends(a, c)
  {
    ProjectsKeptTransitive(a, b, c);
    RowsKeptTransitive(a.txs, b.txs, c.txs);
    TasksKeptTransitive(a.tasks, b.tasks, c.tasks);
  }

  // ----- soundness travels along an extension -----

  lemma TaskSoundKept(db: Tables, later: Tables, id: TaskId)
    requires Extends(db, later) && id in db.tasks && TaskSound(db, id)
    ensures TaskSound(later, id)
  {
    assert ProjectHasTask(db, db.tasks[id].project);
    assert TaskKept(db.tasks[id], later.tasks[id]);
  }

  lemma RowSoundKept(db: Tables, later: Tables, id: TxId)
    requires Extends(db, later) && id in db.txs && RowSound(db, id) && later.txs[id] == db.txs[id]
    ensures RowSound(later, id)
  {
    assert TaskKept(db.tasks[db.txs[id].task], later.tasks[db.txs[id].task]);
  }

  lemma AttestationSoundKept(db: Tables, later: Tables, id: TxId)
    requires Extends(db, later) && id in db.attestations && AttestationSound(db, id)
    ensures AttestationSound(later, id)
  {
    assert RowKept(db.txs[id], later.txs[id]);
  }

  lemma EventSoundKept(db: Tables, later: Tables, k: EventKey)
    requires Extends(db, later) && EventSound(db, k)
    ensures EventSound(later, k)
  {
    var id :| Indexes(db, id, k);
    assert RowKept(db.txs[id], later.txs[id]);
    assert Indexes(later, id, k);
  }

  lemma BundleSoundKept(db: Tables, later: Tables, b: BundleId)
    requires Extends(db, later) && b in db.bundles && BundleSound(db, b)
    ensures BundleSound(later, b)
  {
    assert TaskKept(db.tasks[db.bundles[b].task], later.tasks[db.bundles[b].task]);
  }

  /** What a step has to show of the things it adds or changes. */
  ghost predicate ChangesSound(db: Tables, later: Tables) {
    && (forall t | t in later.tasks && t !in db.tasks :: TaskSound(later, t))
    && (forall x | x in later.txs && !(x in db.txs && later.txs[x] == db.txs[x]) :: RowSound(later, x))
    && (forall a | a in later.attestations && a !in db.attestations :: AttestationSound(later, a))
    && (forall k | k in later.events && k !in db.events :: EventSound(later, k))
    && (forall b | b in later.bundles && b !in db.bundles :: BundleSound(later, b))
  }

  /** The parts of the structure that relate two entries of a table. */
  ghost predicate Uniqueness(db: Tables) {
    IdentitiesSound(db) && HashesUnique(db.txs) && KeysUnique(db.txs) && ContentUnique(db)
  }

  lemma StructureKept(db: Tables, later: Tables)
    requires Structure(db) && Extends(db, later) && ChangesSound(db, later) && Uniqueness(later)
    ensures Structure(later)
  {
    forall id | id in later.tasks ensures TaskSound(later, id) {
      if id in db.tasks {
        TaskSoundKept(db, later, id);
      }
    }
    forall id | id in later.txs ensures RowSound(later, id) {
      if id in db.txs && later.txs[id] == db.txs[id] {
        RowSoundKept(db, later, id);
      }
    }
    forall id | id in later.attestations ensures AttestationSound(later, id) {
      if id in db.attestations {
        AttestationSoundKept(db, later, id);
      }
    }
    forall k | k in later.events ensures EventSound(later, k) {
      if k in db.events {
        EventSoundKept(db, later, k);
      }
    }
    forall b | b in later.bundles ensures BundleSound(later, b) {
      if b in db.bundles {
        BundleSoundKept(db, later, b);
      }
    }
  }

  // ----- the shapes of change -----

  /** Everything but rows, tasks, attestations and events is as before. */
  predicate OnlyProtocolTables(db: Tables, later: Tables) {
    && later.projects == db.projects
    && later.policies == db.policies
    && later.bundles == db.bundles
  }

  /** Tasks kept, none added. */
  ghost predicate TasksMoved(db: Tables, later: Tables) {
    && later.tasks.Keys == db.tasks.Keys
    && TasksKept(db.tasks, later.tasks)
  }

  lemma KeptInserted<K, V>(m: map<K, V>, k: K, v: V)
    requires k !in m
    ensures Kept(m, m[k := v])
  {
  }

  lemma KeptSame<K, V>(m: map<K, V>)
    ensures Kept(m, m)
  {
  }

  lemma RowInsertedKept(txs: map<TxId, Tx>, id: TxId, row: Tx)
    requires id !in txs
    ensures RowsKept(txs, txs[id := row])
  {
    forall x | x in txs ensures RowKept(txs[x], txs[id := row][x]) {
    }
  }

  lemma RowUpdatedKept(txs: map<TxId, Tx>, id: TxId, row: Tx)
    requires id in txs && RowKept(txs[id], row)
    ensures RowsKept(txs, txs[id := row])
  {
    forall x | x in txs ensures RowKept(txs[x], txs[id := row][x]) {
    }
  }

  lemma TaskInsertedKept(tasks: map<TaskId, Task>, id: TaskId, t: Task)
    requires id !in tasks
    ensures TasksKept(tasks, tasks[id := t])
  {
  }

  lemma TaskUpdatedKept(tasks: map<TaskId, Task>, id: TaskId, t: Task)
    requires id in tasks && TaskKept(tasks[id], t)
    ensures TasksKept(tasks, tasks[id := t])
  {
  }

  lemma HashesUniqueInserted(txs: map<TxId, Tx>, id: TxId, row: Tx)
    requires HashesUnique(txs)
    requires row.hash.Some? ==>
               forall x | x in txs && x != id && txs[x].chainId == row.chainId :: txs[x].hash != row.hash
    ensures HashesUnique(txs[id := row])
  {
  }

  lemma KeysUniqueInserted(txs: map<TxId, Tx>, id: TxId, row: Tx)
    requires KeysUnique(txs)
    requires forall x | x in txs && x != id :: !SameKey(txs[x], row.user, row.intent, row.key)
    ensures KeysUnique(txs[id := row])
  {
  }

  /** The new or changed row `id` is the only one whose soundness is left to show. */
  ghost predicate RowChangeSound(db: Tables, later: Tables, id: TxId) {
    && (forall x | x in later.txs && x != id :: x in db.txs && later.txs[x] == db.txs[x])
    && id in later.txs
    && RowSound(later, id)
    && (forall a | a in later.attestations && a !in db.attestations :: AttestationSound(later, a))
    && (forall k | k in later.events && k !in db.events :: EventSound(later, k))
  }

  lemma RowChangeKeepsStructure(db: Tables, later: Tables, id: TxId)
    requires Structure(db) && OnlyProtocolTables(db, later) && TasksMoved(db, later) && Extends(db, later)
    requires RowChangeSound(db, later, id)
    requires HashesUnique(later.txs) && KeysUnique(later.txs) && IdentitiesSound(later)
    ensures Structure(later)
  {
    assert ChangesSound(db, later);
    ContentCarried(db, later);
    StructureKept(db, later);
  }

  lemma ContentCarried(db: Tables, later: Tables)
    requires ContentUnique(db) && OnlyProtocolTables(db, later) && TasksMoved(db, later)
    ensures ContentUnique(later)
  {
    forall a | a in later.tasks ensures TaskKept(db.tasks[a], later.tasks[a]) {
    }
  }

  /** A fresh row, whose hash and key nobody holds yet. */
  lemma RowAdded(db: Tables, later: Tables, id: TxId, row: Tx)
    requires Structure(db) && OnlyProtocolTables(db, later) && TasksMoved(db, later)
    requires id !in db.txs && later.txs == db.txs[id := row] && later.events == db.events
    requires Kept(db.attestations, later.attestations) && Kept(db.reservations, later.reservations)
    requires RowChangeSound(db, later, id)
    requires !KeyTaken(db, row.user, row.intent, row.key)
    requires row.hash.Some? ==> !HashTaken(db, id, row.chainId, row.hash.value)
    requires IdentitiesSound(later)
    ensures Structure(later) && Extends(db, later)
  {
    RowInsertedKept(db.txs, id, row);
    SameProjectsKept(db, later);
    KeptSame(db.events);
    KeptSame(db.bundles);
    HashesUniqueInserted(db.txs, id, row);
    KeysUniqueInserted(db.txs, id, row);
    RowChangeKeepsStructure(db, later, id);
  }

  /** An existing row moves on, keeping what is immutable. */
  lemma RowMoved(db: Tables, later: Tables, id: TxId, row: Tx)
    requires Structure(db) && OnlyProtocolTables(db, later) && TasksMoved(db, later)
    requires id in db.txs && later.txs == db.txs[id := row] && RowKept(db.txs[id], row)
    requires Kept(db.attestations, later.attestations) && Kept(db.events, later.events)
    requires Kept(db.reservations, later.reservations)
    requires RowChangeSound(db, later, id)
    requires row.hash.Some? && row.hash != db.txs[id].hash ==> !HashTaken(db, id, row.chainId, row.hash.value)
    requires IdentitiesSound(later)
    ensures Structure(later) && Extends(db, later)
  {
    RowUpdatedKept(db.txs, id, row);
    SameProjectsKept(db, later);
    KeptSame(db.bundles);
    HashesUniqueInserted(db.txs, id, row);
    KeysUniqueInserted(db.txs, id, row);
    RowChangeKeepsStructure(db, later, id);
  }

  /** A step that leaves rows, attestations and events alone. */
  lemma RowsUntouched(db: Tables, later: Tables)
    requires Structure(db) && Extends(db, later)
    requires later.txs == db.txs && later.attestations == db.attestations && later.events == db.events
    requires forall t | t in later.tasks && t !in db.tasks :: TaskSound(later, t) && later.tasks[t].chainTaskId.None?
    requires forall t | t in db.tasks :: t in later.tasks && later.tasks[t] == db.tasks[t]
    requires forall b | b in later.bundles && b !in db.bundles :: BundleSound(later, b)
    requires ContentUnique(later)
    ensures Structure(later)
  {
    hide Extends, TaskSound, RowSound, AttestationSound, EventSound, BundleSound, ContentUnique;
    assert ChangesSound(db, later);
    assert Uniqueness(later);
    StructureKept(db, later);
  }

  // ----- each step keeps the structure and takes nothing back -----

  lemma CreateTaskShape(db: Tables, i: CreateTaskInput)
    requires CreateTaskStep(db, i).tables != db
    ensures var after := CreateTaskStep(db, i).tables;
            && i.publicId !in db.tasks
            && i.publicId in after.tasks
            && ApiKey(i.actor, OpTaskCreate, i.key) !in db.reservations
            && ApiKey(i.actor, OpTaskCreate, i.key) in after.reservations
            && after == db.(tasks := db.tasks[i.publicId := after.tasks[i.publicId]],
                            reservations := db.reservations[ApiKey(i.actor, OpTaskCreate, i.key) :=
                              after.reservations[ApiKey(i.actor, OpTaskCreate, i.key)]])
            && after.tasks[i.publicId].project in db.projects && db.projects[after.tasks[i.publicId].project].active
            && after.tasks[i.publicId].chainTaskId.None?
            && after.tasks[i.publicId].offchain == Draft && after.tasks[i.publicId].chain == NoChain
            && !TaskHashTaken(db, after.tasks[i.publicId].project, after.tasks[i.publicId].taskHash)
            && TaskSound(after, i.publicId)
  {
  }

  lemma CreateTaskKeeps(db: Tables, i: CreateTaskInput)
    requires Structure(db)
    ensures var after := CreateTaskStep(db, i).tables; Structure(after) && Extends(db, after)
  {
    hide *;
    var after := CreateTaskStep(db, i).tables;
    ExtendsReflexive(db);
    if after != db {
      CreateTaskShape(db, i);
      SameKept(db);
      SameProjectsKept(db, after);
      TaskInsertedKept(db.tasks, i.publicId, after.tasks[i.publicId]);
      var k := ApiKey(i.actor, OpTaskCreate, i.key);
      KeptInserted(db.reservations, k, after.reservations[k]);
      ExtendsIntro(db, after);
      StructureContent(db);
      TaskContent(db, after, i.publicId);
      RowsUntouched(db, after);
    }
  }

  lemma StructureContent(db: Tables)
    requires Structure(db)
    ensures ContentUnique(db)
  {
  }

  lemma TaskContent(db: Tables, later: Tables, id: TaskId)
    requires ContentUnique(db) && later.bundles == db.bundles && later.policies == db.policies
    requires id in later.tasks && later.tasks == db.tasks[id := later.tasks[id]]
    requires !TaskHashTaken(db, later.tasks[id].project, later.tasks[id].taskHash)
    ensures ContentUnique(later)
  {
  }

  lemma BundleContent(db: Tables, later: Tables, id: BundleId)
    requires ContentUnique(db) && later.tasks == db.tasks && later.policies == db.policies
    requires id in later.bundles && later.bundles == db.bundles[id := later.bundles[id]]
    requires !EvidenceHashTaken(db, later.bundles[id].task, later.bundles[id].evidenceHash)
    ensures ContentUnique(later)
  {
  }

  lemma PolicyContent(db: Tables, later: Tables, id: PolicyId)
    requires ContentUnique(db) && later.tasks == db.tasks && later.bundles == db.bundles
    requires id in later.policies && later.policies == db.policies[id := later.policies[id]]
    requires !PolicyHashTaken(db, later.policies[id].project, later.policies[id].policy.policyHash)
    ensures ContentUnique(later)
  {
  }

  lemma SameContent(db: Tables, later: Tables)
    requires ContentUnique(db)
    requires later.tasks == db.tasks && later.bundles == db.bundles && later.policies == db.policies
    ensures ContentUnique(later)
  {
  }

  lemma ExtendsIntro(db: Tables, later: Tables)
    requires ProjectsKept(db, later) && Kept(db.policies, later.policies)
    requires TasksKept(db.tasks, later.tasks) && RowsKept(db.txs, later.txs)
    requires Kept(db.attestations, later.attestations) && Kept(db.events, later.events)
    requires Kept(db.bundles, later.bundles) && Kept(db.reservations, later.reservations)
    ensures Extends(db, later)
  {
  }

  lemma PersistEvidenceShape(db: Tables, i: EvidenceInput)
    requires PersistEvidenceStep(db, i).tables != db
    ensures var after := PersistEvidenceStep(db, i).tables;
            && i.publicId !in db.bundles
            && i.publicId in after.bundles
            && after == db.(bundles := db.bundles[i.publicId := after.bundles[i.publicId]])
            && !EvidenceHashTaken(db, after.bundles[i.publicId].task, after.bundles[i.publicId].evidenceHash)
            && BundleSound(after, i.publicId)
  {
  }

  lemma PersistEvidenceKeeps(db: Tables, i: EvidenceInput)
    requires Structure(db)
    ensures var after := PersistEvidenceStep(db, i).tables; Structure(after) && Extends(db, after)
  {
    hide *;
    var after := PersistEvidenceStep(db, i).tables;
    ExtendsReflexive(db);
    if after != db {
      PersistEvidenceShape(db, i);
      SameKept(db);
      SameProjectsKept(db, after);
      KeptInserted(db.bundles, i.publicId, after.bundles[i.publicId]);
      ExtendsIntro(db, after);
      StructureContent(db);
      BundleContent(db, after, i.publicId);
      RowsUntouched(db, after);
    }
  }

  lemma UpdateProjectShape(db: Tables, p: ProjectPatch)
    ensures var after := UpdateProjectStep(db, p).tables;
            && after == db.(projects := after.projects)
            && ProjectsKept(db, after)
  {
    var after := UpdateProjectStep(db, p).tables;
    if after == db {
      SameProjectsKept(db, db);
    } else {
      var project := after.projects[p.project];
      assert after.projects == db.projects[p.project := project];
      assert project.owner == db.projects[p.project].owner;
      assert ProjectHasTask(db, p.project) ==> project.repositoryUrl == db.projects[p.project].repositoryUrl;
      ProjectUpdatedKept(db, after, p.project, project);
    }
  }

  lemma ProjectUpdatedKept(db: Tables, later: Tables, id: ProjectId, project: Project)
    requires id in db.projects && later.projects == db.projects[id := project]
    requires project.owner == db.projects[id].owner
    requires ProjectHasTask(db, id) ==> project.repositoryUrl == db.projects[id].repositoryUrl
    ensures ProjectsKept(db, later)
  {
  }

  lemma UpdateProjectKeeps(db: Tables, p: ProjectPatch)
    requires Structure(db)
    ensures var after := UpdateProjectStep(db, p).tables; Structure(after) && Extends(db, after)
  {
    hide *;
    var after := UpdateProjectStep(db, p).tables;
    UpdateProjectShape(db, p);
    SameKept(db);
    ExtendsIntro(db, after);
    StructureContent(db);
    SameContent(db, after);
    RowsUntouched(db, after);
  }

  lemma ActivatedKept(db: Tables, later: Tables, i: PolicyInput)
    requires i.project in db.projects && later.projects == Activated(db, i)
    ensures ProjectsKept(db, later)
  {
    if i.activate {
      ProjectUpdatedKept(db, later, i.project, later.projects[i.project]);
    } else {
      SameProjectsKept(db, later);
    }
  }

  lemma PolicyAdded(db: Tables, i: PolicyInput)
    requires CreatePolicyStep(db, i).tables != db
    ensures var after := CreatePolicyStep(db, i).tables;
            && i.project in db.projects && db.projects[i.project].active
            && after == db.(projects := Activated(db, i), policies := after.policies)
            && (after.policies == db.policies
                || (i.publicId !in db.policies
                    && !PolicyHashTaken(db, i.project, i.policy.policyHash)
                    && after.policies == db.policies[i.publicId := PolicyVersion(i.project, i.policy)]))
  {
    hide Activated;
  }

  lemma CreatePolicyShape(db: Tables, i: PolicyInput)
    ensures var after := CreatePolicyStep(db, i).tables;
            && after == db.(projects := after.projects, policies := after.policies)
            && ProjectsKept(db, after)
            && Kept(db.policies, after.policies)
            && (ContentUnique(db) ==> ContentUnique(after))
  {
    hide *;
    var after := CreatePolicyStep(db, i).tables;
    SameKept(db);
    SameProjectsKept(db, db);
    if after != db {
      PolicyAdded(db, i);
      ActivatedKept(db, after, i);
      if after.policies == db.policies {
        if ContentUnique(db) {
          SameContent(db, after);
        }
      } else {
        KeptInserted(db.policies, i.publicId, PolicyVersion(i.project, i.policy));
        if ContentUnique(db) {
          PolicyContent(db, after, i.publicId);
        }
      }
    }
  }

  lemma CreatePolicyKeeps(db: Tables, i: PolicyInput)
    requires Structure(db)
    ensures var after := CreatePolicyStep(db, i).tables; Structure(after) && Extends(db, after)
  {
    hide *;
    var after := CreatePolicyStep(db, i).tables;
    StructureContent(db);
    CreatePolicyShape(db, i);
    SameKept(db);
    ExtendsIntro(db, after);
    RowsUntouched(db, after);
  }

  // ----- steps that touch rows -----

  /** One task changes its status columns; its chain identity stays, or is new and free. */
  ghost predicate TaskMoved(db: Tables, later: Tables, id: TaskId, t: Task) {
    && id in db.tasks
    && later.tasks == db.tasks[id := t]
    && TaskKept(db.tasks[id], t)
    && (t.chainTaskId == db.tasks[id].chainTaskId
        || (t.chainTaskId.Some? && t.chainTaskId.value <= BIGINT_MAX
            && !ChainIdentityTaken(db, id, t, t.chainTaskId.value)))
  }

  lemma TaskMovedKeepsIdentities(db: Tables, later: Tables, id: TaskId, t: Task)
    requires TaskMoved(db, later, id, t)
    ensures TasksMoved(db, later)
    ensures IdentitiesSound(db) ==> IdentitiesSound(later)
  {
    TaskUpdatedKept(db.tasks, id, t);
  }

  lemma SameTasksKeepIdentities(db: Tables, later: Tables)
    requires later.tasks == db.tasks
    ensures TasksMoved(db, later)
    ensures IdentitiesSound(db) ==> IdentitiesSound(later)
  {
  }

  lemma CreateIntentShape(db: Tables, i: IntentInput)
    requires CreateIntentStep(db, i).tables != db
    ensures var after := CreateIntentStep(db, i).tables;
            && i.publicId !in db.txs && i.publicId in after.txs && i.task in after.tasks
            && after == db.(txs := db.txs[i.publicId := after.txs[i.publicId]], tasks := after.tasks)
            && TaskMoved(db, after, i.task, after.tasks[i.task])
            && RowSound(after, i.publicId)
            && after.txs[i.publicId].status == WalletRequested
            && after.txs[i.publicId].hash.None?
            && !KeyTaken(db, after.txs[i.publicId].user, after.txs[i.publicId].intent, after.txs[i.publicId].key)
            && i.task in db.tasks && db.tasks[i.task].offchain == Draft && db.tasks[i.task].chain == NoChain
            && after.txs[i.publicId].task == i.task && after.txs[i.publicId].intent == CreateTask
            && after.tasks == db.tasks[i.task := db.tasks[i.task].(offchain := AwaitingChain, updatedAt := i.at)]
  {
  }

  lemma CreateIntentKeeps(db: Tables, i: IntentInput)
    requires Structure(db)
    ensures var after := CreateIntentStep(db, i).tables; Structure(after) && Extends(db, after)
  {
    hide *;
    var after := CreateIntentStep(db, i).tables;
    ExtendsReflexive(db);
    if after != db {
      CreateIntentShape(db, i);
      StructureIdentities(db);
      TaskMovedKeepsIdentities(db, after, i.task, after.tasks[i.task]);
      FreshRowSound(db, after, i.publicId);
      SameKept(db);
      ProtocolTablesOnly(db, after);
      RowAdded(db, after, i.publicId, after.txs[i.publicId]);
    }
  }

  lemma StructureIdentities(db: Tables)
    requires Structure(db)
    ensures IdentitiesSound(db)
  {
  }

  lemma ProtocolTablesOnly(db: Tables, later: Tables)
    requires later.projects == db.projects && later.policies == db.policies && later.bundles == db.bundles
    ensures OnlyProtocolTables(db, later)
  {
  }

  /** A changed row that brings no event and no attestation with it. */
  lemma FreshRowSound(db: Tables, later: Tables, id: TxId)
    requires id in later.txs && later.txs == db.txs[id := later.txs[id]]
    requires later.attestations == db.attestations && later.events == db.events
    requires RowSound(later, id)
    ensures RowChangeSound(db, later, id)
  {
  }

  lemma CreateReceiptShape(db: Tables, i: ReceiptInput)
    requires CreateReceiptStep(db, i).tables != db
    ensures var after := CreateReceiptStep(db, i).tables;
            var id := i.intent.publicId;
            && id !in db.txs && id in after.txs && id in after.attestations
            && after == db.(txs := db.txs[id := after.txs[id]],
                            attestations := db.attestations[id := after.attestations[id]])
            && i.intent.task in db.tasks
            && CreateReceiptRefusal(db, i) == None
            && ReceiptAccepted(i)
            && IsMember(db, db.tasks[i.intent.task].project, i.intent.actor)
            && !KeyTaken(db, i.intent.actor, SubmitReceipt, i.intent.key)
            && after.attestations[id] == AttestationOf(i)
            && after.txs[id] == IntentRow(i.intent, db.tasks[i.intent.task], SubmitReceipt,
                                          db.tasks[i.intent.task].assignee).(response := after.txs[id].response)
            && after.txs[id].response.ReceiptResponse?
  {
  }

  lemma ReceiptNotRefused(db: Tables, i: ReceiptInput)
    requires i.intent.task in db.tasks && db.tasks[i.intent.task].project in db.projects
    requires CreateReceiptRefusal(db, i) == None
    ensures BundleBound(db, i) && !OtherReceiptPending(db, i.intent.task)
    ensures db.tasks[i.intent.task].chain == ChainOpen && db.tasks[i.intent.task].offchain == Open
    ensures !DeadlineElapsed(db.tasks[i.intent.task], i.intent.at) && i.expirySeconds <= BIGINT_MAX
  {
  }

  /** The inserted row and its attestation are bound to the task and to the passing bundle. */
  lemma ReceiptRowSound(db: Tables, after: Tables, i: ReceiptInput)
    requires i.intent.task in db.tasks && IsMember(db, db.tasks[i.intent.task].project, i.intent.actor)
    requires BundleBound(db, i) && ReceiptAccepted(i) && i.expirySeconds <= BIGINT_MAX
    requires !DeadlineElapsed(db.tasks[i.intent.task], i.intent.at)
    requires after.tasks == db.tasks && after.projects == db.projects && after.bundles == db.bundles
    requires i.intent.publicId in after.txs && i.intent.publicId in after.attestations
    requires after.attestations[i.intent.publicId] == AttestationOf(i)
    requires after.txs[i.intent.publicId]
             == IntentRow(i.intent, db.tasks[i.intent.task], SubmitReceipt, db.tasks[i.intent.task].assignee)
                .(response := after.txs[i.intent.publicId].response)
    requires after.txs[i.intent.publicId].response.ReceiptResponse?
    ensures RowSound(after, i.intent.publicId) && AttestationSound(after, i.intent.publicId)
    ensures after.txs[i.intent.publicId].status == WalletRequested && after.txs[i.intent.publicId].hash.None?
    ensures after.txs[i.intent.publicId].user == i.intent.actor && after.txs[i.intent.publicId].key == i.intent.key
    ensures after.txs[i.intent.publicId].intent == SubmitReceipt
    ensures after.txs[i.intent.publicId].task == i.intent.task
  {
  }

  lemma AttestationIsFresh(db: Tables, id: TxId)
    requires Structure(db) && id !in db.txs
    ensures id !in db.attestations
  {
  }

  lemma AttestedRowSound(db: Tables, later: Tables, id: TxId)
    requires id in later.txs && later.txs == db.txs[id := later.txs[id]]
    requires id in later.attestations && later.attestations == db.attestations[id := later.attestations[id]]
    requires later.events == db.events
    requires RowSound(later, id) && AttestationSound(later, id)
    ensures RowChangeSound(db, later, id)
  {
  }

  lemma CreateReceiptKeeps(db: Tables, i: ReceiptInput)
    requires Structure(db)
    ensures var after := CreateReceiptStep(db, i).tables; Structure(after) && Extends(db, after)
  {
    hide *;
    var after := CreateReceiptStep(db, i).tables;
    ExtendsReflexive(db);
    if after != db {
      var id := i.intent.publicId;
      CreateReceiptShape(db, i);
      MemberProject(db, db.tasks[i.intent.task].project, i.intent.actor);
      ReceiptNotRefused(db, i);
      ReceiptRowSound(db, after, i);
      StructureIdentities(db);
      SameTasksKeepIdentities(db, after);
      AttestedRowSound(db, after, id);
      SameKept(db);
      AttestationIsFresh(db, id);
      KeptInserted(db.attestations, id, after.attestations[id]);
      ProtocolTablesOnly(db, after);
      RowAdded(db, after, id, after.txs[id]);
    }
  }

  lemma MemberProject(db: Tables, project: ProjectId, user: UserId)
    requires IsMember(db, project, user)
    ensures project in db.projects
  {
  }

  lemma StructureRow(db: Tables, id: TxId)
    requires Structure(db) && id in db.txs
    ensures RowSound(db, id)
  {
  }

  lemma StructureTask(db: Tables, t: TaskId)
    requires Structure(db) && t in db.tasks
    ensures TaskSound(db, t)
  {
  }

  // ----- wallet outcomes -----

  lemma TransitionShape(db: Tables, i: OutcomeInput)
    requires TransitionStep(db, i).tables != db
    requires i.tx in db.txs ==> RowSound(db, i.tx)
    ensures var after := TransitionStep(db, i).tables;
            && i.tx in db.txs && i.tx in after.txs
            && OutcomeAccepted(i)
            && OutcomeKey(i) !in db.reservations && OutcomeKey(i) in after.reservations
            && after == db.(txs := db.txs[i.tx := after.txs[i.tx]], tasks := after.tasks,
                            reservations := db.reservations[OutcomeKey(i) := after.reservations[OutcomeKey(i)]])
            && TransitionRow(db.txs[i.tx], OutcomeTransition(i)) == Ok(after.txs[i.tx])
            && db.txs[i.tx].task in db.tasks
            && IsOwner(db, db.txs[i.tx].project, db.txs[i.tx].user)
            && after.tasks == (if i.status == RejectedByUser
                               then db.tasks[db.txs[i.tx].task := db.tasks[db.txs[i.tx].task].(
                                      offchain := Draft, updatedAt := i.at)]
                               else db.tasks)
            && (i.status == Submitted ==> !HashTaken(db, i.tx, db.txs[i.tx].chainId, i.hash.value))
  {
  }

  /** What the transition does to the row, and why that row is still sound. */
  lemma TransitionRowSound(db: Tables, after: Tables, i: OutcomeInput)
    requires i.tx in db.txs && RowSound(db, i.tx) && OutcomeAccepted(i)
    requires TransitionRow(db.txs[i.tx], OutcomeTransition(i)).Ok?
    requires i.tx in after.txs && after.txs[i.tx] == TransitionRow(db.txs[i.tx], OutcomeTransition(i)).value
    requires after.projects == db.projects && TasksKept(db.tasks, after.tasks)
    requires after.attestations == db.attestations
    requires IsOwner(db, db.txs[i.tx].project, db.txs[i.tx].user)
    ensures RowKept(db.txs[i.tx], after.txs[i.tx])
    ensures RowSound(after, i.tx)
    ensures db.txs[i.tx].status == WalletRequested && after.txs[i.tx].status == i.status
    ensures i.status in {Submitted, RejectedByUser}
    ensures i.status == Submitted ==> after.txs[i.tx].hash == i.hash
    ensures i.status == RejectedByUser ==> after.txs[i.tx].hash.None?
  {
    MutationKeepsRowInvariant(db.txs[i.tx], Transit(OutcomeTransition(i)));
    assert TaskKept(db.tasks[db.txs[i.tx].task], after.tasks[db.txs[i.tx].task]);
  }

  lemma OutcomeTasksMoved(db: Tables, after: Tables, i: OutcomeInput)
    requires IdentitiesSound(db) && i.tx in db.txs && db.txs[i.tx].task in db.tasks
    requires after.tasks == (if i.status == RejectedByUser
                             then db.tasks[db.txs[i.tx].task := db.tasks[db.txs[i.tx].task].(
                                    offchain := Draft, updatedAt := i.at)]
                             else db.tasks)
    ensures TasksMoved(db, after) && IdentitiesSound(after)
  {
    if i.status == RejectedByUser {
      TaskMovedKeepsIdentities(db, after, db.txs[i.tx].task, after.tasks[db.txs[i.tx].task]);
    } else {
      SameTasksKeepIdentities(db, after);
    }
  }

  lemma TransitionKeeps(db: Tables, i: OutcomeInput)
    requires Structure(db)
    ensures var after := TransitionStep(db, i).tables; Structure(after) && Extends(db, after)
  {
    hide *;
    var after := TransitionStep(db, i).tables;
    ExtendsReflexive(db);
    if after != db {
      if i.tx in db.txs {
        StructureRow(db, i.tx);
      }
      TransitionShape(db, i);
      StructureIdentities(db);
      OutcomeTasksMoved(db, after, i);
      TasksMovedKept(db, after);
      TransitionRowSound(db, after, i);
      FreshRowSound(db, after, i.tx);
      SameKept(db);
      KeptInserted(db.reservations, OutcomeKey(i), after.reservations[OutcomeKey(i)]);
      ProtocolTablesOnly(db, after);
      RowScope(db.txs[i.tx], after.txs[i.tx]);
      RowMoved(db, after, i.tx, after.txs[i.tx]);
    }
  }

  lemma TasksMovedKept(db: Tables, later: Tables)
    requires TasksMoved(db, later)
    ensures TasksKept(db.tasks, later.tasks)
  {
  }

  lemma RowScope(before: Tx, after: Tx)
    requires RowKept(before, after)
    ensures after.chainId == before.chainId && after.task == before.task && after.intent == before.intent
    ensures after.user == before.user && after.key == before.key && after.project == before.project
  {
  }

  lemma OutcomeKeeps(db: Tables, i: OutcomeInput)
    requires Structure(db)
    ensures var after := OutcomeStep(db, i).tables; Structure(after) && Extends(db, after)
  {
    hide *;
    TransitionKeeps(db, i);
    OutcomeTables(db, i);
  }

  lemma OutcomeTables(db: Tables, i: OutcomeInput)
    ensures OutcomeStep(db, i).tables == TransitionStep(db, i).tables
  {
  }

  // ----- replacements -----

  lemma ReplacementShape(db: Tables, i: ReplacementInput)
    requires ReplacementStep(db, i).tables != db
    ensures var after := ReplacementStep(db, i).tables;
            && ReplacementAccepted(i)
            && i.prior in db.txs && i.publicId !in db.txs && i.publicId in after.txs && i.prior in after.txs
            && i.publicId != i.prior
            && after == db.(txs := db.txs[i.publicId := after.txs[i.publicId]][i.prior := after.txs[i.prior]])
            && after.txs[i.publicId]
               == ReplacementRow(i, db.txs[i.prior]).(response := after.txs[i.publicId].response)
            && after.txs[i.publicId].response.TxResponse? && after.txs[i.publicId].response.tx.nonce.Some?
            && ReplacedRow(db.txs[i.prior], i.publicId, i.nonce, i.hash, i.at) == Ok(after.txs[i.prior])
            && IsOwner(db, db.txs[i.prior].project, db.txs[i.prior].user)
            && !KeyTaken(db, db.txs[i.prior].user, db.txs[i.prior].intent, i.key)
            && !HashTaken(db, i.publicId, db.txs[i.prior].chainId, i.hash)
  {
  }

  lemma ReplacementRowsSound(db: Tables, mid: Tables, after: Tables, i: ReplacementInput, row: Tx)
    requires ReplacementAccepted(i) && i.prior in db.txs && RowSound(db, i.prior)
    requires IsOwner(db, db.txs[i.prior].project, db.txs[i.prior].user)
    requires row == ReplacementRow(i, db.txs[i.prior]).(response := row.response)
    requires row.response.TxResponse? && row.response.tx.nonce.Some?
    requires ReplacedRow(db.txs[i.prior], i.publicId, i.nonce, i.hash, i.at).Ok?
    requires mid == db.(txs := db.txs[i.publicId := row]) && i.publicId != i.prior
    requires after == db.(txs := mid.txs[i.prior :=
                            ReplacedRow(db.txs[i.prior], i.publicId, i.nonce, i.hash, i.at).value])
    ensures RowSound(mid, i.publicId) && RowSound(after, i.prior)
    ensures RowKept(db.txs[i.prior], after.txs[i.prior])
    ensures after.txs[i.prior].hash == db.txs[i.prior].hash
    ensures row.hash == Some(i.hash) && row.chainId == db.txs[i.prior].chainId
    ensures row.user == db.txs[i.prior].user && row.intent == db.txs[i.prior].intent && row.key == i.key
  {
    MutationKeepsRowInvariant(db.txs[i.prior], Replace(i.publicId, i.nonce, i.hash, i.at));
  }

  lemma ReplacementKeeps(db: Tables, i: ReplacementInput)
    requires Structure(db)
    ensures var after := ReplacementStep(db, i).tables; Structure(after) && Extends(db, after)
  {
    hide *;
    var after := ReplacementStep(db, i).tables;
    ExtendsReflexive(db);
    if after != db {
      ReplacementShape(db, i);
      StructureRow(db, i.prior);
      var row, replaced := after.txs[i.publicId], after.txs[i.prior];
      var mid := db.(txs := db.txs[i.publicId := row]);
      assert mid.txs[i.prior] == db.txs[i.prior];
      assert after.txs == mid.txs[i.prior := replaced];
      ReplacementRowsSound(db, mid, after, i, row);
      SameKept(db);
      SameKept(mid);
      StructureIdentities(db);
      SameTasksKeepIdentities(db, mid);
      SameTasksKeepIdentities(mid, after);
      FreshRowSound(db, mid, i.publicId);
      ProtocolTablesOnly(db, mid);
      RowAdded(db, mid, i.publicId, row);
      FreshRowSound(mid, after, i.prior);
      ProtocolTablesOnly(mid, after);
      RowMoved(mid, after, i.prior, replaced);
      ExtendsTransitive(db, mid, after);
    }
  }

  // ----- what the reconcilers write -----

  /** A mark or a confirmation leaves everything but status, block, failure code and update time. */
  lemma MarkedFields(r: Tx, m: Mutation)
    requires RowInvariant(r) && Mutate(r, m).Ok?
    requires m.MarkUnknown? || m.MarkReverted? || m.Confirm?
    requires m.expected in {Submitted, UnknownReconcile}
    ensures var after := Mutate(r, m).value;
            && after == r.(status := after.status, blockNumber := after.blockNumber,
                           failureCode := after.failureCode, updatedAt := after.updatedAt)
            && r.status !in {Prepared, WalletRequested} && after.status !in {Prepared, WalletRequested}
            && RowKept(r, after)
  {
  }

  lemma MarkedRowSound(db: Tables, after: Tables, id: TxId, m: Mutation)
    requires id in db.txs && RowSound(db, id) && Mutate(db.txs[id], m).Ok?
    requires m.MarkUnknown? || m.MarkReverted? || m.Confirm?
    requires m.expected in {Submitted, UnknownReconcile}
    requires id in after.txs && after.txs[id] == Mutate(db.txs[id], m).value
    requires after.projects == db.projects && TasksKept(db.tasks, after.tasks)
    requires after.attestations == db.attestations
    ensures RowKept(db.txs[id], after.txs[id])
    ensures RowSound(after, id)
    ensures after.txs[id].hash == db.txs[id].hash
  {
    hide Mutate, RowInvariant, Consistent;
    MutationKeepsRowInvariant(db.txs[id], m);
    MarkedFields(db.txs[id], m);
    assert TaskKept(db.tasks[db.txs[id].task], after.tasks[db.txs[id].task]);
  }

  /** A reconciler's mark: only the row changes. */
  lemma MarkedRowKeeps(db: Tables, after: Tables, id: TxId, m: Mutation)
    requires Structure(db) && id in db.txs
    requires m.MarkUnknown? || m.MarkReverted?
    requires m.expected in {Submitted, UnknownReconcile}
    requires Mutate(db.txs[id], m).Ok? && after == db.(txs := db.txs[id := Mutate(db.txs[id], m).value])
    ensures Structure(after) && Extends(db, after)
  {
    hide *;
    StructureRow(db, id);
    SameKept(db);
    MarkedRowSound(db, after, id, m);
    StructureIdentities(db);
    SameTasksKeepIdentities(db, after);
    FreshRowSound(db, after, id);
    ProtocolTablesOnly(db, after);
    RowMoved(db, after, id, after.txs[id]);
  }

  lemma MarkUnknownKeeps(db: Tables, tx: TxId, expected: Status, failureCode: string, at: Time)
    requires Structure(db) && expected in {Submitted, UnknownReconcile}
    ensures var after := MarkUnknownStep(db, tx, expected, failureCode, at).tables;
            Structure(after) && Extends(db, after)
  {
    hide Structure, Extends, UnknownRow;
    ExtendsReflexive(db);
    if UnknownAccepted(expected, failureCode, at) && tx in db.txs
       && UnknownRow(db.txs[tx], expected, failureCode, at).Ok? {
      MarkedRowKeeps(db, MarkUnknownStep(db, tx, expected, failureCode, at).tables, tx,
                     MarkUnknown(expected, failureCode, at));
    }
  }

  lemma MarkRevertedKeeps(db: Tables, tx: TxId, expected: Status, blockNumber: nat, at: Time)
    requires Structure(db) && expected in {Submitted, UnknownReconcile}
    ensures var after := MarkRevertedStep(db, tx, expected, blockNumber, at).tables;
            Structure(after) && Extends(db, after)
  {
    hide Structure, Extends, RevertedRow;
    ExtendsReflexive(db);
    if SettleAccepted(expected, at) && tx in db.txs && RevertedRow(db.txs[tx], expected, blockNumber, at).Ok? {
      MarkedRowKeeps(db, MarkRevertedStep(db, tx, expected, blockNumber, at).tables, tx,
                     MarkReverted(expected, blockNumber, at));
    }
  }

  /** The key under which a confirmation of `row` indexes its event. */
  function EventKeyOf(row: Tx, c: Confirmation): EventKey
    requires row.hash.Some?
  {
    EventKey(row.chainId, row.hash.value, c.logIndex)
  }

  /** Either confirmation confirms the row, moves its task on and indexes one new event under the row's hash. */
  ghost predicate Confirms(db: Tables, after: Tables, c: Confirmation) {
    && c.tx in db.txs && c.tx in after.txs
    && db.txs[c.tx].task in db.tasks && db.txs[c.tx].task in after.tasks
    && ConfirmedRow(db.txs[c.tx], c.expected, c.blockNumber, c.at) == Ok(after.txs[c.tx])
    && db.txs[c.tx].hash.Some?
    && EventKeyOf(db.txs[c.tx], c) !in db.events && EventKeyOf(db.txs[c.tx], c) in after.events
    && after == db.(txs := db.txs[c.tx := after.txs[c.tx]],
                    tasks := after.tasks,
                    events := db.events[EventKeyOf(db.txs[c.tx], c) := after.events[EventKeyOf(db.txs[c.tx], c)]])
    && TaskMoved(db, after, db.txs[c.tx].task, after.tasks[db.txs[c.tx].task])
    && after.events[EventKeyOf(db.txs[c.tx], c)].contract == db.tasks[db.txs[c.tx].task].contract
    && after.events[EventKeyOf(db.txs[c.tx], c)].blockNumber == c.blockNumber
  }

  lemma ConfirmCreationShape(db: Tables, c: Confirmation, chainTaskId: nat)
    requires ConfirmCreationStep(db, c, chainTaskId).tables != db
    ensures var after := ConfirmCreationStep(db, c, chainTaskId).tables;
            && Confirms(db, after, c)
            && after.tasks[db.txs[c.tx].task] == db.tasks[db.txs[c.tx].task].(
                 chainTaskId := Some(chainTaskId), offchain := Open, chain := ChainOpen, updatedAt := c.at)
            && after.events[EventKeyOf(db.txs[c.tx], c)]
               == ContractEvent(db.tasks[db.txs[c.tx].task].contract, TaskCreated, chainTaskId, c.blockNumber,
                                c.blockHash)
  {
  }

  lemma ConfirmReceiptShape(db: Tables, c: Confirmation)
    requires ConfirmReceiptStep(db, c).tables != db
    ensures var after := ConfirmReceiptStep(db, c).tables;
            && Confirms(db, after, c)
            && db.txs[c.tx].intent == SubmitReceipt
            && c.tx in db.attestations
            && after.tasks[db.txs[c.tx].task] == db.tasks[db.txs[c.tx].task].(
                 offchain := ReceiptSubmitted, chain := ChainReceiptSubmitted, updatedAt := c.at)
            && after.events[EventKeyOf(db.txs[c.tx], c)].blockNumber == c.blockNumber
            && after.events[EventKeyOf(db.txs[c.tx], c)].blockHash == c.blockHash
            && after.events[EventKeyOf(db.txs[c.tx], c)].name == ReceiptSubmittedEvent
  {
  }

  lemma ConfirmedEventSound(db: Tables, after: Tables, c: Confirmation)
    requires Confirms(db, after, c) && RowSound(after, c.tx)
    ensures EventSound(after, EventKeyOf(db.txs[c.tx], c))
  {
    assert Indexes(after, c.tx, EventKeyOf(db.txs[c.tx], c));
  }

  lemma ConfirmedChangeSound(db: Tables, after: Tables, c: Confirmation)
    requires Confirms(db, after, c) && RowSound(after, c.tx)
    ensures RowChangeSound(db, after, c.tx)
    ensures Kept(db.events, after.events)
  {
    ConfirmedEventSound(db, after, c);
  }

  lemma ConfirmsFields(db: Tables, after: Tables, c: Confirmation)
    requires Confirms(db, after, c)
    ensures c.tx in db.txs && c.tx in after.txs
    ensures Mutate(db.txs[c.tx], Confirm(c.expected, c.blockNumber, c.at)) == Ok(after.txs[c.tx])
    ensures c.expected in {Submitted, UnknownReconcile}
    ensures after.txs == db.txs[c.tx := after.txs[c.tx]]
    ensures after.projects == db.projects && after.policies == db.policies && after.bundles == db.bundles
    ensures after.attestations == db.attestations && after.reservations == db.reservations
    ensures db.txs[c.tx].task in after.tasks
    ensures TaskMoved(db, after, db.txs[c.tx].task, after.tasks[db.txs[c.tx].task])
  {
  }

  lemma ConfirmsKeeps(db: Tables, after: Tables, c: Confirmation)
    requires Structure(db) && Confirms(db, after, c)
    ensures Structure(after) && Extends(db, after)
  {
    hide *;
    ConfirmsFields(db, after, c);
    StructureRow(db, c.tx);
    StructureIdentities(db);
    TaskMovedKeepsIdentities(db, after, db.txs[c.tx].task, after.tasks[db.txs[c.tx].task]);
    TasksMovedKept(db, after);
    MarkedRowSound(db, after, c.tx, Confirm(c.expected, c.blockNumber, c.at));
    ConfirmedChangeSound(db, after, c);
    SameKept(db);
    ProtocolTablesOnly(db, after);
    RowMoved(db, after, c.tx, after.txs[c.tx]);
  }

  lemma ConfirmCreationKeeps(db: Tables, c: Confirmation, chainTaskId: nat)
    requires Structure(db)
    ensures var after := ConfirmCreationStep(db, c, chainTaskId).tables; Structure(after) && Extends(db, after)
  {
    hide *;
    ExtendsReflexive(db);
    if ConfirmCreationStep(db, c, chainTaskId).tables != db {
      ConfirmCreationShape(db, c, chainTaskId);
      ConfirmsKeeps(db, ConfirmCreationStep(db, c, chainTaskId).tables, c);
    }
  }

  lemma ConfirmReceiptKeeps(db: Tables, c: Confirmation)
    requires Structure(db)
    ensures var after := ConfirmReceiptStep(db, c).tables; Structure(after) && Extends(db, after)
  {
    hide *;
    ExtendsReflexive(db);
    if ConfirmReceiptStep(db, c).tables != db {
      ConfirmReceiptShape(db, c);
      ConfirmsKeeps(db, ConfirmReceiptStep(db, c).tables, c);
    }
  }
}
