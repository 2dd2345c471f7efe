/** A task row, the canonical task it stores, and the read path that rechecks the two against each other. */
module Tasks {
  import opened Prelude
  import Decimals

  type UserId = nat
  type ProjectId = nat
  type PolicyId = nat
  type TaskId = nat

  /** Lower-cased hashes and addresses, as tokens; zero is the all-zero value. */
  type Hash = nat
  type Address = nat
  type ChainId = nat

  datatype OffchainStatus =
    Draft | AwaitingChain | Open | ReceiptSubmitted | Approved | Rejected | Cancelled | Expired

  datatype ChainStatus =
    NoChain | ChainOpen | ChainReceiptSubmitted | ChainApproved | ChainRejected | ChainCancelled | ChainExpired

  datatype Criterion = Criterion(key: string, description: string)

  datatype Canonical = Canonical(
    project: ProjectId,
    repositoryIdentity: string,
    targetBranch: string,
    baseCommit: Option<Hash>,
    title: string,
    description: string,
    criteria: seq<Criterion>,
    assignee: Address,
    deadlineSeconds: Option<string>,
    rewardWei: string,
    policyHash: Hash)

  datatype Task = Task(
    project: ProjectId,
    policy: PolicyId,
    chainId: ChainId,
    contract: Address,
    chainTaskId: Option<nat>,
    canonical: Canonical,
    targetBranch: string,
    baseCommit: Option<Hash>,
    title: string,
    description: string,
    criteria: seq<Criterion>,
    taskHash: Hash,
    policyHash: Hash,
    creator: Address,
    assignee: Address,
    reward: nat,
    deadline: Option<Time>,
    offchain: OffchainStatus,
    chain: ChainStatus,
    createdAt: Time,
    updatedAt: Time)

  /** What a caller reads back: the columns, and the repository URL of the task's project. */
  datatype TaskView = TaskView(publicId: TaskId, repositoryUrl: string, columns: Task)

  predicate SupportedChain(chain: ChainId) {
    chain == 143 || chain == 10_143
  }

  /** `value.replace(/\.git$/, "")` */
  function StripGit(s: string): string {
    if |s| >= 4 && s[|s| - 4..] == ".git" then s[..|s| - 4] else s
  }

  /** The identity a task commits to, of a URL in the lower-cased form the HTTP boundary stores. */
  function RepositoryIdentity(url: string): string {
    StripGit(url)
  }

  /** `GitHubRepositoryUrlSchema` on such a URL: it strips once itself and once through the identity schema. */
  function NormalizedUrl(url: string): string {
    StripGit(StripGit(url))
  }

  predicate Text(s: string, maximum: nat) {
    1 <= |s| <= maximum
  }

  predicate AcceptsCriteria(criteria: seq<Criterion>) {
    && 1 <= |criteria| <= 100
    && (forall i | 0 <= i < |criteria| :: Text(criteria[i].key, 64) && Text(criteria[i].description, 2000))
    && (forall i, j | 0 <= i < j < |criteria| :: criteria[i].key != criteria[j].key)
  }

  /** `CanonicalTaskV1Schema` accepts the payload and its transforms leave it as it is. */
  predicate AcceptsCanonical(c: Canonical) {
    && StripGit(c.repositoryIdentity) == c.repositoryIdentity
    && Text(c.targetBranch, 255)
    && Text(c.title, 200)
    && Text(c.description, 20_000)
    && AcceptsCriteria(c.criteria)
    && c.assignee != 0
    && (c.deadlineSeconds.Some? ==>
          && Decimals.IsDecimal(c.deadlineSeconds.value)
          && Decimals.Value(c.deadlineSeconds.value) <= UINT64_MAX)
    && Decimals.IsDecimal(c.rewardWei)
  }

  /** `TaskSchema` on the columns and the dates as ISO text. */
  predicate AcceptsColumns(t: Task) {
    && SupportedChain(t.chainId)
    && Text(t.targetBranch, 255)
    && Text(t.title, 200)
    && Text(t.description, 20_000)
    && AcceptsCriteria(t.criteria)
    && t.creator != 0
    && t.assignee != 0
    && (t.deadline.Some? ==> IsoReadable(t.deadline.value))
    && IsoReadable(t.createdAt)
  }

  /** `String(deadline.getTime() / 1000)` spells the canonical seconds only for whole seconds. */
  predicate SameDeadline(canonical: Option<string>, deadline: Option<Time>) {
    match (canonical, deadline)
    case (None, None) => true
    case (Some(s), Some(ms)) => ms >= 0 && ms % 1000 == 0 && s == Decimals.Text(ms / 1000)
    case _ => false
  }

  /** Every condition of the read path except the one on the last update time. */
  predicate Consistent(t: Task, url: string) {
    && AcceptsCanonical(t.canonical)
    && AcceptsColumns(t)
    && t.canonical.project == t.project
    && t.canonical.repositoryIdentity == RepositoryIdentity(url)
    && t.canonical.targetBranch == t.targetBranch
    && t.canonical.baseCommit == t.baseCommit
    && t.canonical.title == t.title
    && t.canonical.description == t.description
    && t.canonical.criteria == t.criteria
    && t.canonical.assignee == t.assignee
    && t.canonical.rewardWei == Decimals.Text(t.reward)
    && t.canonical.policyHash == t.policyHash
    && SameDeadline(t.canonical.deadlineSeconds, t.deadline)
  }

  /** `taskView` */
  function ReadTask(id: TaskId, t: Task, url: string): Result<TaskView, Error> {
    if Consistent(t, url) && IsoReadable(t.updatedAt) then Ok(TaskView(id, url, t)) else Err(Conflict)
  }

  /** `parseTaskSnapshot(taskSnapshot(view))`: the URL comes back through the schema's transform. */
  function ReparseTask(view: TaskView): Result<TaskView, Error> {
    var url := NormalizedUrl(view.repositoryUrl);
    if Consistent(view.columns, url) && IsoReadable(view.columns.updatedAt)
    then Ok(view.(repositoryUrl := url))
    else Err(Conflict)
  }

  /** The columns `createTask` inserts for an accepted canonical payload. */
  function NewTask(
    c: Canonical, policy: PolicyId, chain: ChainId, contract: Address, taskHash: Hash, creator: Address, at: Time
  ): Task
    requires AcceptsCanonical(c)
  {
    Task(
      c.project, policy, chain, contract, None, c, c.targetBranch, c.baseCommit, c.title, c.description, c.criteria,
      taskHash, c.policyHash, creator, c.assignee, Decimals.Value(c.rewardWei), DeadlineDate(c), Draft, NoChain, at, at)
  }

  /** `new Date(Number(BigInt(deadlineUnixSeconds) * 1000n))`, exact as long as the date is valid. */
  function DeadlineDate(c: Canonical): Option<Time>
    requires AcceptsCanonical(c)
  {
    match c.deadlineSeconds
    case None => None
    case Some(s) => Some(Decimals.Value(s) * 1000)
  }

  /**
   * A task just built from its canonical payload agrees with it column by column; all that can still
   * stop the read path is the chain, the creator, the repository, or a date beyond four-digit years.
   */
  lemma NewTaskConsistent(
    c: Canonical, policy: PolicyId, chain: ChainId, contract: Address, taskHash: Hash, creator: Address, at: Time,
    url: string
  )
    requires AcceptsCanonical(c)
    ensures Consistent(NewTask(c, policy, chain, contract, taskHash, creator, at), url) <==>
            && SupportedChain(chain)
            && creator != 0
            && c.repositoryIdentity == RepositoryIdentity(url)
            && (DeadlineDate(c).Some? ==> IsoReadable(DeadlineDate(c).value))
            && IsoReadable(at)
  {
    Decimals.TextOfValue(c.rewardWei);
    if c.deadlineSeconds.Some? {
      Decimals.TextOfValue(c.deadlineSeconds.value);
      assert Decimals.Value(c.deadlineSeconds.value) * 1000 / 1000 == Decimals.Value(c.deadlineSeconds.value);
    }
  }

  /**
   * A row with an accepted canonical payload agrees with it exactly when its columns are the ones task creation
   * inserts for that payload, whatever its statuses, and chain, creator, repository and dates are in range: a
   * change of any single content column is noticed.
   */
  lemma ConsistentExactly(t: Task, url: string)
    requires AcceptsCanonical(t.canonical)
    ensures Consistent(t, url) <==>
            && t == NewTask(t.canonical, t.policy, t.chainId, t.contract, t.taskHash, t.creator, t.createdAt).(
                      chainTaskId := t.chainTaskId, offchain := t.offchain, chain := t.chain, updatedAt := t.updatedAt)
            && SupportedChain(t.chainId)
            && t.creator != 0
            && t.canonical.repositoryIdentity == RepositoryIdentity(url)
            && (t.deadline.Some? ==> IsoReadable(t.deadline.value))
            && IsoReadable(t.createdAt)
  {
    Decimals.TextOfValue(t.canonical.rewardWei);
    if t.canonical.deadlineSeconds.Some? {
      Decimals.TextOfValue(t.canonical.deadlineSeconds.value);
    }
    DeadlineExactly(t.canonical, t.deadline);
  }

  lemma DeadlineExactly(c: Canonical, deadline: Option<Time>)
    requires AcceptsCanonical(c)
    ensures SameDeadline(c.deadlineSeconds, deadline) <==> deadline == DeadlineDate(c)
  {
    if c.deadlineSeconds.Some? {
      Decimals.TextOfValue(c.deadlineSeconds.value);
      assert Decimals.Value(c.deadlineSeconds.value) * 1000 / 1000 == Decimals.Value(c.deadlineSeconds.value);
    }
  }

  /** A stored view replays as itself exactly when its URL carries no trailing `.git`. */
  lemma ReparseReturnsView(view: TaskView)
    requires Consistent(view.columns, view.repositoryUrl) && IsoReadable(view.columns.updatedAt)
    ensures ReparseTask(view) == Ok(view.(repositoryUrl := StripGit(view.repositoryUrl)))
    ensures ReparseTask(view) == Ok(view) <==> StripGit(view.repositoryUrl) == view.repositoryUrl
  {
    assert StripGit(StripGit(view.repositoryUrl)) == StripGit(view.repositoryUrl);
  }
}
