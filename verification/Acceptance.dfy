/**
 * Which calls go through, said of the tables alone: each predicate lists what a caller can check before the call,
 * and the lemma beside it says that the call changes the tables exactly then.
 */
module Acceptance {
  import opened Prelude
  import opened Tasks
  import opened ChainTransactions
  import opened Store
  import opened Invariants
  import Decimals
  import Evidence

  // ----- posting a task -----

  /** The canonical payload as the schema takes it, but for its two numbers. */
  ghost predicate WellFormed(c: Canonical) {
    && (forall s: string :: c.repositoryIdentity != s + ".git")
    && 1 <= |c.targetBranch| <= 255 && 1 <= |c.title| <= 200 && 1 <= |c.description| <= 20_000
    && 1 <= |c.criteria| <= 100
    && (forall i | 0 <= i < |c.criteria| ::
          1 <= |c.criteria[i].key| <= 64 && 1 <= |c.criteria[i].description| <= 2000)
    && (forall i, j | 0 <= i < j < |c.criteria| :: c.criteria[i].key != c.criteria[j].key)
    && c.assignee != 0
  }

  ghost predicate IsNumber(s: string, maximum: nat) {
    exists n: nat :: n <= maximum && s == Decimals.Text(n)
  }

  ghost predicate UrlOfIdentity(url: string, identity: string) {
    url == identity || url == identity + ".git"
  }

  /** The payload fits the schema and the columns, for a repository under this URL. */
  ghost predicate PostableCanonical(c: Canonical, url: string) {
    WellFormed(c) && UrlOfIdentity(url, c.repositoryIdentity) && IsNumber(c.rewardWei, 0x7FFF_FFFF_FFFF_FFFF)
  }

  /** A deadline is in the future, and both it and the time of the call have a four-digit year. */
  ghost predicate PostableDates(c: Canonical, at: Time) {
    && -62_167_219_200_000 <= at <= 253_402_300_799_999
    && (c.deadlineSeconds.Some? ==>
          exists seconds: nat :: c.deadlineSeconds.value == Decimals.Text(seconds)
                                 && at < seconds * 1000 <= 253_402_300_799_999)
  }

  ghost predicate CanPost(db: Tables, i: CreateTaskInput) {
    && i.project in db.projects
    && var project := db.projects[i.project];
    && project.owner == i.actor && project.active
    && project.repositoryUrl == i.repositoryUrl
    && i.canonical.project == i.project
    && PostableCanonical(i.canonical, project.repositoryUrl) && PostableDates(i.canonical, i.at)
    && i.taskHash != 0 && i.creator != 0 && i.contract != 0
    && project.activePolicy == Some(i.policy)
    && i.policy in db.policies && db.policies[i.policy].project == i.project
    && db.policies[i.policy].policy.policyHash == i.canonical.policyHash
    && (i.walletChains == [143] || i.walletChains == [10_143])
    && i.publicId !in db.tasks
    && (forall t | t in db.tasks :: !(db.tasks[t].project == i.project && db.tasks[t].taskHash == i.taskHash))
    && ApiKey(i.actor, OpTaskCreate, i.key) !in db.reservations
  }

  lemma StripsGit(s: string)
    ensures StripGit(s) == s <==> forall r: string :: s != r + ".git"
  {
    if StripGit(s) == s {
      forall r: string ensures s != r + ".git" {
        assert (r + ".git")[|r|..] == ".git";
      }
    } else {
      assert s == s[..|s| - 4] + ".git";
    }
  }

  lemma IdentityOf(url: string, identity: string)
    requires StripGit(identity) == identity
    ensures RepositoryIdentity(url) == identity <==> url == identity || url == identity + ".git"
  {
    assert (identity + ".git")[|identity|..] == ".git" && (identity + ".git")[..|identity|] == identity;
    if StripGit(url) == identity && url != identity {
      assert url == url[..|url| - 4] + ".git";
    }
  }

  lemma NumbersExactly(s: string, maximum: nat)
    ensures IsNumber(s, maximum) <==> Decimals.IsDecimal(s) && Decimals.Value(s) <= maximum
  {
    if Decimals.IsDecimal(s) {
      Decimals.TextOfValue(s);
    }
  }

  lemma WellFormedExactly(c: Canonical)
    ensures AcceptsCanonical(c) <==>
            && WellFormed(c) && Decimals.IsDecimal(c.rewardWei)
            && (c.deadlineSeconds.Some? ==> IsNumber(c.deadlineSeconds.value, 0xFFFF_FFFF_FFFF_FFFF))
  {
    StripsGit(c.repositoryIdentity);
    if c.deadlineSeconds.Some? {
      NumbersExactly(c.deadlineSeconds.value, UINT64_MAX);
    }
  }

  lemma PostableCanonicalExactly(c: Canonical, url: string)
    ensures PostableCanonical(c, url) <==>
            && RepositoryIdentity(url) == c.repositoryIdentity
            && AcceptsCanonical(c.(deadlineSeconds := None))
            && Decimals.Value(c.rewardWei) <= BIGINT_MAX
  {
    hide WellFormed, IsNumber, AcceptsCanonical, RepositoryIdentity, Decimals.IsDecimal, Decimals.Value;
    WellFormedExactly(c.(deadlineSeconds := None));
    SameForm(c);
    NumbersExactly(c.rewardWei, BIGINT_MAX);
    if WellFormed(c) {
      StripsGitOff(c);
      IdentityOf(url, c.repositoryIdentity);
    }
  }

  lemma StripsGitOff(c: Canonical)
    requires WellFormed(c)
    ensures StripGit(c.repositoryIdentity) == c.repositoryIdentity
  {
    StripsGit(c.repositoryIdentity);
  }

  lemma SameForm(c: Canonical)
    ensures WellFormed(c.(deadlineSeconds := None)) == WellFormed(c)
  {
  }

  lemma PostableDatesExactly(c: Canonical, at: Time)
    ensures PostableDates(c, at) <==>
            && IsoReadable(at)
            && (c.deadlineSeconds.Some? ==>
                  && Decimals.IsDecimal(c.deadlineSeconds.value)
                  && at < Decimals.Value(c.deadlineSeconds.value) * 1000 <= LAST_FOUR_DIGIT_YEAR)
  {
    if c.deadlineSeconds.Some? && Decimals.IsDecimal(c.deadlineSeconds.value) {
      Decimals.TextOfValue(c.deadlineSeconds.value);
    }
  }

  lemma PostGuards(db: Tables, i: CreateTaskInput)
    ensures CreateTaskStep(db, i).tables != db <==>
            && CreateTaskAccepted(i) && IsOwner(db, i.project, i.actor)
            && ApiKey(i.actor, OpTaskCreate, i.key) !in db.reservations
            && CreateTaskRefusal(db, i) == None
  {
    hide CreateTaskAccepted, CreateTaskRefusal, CreatedTask, IsOwner, ReplayTask, AcceptsCanonical;
  }

  lemma PostReads(db: Tables, i: CreateTaskInput)
    requires AcceptsCanonical(i.canonical) && i.project in db.projects && |i.walletChains| == 1
    ensures ReadTask(i.publicId, CreatedTask(i, i.walletChains[0]), db.projects[i.project].repositoryUrl).Ok? <==>
            && SupportedChain(i.walletChains[0]) && i.creator != 0
            && i.canonical.repositoryIdentity == RepositoryIdentity(db.projects[i.project].repositoryUrl)
            && (DeadlineDate(i.canonical).Some? ==> IsoReadable(DeadlineDate(i.canonical).value))
            && IsoReadable(i.at)
  {
    hide Consistent, AcceptsCanonical;
    NewTaskConsistent(i.canonical, i.policy, i.walletChains[0], i.contract, i.taskHash, i.creator, i.at,
                      db.projects[i.project].repositoryUrl);
  }

  /** A task is posted exactly when its payload, its policy and its owner are as `CanPost` says. */
  lemma PostsExactly(db: Tables, i: CreateTaskInput)
    ensures CreateTaskStep(db, i).tables != db <==> CanPost(db, i)
  {
    hide PostableCanonical, PostableDates, Consistent, Decimals.Value, Decimals.IsDecimal, RepositoryIdentity,
         CreateTaskStep, ReadTask, AcceptsCriteria, CreatedTask;
    PostGuards(db, i);
    if i.project in db.projects {
      PostableCanonicalExactly(i.canonical, db.projects[i.project].repositoryUrl);
      PostableDatesExactly(i.canonical, i.at);
      if AcceptsCanonical(i.canonical) && |i.walletChains| == 1 {
        PostReads(db, i);
      }
    }
  }

  /** The request is well formed, whatever the tables hold. */
  ghost predicate PostFits(i: CreateTaskInput) {
    && i.taskHash != 0 && i.creator != 0 && i.contract != 0
    && -8_640_000_000_000_000 <= i.at <= 8_640_000_000_000_000
    && i.canonical.project == i.project && WellFormed(i.canonical)
    && IsNumber(i.canonical.rewardWei, 0xFFFF_FFFF_FFFF_FFFF_FFFF_FFFF)
    && (i.canonical.deadlineSeconds.Some? ==>
          exists n: nat :: n <= 0xFFFF_FFFF_FFFF_FFFF && i.canonical.deadlineSeconds.value == Decimals.Text(n)
                           && i.at < n * 1000)
  }

  lemma PostFitsExactly(i: CreateTaskInput)
    ensures PostFits(i) <==> CreateTaskAccepted(i)
  {
    hide WellFormed, AcceptsCanonical, Decimals.IsDecimal, Decimals.Value;
    var c := i.canonical;
    WellFormedExactly(c);
    NumbersExactly(c.rewardWei, UINT96_MAX);
    if c.deadlineSeconds.Some? {
      NumbersExactly(c.deadlineSeconds.value, UINT64_MAX);
      if Decimals.IsDecimal(c.deadlineSeconds.value) {
        Decimals.TextOfValue(c.deadlineSeconds.value);
      }
    }
  }

  /** Why a first posting is turned down, by what is looked at first. */
  ghost function PostError(db: Tables, i: CreateTaskInput): Error {
    if !PostFits(i) then InvalidInput
    else if !(i.project in db.projects && db.projects[i.project].owner == i.actor) then NotFound
    else if !db.projects[i.project].active then ProjectArchived
    else if !(UrlOfIdentity(i.repositoryUrl, i.canonical.repositoryIdentity)
              && i.repositoryUrl == db.projects[i.project].repositoryUrl) then InvalidInput
    else if !(&& db.projects[i.project].activePolicy == Some(i.policy) && i.policy in db.policies
              && db.policies[i.policy].project == i.project
              && db.policies[i.policy].policy.policyHash == i.canonical.policyHash
              && |i.walletChains| == 1) then NotFound
    else if i.walletChains[0] != 143 && i.walletChains[0] != 10_143 then InvalidInput
    else if exists t :: t in db.tasks && db.tasks[t].project == i.project && db.tasks[t].taskHash == i.taskHash
    then TaskHashConflict
    else if !IsNumber(i.canonical.rewardWei, 0x7FFF_FFFF_FFFF_FFFF) then InvalidInput
    else if i.canonical.deadlineSeconds.Some?
            && forall n: nat | i.canonical.deadlineSeconds.value == Decimals.Text(n) :: n > 8_640_000_000_000
    then InvalidInput
    else Conflict
  }

  /** A first posting that does not go through changes nothing and ends in that error. */
  lemma PostRefused(db: Tables, i: CreateTaskInput)
    requires !CanPost(db, i) && ApiKey(i.actor, OpTaskCreate, i.key) !in db.reservations
    ensures CreateTaskStep(db, i) == Step(db, Err(PostError(db, i)))
  {
    hide PostFits, CreateTaskAccepted, PostableCanonical, PostableDates, WellFormed, IsNumber, UrlOfIdentity, ReadTask,
         Consistent, CreatedTask, CanPost, RepositoryIdentity;
    PostsExactly(db, i);
    PostFitsExactly(i);
    PostGuards(db, i);
    if CreateTaskAccepted(i) && IsOwner(db, i.project, i.actor) {
      PostRefusals(db, i);
    }
  }

  lemma PostRefusals(db: Tables, i: CreateTaskInput)
    requires CreateTaskAccepted(i) && PostFits(i) && i.project in db.projects
    requires db.projects[i.project].owner == i.actor && CreateTaskRefusal(db, i).Some?
    ensures CreateTaskRefusal(db, i).value == PostError(db, i)
  {
    hide PostFits, WellFormed, Consistent, CreatedTask, CanPost, RepositoryIdentity, AcceptsCriteria,
         Decimals.IsDecimal, Decimals.Value;
    var c := i.canonical;
    IdentityOf(db.projects[i.project].repositoryUrl, c.repositoryIdentity);
    NumbersExactly(c.rewardWei, BIGINT_MAX);
    if c.deadlineSeconds.Some? {
      Decimals.TextOfValue(c.deadlineSeconds.value);
    }
  }

  // ----- opening intents -----

  ghost predicate CanOpenIntent(db: Tables, i: IntentInput) {
    && -8_640_000_000_000_000 <= i.at <= 8_640_000_000_000_000
    && i.task in db.tasks
    && var t := db.tasks[i.task];
    && t.project in db.projects && db.projects[t.project].owner == i.actor && db.projects[t.project].active
    && t.offchain == Draft && t.chain == NoChain
    && (t.deadline.Some? ==> i.at < t.deadline.value)
    && -62_167_219_200_000 <= t.updatedAt <= 253_402_300_799_999
    && i.publicId !in db.txs
    && (forall x | x in db.txs ::
          !(db.txs[x].user == i.actor && db.txs[x].intent == CreateTask && db.txs[x].key == i.key))
  }

  lemma ReadsExactly(db: Tables, t: TaskId)
    requires t in db.tasks && TaskSound(db, t)
    ensures TaskViewOf(db, t).Ok? <==> -62_167_219_200_000 <= db.tasks[t].updatedAt <= 253_402_300_799_999
  {
    hide Consistent;
  }

  /** A creation intent is opened exactly by the owner, for a draft task of an active project before its deadline. */
  lemma IntentOpensExactly(db: Tables, i: IntentInput)
    requires Structure(db)
    ensures CreateIntentStep(db, i).tables != db <==> CanOpenIntent(db, i)
  {
    hide Structure, ReadTask, ReplayIntent, ViewOf;
    if i.task in db.tasks {
      StructureTask(db, i.task);
      ReadsExactly(db, i.task);
    }
  }

  /** A first creation intent that does not go through changes nothing; the error is by what is looked at first. */
  lemma IntentRefused(db: Tables, i: IntentInput)
    requires Structure(db) && !CanOpenIntent(db, i)
    requires forall x | x in db.txs ::
               !(db.txs[x].user == i.actor && db.txs[x].intent == CreateTask && db.txs[x].key == i.key)
    ensures CreateIntentStep(db, i) == Step(db, Err(
              if !(-8_640_000_000_000_000 <= i.at <= 8_640_000_000_000_000) then InvalidInput
              else if !(i.task in db.tasks && db.tasks[i.task].project in db.projects
                        && db.projects[db.tasks[i.task].project].owner == i.actor) then NotFound
              else if i.publicId !in db.txs && !db.projects[db.tasks[i.task].project].active then ProjectArchived
              else Conflict))
  {
    hide Structure, ReadTask, ReplayIntent, ViewOf, CanOpenIntent;
    IntentOpensExactly(db, i);
    if i.task in db.tasks {
      StructureTask(db, i.task);
    }
  }

  ghost predicate CanOpenReceipt(db: Tables, i: ReceiptInput) {
    && -8_640_000_000_000_000 <= i.intent.at <= 8_640_000_000_000_000
    && i.assignee != 0 && i.evidenceHash != 0 && i.commitHash != 0 && i.verifier != 0 && i.digest != 0
    && 0 < i.expirySeconds <= 0x7FFF_FFFF_FFFF_FFFF && i.intent.at < i.expirySeconds * 1000
    && i.intent.task in db.tasks
    && var t := db.tasks[i.intent.task];
    && t.project in db.projects && db.projects[t.project].active
    && (db.projects[t.project].owner == i.intent.actor || i.intent.actor in db.projects[t.project].members)
    && t.assignee == i.assignee
    && t.offchain == Open && t.chain == ChainOpen
    && (t.deadline.Some? ==> i.intent.at < t.deadline.value)
    && -62_167_219_200_000 <= t.updatedAt <= 253_402_300_799_999
    && i.intent.publicId !in db.txs
    && (forall x | x in db.txs && db.txs[x].intent == SubmitReceipt ::
          && !(db.txs[x].user == i.intent.actor && db.txs[x].key == i.intent.key)
          && (db.txs[x].task == i.intent.task ==> db.txs[x].status == RejectedByUser || db.txs[x].status == Reverted))
    && NewestPassing(db, i)
  }

  /** The bundle is the newest of the task's passing ones, with the hashes the attestation signs. */
  ghost predicate NewestPassing(db: Tables, i: ReceiptInput) {
    BundleFits(db, i) && NoneNewer(db, i)
  }

  /**
   * A receipt intent is opened exactly by a member acting for the assignee, for an open task before its deadline
   * whose earlier receipts were all rejected or reverted, on the newest passing bundle, before the expiry.
   */
  lemma ReceiptOpensExactly(db: Tables, i: ReceiptInput)
    requires Structure(db)
    ensures CreateReceiptStep(db, i).tables != db <==> CanOpenReceipt(db, i)
  {
    hide Structure, ReadTask, ReplayIntent, ViewOf, NewestPassing, BundleBound, NewerPassing, KeyTaken,
         OtherReceiptPending;
    NewestExactly(db, i);
    ReceiptsDoneExactly(db, i);
    if i.intent.task in db.tasks {
      StructureTask(db, i.intent.task);
      ReadsExactly(db, i.intent.task);
    }
  }

  lemma NewestExactly(db: Tables, i: ReceiptInput)
    ensures NewestPassing(db, i) <==> BundleBound(db, i) && !NewerPassing(db, i)
  {
  }

  lemma ReceiptsDoneExactly(db: Tables, i: ReceiptInput)
    ensures !KeyTaken(db, i.intent.actor, SubmitReceipt, i.intent.key) && !OtherReceiptPending(db, i.intent.task) <==>
            forall x | x in db.txs && db.txs[x].intent == SubmitReceipt ::
              && !(db.txs[x].user == i.intent.actor && db.txs[x].key == i.intent.key)
              && (db.txs[x].task == i.intent.task ==>
                    db.txs[x].status == RejectedByUser || db.txs[x].status == Reverted)
  {
  }

  /** So does a first receipt intent. */
  lemma ReceiptRefused(db: Tables, i: ReceiptInput)
    requires Structure(db) && !CanOpenReceipt(db, i)
    requires forall x | x in db.txs ::
               !(db.txs[x].user == i.intent.actor && db.txs[x].intent == SubmitReceipt && db.txs[x].key == i.intent.key)
    ensures CreateReceiptStep(db, i) == Step(db, Err(ReceiptError(db, i)))
  {
    hide Structure, ReadTask, ReplayIntent, ViewOf, CanOpenReceipt, BundleBound, NewerPassing, NoneNewer,
         BundleFits;
    ReceiptOpensExactly(db, i);
    BoundExactly(db, i);
    if i.bundle in db.bundles {
      NoneNewerExactly(db, i);
    }
    if i.intent.task in db.tasks {
      StructureTask(db, i.intent.task);
    }
  }

  lemma BoundExactly(db: Tables, i: ReceiptInput)
    ensures BundleBound(db, i) <==> BundleFits(db, i)
    ensures BundleFits(db, i) ==> i.bundle in db.bundles
  {
  }

  ghost predicate BundleFits(db: Tables, i: ReceiptInput) {
    && i.bundle in db.bundles
    && db.bundles[i.bundle].task == i.intent.task && db.bundles[i.bundle].passing
    && db.bundles[i.bundle].evidenceHash == i.evidenceHash && db.bundles[i.bundle].commitHash == i.commitHash
  }

  ghost function ReceiptError(db: Tables, i: ReceiptInput): Error {
    if !(&& -8_640_000_000_000_000 <= i.intent.at <= 8_640_000_000_000_000
         && i.assignee != 0 && i.evidenceHash != 0 && i.commitHash != 0 && i.verifier != 0 && i.digest != 0
         && 0 < i.expirySeconds <= 0xFFFF_FFFF_FFFF_FFFF && i.intent.at < i.expirySeconds * 1000) then InvalidInput
    else if i.intent.task !in db.tasks || db.tasks[i.intent.task].project !in db.projects then NotFound
    else
      var t := db.tasks[i.intent.task];
      var project := db.projects[t.project];
      if project.owner != i.intent.actor && i.intent.actor !in project.members then NotFound
      else if i.intent.publicId in db.txs then Conflict
      else if !project.active then ProjectArchived
      else if t.assignee != i.assignee then InvalidInput
      else if t.offchain != Open || t.chain != ChainOpen then Conflict
      else if t.deadline.Some? && t.deadline.value <= i.intent.at then Conflict
      else if exists x :: x in db.txs && db.txs[x].task == i.intent.task && db.txs[x].intent == SubmitReceipt
                          && db.txs[x].status != RejectedByUser && db.txs[x].status != Reverted then Conflict
      else if !BundleFits(db, i) then InvalidInput
      else if i.expirySeconds > 0x7FFF_FFFF_FFFF_FFFF && NoneNewer(db, i) then InvalidInput
      else Conflict
  }

  /** No passing bundle of the task is newer; the database breaks ties. */
  ghost predicate NoneNewer(db: Tables, i: ReceiptInput)
    requires i.bundle in db.bundles
  {
    forall b | b in db.bundles && b != i.bundle && db.bundles[b].task == i.intent.task && db.bundles[b].passing ::
      || db.bundles[b].createdAt < db.bundles[i.bundle].createdAt
      || (db.bundles[b].createdAt == db.bundles[i.bundle].createdAt && i.winsTie)
  }

  lemma NoneNewerExactly(db: Tables, i: ReceiptInput)
    requires i.bundle in db.bundles
    ensures NoneNewer(db, i) <==> !NewerPassing(db, i)
  {
  }

  // ----- reporting outcomes and replacements -----

  /** What a failure code looks like. */
  ghost predicate IsCode(s: string) {
    && 1 <= |s| <= 100 && 'A' <= s[0] <= 'Z'
    && forall i | 1 <= i < |s| :: 'A' <= s[i] <= 'Z' || '0' <= s[i] <= '9' || s[i] == '_'
  }

  ghost predicate HashIsFree(db: Tables, chainId: ChainId, hash: Hash) {
    forall x | x in db.txs && db.txs[x].chainId == chainId :: db.txs[x].hash != Some(hash)
  }

  ghost predicate CanReport(db: Tables, i: OutcomeInput) {
    && -8_640_000_000_000_000 <= i.at <= 8_640_000_000_000_000
    && i.tx in db.txs && db.txs[i.tx].status == WalletRequested
    && var row := db.txs[i.tx];
    && row.user == i.actor && row.project in db.projects && db.projects[row.project].owner == i.actor
    && if i.status == Submitted then
         && i.hash.Some? && i.hash.value != 0 && HashIsFree(db, row.chainId, i.hash.value)
         && i.nonce.Some? && 0 <= i.nonce.value <= 9_007_199_254_740_991
         && ApiKey(i.actor, OpSubmitted, i.key) !in db.reservations
       else
         && i.status == RejectedByUser && i.hash.None? && i.nonce.None?
         && (i.failureCode.Some? ==> IsCode(i.failureCode.value))
         && ApiKey(i.actor, OpRejected, i.key) !in db.reservations
  }

  /** An outcome is taken exactly once for each of the owner's requests: as sent under a free hash, or as rejected. */
  lemma OutcomeTakenExactly(db: Tables, i: OutcomeInput)
    requires Structure(db)
    ensures OutcomeStep(db, i).tables != db <==> CanReport(db, i)
  {
    hide Structure, ReplayTx, ViewOf, HashTaken, RowSound, HashIsFree, IsCode, ValidFailureCode;
    OutcomeTables(db, i);
    RejectedCode();
    if i.tx in db.txs {
      StructureRow(db, i.tx);
      ReportableRow(db, i.tx);
      CodeExactly(i.failureCode);
      if i.hash.Some? && db.txs[i.tx].hash.None? {
        FreeExactly(db, i.tx, db.txs[i.tx].chainId, i.hash.value);
      }
    }
  }

  lemma RejectedCode()
    ensures ValidFailureCode(USER_REJECTED)
  {
  }

  lemma CodeExactly(code: Option<string>)
    ensures code.Some? ==> (ValidFailureCode(code.value) <==> IsCode(code.value))
  {
  }

  lemma ReportableRow(db: Tables, x: TxId)
    requires x in db.txs && RowSound(db, x)
    ensures db.txs[x].task in db.tasks && db.txs[x].status != Prepared
    ensures db.txs[x].status == WalletRequested ==> db.txs[x].hash.None?
  {
  }

  lemma FreeExactly(db: Tables, self: TxId, chainId: ChainId, hash: Hash)
    requires self in db.txs ==> db.txs[self].chainId != chainId || db.txs[self].hash != Some(hash)
    ensures HashIsFree(db, chainId, hash) <==> !HashTaken(db, self, chainId, hash)
  {
  }

  ghost predicate CanReplace(db: Tables, i: ReplacementInput) {
    && -8_640_000_000_000_000 <= i.at <= 8_640_000_000_000_000
    && i.prior in db.txs && (db.txs[i.prior].status == Submitted || db.txs[i.prior].status == UnknownReconcile)
    && var prior := db.txs[i.prior];
    && prior.user == i.actor && prior.project in db.projects && db.projects[prior.project].owner == i.actor
    && i.hash != 0 && HashIsFree(db, prior.chainId, i.hash)
    && i.nonce >= 0 && prior.nonce == Some(i.nonce as nat)
    && i.publicId !in db.txs
    && (forall x | x in db.txs ::
          !(db.txs[x].user == prior.user && db.txs[x].intent == prior.intent && db.txs[x].key == i.key))
  }

  /** A replacement is taken exactly for a pending transaction of the owner, under its nonce and another, free hash. */
  lemma ReplacementTakenExactly(db: Tables, i: ReplacementInput)
    requires Structure(db)
    ensures ReplacementStep(db, i).tables != db <==> CanReplace(db, i)
  {
    hide Structure, ReplayReplacement, ViewOf, HashTaken, RowSound, HashIsFree;
    if i.prior in db.txs {
      StructureRow(db, i.prior);
      ReplaceableRow(db, i.prior);
      if db.txs[i.prior].hash != Some(i.hash) && i.publicId !in db.txs {
        FreeExactly(db, i.publicId, db.txs[i.prior].chainId, i.hash);
      }
      OwnHash(db, i.prior, i.hash);
    }
  }

  lemma OwnHash(db: Tables, x: TxId, hash: Hash)
    requires x in db.txs
    ensures db.txs[x].hash == Some(hash) ==> !HashIsFree(db, db.txs[x].chainId, hash)
  {
  }

  lemma ReplaceableRow(db: Tables, x: TxId)
    requires x in db.txs && RowSound(db, x)
    ensures db.txs[x].task in db.tasks
    ensures db.txs[x].nonce.Some? ==> db.txs[x].nonce.value <= MAX_SAFE_INTEGER
  {
  }

  /** The report is well formed, whatever the tables hold. */
  ghost predicate ReportFits(i: OutcomeInput) {
    && -8_640_000_000_000_000 <= i.at <= 8_640_000_000_000_000
    && match i.status
       case Submitted =>
         && i.hash.Some? && i.hash.value != 0 && i.nonce.Some? && 0 <= i.nonce.value <= 9_007_199_254_740_991
       case RejectedByUser => i.hash.None? && i.nonce.None? && (i.failureCode.Some? ==> IsCode(i.failureCode.value))
       case WalletRequested => i.hash.None? && i.nonce.None?
       case _ => false
  }

  lemma ReportFitsExactly(i: OutcomeInput)
    ensures ReportFits(i) <==> OutcomeAccepted(i)
  {
    hide IsCode, ValidFailureCode;
    RejectedCode();
    CodeExactly(i.failureCode);
  }

  /** A first outcome that is not taken changes nothing; the error says whether report, row or moment is wrong. */
  lemma OutcomeRefused(db: Tables, i: OutcomeInput)
    requires Structure(db) && !CanReport(db, i)
    requires forall o :: ApiKey(i.actor, o, i.key) !in db.reservations
    ensures OutcomeStep(db, i) == Step(db, Err(
              if !ReportFits(i) then InvalidInput
              else if !(i.tx in db.txs && db.txs[i.tx].user == i.actor && db.txs[i.tx].project in db.projects
                        && db.projects[db.txs[i.tx].project].owner == i.actor) then NotFound
              else Conflict))
  {
    hide Structure, ReplayTx, ViewOf, HashTaken, RowSound, ReportFits, CanReport, OutcomeAccepted, TransitionRow;
    OutcomeTakenExactly(db, i);
    ReportFitsExactly(i);
    OutcomeTables(db, i);
    if i.tx in db.txs {
      StructureRow(db, i.tx);
      ReportableRow(db, i.tx);
      if OutcomeAccepted(i) {
        TransitionErrors(db.txs[i.tx], i);
      }
    }
  }

  lemma TransitionErrors(r: Tx, i: OutcomeInput)
    requires OutcomeAccepted(i)
    ensures TransitionRow(r, OutcomeTransition(i)).Err? ==> TransitionRow(r, OutcomeTransition(i)) == Err(Conflict)
    ensures i.status == WalletRequested || i.status == Submitted || i.status == RejectedByUser
  {
  }

  /** A first replacement that is not taken changes nothing; the error says what is wrong. */
  lemma ReplacementRefused(db: Tables, i: ReplacementInput)
    requires Structure(db) && !CanReplace(db, i)
    requires i.prior in db.txs ==> forall x | x in db.txs ::
               !(db.txs[x].user == db.txs[i.prior].user && db.txs[x].intent == db.txs[i.prior].intent
                 && db.txs[x].key == i.key)
    ensures ReplacementStep(db, i) == Step(db, Err(
              if !(-8_640_000_000_000_000 <= i.at <= 8_640_000_000_000_000 && i.hash != 0
                   && 0 <= i.nonce <= 9_007_199_254_740_991) then InvalidInput
              else if !(i.prior in db.txs && db.txs[i.prior].user == i.actor && db.txs[i.prior].project in db.projects
                        && db.projects[db.txs[i.prior].project].owner == i.actor) then NotFound
              else if i.publicId in db.txs || !HashIsFree(db, db.txs[i.prior].chainId, i.hash)
              then Conflict else InvalidInput))
  {
    hide Structure, ReplayReplacement, ViewOf, HashTaken, RowSound, HashIsFree, CanReplace;
    ReplacementTakenExactly(db, i);
    if i.prior in db.txs {
      StructureRow(db, i.prior);
      ReplaceableRow(db, i.prior);
      if i.publicId !in db.txs {
        FreeExactly(db, i.publicId, db.txs[i.prior].chainId, i.hash);
      }
    }
  }

  // ----- evidence, projects and policies -----

  /** What the server recomputes of an upload: one result per declared check, and the passing flag from them. */
  ghost predicate ChecksOut(b: Evidence.Bundle, p: Evidence.Policy) {
    && |b.checks| == |p.checks|
    && (forall j | 0 <= j < |p.checks| ::
          exists i :: 0 <= i < |b.checks| && b.checks[i].key == p.checks[j].key
                      && b.checks[i].required == p.checks[j].required
                      && b.checks[i].checkLabel == p.checks[j].checkLabel)
    && (exists i :: 0 <= i < |b.checks| && b.checks[i].required)
    && (b.result.passing <==>
        forall i | 0 <= i < |b.checks| && b.checks[i].required ::
          b.checks[i].status == Evidence.Passed && b.checks[i].exitCode == Some(0))
  }

  ghost predicate CanUpload(db: Tables, i: EvidenceInput) {
    && Evidence.IsEvidence(i.bundle) && !i.tokenRevoked
    && i.bundle.task in db.tasks
    && var t := db.tasks[i.bundle.task];
    && i.tokenProject == t.project
    && i.bundle.taskHash == t.taskHash && i.bundle.policyHash == t.policyHash
    && t.policy in db.policies && ChecksOut(i.bundle, db.policies[t.policy].policy)
    && i.publicId !in db.bundles
    && forall b | b in db.bundles && db.bundles[b].task == i.bundle.task :: db.bundles[b].evidenceHash != i.evidenceHash
  }

  lemma ChecksOutExactly(b: Evidence.Bundle, p: Evidence.Policy)
    requires Evidence.SchemaAccepts(b)
    ensures ChecksOut(b, p) <==>
            && Evidence.PersistMatch(b.checks, p) && Evidence.AnyRequired(b.checks)
            && b.result.passing == Evidence.AllRequiredPassed(b.checks)
  {
    hide Evidence.ResultRefined, Evidence.OutcomeConsistent;
    assert Evidence.PersistMatch(b.checks, p) <==>
           |b.checks| == |p.checks|
           && forall j | 0 <= j < |p.checks| :: Evidence.PersistedAs(b.checks, p.checks[j]);
  }

  /** Evidence is stored exactly when it is bound to a task and its policy, checks out, and is new for the task. */
  lemma UploadTakenExactly(db: Tables, i: EvidenceInput)
    requires Structure(db)
    ensures PersistEvidenceStep(db, i).tables != db <==> CanUpload(db, i)
  {
    hide Structure, Evidence.SchemaAccepts, Evidence.IsEvidence, Evidence.PersistMatch, Evidence.AnyRequired,
         Evidence.AllRequiredPassed, ChecksOut, Consistent;
    Evidence.SchemaExactly(i.bundle);
    if i.bundle.task in db.tasks {
      var t := db.tasks[i.bundle.task];
      StructureTask(db, i.bundle.task);
      if Evidence.SchemaAccepts(i.bundle) {
        ChecksOutExactly(i.bundle, db.policies[t.policy].policy);
      }
    }
  }

  /** Evidence that is not stored changes nothing; the error says what is wrong. */
  lemma UploadRefused(db: Tables, i: EvidenceInput)
    requires Structure(db) && !CanUpload(db, i)
    ensures PersistEvidenceStep(db, i) == Step(db, Err(
              if !Evidence.IsEvidence(i.bundle) then InvalidInput
              else if i.bundle.task !in db.tasks then NotFound
              else
                var t := db.tasks[i.bundle.task];
                if i.bundle.taskHash != t.taskHash || i.bundle.policyHash != t.policyHash then Conflict
                else if i.tokenProject != t.project || i.tokenRevoked then InvalidInput
                else if t.policy !in db.policies || !ChecksOut(i.bundle, db.policies[t.policy].policy) then InvalidInput
                else Conflict))
  {
    hide Structure, Evidence.SchemaAccepts, Evidence.IsEvidence, Evidence.PersistMatch, Evidence.AnyRequired,
         Evidence.AllRequiredPassed, ChecksOut, Consistent, CanUpload;
    UploadTakenExactly(db, i);
    Evidence.SchemaExactly(i.bundle);
    if i.bundle.task in db.tasks {
      var t := db.tasks[i.bundle.task];
      StructureTask(db, i.bundle.task);
      if Evidence.SchemaAccepts(i.bundle) {
        ChecksOutExactly(i.bundle, db.policies[t.policy].policy);
      }
    }
  }

  ghost predicate CanPatch(db: Tables, p: ProjectPatch) {
    && p.project in db.projects && db.projects[p.project].owner == p.actor
    && (p.repositoryUrl.Some? && p.repositoryUrl.value != db.projects[p.project].repositoryUrl ==>
          forall t | t in db.tasks :: db.tasks[t].project != p.project)
    && (p.activePolicy.Some? ==>
          && db.projects[p.project].active
          && p.activePolicy.value in db.policies && db.policies[p.activePolicy.value].project == p.project)
  }

  /** What a patch changes of its project; everything else stays. */
  ghost predicate Patches(db: Tables, p: ProjectPatch, later: Tables) {
    && later == db.(projects := later.projects) && later.projects.Keys == db.projects.Keys
    && (forall q | q in db.projects && q != p.project :: later.projects[q] == db.projects[q])
    && p.project in later.projects
    && var before, after := db.projects[p.project], later.projects[p.project];
    && after.owner == before.owner && after.members == before.members
    && (if p.repositoryUrl.Some? then p.repositoryUrl == Some(after.repositoryUrl)
        else after.repositoryUrl == before.repositoryUrl)
    && (if p.active.Some? then p.active == Some(after.active) else after.active == before.active)
    && (if p.activePolicy.Some? then after.activePolicy == p.activePolicy
        else after.activePolicy == before.activePolicy)
  }

  lemma PatchEffect(db: Tables, p: ProjectPatch)
    ensures UpdateProjectStep(db, p).result.Ok? <==> CanPatch(db, p)
    ensures CanPatch(db, p) ==> Patches(db, p, UpdateProjectStep(db, p).tables)
  {
  }

  lemma PatchRefused(db: Tables, p: ProjectPatch)
    requires !CanPatch(db, p)
    ensures UpdateProjectStep(db, p) == Step(db, Err(PatchError(db, p)))
  {
  }

  ghost function PatchError(db: Tables, p: ProjectPatch): Error {
    if !(p.project in db.projects && db.projects[p.project].owner == p.actor) then NotFound
    else if p.repositoryUrl.Some? && p.repositoryUrl.value != db.projects[p.project].repositoryUrl
            && exists t :: t in db.tasks && db.tasks[t].project == p.project then RepositoryImmutable
    else if p.activePolicy.Some?
            && !(p.activePolicy.value in db.policies && db.policies[p.activePolicy.value].project == p.project)
    then NotFound
    else ProjectArchived
  }

  /** A project is patched exactly by its owner, with its URL only before the first task, and then just as asked. */
  lemma PatchTakenExactly(db: Tables, p: ProjectPatch)
    ensures UpdateProjectStep(db, p).result.Ok? <==> CanPatch(db, p)
    ensures CanPatch(db, p) ==> Patches(db, p, UpdateProjectStep(db, p).tables)
    ensures !CanPatch(db, p) ==> UpdateProjectStep(db, p) == Step(db, Err(PatchError(db, p)))
  {
    hide *;
    PatchEffect(db, p);
    if !CanPatch(db, p) {
      PatchRefused(db, p);
    }
  }

  ghost predicate CanStorePolicy(db: Tables, i: PolicyInput) {
    && i.project in db.projects && db.projects[i.project].owner == i.actor && db.projects[i.project].active
    && (i.publicId in db.policies ==> db.policies[i.publicId] == PolicyVersion(i.project, i.policy))
    && forall v | v in db.policies && v != i.publicId && db.policies[v].project == i.project ::
      db.policies[v].policy.policyHash != i.policy.policyHash
  }

  /** What storing a version changes: the version itself, and what its project has active. */
  ghost predicate Stores(db: Tables, i: PolicyInput, later: Tables) {
    && later == db.(projects := later.projects, policies := later.policies)
    && later.policies.Keys == db.policies.Keys + {i.publicId}
    && (forall v | v in db.policies :: later.policies[v] == db.policies[v])
    && later.policies[i.publicId].project == i.project && later.policies[i.publicId].policy == i.policy
    && later.projects.Keys == db.projects.Keys
    && (forall q | q in db.projects && !(q == i.project && i.activate) :: later.projects[q] == db.projects[q])
    && (i.activate && i.project in db.projects ==>
          later.projects[i.project] == db.projects[i.project].(activePolicy := Some(i.publicId)))
  }

  ghost function PolicyError(db: Tables, i: PolicyInput): Error {
    if !(i.project in db.projects && db.projects[i.project].owner == i.actor) then NotFound
    else if !db.projects[i.project].active then ProjectArchived
    else if exists v :: v in db.policies && db.policies[v].project == i.project
                        && db.policies[v].policy.policyHash == i.policy.policyHash then PolicyHashConflict
    else Conflict
  }

  lemma PolicyAccepted(db: Tables, i: PolicyInput)
    requires PolicyHashesUnique(db.policies)
    ensures CreatePolicyStep(db, i).result.Ok? <==> CanStorePolicy(db, i)
    ensures CreatePolicyStep(db, i).result.Err? ==> CreatePolicyStep(db, i) == Step(db, Err(PolicyError(db, i)))
  {
    hide Activated;
    if i.publicId in db.policies && db.policies[i.publicId] == PolicyVersion(i.project, i.policy) {
      assert PolicyHashTaken(db, i.project, i.policy.policyHash);
    }
  }

  lemma PolicyStored(db: Tables, i: PolicyInput)
    requires CreatePolicyStep(db, i).result.Ok?
    ensures var after := CreatePolicyStep(db, i).tables;
            && i.project in db.projects
            && after == db.(projects := Activated(db, i), policies := after.policies)
            && after.policies == db.policies[i.publicId := PolicyVersion(i.project, i.policy)]
            && (i.publicId in db.policies ==> db.policies[i.publicId] == PolicyVersion(i.project, i.policy))
  {
    hide Activated;
    if i.publicId in db.policies {
      assert db.policies == db.policies[i.publicId := db.policies[i.publicId]];
    }
  }

  /** A policy version is stored, or found stored, exactly by the owner of an active project under a hash of its own. */
  lemma PolicyTakenExactly(db: Tables, i: PolicyInput)
    requires Structure(db)
    ensures CreatePolicyStep(db, i).result.Ok? <==> CanStorePolicy(db, i)
    ensures CanStorePolicy(db, i) ==> Stores(db, i, CreatePolicyStep(db, i).tables)
    ensures !CanStorePolicy(db, i) ==> CreatePolicyStep(db, i) == Step(db, Err(PolicyError(db, i)))
  {
    hide Structure, CreatePolicyStep, CanStorePolicy, PolicyHashesUnique, PolicyError;
    StructurePolicies(db);
    PolicyAccepted(db, i);
    if CreatePolicyStep(db, i).result.Ok? {
      PolicyStored(db, i);
    }
  }

  lemma StructurePolicies(db: Tables)
    requires Structure(db)
    ensures PolicyHashesUnique(db.policies)
  {
  }
}
