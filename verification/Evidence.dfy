/** Evidence bundles: their schema, how they are derived, built and verified. */
module Evidence {
  import opened Prelude
  import opened Tasks

  datatype CheckStatus = Passed | Failed | TimedOut | Skipped | Errored

  datatype Output = Output(preview: string, digest: Hash, originalBytes: nat, truncated: bool)

  datatype CheckResult = CheckResult(
    key: string,
    checkLabel: string,
    required: bool,
    status: CheckStatus,
    exitCode: Option<int>,
    signal: Option<string>,
    stdout: Output,
    stderr: Output)

  datatype PolicyCheck = PolicyCheck(key: string, checkLabel: string, required: bool)

  datatype Policy = Policy(
    allowedBranches: seq<string>,
    expectedOwner: Option<string>,
    baseCommit: Option<Hash>,
    checks: seq<PolicyCheck>,
    policyHash: Hash)

  /** `github.com/<owner>/<name>` */
  datatype Remote = Remote(owner: string, name: string)

  /** Distinct failure codes; the sorted array of distinct strings is represented by its set. */
  datatype FailureCode =
    | GitDirty
    | GitBranchNotAllowed
    | GitRemoteOwnerMismatch
    | GitBaseCommitMismatch
    | CheckCode(status: CheckStatus, key: string)

  /** `collectGitState`, without the author, committer and staging details that stay local. */
  datatype GitState = GitState(
    objectId: Hash,
    treeId: Hash,
    derivedCommitHash: Hash,
    branch: string,
    remote: Remote,
    clean: bool,
    changedFiles: seq<string>,
    changedFilesTruncated: bool,
    baseCommitVerified: Option<bool>,
    constraintFailures: set<FailureCode>)

  datatype GitEvidence = GitEvidence(
    objectId: Hash,
    treeId: Hash,
    derivedCommitHash: Hash,
    branch: string,
    remote: Remote,
    clean: bool,
    changedFiles: seq<string>)

  datatype Derived =
    Derived(passing: bool, requiredPassed: nat, requiredTotal: nat, failureCodes: set<FailureCode>)

  datatype Bundle = Bundle(
    task: TaskId,
    taskHash: Hash,
    policyHash: Hash,
    git: GitEvidence,
    checks: seq<CheckResult>,
    result: Derived)

  datatype EvidenceError = BundleInvalid | HashMismatch | PolicyHashMismatch | CommitMismatch | ResidualSecret

  /** The parts that rest on a regex engine, a hash or text normalisation, left uninterpreted. */
  datatype Environment = Environment(
    branchMatches: (string, string) -> bool,
    normalize: string -> string,
    digest: string -> Hash,
    commitHash: Hash -> Hash,
    evidenceHash: Bundle -> Hash,
    hasResidualSecret: Bundle -> bool)

  /** Text normalisation (trimming, NFC) is idempotent. */
  ghost predicate NormalizesOnce(env: Environment) {
    forall s {:trigger env.normalize(env.normalize(s))} :: env.normalize(env.normalize(s)) == env.normalize(s)
  }

  // ----- the schema -----

  predicate CheckPassed(c: CheckResult) {
    c.status == Passed && c.exitCode == Some(0)
  }

  /** The refinement of `CheckResultSchema`. */
  predicate OutcomeConsistent(c: CheckResult) {
    || (c.status == Passed && c.exitCode == Some(0) && c.signal.None?)
    || (c.status == Failed && ((c.exitCode.Some? && c.exitCode != Some(0)) || c.signal.Some?))
    || (c.status == TimedOut && c.exitCode.None?)
    || (c.status == Errored && c.exitCode.None?)
    || (c.status == Skipped && c.exitCode.None? && c.signal.None?)
  }

  function RequiredTotal(checks: seq<CheckResult>): nat {
    if checks == [] then 0 else (if checks[0].required then 1 else 0) + RequiredTotal(checks[1..])
  }

  function RequiredPassed(checks: seq<CheckResult>): nat {
    if checks == [] then 0
    else (if checks[0].required && CheckPassed(checks[0]) then 1 else 0) + RequiredPassed(checks[1..])
  }

  /** `required.every(...)`, as `persistEvidence` recomputes it. */
  predicate AllRequiredPassed(checks: seq<CheckResult>) {
    forall i | 0 <= i < |checks| && checks[i].required :: CheckPassed(checks[i])
  }

  predicate AnyRequired(checks: seq<CheckResult>) {
    exists i :: 0 <= i < |checks| && checks[i].required
  }

  predicate DistinctKeys(checks: seq<CheckResult>) {
    forall i, j | 0 <= i < j < |checks| :: checks[i].key != checks[j].key
  }

  predicate Distinct(files: seq<string>) {
    forall i, j | 0 <= i < j < |files| :: files[i] != files[j]
  }

  /** The part of the `EvidenceBundleSchema` refinement that speaks of `result`, with its array bound. */
  predicate ResultRefined(b: Bundle) {
    && b.result.requiredTotal == RequiredTotal(b.checks)
    && b.result.requiredPassed == RequiredPassed(b.checks)
    && b.result.passing ==
       (b.result.requiredTotal > 0 && b.git.clean && b.git.changedFiles == []
        && b.result.requiredPassed == b.result.requiredTotal)
    && b.result.passing == (b.result.failureCodes == {})
    && |b.result.failureCodes| <= 100
  }

  /** `EvidenceBundleSchema` on a bundle whose transforms have been applied. */
  predicate SchemaAccepts(b: Bundle) {
    && 1 <= |b.checks| <= 100
    && (forall i | 0 <= i < |b.checks| ::
          OutcomeConsistent(b.checks[i]) && Text(b.checks[i].key, 64) && Text(b.checks[i].checkLabel, 128))
    && DistinctKeys(b.checks)
    && |b.git.changedFiles| <= 5000
    && Distinct(b.git.changedFiles)
    && (b.git.clean ==> b.git.changedFiles == [])
    && ResultRefined(b)
  }

  predicate IdentityShape(r: Remote) {
    r.owner != "" && r.name != ""
  }

  function NormalizeRemote(r: Remote): Remote {
    r.(name := StripGit(r.name))
  }

  function NormalizeChecks(env: Environment, checks: seq<CheckResult>): (r: seq<CheckResult>)
    ensures |r| == |checks|
  {
    seq(|checks|, i requires 0 <= i < |checks| => checks[i].(checkLabel := env.normalize(checks[i].checkLabel)))
  }

  /** `EvidenceBundleSchema.parse`: shapes are checked, then text and the remote are rewritten. */
  function Parse(env: Environment, b: Bundle): Option<Bundle> {
    var parsed := b.(git := b.git.(remote := NormalizeRemote(b.git.remote)),
                     checks := NormalizeChecks(env, b.checks));
    if IdentityShape(b.git.remote) && SchemaAccepts(parsed) then Some(parsed) else None
  }

  // ----- what the schema asks for -----

  function Required(checks: seq<CheckResult>): set<nat> {
    set i: nat | i < |checks| && checks[i].required
  }

  function PassedRequired(checks: seq<CheckResult>): set<nat> {
    set i: nat | i < |checks| && checks[i].required && checks[i].status == Passed && checks[i].exitCode == Some(0)
  }

  /** A status and what the process reported fit together. */
  ghost predicate Reports(c: CheckResult) {
    match c.status
    case Passed => c.exitCode == Some(0) && c.signal == None
    case Failed => c.signal != None || (c.exitCode != None && c.exitCode != Some(0))
    case TimedOut => c.exitCode == None
    case Errored => c.exitCode == None
    case Skipped => c.exitCode == None && c.signal == None
  }

  /**
   * An evidence bundle: one to a hundred checks under distinct keys, a tree that is clean only if no file changed,
   * counts that count, and a passing flag that means that some check was required, all such passed with exit code
   * zero, the tree was clean, and no failure code was given.
   */
  ghost predicate IsEvidence(b: Bundle) {
    && 1 <= |b.checks| <= 100
    && (forall i | 0 <= i < |b.checks| ::
          && Reports(b.checks[i])
          && 1 <= |b.checks[i].key| <= 64 && 1 <= |b.checks[i].checkLabel| <= 128)
    && (forall i, j | 0 <= i < j < |b.checks| :: b.checks[i].key != b.checks[j].key)
    && |b.git.changedFiles| <= 5000
    && (forall i, j | 0 <= i < j < |b.git.changedFiles| :: b.git.changedFiles[i] != b.git.changedFiles[j])
    && (b.git.clean ==> b.git.changedFiles == [])
    && b.result.requiredTotal == |Required(b.checks)| && b.result.requiredPassed == |PassedRequired(b.checks)|
    && (b.result.passing <==> b.result.failureCodes == {}) && |b.result.failureCodes| <= 100
    && (b.result.passing <==>
        && b.git.clean && (exists i :: 0 <= i < |b.checks| && b.checks[i].required)
        && forall i | 0 <= i < |b.checks| && b.checks[i].required ::
          b.checks[i].status == Passed && b.checks[i].exitCode == Some(0))
  }

  lemma {:induction false} CountsCount(checks: seq<CheckResult>)
    ensures RequiredTotal(checks) == |Required(checks)|
    ensures RequiredPassed(checks) == |PassedRequired(checks)|
  {
    if checks == [] {
      assert Required(checks) == {} && PassedRequired(checks) == {};
    } else {
      var rest := checks[1..];
      CountsCount(rest);
      assert forall i: nat | i < |rest| :: rest[i] == checks[i + 1];
      ShiftedSize(Required(rest), Required(checks), checks[0].required);
      ShiftedSize(PassedRequired(rest), PassedRequired(checks), checks[0].required && CheckPassed(checks[0]));
    }
  }

  /** The schema accepts exactly the evidence bundles. */
  lemma SchemaExactly(b: Bundle)
    ensures SchemaAccepts(b) <==> IsEvidence(b)
  {
    hide RequiredTotal, RequiredPassed, Required, PassedRequired;
    CountsCount(b.checks);
    RequiredCounts(b.checks);
    ReportsExactly(b.checks);
  }

  lemma ReportsExactly(checks: seq<CheckResult>)
    ensures forall i | 0 <= i < |checks| :: OutcomeConsistent(checks[i]) <==> Reports(checks[i])
  {
  }

  lemma DigestsExactly(env: Environment, checks: seq<CheckResult>)
    ensures DigestsMatch(env, checks) <==> forall i | 0 <= i < |checks| ::
      && (!checks[i].stdout.truncated ==> env.digest(checks[i].stdout.preview) == checks[i].stdout.digest)
      && (!checks[i].stderr.truncated ==> env.digest(checks[i].stderr.preview) == checks[i].stderr.digest)
  {
  }

  // ----- checks against a policy -----

  predicate ValidPolicy(p: Policy) {
    && 1 <= |p.checks| <= 100
    && (forall i, j | 0 <= i < j < |p.checks| :: p.checks[i].key != p.checks[j].key)
    && (exists i :: 0 <= i < |p.checks| && p.checks[i].required)
  }

  predicate Declared(p: Policy, c: CheckResult) {
    exists j :: 0 <= j < |p.checks| && p.checks[j].key == c.key && p.checks[j].required == c.required
  }

  predicate Reported(checks: seq<CheckResult>, d: PolicyCheck) {
    exists i :: 0 <= i < |checks| && checks[i].key == d.key
  }

  /** One result per declared check, under its key and with its required flag, and nothing else. */
  predicate ChecksMatch(checks: seq<CheckResult>, p: Policy) {
    && DistinctKeys(checks)
    && (forall i | 0 <= i < |checks| :: Declared(p, checks[i]))
    && (forall j | 0 <= j < |p.checks| :: Reported(checks, p.checks[j]))
  }

  /** The keys of the results, as long as none comes twice. */
  method SeenKeys(checks: seq<CheckResult>) returns (seen: Option<set<string>>)
    ensures seen.Some? <==> DistinctKeys(checks)
    ensures seen.Some? ==> forall d: PolicyCheck :: d.key in seen.value <==> Reported(checks, d)
  {
    var keys: set<string> := {};
    for i := 0 to |checks|
      invariant forall k :: k in keys <==> exists j :: 0 <= j < i && checks[j].key == k
      invariant forall a, b | 0 <= a < b < i :: checks[a].key != checks[b].key
    {
      if checks[i].key in keys {
        return None;
      }
      keys := keys + {checks[i].key};
    }
    return Some(keys);
  }

  /** `assertChecksMatchPolicy`: none of its four errors is raised exactly when the checks match. */
  method AssertChecksMatchPolicy(checks: seq<CheckResult>, p: Policy) returns (ok: bool)
    requires ValidPolicy(p)
    ensures ok == ChecksMatch(checks, p)
  {
    hide Reported, DistinctKeys;
    var seen := SeenKeys(checks);
    if seen.None? {
      return false;
    }
    for i := 0 to |p.checks|
      invariant forall j | 0 <= j < i :: Reported(checks, p.checks[j])
    {
      if p.checks[i].key !in seen.value {
        assert !Reported(checks, p.checks[i]);
        return false;
      }
    }
    for i := 0 to |checks|
      invariant forall j | 0 <= j < i :: Declared(p, checks[j])
    {
      var found := FindDeclared(p, checks[i].key);
      if found.None? || p.checks[found.value].required != checks[i].required {
        assert !Declared(p, checks[i]);
        return false;
      }
      assert Declared(p, checks[i]);
    }
    return true;
  }

  method FindDeclared(p: Policy, key: string) returns (at: Option<nat>)
    ensures at.Some? ==> at.value < |p.checks| && p.checks[at.value].key == key
    ensures at.None? ==> forall j | 0 <= j < |p.checks| :: p.checks[j].key != key
  {
    for j := 0 to |p.checks|
      invariant forall a | 0 <= a < j :: p.checks[a].key != key
    {
      if p.checks[j].key == key {
        return Some(j);
      }
    }
    return None;
  }

  /** A valid policy always leaves a required check among the results that match it. */
  lemma MatchedChecksHaveRequired(checks: seq<CheckResult>, p: Policy)
    requires ValidPolicy(p) && ChecksMatch(checks, p)
    ensures AnyRequired(checks)
  {
    var j :| 0 <= j < |p.checks| && p.checks[j].required;
    assert Reported(checks, p.checks[j]);
    var i :| 0 <= i < |checks| && checks[i].key == p.checks[j].key;
    assert Declared(p, checks[i]);
  }

  // ----- deriving the result -----

  function DirtyCodes(git: GitState): set<FailureCode> {
    if !git.clean || git.changedFiles != [] || git.changedFilesTruncated then {GitDirty} else {}
  }

  function CheckCodes(checks: seq<CheckResult>): set<FailureCode> {
    set i | 0 <= i < |checks| && checks[i].required && !CheckPassed(checks[i])
      :: CheckCode(checks[i].status, checks[i].key)
  }

  /** What `deriveResult` promises, as a value. */
  function Derive(checks: seq<CheckResult>, git: GitState): Derived {
    var codes := git.constraintFailures + DirtyCodes(git) + CheckCodes(checks);
    Derived(
      RequiredTotal(checks) > 0 && RequiredPassed(checks) == RequiredTotal(checks) && codes == {},
      RequiredPassed(checks), RequiredTotal(checks), codes)
  }

  /** `deriveResult`, filling the set of failures and the counts in one pass. */
  method DeriveResult(checks: seq<CheckResult>, git: GitState) returns (r: Derived)
    ensures r == Derive(checks, git)
  {
    var failures := git.constraintFailures;
    if !git.clean || |git.changedFiles| > 0 || git.changedFilesTruncated {
      failures := failures + {GitDirty};
    }
    var total, passed := 0, 0;
    ghost var base := failures;
    for i := 0 to |checks|
      invariant failures == base + CheckCodes(checks[..i])
      invariant total + RequiredTotal(checks[i..]) == RequiredTotal(checks)
      invariant passed + RequiredPassed(checks[i..]) == RequiredPassed(checks)
    {
      CheckCodesStep(checks, i);
      assert checks[i..][1..] == checks[i + 1..];
      if checks[i].required {
        total := total + 1;
        if CheckPassed(checks[i]) {
          passed := passed + 1;
        } else {
          failures := failures + {CheckCode(checks[i].status, checks[i].key)};
        }
      }
    }
    assert checks[..|checks|] == checks;
    r := Derived(total > 0 && passed == total && failures == {}, passed, total, failures);
  }

  lemma CheckCodesStep(checks: seq<CheckResult>, i: nat)
    requires i < |checks|
    ensures CheckCodes(checks[..i + 1]) == CheckCodes(checks[..i]) +
            (if checks[i].required && !CheckPassed(checks[i])
             then {CheckCode(checks[i].status, checks[i].key)} else {})
  {
    var longer, shorter := checks[..i + 1], checks[..i];
    forall c | c in CheckCodes(longer)
      ensures c in CheckCodes(shorter) ||
              (checks[i].required && !CheckPassed(checks[i]) && c == CheckCode(checks[i].status, checks[i].key))
    {
      var k :| 0 <= k < |longer| && longer[k].required && !CheckPassed(longer[k])
               && c == CheckCode(longer[k].status, longer[k].key);
      if k < i {
        assert shorter[k] == longer[k];
      }
    }
    forall c | c in CheckCodes(shorter) ensures c in CheckCodes(longer) {
      var k :| 0 <= k < |shorter| && shorter[k].required && !CheckPassed(shorter[k])
               && c == CheckCode(shorter[k].status, shorter[k].key);
      assert longer[k] == shorter[k];
    }
    assert longer[i] == checks[i];
  }

  lemma {:induction false} RequiredCounts(checks: seq<CheckResult>)
    ensures RequiredPassed(checks) <= RequiredTotal(checks)
    ensures RequiredTotal(checks) > 0 <==> AnyRequired(checks)
    ensures RequiredPassed(checks) == RequiredTotal(checks) <==> AllRequiredPassed(checks)
  {
    if checks != [] {
      var rest := checks[1..];
      RequiredCounts(rest);
      assert forall i | 1 <= i < |checks| :: checks[i] == rest[i - 1];
      assert AnyRequired(checks) <==> checks[0].required || AnyRequired(rest) by {
        if AnyRequired(rest) {
          var i :| 0 <= i < |rest| && rest[i].required;
          assert checks[i + 1].required;
        }
      }
      AllRequiredPassedCons(checks);
    }
  }

  lemma AllRequiredPassedCons(checks: seq<CheckResult>)
    requires checks != []
    ensures AllRequiredPassed(checks) <==>
            (checks[0].required ==> CheckPassed(checks[0])) && AllRequiredPassed(checks[1..])
  {
    var rest := checks[1..];
    assert forall i | 1 <= i < |checks| :: checks[i] == rest[i - 1];
    if AllRequiredPassed(checks) {
      forall i | 0 <= i < |rest| && rest[i].required ensures CheckPassed(rest[i]) {
        assert checks[i + 1].required;
      }
    }
  }

  /** How many required checks did not pass. */
  function Failing(checks: seq<CheckResult>): nat {
    if checks == [] then 0
    else (if checks[0].required && !CheckPassed(checks[0]) then 1 else 0) + Failing(checks[1..])
  }

  /** The code the first check contributes. */
  function HeadCode(checks: seq<CheckResult>): set<FailureCode>
    requires checks != []
  {
    if checks[0].required && !CheckPassed(checks[0]) then {CheckCode(checks[0].status, checks[0].key)} else {}
  }

  lemma CheckCodesCons(checks: seq<CheckResult>)
    requires checks != []
    ensures CheckCodes(checks) == HeadCode(checks) + CheckCodes(checks[1..])
  {
    var rest := checks[1..];
    forall c | c in CheckCodes(checks) ensures c in HeadCode(checks) + CheckCodes(rest) {
      var k :| 0 <= k < |checks| && checks[k].required && !CheckPassed(checks[k])
               && c == CheckCode(checks[k].status, checks[k].key);
      if k > 0 {
        assert rest[k - 1] == checks[k];
      }
    }
    forall c | c in CheckCodes(rest) ensures c in CheckCodes(checks) {
      var k :| 0 <= k < |rest| && rest[k].required && !CheckPassed(rest[k])
               && c == CheckCode(rest[k].status, rest[k].key);
      assert checks[k + 1] == rest[k];
    }
  }

  lemma {:induction false} CheckCodesCount(checks: seq<CheckResult>)
    requires DistinctKeys(checks)
    ensures |CheckCodes(checks)| == Failing(checks)
    ensures Failing(checks) <= |checks|
    ensures Failing(checks) == 0 <==> AllRequiredPassed(checks)
  {
    if checks == [] {
      assert CheckCodes(checks) == {};
    } else {
      var rest := checks[1..];
      assert forall i | 0 <= i < |rest| :: rest[i] == checks[i + 1];
      CheckCodesCount(rest);
      CheckCodesCons(checks);
      AllRequiredPassedCons(checks);
      assert HeadCode(checks) !! CheckCodes(rest);
    }
  }

  /** `clean` is exactly no changed file and no truncation, and the dirty code follows it. */
  predicate CleanIsConsistent(git: GitState) {
    && (git.clean <==> git.changedFiles == [] && !git.changedFilesTruncated)
    && (git.changedFilesTruncated ==> git.changedFiles != [])
    && (GitDirty in git.constraintFailures ==> !git.clean)
  }

  function PublicGit(git: GitState): GitEvidence {
    GitEvidence(git.objectId, git.treeId, git.derivedCommitHash, git.branch, git.remote, git.clean, git.changedFiles)
  }

  /**
   * For a collected Git state whose only constraint failure can be dirt, the derived result meets every
   * result refinement of the schema exactly when its failure codes fit the array bound, that is, unless
   * more than a hundred codes come together.
   */
  lemma DerivedResultRefined(checks: seq<CheckResult>, git: GitState, task: TaskId, taskHash: Hash, policyHash: Hash)
    requires DistinctKeys(checks) && AnyRequired(checks)
    requires CleanIsConsistent(git) && git.constraintFailures <= {GitDirty}
    ensures ResultRefined(Bundle(task, taskHash, policyHash, PublicGit(git), checks, Derive(checks, git))) <==>
            Failing(checks) + (if git.clean then 0 else 1) <= 100
  {
    RequiredCounts(checks);
    CheckCodesCount(checks);
    var codes := Derive(checks, git).failureCodes;
    var dirty: set<FailureCode> := if git.clean then {} else {GitDirty};
    assert git.constraintFailures + DirtyCodes(git) == dirty;
    assert codes == dirty + CheckCodes(checks);
    assert dirty !! CheckCodes(checks);
    assert |codes| == |dirty| + |CheckCodes(checks)|;
  }

  /** With the hundred checks a policy allows, all failing in a dirty tree, a hundred and one codes come together. */
  lemma DerivedResultOverflows(checks: seq<CheckResult>, git: GitState)
    requires |checks| == 100 && DistinctKeys(checks)
    requires forall i | 0 <= i < |checks| :: checks[i].required && !CheckPassed(checks[i])
    requires CleanIsConsistent(git) && git.constraintFailures <= {GitDirty} && !git.clean
    ensures !ResultRefined(Bundle(0, 0, 0, PublicGit(git), checks, Derive(checks, git)))
  {
    assert checks[0].required;
    AllFailing(checks);
    DerivedResultRefined(checks, git, 0, 0, 0);
  }

  lemma {:induction false} AllFailing(checks: seq<CheckResult>)
    requires forall i | 0 <= i < |checks| :: checks[i].required && !CheckPassed(checks[i])
    ensures Failing(checks) == |checks|
  {
    if checks != [] {
      AllFailing(checks[1..]);
    }
  }

  // ----- building and verifying -----

  predicate DigestsMatch(env: Environment, checks: seq<CheckResult>) {
    forall i | 0 <= i < |checks| ::
      && (checks[i].stdout.truncated || env.digest(checks[i].stdout.preview) == checks[i].stdout.digest)
      && (checks[i].stderr.truncated || env.digest(checks[i].stderr.preview) == checks[i].stderr.digest)
  }

  predicate BranchAllowed(env: Environment, p: Policy, branch: string) {
    exists i :: 0 <= i < |p.allowedBranches| && env.branchMatches(p.allowedBranches[i], branch)
  }

  /** `staticGitPolicyFailures`; the policy schema fixes `requireCleanWorkingTree` to true. */
  function StaticFailures(env: Environment, p: Policy, branch: string, remote: Remote, clean: bool): set<FailureCode> {
    (if clean then {} else {GitDirty})
    + (if BranchAllowed(env, p, branch) then {} else {GitBranchNotAllowed})
    + (if p.expectedOwner.Some? && p.expectedOwner.value != remote.owner then {GitRemoteOwnerMismatch} else {})
  }

  /** What `buildEvidenceBundle` throws before it assembles a candidate. */
  function BuildRefusal(env: Environment, p: Policy, git: GitState, parsed: seq<CheckResult>): Option<EvidenceError> {
    if exists i :: 0 <= i < |parsed| && !OutcomeConsistent(parsed[i]) then Some(BundleInvalid)
    else if !ChecksMatch(parsed, p) then Some(BundleInvalid)
    else if !DigestsMatch(env, parsed) then Some(HashMismatch)
    else if (git.constraintFailures + StaticFailures(env, p, git.branch, git.remote, git.clean)) - {GitDirty} != {}
    then Some(BundleInvalid)
    else if p.baseCommit.Some? && git.baseCommitVerified != Some(true) then Some(BundleInvalid)
    else None
  }

  /** A bundle with the hash of its canonical JSON. */
  datatype Hashed = Hashed(bundle: Bundle, evidenceHash: Hash)

  /** `buildEvidenceBundle` */
  function Build(
    env: Environment, p: Policy, git: GitState, checks: seq<CheckResult>, task: TaskId, taskHash: Hash
  ): Result<Hashed, EvidenceError> {
    var parsed := NormalizeChecks(env, checks);
    match BuildRefusal(env, p, git, parsed)
    case Some(error) => Err(error)
    case None =>
      var candidate := Bundle(task, taskHash, p.policyHash, PublicGit(git), parsed, Derive(parsed, git));
      match Parse(env, candidate)
      case None => Err(BundleInvalid)
      case Some(bundle) =>
        if env.hasResidualSecret(bundle) then Err(ResidualSecret) else Ok(Hashed(bundle, env.evidenceHash(bundle)))
  }

  /** `VerifyBundleExpectations`: the policy, the hashes the caller insists on, and the Git state it collected. */
  datatype Expectations = Expectations(
    policy: Policy,
    policyHash: Option<Hash>,
    taskHash: Option<Hash>,
    commitHash: Option<Hash>,
    evidenceHash: Option<Hash>,
    gitState: Option<GitState>)

  predicate Unexpected(expected: Option<Hash>, actual: Hash) {
    expected.Some? && expected.value != actual
  }

  /** `verifyBundle` */
  function Verify(env: Environment, unknown: Bundle, e: Expectations): Result<Hashed, EvidenceError> {
    match Parse(env, unknown)
    case None => Err(BundleInvalid)
    case Some(bundle) =>
      var commitHash := env.commitHash(bundle.git.objectId);
      if !ChecksMatch(bundle.checks, e.policy) then Err(BundleInvalid)
      else if !DigestsMatch(env, bundle.checks) then Err(HashMismatch)
      else if bundle.result.passing
              && StaticFailures(env, e.policy, bundle.git.branch, bundle.git.remote, bundle.git.clean) != {}
      then Err(BundleInvalid)
      else if bundle.policyHash != e.policy.policyHash then Err(PolicyHashMismatch)
      else if Unexpected(e.policyHash, bundle.policyHash) then Err(PolicyHashMismatch)
      else if Unexpected(e.taskHash, bundle.taskHash) then Err(HashMismatch)
      else if commitHash != bundle.git.derivedCommitHash then Err(CommitMismatch)
      else if Unexpected(e.commitHash, commitHash) then Err(CommitMismatch)
      else if e.policy.baseCommit.Some?
              && (e.gitState.None? || e.gitState.value.objectId != bundle.git.objectId
                  || e.gitState.value.baseCommitVerified != Some(true))
      then Err(BundleInvalid)
      else if env.hasResidualSecret(bundle) then Err(ResidualSecret)
      else if Unexpected(e.evidenceHash, env.evidenceHash(bundle)) then Err(HashMismatch)
      else Ok(Hashed(bundle, env.evidenceHash(bundle)))
  }

  /** The bundle carries every hash the caller insists on. */
  predicate MeetsExpectations(e: Expectations, h: Hashed) {
    && (e.policyHash.Some? ==> h.bundle.policyHash == e.policyHash.value)
    && (e.taskHash.Some? ==> h.bundle.taskHash == e.taskHash.value)
    && (e.commitHash.Some? ==> h.bundle.git.derivedCommitHash == e.commitHash.value)
    && (e.evidenceHash.Some? ==> h.evidenceHash == e.evidenceHash.value)
  }

  lemma NormalizeChecksTwice(env: Environment, checks: seq<CheckResult>)
    requires NormalizesOnce(env)
    ensures NormalizeChecks(env, NormalizeChecks(env, checks)) == NormalizeChecks(env, checks)
  {
    var once := NormalizeChecks(env, checks);
    var twice := NormalizeChecks(env, once);
    forall i | 0 <= i < |once| ensures twice[i] == once[i] {
      assert once[i].checkLabel == env.normalize(checks[i].checkLabel);
    }
    assert twice == once;
  }

  /**
   * Whatever `buildEvidenceBundle` emits, `verifyBundle` accepts under the same policy and Git state and hands back
   * unchanged, with the same evidence hash, exactly when it carries the hashes the caller insists on and the emitted
   * repository name is not empty and carries no further `.git`.
   */
  lemma BuildThenVerify(
    env: Environment, e: Expectations, git: GitState, checks: seq<CheckResult>, task: TaskId, taskHash: Hash
  )
    requires NormalizesOnce(env)
    requires git.derivedCommitHash == env.commitHash(git.objectId) && e.gitState == Some(git)
    requires Build(env, e.policy, git, checks, task, taskHash).Ok?
    ensures var built := Build(env, e.policy, git, checks, task, taskHash).value;
            var name := StripGit(git.remote.name);
            Verify(env, built.bundle, e) == Ok(built) <==>
            name != "" && StripGit(name) == name && MeetsExpectations(e, built)
  {
    hide SchemaAccepts, ChecksMatch, DigestsMatch, BranchAllowed, OutcomeConsistent, CheckCodes,
         RequiredTotal, RequiredPassed;
    var p, built := e.policy, Build(env, e.policy, git, checks, task, taskHash).value.bundle;
    NormalizeChecksTwice(env, checks);
    NormalizeChecksTwice(env, NormalizeChecks(env, checks));
    assert built.checks == NormalizeChecks(env, checks);
    assert built.git.remote == NormalizeRemote(git.remote);
    if StripGit(built.git.remote.name) == built.git.remote.name && built.git.remote.name != "" {
      assert built.(git := built.git.(remote := NormalizeRemote(built.git.remote)),
                    checks := NormalizeChecks(env, built.checks)) == built;
      assert Parse(env, built) == Some(built);
      if built.result.passing {
        var failures := StaticFailures(env, p, git.branch, git.remote, git.clean);
        assert GitDirty !in failures;
        assert failures <= {GitDirty};
        assert failures == {};
      }
    }
  }

  /** The CLI's collected remote is a parsed identity; without a trailing `.git` only the expected hashes matter. */
  lemma BuildThenVerifyPlainRemote(
    env: Environment, e: Expectations, git: GitState, checks: seq<CheckResult>, task: TaskId, taskHash: Hash
  )
    requires NormalizesOnce(env)
    requires git.derivedCommitHash == env.commitHash(git.objectId) && e.gitState == Some(git)
    requires StripGit(git.remote.name) == git.remote.name
    requires Build(env, e.policy, git, checks, task, taskHash).Ok?
    ensures var built := Build(env, e.policy, git, checks, task, taskHash).value;
            Verify(env, built.bundle, e) == Ok(built) <==> MeetsExpectations(e, built)
  {
    BuildThenVerify(env, e, git, checks, task, taskHash);
  }

  /**
   * A branch that no pattern matches, another owner, an unverified base commit or any constraint failure but dirt
   * keeps a bundle from being built at all.
   */
  lemma BuiltMeetsPolicy(
    env: Environment, p: Policy, git: GitState, checks: seq<CheckResult>, task: TaskId, taskHash: Hash
  )
    requires Build(env, p, git, checks, task, taskHash).Ok?
    ensures MeetsRepositoryPolicy(env, p, git)
    ensures var b := Build(env, p, git, checks, task, taskHash).value.bundle;
            && IsEvidence(b) && b.task == task && b.taskHash == taskHash && b.policyHash == p.policyHash
            && b.git.objectId == git.objectId && b.git.treeId == git.treeId
            && b.git.derivedCommitHash == git.derivedCommitHash && b.git.branch == git.branch
            && b.git.clean == git.clean && b.git.changedFiles == git.changedFiles
            && git.remote.owner != "" && git.remote.name != ""
            && !env.hasResidualSecret(b)
  {
    hide SchemaAccepts, ChecksMatch, DigestsMatch, OutcomeConsistent, Derive, IsEvidence;
    var failures := git.constraintFailures + StaticFailures(env, p, git.branch, git.remote, git.clean);
    forall f | f in failures ensures f == GitDirty {
      assert f != GitDirty ==> f in failures - {GitDirty};
    }
    SchemaExactly(Build(env, p, git, checks, task, taskHash).value.bundle);
  }

  /**
   * Building complains of a hash exactly when every status fits its report and the results match the policy, but the
   * digest of some complete output is not that of its preview.
   */
  lemma BuildHashMismatchExactly(
    env: Environment, p: Policy, git: GitState, checks: seq<CheckResult>, task: TaskId, taskHash: Hash
  )
    ensures Build(env, p, git, checks, task, taskHash) == Err(HashMismatch) <==>
            && (forall i | 0 <= i < |checks| :: Reports(checks[i]))
            && ChecksMatch(NormalizeChecks(env, checks), p)
            && exists i :: 0 <= i < |checks| &&
                           ((!checks[i].stdout.truncated
                             && env.digest(checks[i].stdout.preview) != checks[i].stdout.digest)
                            || (!checks[i].stderr.truncated
                                && env.digest(checks[i].stderr.preview) != checks[i].stderr.digest))
  {
    hide SchemaAccepts, ChecksMatch, DigestsMatch, OutcomeConsistent, Reports, Derive, StaticFailures;
    var parsed := NormalizeChecks(env, checks);
    ReportsExactly(parsed);
    SameReports(env, checks);
    DigestsExactly(env, checks);
    SameDigests(env, checks);
  }

  lemma SameReports(env: Environment, checks: seq<CheckResult>)
    ensures forall i | 0 <= i < |checks| :: Reports(NormalizeChecks(env, checks)[i]) == Reports(checks[i])
  {
  }

  lemma SameDigests(env: Environment, checks: seq<CheckResult>)
    ensures DigestsMatch(env, NormalizeChecks(env, checks)) == DigestsMatch(env, checks)
  {
    var parsed := NormalizeChecks(env, checks);
    assert forall i | 0 <= i < |checks| ::
        parsed[i].stdout == checks[i].stdout && parsed[i].stderr == checks[i].stderr;
  }

  /** A bundle that verifies no longer does once one of its bindings is changed, and the error says which. */
  lemma TamperingIsNoticed(env: Environment, e: Expectations, b: Bundle, other: Hash)
    requires Verify(env, b, e).Ok? && Verify(env, b, e).value.bundle == b
    ensures other != b.policyHash ==>
              && Verify(env, b.(policyHash := other), e) == Err(PolicyHashMismatch)
              && Verify(env, b, e.(policyHash := Some(other))) == Err(PolicyHashMismatch)
              && Verify(env, b, e.(policy := e.policy.(policyHash := other))) == Err(PolicyHashMismatch)
    ensures other != b.taskHash ==> Verify(env, b, e.(taskHash := Some(other))) == Err(HashMismatch)
    ensures other != b.git.derivedCommitHash ==>
              && Verify(env, b.(git := b.git.(derivedCommitHash := other)), e) == Err(CommitMismatch)
              && Verify(env, b, e.(commitHash := Some(other))) == Err(CommitMismatch)
    ensures other != env.evidenceHash(b) ==> Verify(env, b, e.(evidenceHash := Some(other))) == Err(HashMismatch)
    ensures e.policy.baseCommit.Some? ==> Verify(env, b, e.(gitState := None)) == Err(BundleInvalid)
  {
    hide ChecksMatch, DigestsMatch, OutcomeConsistent, DistinctKeys, RequiredTotal, RequiredPassed;
    var rehashed, moved := b.(policyHash := other), b.(git := b.git.(derivedCommitHash := other));
    assert Parse(env, b) == Some(b);
    assert SchemaAccepts(rehashed) && SchemaAccepts(moved);
    assert b.git.remote == NormalizeRemote(b.git.remote) && NormalizeChecks(env, b.checks) == b.checks;
    assert Parse(env, rehashed) == Some(rehashed) && Parse(env, moved) == Some(moved);
    PolicyHashAside(b.checks, e.policy, other);
  }

  lemma PolicyHashAside(checks: seq<CheckResult>, p: Policy, other: Hash)
    ensures ChecksMatch(checks, p.(policyHash := other)) == ChecksMatch(checks, p)
  {
    var q := p.(policyHash := other);
    assert forall i | 0 <= i < |checks| :: Declared(q, checks[i]) == Declared(p, checks[i]);
  }

  /** Rewriting labels changes neither outcomes nor output digests. */
  lemma NormalizedChecksAccepted(env: Environment, checks: seq<CheckResult>)
    requires forall i | 0 <= i < |checks| ::
               OutcomeConsistent(checks[i]) && Text(checks[i].key, 64) && Text(env.normalize(checks[i].checkLabel), 128)
    ensures var parsed := NormalizeChecks(env, checks);
            && DigestsMatch(env, parsed) == DigestsMatch(env, checks)
            && (forall i | 0 <= i < |parsed| ::
                  OutcomeConsistent(parsed[i]) && Text(parsed[i].key, 64) && Text(parsed[i].checkLabel, 128))
  {
    var parsed := NormalizeChecks(env, checks);
    assert forall i | 0 <= i < |checks| ::
        parsed[i].stdout == checks[i].stdout && parsed[i].stderr == checks[i].stderr;
  }

  /** A collected state with a verified base commit and an allowed branch and owner. */
  predicate MeetsRepositoryPolicy(env: Environment, p: Policy, git: GitState) {
    && git.constraintFailures <= {GitDirty}
    && (exists i :: 0 <= i < |p.allowedBranches| && env.branchMatches(p.allowedBranches[i], git.branch))
    && (p.expectedOwner.Some? ==> p.expectedOwner.value == git.remote.owner)
    && (p.baseCommit.Some? ==> git.baseCommitVerified == Some(true))
  }

  /**
   * For inputs that meet the schema and the policy, building turns the bundle down as invalid exactly when
   * more than a hundred failure codes come together; a residual secret is the one other reason left.
   */
  lemma BuildSucceeds(
    env: Environment, p: Policy, git: GitState, checks: seq<CheckResult>, task: TaskId, taskHash: Hash
  )
    requires NormalizesOnce(env)
    requires ValidPolicy(p) && CleanIsConsistent(git) && MeetsRepositoryPolicy(env, p, git)
    requires IdentityShape(git.remote)
    requires |git.changedFiles| <= 5000 && Distinct(git.changedFiles)
    requires 1 <= |checks| <= 100
    requires forall i | 0 <= i < |checks| ::
               OutcomeConsistent(checks[i]) && Text(checks[i].key, 64) && Text(env.normalize(checks[i].checkLabel), 128)
    requires ChecksMatch(NormalizeChecks(env, checks), p) && DigestsMatch(env, checks)
    ensures Build(env, p, git, checks, task, taskHash) in {Err(BundleInvalid), Err(HashMismatch)} <==>
            Failing(NormalizeChecks(env, checks)) + (if git.clean then 0 else 1) > 100
  {
    hide ResultRefined, DigestsMatch, CleanIsConsistent, Failing, OutcomeConsistent, BuildRefusal, Derive;
    var parsed := NormalizeChecks(env, checks);
    NormalizedChecksAccepted(env, checks);
    NothingRefused(env, p, git, parsed);
    MatchedChecksHaveRequired(parsed, p);
    var candidate := Bundle(task, taskHash, p.policyHash, PublicGit(git), parsed, Derive(parsed, git));
    NormalizeChecksTwice(env, checks);
    ParseCandidate(env, git, parsed, candidate, NormalizeRemote(git.remote));
    DerivedResultRefined(parsed, git, task, taskHash, p.policyHash);
  }

  lemma NothingRefused(env: Environment, p: Policy, git: GitState, parsed: seq<CheckResult>)
    requires MeetsRepositoryPolicy(env, p, git) && ChecksMatch(parsed, p) && DigestsMatch(env, parsed)
    requires forall i | 0 <= i < |parsed| :: OutcomeConsistent(parsed[i])
    ensures BuildRefusal(env, p, git, parsed) == None
  {
    var failures := git.constraintFailures + StaticFailures(env, p, git.branch, git.remote, git.clean);
    assert failures <= {GitDirty};
    assert failures - {GitDirty} == {};
  }

  /** Of the conditions the schema puts on a candidate bundle, only those on its result are left open. */
  lemma ParseCandidate(env: Environment, git: GitState, checks: seq<CheckResult>, b: Bundle, remote: Remote)
    requires b.git == PublicGit(git) && b.checks == checks && NormalizeChecks(env, checks) == checks
    requires IdentityShape(git.remote) && remote == NormalizeRemote(git.remote)
    requires CleanIsConsistent(git) && |git.changedFiles| <= 5000 && Distinct(git.changedFiles)
    requires 1 <= |checks| <= 100 && DistinctKeys(checks)
    requires forall i | 0 <= i < |checks| ::
               OutcomeConsistent(checks[i]) && Text(checks[i].key, 64) && Text(checks[i].checkLabel, 128)
    ensures Parse(env, b) == if ResultRefined(b) then Some(b.(git := b.git.(remote := remote))) else None
  {
    var parsed := b.(git := b.git.(remote := remote), checks := NormalizeChecks(env, b.checks));
    assert parsed == b.(git := b.git.(remote := remote));
    assert ResultRefined(parsed) == ResultRefined(b);
    assert SchemaAccepts(parsed) == ResultRefined(parsed);
  }

  // ----- what a verified bundle means -----

  predicate PassedUnder(checks: seq<CheckResult>, d: PolicyCheck) {
    exists i :: 0 <= i < |checks| && checks[i].key == d.key && checks[i].required
                && checks[i].status == Passed && checks[i].exitCode == Some(0)
  }

  /** Every required check the policy declares is among the results, passed, with exit code zero. */
  predicate EveryRequiredPassed(checks: seq<CheckResult>, p: Policy) {
    forall j | 0 <= j < |p.checks| && p.checks[j].required :: PassedUnder(checks, p.checks[j])
  }

  /** The flag of a declared result is that of the one declared check under its key. */
  lemma DeclaredAgrees(p: Policy, c: CheckResult, j: nat)
    requires ValidPolicy(p) && Declared(p, c) && j < |p.checks| && p.checks[j].key == c.key
    ensures p.checks[j].required == c.required
  {
  }

  lemma PassedAsDeclared(checks: seq<CheckResult>, p: Policy, j: nat)
    requires ValidPolicy(p) && ChecksMatch(checks, p) && AllRequiredPassed(checks)
    requires j < |p.checks| && p.checks[j].required
    ensures PassedUnder(checks, p.checks[j])
  {
    hide ValidPolicy, Declared, DistinctKeys;
    assert Reported(checks, p.checks[j]);
    var i :| 0 <= i < |checks| && checks[i].key == p.checks[j].key;
    DeclaredAgrees(p, checks[i], j);
    assert CheckPassed(checks[i]);
  }

  lemma DeclaredAsPassed(checks: seq<CheckResult>, p: Policy, i: nat)
    requires DistinctKeys(checks) && EveryRequiredPassed(checks, p)
    requires i < |checks| && checks[i].required && Declared(p, checks[i])
    ensures CheckPassed(checks[i])
  {
    var j :| 0 <= j < |p.checks| && p.checks[j].key == checks[i].key && p.checks[j].required == checks[i].required;
    assert PassedUnder(checks, p.checks[j]);
  }

  lemma RequiredByPolicy(checks: seq<CheckResult>, p: Policy)
    requires ValidPolicy(p) && ChecksMatch(checks, p)
    ensures AllRequiredPassed(checks) <==> EveryRequiredPassed(checks, p)
  {
    hide PassedUnder, Declared, Reported, CheckPassed, ValidPolicy, DistinctKeys;
    if AllRequiredPassed(checks) {
      forall j | 0 <= j < |p.checks| && p.checks[j].required ensures PassedUnder(checks, p.checks[j]) {
        PassedAsDeclared(checks, p, j);
      }
    }
    if EveryRequiredPassed(checks, p) {
      forall i | 0 <= i < |checks| && checks[i].required ensures CheckPassed(checks[i]) {
        DeclaredAsPassed(checks, p, i);
      }
    }
  }

  /**
   * What verification accepts passes exactly when every required check of the policy passed with exit code zero
   * on a clean tree; it is bound to the policy, its commit and the hashes the caller insists on, and a passing
   * bundle meets the branch and owner rules.
   */
  lemma VerifiedBundleMeans(env: Environment, unknown: Bundle, e: Expectations)
    requires ValidPolicy(e.policy) && Verify(env, unknown, e).Ok?
    ensures var b, p := Verify(env, unknown, e).value.bundle, e.policy;
            && IsEvidence(b)
            && (forall i | 0 <= i < |b.checks| ::
                  && (!b.checks[i].stdout.truncated ==>
                        env.digest(b.checks[i].stdout.preview) == b.checks[i].stdout.digest)
                  && (!b.checks[i].stderr.truncated ==>
                        env.digest(b.checks[i].stderr.preview) == b.checks[i].stderr.digest))
            && b.policyHash == p.policyHash && b.git.derivedCommitHash == env.commitHash(b.git.objectId)
            && (b.result.passing <==>
                EveryRequiredPassed(b.checks, p) && b.git.clean && b.git.changedFiles == [])
            && (b.result.passing ==>
                  (exists i :: 0 <= i < |p.allowedBranches| && env.branchMatches(p.allowedBranches[i], b.git.branch))
                  && (p.expectedOwner.Some? ==> p.expectedOwner.value == b.git.remote.owner))
            && (p.baseCommit.Some? ==>
                  e.gitState.Some? && e.gitState.value.objectId == b.git.objectId
                  && e.gitState.value.baseCommitVerified == Some(true))
            && b.git.remote.owner != "" && unknown.git.remote.name != "" && !env.hasResidualSecret(b)
    ensures MeetsExpectations(e, Verify(env, unknown, e).value)
  {
    hide EveryRequiredPassed, ChecksMatch, DigestsMatch, AllRequiredPassed, SchemaAccepts, BranchAllowed, IsEvidence;
    var b := Verify(env, unknown, e).value.bundle;
    SchemaExactly(b);
    DigestsExactly(env, b.checks);
    MatchedChecksHaveRequired(b.checks, e.policy);
    RequiredByPolicy(b.checks, e.policy);
    PassingAgreement(b);
    StaticFailuresMeaning(env, e.policy, b);
  }

  lemma StaticFailuresMeaning(env: Environment, p: Policy, b: Bundle)
    ensures StaticFailures(env, p, b.git.branch, b.git.remote, b.git.clean) == {} <==>
            && b.git.clean
            && (exists i :: 0 <= i < |p.allowedBranches| && env.branchMatches(p.allowedBranches[i], b.git.branch))
            && (p.expectedOwner.Some? ==> p.expectedOwner.value == b.git.remote.owner)
  {
    var failures := StaticFailures(env, p, b.git.branch, b.git.remote, b.git.clean);
    assert b.git.clean <==> GitDirty !in failures;
    assert BranchAllowed(env, p, b.git.branch) <==> GitBranchNotAllowed !in failures;
    assert (p.expectedOwner.Some? ==> p.expectedOwner.value == b.git.remote.owner) <==>
           GitRemoteOwnerMismatch !in failures;
  }

  // ----- the server's own recomputation -----

  predicate PersistedAs(checks: seq<CheckResult>, d: PolicyCheck) {
    exists i :: 0 <= i < |checks| && checks[i].key == d.key && checks[i].required == d.required
                && checks[i].checkLabel == d.checkLabel
  }

  /** `assertChecksMatchPolicy` of `repository.ts`, which counts instead of looking for unknown keys. */
  predicate PersistMatch(checks: seq<CheckResult>, p: Policy) {
    && |checks| == |p.checks|
    && DistinctKeys(checks)
    && (forall j | 0 <= j < |p.checks| :: PersistedAs(checks, p.checks[j]))
  }

  /**
   * On a bundle the schema accepts, the flag the server recomputes from the checks alone agrees with the
   * bundle's own flag exactly when the tree was clean or some required check did not pass.
   */
  lemma PassingAgreement(b: Bundle)
    requires SchemaAccepts(b) && AnyRequired(b.checks)
    ensures b.result.passing <==> AllRequiredPassed(b.checks) && b.git.clean && b.git.changedFiles == []
    ensures b.result.passing == AllRequiredPassed(b.checks) <==> b.git.clean || !AllRequiredPassed(b.checks)
  {
    RequiredCounts(b.checks);
  }

  function CheckKeys(checks: seq<CheckResult>): set<string> {
    set i | 0 <= i < |checks| :: checks[i].key
  }

  function DeclaredKeys(p: Policy): set<string> {
    set j | 0 <= j < |p.checks| :: p.checks[j].key
  }

  lemma {:induction false} DistinctCount<T>(xs: seq<T>, s: set<T>)
    requires forall i, j | 0 <= i < j < |xs| :: xs[i] != xs[j]
    requires forall x :: x in s <==> x in xs
    ensures |s| == |xs|
  {
    if xs == [] {
      assert s == {};
    } else {
      DistinctCount(xs[1..], s - {xs[0]});
    }
  }

  predicate LabelsAgree(checks: seq<CheckResult>, p: Policy) {
    forall i, j | 0 <= i < |checks| && 0 <= j < |p.checks| && checks[i].key == p.checks[j].key ::
      checks[i].checkLabel == p.checks[j].checkLabel
  }

  lemma CheckKeysCount(checks: seq<CheckResult>)
    requires DistinctKeys(checks)
    ensures |CheckKeys(checks)| == |checks|
  {
    var keys := seq(|checks|, i requires 0 <= i < |checks| => checks[i].key);
    assert forall i | 0 <= i < |keys| :: keys[i] == checks[i].key;
    DistinctCount(keys, CheckKeys(checks));
  }

  lemma DeclaredKeysCount(p: Policy)
    requires ValidPolicy(p)
    ensures |DeclaredKeys(p)| == |p.checks|
  {
    var keys := seq(|p.checks|, j requires 0 <= j < |p.checks| => p.checks[j].key);
    assert forall j | 0 <= j < |keys| :: keys[j] == p.checks[j].key;
    DistinctCount(keys, DeclaredKeys(p));
  }

  lemma PersistMatchKeys(checks: seq<CheckResult>, p: Policy)
    requires ValidPolicy(p) && PersistMatch(checks, p)
    ensures CheckKeys(checks) == DeclaredKeys(p)
  {
    CheckKeysCount(checks);
    DeclaredKeysCount(p);
    forall j | 0 <= j < |p.checks| ensures p.checks[j].key in CheckKeys(checks) {
      assert PersistedAs(checks, p.checks[j]);
    }
    SameSizeSubset(DeclaredKeys(p), CheckKeys(checks));
  }

  lemma PersistedAgrees(checks: seq<CheckResult>, p: Policy, i: nat, j: nat)
    requires DistinctKeys(checks) && i < |checks| && j < |p.checks| && checks[i].key == p.checks[j].key
    requires PersistedAs(checks, p.checks[j])
    ensures checks[i].checkLabel == p.checks[j].checkLabel && Declared(p, checks[i])
  {
  }

  lemma PersistMatchImpliesChecksMatch(checks: seq<CheckResult>, p: Policy)
    requires ValidPolicy(p) && PersistMatch(checks, p)
    ensures ChecksMatch(checks, p) && LabelsAgree(checks, p)
  {
    PersistMatchKeys(checks, p);
    forall i | 0 <= i < |checks| ensures Declared(p, checks[i]) {
      assert checks[i].key in DeclaredKeys(p);
      var j :| 0 <= j < |p.checks| && p.checks[j].key == checks[i].key;
      PersistedAgrees(checks, p, i, j);
    }
    forall i, j | 0 <= i < |checks| && 0 <= j < |p.checks| && checks[i].key == p.checks[j].key
      ensures checks[i].checkLabel == p.checks[j].checkLabel
    {
      PersistedAgrees(checks, p, i, j);
    }
    forall j | 0 <= j < |p.checks| ensures Reported(checks, p.checks[j]) {
      assert PersistedAs(checks, p.checks[j]);
    }
  }

  lemma MatchedKeys(checks: seq<CheckResult>, p: Policy)
    requires ChecksMatch(checks, p)
    ensures CheckKeys(checks) == DeclaredKeys(p)
  {
    forall i | 0 <= i < |checks| ensures checks[i].key in DeclaredKeys(p) {
      assert Declared(p, checks[i]);
    }
    forall j | 0 <= j < |p.checks| ensures p.checks[j].key in CheckKeys(checks) {
      assert Reported(checks, p.checks[j]);
    }
  }

  lemma ReportedIsPersisted(checks: seq<CheckResult>, p: Policy, j: nat)
    requires ValidPolicy(p) && ChecksMatch(checks, p) && LabelsAgree(checks, p) && j < |p.checks|
    ensures PersistedAs(checks, p.checks[j])
  {
    hide ValidPolicy, Declared, DistinctKeys;
    assert Reported(checks, p.checks[j]);
    var i :| 0 <= i < |checks| && checks[i].key == p.checks[j].key;
    DeclaredAgrees(p, checks[i], j);
  }

  lemma ChecksMatchImpliesPersistMatch(checks: seq<CheckResult>, p: Policy)
    requires ValidPolicy(p) && ChecksMatch(checks, p) && LabelsAgree(checks, p)
    ensures PersistMatch(checks, p)
  {
    hide PersistedAs, LabelsAgree, CheckKeys, DeclaredKeys, Declared, Reported, ValidPolicy;
    CheckKeysCount(checks);
    DeclaredKeysCount(p);
    MatchedKeys(checks, p);
    forall j | 0 <= j < |p.checks| ensures PersistedAs(checks, p.checks[j]) {
      ReportedIsPersisted(checks, p, j);
    }
  }

  /** The two matchers, one looking for unknown and missing keys and one counting, agree up to labels. */
  lemma MatchersAgree(checks: seq<CheckResult>, p: Policy)
    requires ValidPolicy(p)
    ensures PersistMatch(checks, p) <==> ChecksMatch(checks, p) && LabelsAgree(checks, p)
  {
    if PersistMatch(checks, p) {
      PersistMatchImpliesChecksMatch(checks, p);
    } else if ChecksMatch(checks, p) && LabelsAgree(checks, p) {
      ChecksMatchImpliesPersistMatch(checks, p);
    }
  }

  lemma SameSizeSubset<T>(a: set<T>, b: set<T>)
    requires a <= b && |a| == |b|
    ensures a == b
  {
    if a != b {
      var x :| x in b && x !in a;
      assert a <= b - {x};
      SubsetSize(a, b - {x});
    }
  }
}
