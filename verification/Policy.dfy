/** Publication policies and their binding to a run (internal/broker/policy.go:10-262,
    internal/broker/binding.go). */
module Policy {
  import opened Options
  import opened Text
  import opened Branch
  import opened CriteriaPin

  type Oid = string

  /** The admission paths; any other spec mode is unsupported. */
  datatype Mode = ResolveIssue | FixPr | Contribute | Unsupported

  /** A resolved publication policy; an empty Oid is an absent one. */
  datatype Policy = Policy(
    runUid: string, mode: Mode, provider: string,
    baseRepo: string, baseRef: string, baseOid: Oid,
    workRepo: string, workRef: string, workInitiallyAbsent: bool, workAnchorOid: Oid,
    prNumber: int, headAnchorOid: Oid,
    sourceIssue: SourceIssue, allowClosingLinkage: bool, criteria: CriterionSet)

  /** A criterion set is wholly unset, or a digest-carrying pin of the policy's issue. */
  predicate CoherentCriteria(p: Policy) {
    if p.criteria.IsPinned()
    then !p.criteria.issue.IsZero() && p.criteria.issue == p.sourceIssue
    else p.criteria.issue.IsZero() && p.criteria.criteria == []
  }

  predicate IssueOnBase(p: Policy) {
    p.sourceIssue.number > 0 && p.sourceIssue.Canonical() == p.baseRepo
  }

  /** validatePolicy. */
  predicate ValidPolicy(p: Policy) {
    && p.runUid != "" && p.provider != "" && p.baseRepo != "" && p.baseRef != "" && p.baseOid != ""
    && p.workRepo != "" && p.workRef != ""
    && !(p.baseRepo == p.workRepo && p.baseRef == p.workRef)
    && match p.mode
       case ResolveIssue =>
         && p.prNumber == 0 && p.headAnchorOid == "" && (p.workInitiallyAbsent || p.workAnchorOid != "")
         && !p.sourceIssue.IsZero() && IssueOnBase(p) && CoherentCriteria(p)
       case FixPr =>
         && p.prNumber > 0 && p.headAnchorOid != "" && !p.workInitiallyAbsent && p.workAnchorOid == p.headAnchorOid
         && !p.criteria.IsPinned() && p.criteria.issue.IsZero() && p.criteria.criteria == []
       case Contribute =>
         && p.prNumber == 0 && p.headAnchorOid == "" && p.workRepo != p.baseRepo
         && (p.workInitiallyAbsent <==> p.workAnchorOid == "")
         && (!p.sourceIssue.IsZero() ==> IssueOnBase(p))
         && (p.allowClosingLinkage ==> !p.sourceIssue.IsZero())
         && CoherentCriteria(p)
       case Unsupported => false
  }

  /** What validation establishes, fact by fact: the identities are complete and
      the work ref is not the base; a pull request and its head are pinned exactly in
      fix-pr; the anchor fits the mode; the trusted issue lies on the base repository
      and is there where the mode or the closing wording needs it; and criteria are
      wholly unset, or pinned on that issue outside fix-pr. */
  lemma {:induction false} ValidatesExactly(p: Policy)
    ensures ValidPolicy(p) <==>
            && "" !in {p.runUid, p.provider, p.baseRepo, p.baseRef, p.baseOid, p.workRepo, p.workRef}
            && (p.baseRepo, p.baseRef) != (p.workRepo, p.workRef) && p.mode != Unsupported
            && (if p.mode == FixPr then p.prNumber > 0 else p.prNumber == 0) && (p.headAnchorOid != "" <==> p.mode == FixPr)
            && (p.mode == FixPr ==> !p.workInitiallyAbsent && p.workAnchorOid == p.headAnchorOid)
            && (p.mode != FixPr && p.workAnchorOid == "" ==> p.workInitiallyAbsent)
            && (p.mode == Contribute ==> p.workRepo != p.baseRepo && (p.workInitiallyAbsent ==> p.workAnchorOid == ""))
            && (p.mode == ResolveIssue || (p.mode == Contribute && p.allowClosingLinkage) ==> p.sourceIssue != NO_ISSUE)
            && (p.mode != FixPr && p.sourceIssue != NO_ISSUE ==>
                  p.sourceIssue.number > 0 && p.sourceIssue.owner + "/" + p.sourceIssue.name == p.baseRepo
                  && p.sourceIssue.owner != "" && p.sourceIssue.name != "")
            && (if p.criteria.digest == "" then p.criteria == NO_SET
                else p.mode != FixPr && p.criteria.issue != NO_ISSUE && p.criteria.issue == p.sourceIssue)
  {
  }

  // ---- the run a policy is bound to ----

  datatype Spec = Spec(mode: Mode, repo: string, ref: int, workRepo: string, workItemId: string)

  datatype Run = Run(uid: string, spec: Spec, policy: Option<PublicationPolicy>)

  datatype BindError =
    | Unconfigured | NoPolicy | WrongRun | WrongProvider | UnsupportedMode | MalformedSpec | WrongBase | Incomplete
    | WrongDestination | WrongAnchors | InconsistentTip | NotARepository | WrongIssue | BadPin(pin: PinError) | WrongPr
    | UnexpectedPins | ForkIsBase | Invalid

  /** owner and name around the last separator. */
  function SplitTrimmed(v: string): Option<(string, string)> {
    var i := LastIndex(v, '/');
    if i <= 0 || i == |v| - 1 then None else Some((v[..i], v[i + 1..]))
  }

  function SplitOwnerRepo(value: string): Option<(string, string)> {
    SplitTrimmed(TrimSpace(value))
  }

  function FoldedName(parts: Option<(string, string)>): Option<string> {
    if parts.None? then None else Some(Lower(parts.value.0) + "/" + Lower(parts.value.1))
  }

  /** The case-folded identity under which two spellings name one repository. */
  function CanonicalRepoIdentity(value: string): Option<string> {
    FoldedName(SplitOwnerRepo(value))
  }

  predicate ConsistentTip(policy: PublicationPolicy) {
    policy.workInitiallyAbsent <==> policy.workOid == ""
  }

  function BasePolicy(policy: PublicationPolicy, mode: Mode): Policy {
    Policy(policy.runUid, mode, policy.providerConfigRef, policy.baseRepo, policy.baseRef, policy.baseOid,
           policy.workRepo, policy.workRef, policy.workInitiallyAbsent, policy.workOid,
           policy.prNumber, policy.headAnchorOid, NO_ISSUE, false, NO_SET)
  }

  predicate NoPins(policy: PublicationPolicy) {
    policy.sourceIssue.None? && policy.acceptanceCriteria == [] && policy.acceptanceCriteriaDigest == ""
  }

  /** The derived issue branch, the parts of the base repository and the persisted
      pins, against the persisted policy. */
  function BindIssue(ref: int, derived: string, parts: Option<(string, string)>, pins: Result<Option<CriterionSet>, PinError>,
                     persisted: PublicationPolicy): Result<Policy, BindError> {
    if derived == "" || persisted.workRepo != persisted.baseRepo || persisted.workRef != derived then Err(WrongDestination)
    else if persisted.prNumber != 0 || persisted.headAnchorOid != "" then Err(WrongAnchors)
    else if !ConsistentTip(persisted) then Err(InconsistentTip)
    else if parts.None? then Err(NotARepository)
    else
      var issue := SourceIssue(parts.value.0, parts.value.1, ref);
      if persisted.sourceIssue.Some? && persisted.sourceIssue.value != issue then Err(WrongIssue)
      else if pins.Err? then Err(BadPin(pins.error))
      else Ok(BasePolicy(persisted, ResolveIssue).(sourceIssue := issue, criteria := if pins.value.Some? then pins.value.value else NO_SET))
  }

  function BindResolveIssue(sha: Sha256, spec: Spec, persisted: PublicationPolicy): Result<Policy, BindError> {
    BindIssue(spec.ref, ResolveIssueBranch(persisted.baseRepo, spec.ref), SplitOwnerRepo(persisted.baseRepo),
              CriterionSetFromPolicy(sha, persisted), persisted)
  }

  function BindFixPr(spec: Spec, persisted: PublicationPolicy): Result<Policy, BindError> {
    if persisted.prNumber != spec.ref || persisted.headAnchorOid == "" then Err(WrongPr)
    else if persisted.workInitiallyAbsent || persisted.workOid == "" || persisted.workOid != persisted.headAnchorOid
    then Err(InconsistentTip)
    else if !NoPins(persisted) then Err(UnexpectedPins)
    else Ok(BasePolicy(persisted, FixPr))
  }

  /** The approved fork, the persisted fork and the base under their folded
      identities, and the derived goal branch, against the persisted policy. */
  function BindFork(approved: Option<string>, fork: Option<string>, base: Option<string>, derived: string,
                    persisted: PublicationPolicy): Result<Policy, BindError> {
    if approved.None? then Err(NotARepository)
    else if fork.None? || fork != approved then Err(WrongDestination)
    else if base.None? then Err(NotARepository)
    else if base == fork then Err(ForkIsBase)
    else if derived == "" || persisted.workRef != derived then Err(WrongDestination)
    else if persisted.prNumber != 0 || persisted.headAnchorOid != "" then Err(WrongAnchors)
    else if !NoPins(persisted) then Err(UnexpectedPins)
    else if !ConsistentTip(persisted) then Err(InconsistentTip)
    else Ok(BasePolicy(persisted, Contribute))
  }

  function BindContribute(sha: Sha256, spec: Spec, canonicalSpecRepo: string, persisted: PublicationPolicy): Result<Policy, BindError> {
    BindFork(CanonicalRepoIdentity(spec.workRepo), CanonicalRepoIdentity(persisted.workRepo),
             CanonicalRepoIdentity(canonicalSpecRepo), ResolveGoalBranch(sha, canonicalSpecRepo, spec.workItemId), persisted)
  }

  function Bind(sha: Sha256, spec: Spec, canonicalSpecRepo: string, persisted: PublicationPolicy): Result<Policy, BindError> {
    match spec.mode
    case ResolveIssue => BindResolveIssue(sha, spec, persisted)
    case FixPr => BindFixPr(spec, persisted)
    case Contribute => BindContribute(sha, spec, canonicalSpecRepo, persisted)
    case Unsupported => Err(UnsupportedMode)
  }

  predicate WellFormedSpec(spec: Spec) {
    spec.repo != ""
    && if spec.mode == Contribute
       then spec.ref == 0 && spec.workRepo != "" && TrimSpace(spec.workItemId) != ""
       else spec.ref >= 1
  }

  /** The checks around the binding, in the source's order. */
  function Admit(run: Run, persisted: PublicationPolicy, providerRef: string, canonicalSpecRepo: string,
                 wellFormed: bool, bound: Result<Policy, BindError>, valid: bool): Result<Policy, BindError> {
    if run.uid == "" || persisted.runUid != run.uid then Err(WrongRun)
    else if persisted.providerConfigRef != providerRef then Err(WrongProvider)
    else if run.spec.mode == Unsupported then Err(UnsupportedMode)
    else if !wellFormed then Err(MalformedSpec)
    else if persisted.baseRepo == "" || persisted.baseRepo != canonicalSpecRepo then Err(WrongBase)
    else if persisted.baseRef == "" || persisted.baseOid == "" || persisted.workRepo == "" || persisted.workRef == ""
    then Err(Incomplete)
    else if bound.Err? then bound
    else if valid then bound
    else Err(Invalid)
  }

  /** PolicyFromRun: the persisted policy, checked against the live run, the
      trusted provider and the immutable spec. */
  function PolicyFromRun(sha: Sha256, run: Run, providerRef: string, canonicalSpecRepo: string): Result<Policy, BindError> {
    if providerRef == "" || canonicalSpecRepo == "" then Err(Unconfigured)
    else if run.policy.None? then Err(NoPolicy)
    else
      var bound := Bind(sha, run.spec, canonicalSpecRepo, run.policy.value);
      Admit(run, run.policy.value, providerRef, canonicalSpecRepo, WellFormedSpec(run.spec), bound, bound.Ok? && ValidPolicy(bound.value))
  }

  // ---- what an accepted policy guarantees ----

  /** The tip at which admission found the work ref. */
  function Anchor(p: Policy): Oid {
    if p.mode == FixPr then p.headAnchorOid else p.workAnchorOid
  }

  /** The commit every publication must descend from. */
  function AdmissionRoot(p: Policy): Oid {
    if p.workInitiallyAbsent then p.baseOid else Anchor(p)
  }

  /** An anchor is recorded exactly when the work ref existed at admission. */
  predicate Anchored(p: Policy) {
    && (p.workInitiallyAbsent <==> Anchor(p) == "")
    && Anchor(p) == p.workAnchorOid && p.baseOid != ""
  }

  lemma {:induction false} AcceptedMeansBound(sha: Sha256, run: Run, providerRef: string, canonicalSpecRepo: string)
    requires PolicyFromRun(sha, run, providerRef, canonicalSpecRepo).Ok?
    ensures run.policy.Some?
    ensures var p := PolicyFromRun(sha, run, providerRef, canonicalSpecRepo).value;
            && Bind(sha, run.spec, canonicalSpecRepo, run.policy.value) == Ok(p)
            && ValidPolicy(p) && run.policy.value.baseRepo == canonicalSpecRepo
  {
    var bound := Bind(sha, run.spec, canonicalSpecRepo, run.policy.value);
    AdmittedMeansBound(run, run.policy.value, providerRef, canonicalSpecRepo, WellFormedSpec(run.spec), bound,
                       bound.Ok? && ValidPolicy(bound.value));
  }

  lemma {:induction false} AdmittedMeansBound(run: Run, persisted: PublicationPolicy, providerRef: string, canonicalSpecRepo: string,
                           wellFormed: bool, bound: Result<Policy, BindError>, valid: bool)
    requires Admit(run, persisted, providerRef, canonicalSpecRepo, wellFormed, bound, valid).Ok?
    ensures Admit(run, persisted, providerRef, canonicalSpecRepo, wellFormed, bound, valid) == bound
    ensures valid && persisted.baseRepo == canonicalSpecRepo
  {
  }

  lemma {:induction false} BoundToIssue(sha: Sha256, spec: Spec, persisted: PublicationPolicy)
    requires BindResolveIssue(sha, spec, persisted).Ok?
    ensures var p := BindResolveIssue(sha, spec, persisted).value;
            && p.mode == ResolveIssue && p.workRepo == p.baseRepo == persisted.baseRepo && p.baseOid == persisted.baseOid
            && p.workRef == ResolveIssueBranch(persisted.baseRepo, spec.ref) != ""
            && (p.workInitiallyAbsent <==> p.workAnchorOid == "")
  {
  }

  lemma {:induction false} BoundToPr(spec: Spec, persisted: PublicationPolicy)
    requires BindFixPr(spec, persisted).Ok?
    ensures var p := BindFixPr(spec, persisted).value;
            && p.mode == FixPr && p.baseOid == persisted.baseOid && p.prNumber == spec.ref
            && !p.workInitiallyAbsent && p.headAnchorOid == p.workAnchorOid != ""
  {
  }

  lemma {:induction false} ForkFacts(approved: Option<string>, fork: Option<string>, base: Option<string>, derived: string, persisted: PublicationPolicy)
    requires BindFork(approved, fork, base, derived, persisted).Ok?
    ensures var p := BindFork(approved, fork, base, derived, persisted).value;
            && p.mode == Contribute && p.baseRepo == persisted.baseRepo && p.baseOid == persisted.baseOid
            && p.workRepo == persisted.workRepo && p.workRef == derived != ""
            && fork == approved && fork.Some? && base.Some? && fork != base
            && (p.workInitiallyAbsent <==> p.workAnchorOid == "")
  {
  }

  lemma {:induction false} BoundToFork(sha: Sha256, spec: Spec, canonicalSpecRepo: string, persisted: PublicationPolicy)
    requires BindContribute(sha, spec, canonicalSpecRepo, persisted).Ok?
    ensures var p := BindContribute(sha, spec, canonicalSpecRepo, persisted).value;
            && p.mode == Contribute && p.baseRepo == persisted.baseRepo && p.baseOid == persisted.baseOid
            && p.workRef == ResolveGoalBranch(sha, canonicalSpecRepo, spec.workItemId) != ""
            && CanonicalRepoIdentity(p.workRepo) == CanonicalRepoIdentity(spec.workRepo)
            && CanonicalRepoIdentity(p.workRepo).Some? && CanonicalRepoIdentity(canonicalSpecRepo).Some?
            && CanonicalRepoIdentity(p.workRepo) != CanonicalRepoIdentity(canonicalSpecRepo)
            && (p.workInitiallyAbsent <==> p.workAnchorOid == "")
  {
    ForkFacts(CanonicalRepoIdentity(spec.workRepo), CanonicalRepoIdentity(persisted.workRepo),
              CanonicalRepoIdentity(canonicalSpecRepo), ResolveGoalBranch(sha, canonicalSpecRepo, spec.workItemId), persisted);
  }

  lemma {:induction false} AcceptedPolicyIsAnchored(sha: Sha256, run: Run, providerRef: string, canonicalSpecRepo: string)
    requires PolicyFromRun(sha, run, providerRef, canonicalSpecRepo).Ok?
    ensures var p := PolicyFromRun(sha, run, providerRef, canonicalSpecRepo).value;
            ValidPolicy(p) && Anchored(p) && AdmissionRoot(p) != ""
  {
    AcceptedMeansBound(sha, run, providerRef, canonicalSpecRepo);
    match run.spec.mode {
      case ResolveIssue => BoundToIssue(sha, run.spec, run.policy.value);
      case FixPr => BoundToPr(run.spec, run.policy.value);
      case Contribute => BoundToFork(sha, run.spec, canonicalSpecRepo, run.policy.value);
    }
  }

  // ---- exactly which persisted policies are accepted ----

  /** What every mode asks of the run, its persisted policy and the trusted
      configuration. */
  predicate IsOwnPolicy(run: Run, provider: string, repo: string) {
    && provider != "" && repo != "" && run.policy.Some? && run.uid != "" && run.spec.repo != ""
    && var q := run.policy.value;
       && q.runUid == run.uid && q.providerConfigRef == provider && q.baseRepo == repo
       && q.baseRef != "" && q.baseOid != "" && q.workRepo != "" && q.workRef != ""
  }

  /** The accepted policy is the persisted one, field by field. */
  predicate Carries(p: Policy, run: Run, q: PublicationPolicy) {
    && p.runUid == run.uid && p.mode == run.spec.mode && p.provider == q.providerConfigRef
    && p.baseRepo == q.baseRepo && p.baseRef == q.baseRef && p.baseOid == q.baseOid
    && p.workRepo == q.workRepo && p.workRef == q.workRef && p.workInitiallyAbsent == q.workInitiallyAbsent
    && p.workAnchorOid == q.workOid && p.prNumber == q.prNumber && p.headAnchorOid == q.headAnchorOid && !p.allowClosingLinkage
  }

  lemma {:induction false} AdmitExactly(run: Run, persisted: PublicationPolicy, provider: string, repo: string,
                     wellFormed: bool, bound: Result<Policy, BindError>, valid: bool)
    requires run.policy == Some(persisted) && provider != "" && repo != "" && (wellFormed ==> run.spec.repo != "")
    ensures Admit(run, persisted, provider, repo, wellFormed, bound, valid).Ok? <==>
            IsOwnPolicy(run, provider, repo) && run.spec.mode != Unsupported && wellFormed && bound.Ok? && valid
  {
  }

  /** The policy is accepted exactly when it is the run's own and the binding of its
      mode gives a valid policy; and then that is the answer. */
  lemma {:induction false} BindingDecides(sha: Sha256, run: Run, provider: string, repo: string)
    ensures var r := PolicyFromRun(sha, run, provider, repo);
            && (r.Ok? <==> && IsOwnPolicy(run, provider, repo) && run.spec.mode != Unsupported && WellFormedSpec(run.spec)
                           && var bound := Bind(sha, run.spec, repo, run.policy.value); bound.Ok? && ValidPolicy(bound.value))
            && (r.Ok? ==> r == Bind(sha, run.spec, repo, run.policy.value))
  {
    if provider != "" && repo != "" && run.policy.Some? {
      var bound := Bind(sha, run.spec, repo, run.policy.value);
      var valid := bound.Ok? && ValidPolicy(bound.value);
      AdmitExactly(run, run.policy.value, provider, repo, WellFormedSpec(run.spec), bound, valid);
      if PolicyFromRun(sha, run, provider, repo).Ok? {
        AdmittedMeansBound(run, run.policy.value, provider, repo, WellFormedSpec(run.spec), bound, valid);
      }
    }
  }

  /** A fix-pr run: the pinned pull request is the one the spec names, its head
      anchor is the work tip, nothing else is pinned, and the work ref is not the base. */
  lemma {:induction false} FixPrBindsExactly(sha: Sha256, run: Run, provider: string, repo: string)
    requires run.spec.mode == FixPr
    ensures PolicyFromRun(sha, run, provider, repo).Ok? <==>
            && IsOwnPolicy(run, provider, repo) && run.spec.ref >= 1
            && var q := run.policy.value;
               && q.prNumber == run.spec.ref && q.headAnchorOid != "" && q.workOid == q.headAnchorOid && !q.workInitiallyAbsent
               && q.sourceIssue.None? && q.acceptanceCriteria == [] && q.acceptanceCriteriaDigest == ""
               && (q.workRepo != repo || q.workRef != q.baseRef)
    ensures PolicyFromRun(sha, run, provider, repo).Ok? ==>
            var p := PolicyFromRun(sha, run, provider, repo).value;
            Carries(p, run, run.policy.value) && p.sourceIssue == NO_ISSUE && p.criteria == NO_SET
  {
    BindingDecides(sha, run, provider, repo);
  }

  /** The persisted policy of a contribution fits: its fork is the approved one and
      not the base, its ref the derived branch, and it pins nothing. */
  predicate FitsFork(approved: Option<string>, fork: Option<string>, base: Option<string>, derived: string, q: PublicationPolicy) {
    && fork.Some? && fork == approved && base.Some? && fork != base && q.workRef == derived
    && q.prNumber == 0 && q.headAnchorOid == "" && (q.workInitiallyAbsent <==> q.workOid == "")
    && q.sourceIssue.None? && q.acceptanceCriteria == [] && q.acceptanceCriteriaDigest == ""
  }

  /** A contribution is accepted exactly when its destination is the approved fork,
      under any casing, on the branch derived from the work item. */
  lemma {:induction false} ContributeBindsExactly(sha: Sha256, run: Run, provider: string, repo: string)
    requires run.spec.mode == Contribute
    ensures PolicyFromRun(sha, run, provider, repo).Ok? <==>
            && IsOwnPolicy(run, provider, repo) && run.spec.ref == 0 && run.spec.workRepo != "" && TrimSpace(run.spec.workItemId) != ""
            && FitsFork(CanonicalRepoIdentity(run.spec.workRepo), CanonicalRepoIdentity(run.policy.value.workRepo),
                        CanonicalRepoIdentity(repo), ResolveGoalBranch(sha, repo, run.spec.workItemId), run.policy.value)
    ensures PolicyFromRun(sha, run, provider, repo).Ok? ==>
            var p := PolicyFromRun(sha, run, provider, repo).value;
            Carries(p, run, run.policy.value) && p.sourceIssue == NO_ISSUE && p.criteria == NO_SET
  {
    BindingDecides(sha, run, provider, repo);
    if IsOwnPolicy(run, provider, repo) {
      var q := run.policy.value;
      var fork, base := CanonicalRepoIdentity(q.workRepo), CanonicalRepoIdentity(repo);
      assert fork != base ==> q.workRepo != repo;
      ValidForkExactly(CanonicalRepoIdentity(run.spec.workRepo), fork, base, ResolveGoalBranch(sha, repo, run.spec.workItemId), q);
    }
  }

  lemma {:induction false} ValidForkExactly(approved: Option<string>, fork: Option<string>, base: Option<string>, derived: string, q: PublicationPolicy)
    requires q.runUid != "" && q.providerConfigRef != "" && q.baseRepo != "" && q.baseRef != "" && q.baseOid != ""
    requires q.workRepo != "" && q.workRef != "" && (fork != base ==> q.workRepo != q.baseRepo)
    ensures var bound := BindFork(approved, fork, base, derived, q);
            && (bound.Ok? && ValidPolicy(bound.value) <==> FitsFork(approved, fork, base, derived, q))
            && (bound.Ok? ==> bound.value == BasePolicy(q, Contribute))
  {
  }

  /** The persisted policy of an issue run fits: it stays on the base repository, on
      the derived branch and off the base ref; its issue is the spec's; and its pins
      are intact or wholly absent. */
  predicate FitsIssue(
    ref: int, derived: string, parts: Option<(string, string)>, pins: Result<Option<CriterionSet>, PinError>, q: PublicationPolicy) {
    && q.workRepo == q.baseRepo && q.workRef == derived && q.workRef != q.baseRef
    && q.prNumber == 0 && q.headAnchorOid == "" && (q.workInitiallyAbsent <==> q.workOid == "")
    && parts.Some? && parts.value.0 != "" && parts.value.1 != "" && parts.value.0 + "/" + parts.value.1 == q.baseRepo
    && (q.sourceIssue.Some? ==> q.sourceIssue.value == SourceIssue(parts.value.0, parts.value.1, ref)) && pins.Ok?
  }

  /** An issue run is accepted exactly then, and publishes for the issue that the
      immutable spec names, against the pinned criteria. */
  lemma {:induction false} IssueBindsExactly(sha: Sha256, run: Run, provider: string, repo: string)
    requires run.spec.mode == ResolveIssue
    ensures PolicyFromRun(sha, run, provider, repo).Ok? <==>
            && IsOwnPolicy(run, provider, repo) && run.spec.ref >= 1
            && FitsIssue(run.spec.ref, ResolveIssueBranch(repo, run.spec.ref), SplitOwnerRepo(repo),
                         CriterionSetFromPolicy(sha, run.policy.value), run.policy.value)
    ensures PolicyFromRun(sha, run, provider, repo).Ok? ==>
            var p := PolicyFromRun(sha, run, provider, repo).value;
            Carries(p, run, run.policy.value) && IsForIssue(p, run.spec.ref, SplitOwnerRepo(repo), CriterionSetFromPolicy(sha, run.policy.value))
  {
    BindingDecides(sha, run, provider, repo);
    if IsOwnPolicy(run, provider, repo) && run.spec.ref >= 1 {
      var q := run.policy.value;
      PinsAreCoherent(sha, q);
      ValidIssueExactly(run.spec.ref, ResolveIssueBranch(repo, run.spec.ref), SplitOwnerRepo(repo), CriterionSetFromPolicy(sha, q), q);
    }
  }

  predicate IsForIssue(p: Policy, ref: int, parts: Option<(string, string)>, pins: Result<Option<CriterionSet>, PinError>) {
    && parts.Some? && p.sourceIssue == SourceIssue(parts.value.0, parts.value.1, ref)
    && pins.Ok? && p.criteria == if pins.value.Some? then pins.value.value else NO_SET
  }

  lemma {:induction false} PinsAreCoherent(sha: Sha256, q: PublicationPolicy)
    ensures AreCoherent(CriterionSetFromPolicy(sha, q), q)
  {
  }

  predicate AreCoherent(pins: Result<Option<CriterionSet>, PinError>, q: PublicationPolicy) {
    pins.Ok? && pins.value.Some? ==> pins.value.value.digest != "" && q.sourceIssue == Some(pins.value.value.issue)
  }

  lemma {:induction false} ValidIssueExactly(
    ref: int, derived: string, parts: Option<(string, string)>, pins: Result<Option<CriterionSet>, PinError>, q: PublicationPolicy)
    requires AreCoherent(pins, q) && q.runUid != "" && q.providerConfigRef != "" && q.baseRepo != ""
    requires q.baseRef != "" && q.baseOid != "" && q.workRef != "" && ref >= 1
    ensures var bound := BindIssue(ref, derived, parts, pins, q);
            && (bound.Ok? && ValidPolicy(bound.value) <==> FitsIssue(ref, derived, parts, pins, q))
            && (bound.Ok? ==> IsForIssue(bound.value, ref, parts, pins) && bound.value.(sourceIssue := NO_ISSUE, criteria := NO_SET) == BasePolicy(q, ResolveIssue))
  {
  }

  /** The gap the binding closes: validation alone admits an issue policy that is
      initially absent and yet carries an anchor. */
  lemma {:induction false} ValidationAloneDoesNotAnchor()
    ensures exists p: Policy :: ValidPolicy(p) && !Anchored(p)
  {
    var p := Policy("u", ResolveIssue, "github", "o/r", "main", "b", "o/r", "work", true, "a", 0, "",
                    SourceIssue("o", "r", 1), false, NO_SET);
    assert p.sourceIssue.Canonical() == "o/r";
    assert ValidPolicy(p) && !Anchored(p);
  }

  /** Destination determinism: the immutable spec alone decides where a
      resolve-issue or contribute run may push. Any two persisted policies
      accepted for it agree on the work ref, and on the work repository up to
      letter case. */
  lemma {:induction false} DestinationIsDetermined(sha: Sha256, r: Run, r': Run, provider: string, provider': string, canonicalSpecRepo: string)
    requires r.spec == r'.spec && (r.spec.mode == ResolveIssue || r.spec.mode == Contribute)
    requires PolicyFromRun(sha, r, provider, canonicalSpecRepo).Ok? && PolicyFromRun(sha, r', provider', canonicalSpecRepo).Ok?
    ensures var p, p' := PolicyFromRun(sha, r, provider, canonicalSpecRepo).value, PolicyFromRun(sha, r', provider', canonicalSpecRepo).value;
            && p.workRef == p'.workRef
            && CanonicalRepoIdentity(p.workRepo) == CanonicalRepoIdentity(p'.workRepo)
            && (r.spec.mode == ResolveIssue ==> p.workRepo == p'.workRepo == canonicalSpecRepo)
  {
    AcceptedMeansBound(sha, r, provider, canonicalSpecRepo);
    AcceptedMeansBound(sha, r', provider', canonicalSpecRepo);
    if r.spec.mode == ResolveIssue {
      BoundToIssue(sha, r.spec, r.policy.value);
      BoundToIssue(sha, r.spec, r'.policy.value);
    } else {
      BoundToFork(sha, r.spec, canonicalSpecRepo, r.policy.value);
      BoundToFork(sha, r.spec, canonicalSpecRepo, r'.policy.value);
    }
  }

  /** A contribution never makes the base writable, whatever the casing. */
  lemma {:induction false} ContributionIsNotBase(sha: Sha256, run: Run, provider: string, canonicalSpecRepo: string)
    requires run.spec.mode == Contribute && PolicyFromRun(sha, run, provider, canonicalSpecRepo).Ok?
    ensures var p := PolicyFromRun(sha, run, provider, canonicalSpecRepo).value;
            && CanonicalRepoIdentity(p.workRepo).Some? && CanonicalRepoIdentity(p.baseRepo).Some?
            && CanonicalRepoIdentity(p.workRepo) != CanonicalRepoIdentity(p.baseRepo)
            && !EqualFold(p.workRepo, p.baseRepo)
  {
    var p := PolicyFromRun(sha, run, provider, canonicalSpecRepo).value;
    AcceptedMeansBound(sha, run, provider, canonicalSpecRepo);
    BoundToFork(sha, run.spec, canonicalSpecRepo, run.policy.value);
    if EqualFold(p.workRepo, p.baseRepo) {
      SameFoldSameIdentity(p.workRepo, p.baseRepo);
    }
  }

  lemma {:induction false} FoldKeepsSpace(s: string, t: string, k: nat)
    requires Lower(s) == Lower(t) && k < |s|
    ensures k < |t| && IsSpace(s[k]) == IsSpace(t[k]) && (s[k] == '/' <==> t[k] == '/')
  {
    assert |t| == |Lower(t)| == |s|;
    assert LowerChar(s[k]) == Lower(s)[k] == LowerChar(t[k]);
  }

  lemma {:induction false} FoldKeepsSlices(s: string, t: string, i: nat, j: nat)
    requires Lower(s) == Lower(t) && i <= j <= |s|
    ensures |s| == |t| && Lower(s[i..j]) == Lower(t[i..j])
  {
    assert |t| == |Lower(t)| == |s|;
    assert Lower(s[i..j]) == Lower(s)[i..j];
    assert Lower(t[i..j]) == Lower(t)[i..j];
  }

  /** How many leading (trailing) blanks there are does not depend on letter case. */
  lemma {:induction false} FoldKeepsTrimLeft(s: string, t: string)
    requires Lower(s) == Lower(t)
    ensures Lower(TrimLeft(s)) == Lower(TrimLeft(t))
    decreases |s|
  {
    FoldKeepsSlices(s, t, 0, |s|);
    if s != "" {
      FoldKeepsSpace(s, t, 0);
      FoldKeepsSlices(s, t, 1, |s|);
      assert s[1..|s|] == s[1..] && t[1..|s|] == t[1..];
      FoldKeepsTrimLeft(s[1..], t[1..]);
    }
  }

  lemma {:induction false} FoldKeepsTrimRight(s: string, t: string)
    requires Lower(s) == Lower(t)
    ensures Lower(TrimRight(s)) == Lower(TrimRight(t))
    decreases |s|
  {
    FoldKeepsSlices(s, t, 0, |s|);
    if s != "" {
      var n := |s| - 1;
      FoldKeepsSpace(s, t, n);
      FoldKeepsSlices(s, t, 0, n);
      assert s[0..n] == s[..n] && t[0..n] == t[..n];
      FoldKeepsTrimRight(s[..n], t[..n]);
    }
  }

  lemma {:induction false} FoldKeepsLastIndex(s: string, t: string)
    requires Lower(s) == Lower(t)
    ensures LastIndex(s, '/') == LastIndex(t, '/')
  {
    FoldKeepsSlices(s, t, 0, |s|);
    forall k | 0 <= k < |s|
      ensures s[k] == '/' <==> t[k] == '/'
    {
      FoldKeepsSpace(s, t, k);
    }
  }

  /** A repository is named by an owner and a name around the last slash, blanks at
      the ends aside; anything else names none. */
  lemma {:induction false} RepositoryNames(value: string)
    ensures SplitOwnerRepo(value).None? <==>
            forall i | 0 <= i < |TrimSpace(value)| && TrimSpace(value)[i] == '/' ::
              i == 0 || i == |TrimSpace(value)| - 1 || exists j | i < j < |TrimSpace(value)| :: TrimSpace(value)[j] == '/'
    ensures SplitOwnerRepo(value).Some? ==>
            var (owner, name) := SplitOwnerRepo(value).value;
            && owner != "" && name != "" && '/' !in name && owner + "/" + name == TrimSpace(value)
            && CanonicalRepoIdentity(value) == Some(Lower(owner) + "/" + Lower(name))
  {
    NamesAround(TrimSpace(value));
  }

  lemma {:induction false} NamesAround(v: string)
    ensures SplitTrimmed(v).None? <==>
            forall i | 0 <= i < |v| && v[i] == '/' :: i == 0 || i == |v| - 1 || exists j | i < j < |v| :: v[j] == '/'
    ensures SplitTrimmed(v).Some? ==>
            var (owner, name) := SplitTrimmed(v).value; owner != "" && name != "" && '/' !in name && owner + "/" + name == v
  {
    var i := LastIndex(v, '/');
    if i >= 0 {
      assert v == v[..i] + "/" + v[i + 1..];
    }
  }

  /** Spellings that differ only in letter case have one canonical identity. */
  lemma {:induction false} SameFoldSameIdentity(s: string, t: string)
    requires EqualFold(s, t)
    ensures CanonicalRepoIdentity(s) == CanonicalRepoIdentity(t)
  {
    FoldKeepsTrimLeft(s, t);
    FoldKeepsTrimRight(TrimLeft(s), TrimLeft(t));
    SplitFolds(TrimSpace(s), TrimSpace(t));
  }

  lemma {:induction false} SplitFolds(v: string, w: string)
    requires Lower(v) == Lower(w)
    ensures FoldedName(SplitTrimmed(v)) == FoldedName(SplitTrimmed(w))
  {
    FoldKeepsSlices(v, w, 0, |v|);
    FoldKeepsLastIndex(v, w);
    var i := LastIndex(v, '/');
    if i > 0 && i != |v| - 1 {
      FoldKeepsSlices(v, w, 0, i);
      FoldKeepsSlices(v, w, i + 1, |v|);
      assert v[0..i] == v[..i] && w[0..i] == w[..i];
      assert v[i + 1..|v|] == v[i + 1..] && w[i + 1..|v|] == w[i + 1..];
    }
  }
}
