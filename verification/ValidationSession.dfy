/** The validation session: its record, its events and one transition. */
module ValidationSession {
  import opened Options
  import opened Approvals
  import EventChain

  datatype Mode = Live | Cached | Mock

  datatype RunKind = Single | Tournament

  datatype State =
    | Idle | IngestingRepository | AnalyzingIncident | GeneratingCandidates | ProvisioningSandboxes
    | Building | RunningTests | Scoring | Selecting | AwaitingHumanApproval
    | CreatingPullRequest | AwaitingCodeRabbit | ReviewBlocked | ReviewPassed
    | RepairingReviewFindings | Revalidating | ReadyToMerge | Completed | Failed | CancelledByHuman

  datatype Purpose = InitialCandidate | ProfileReplacement | ReviewRepair

  datatype Disposition = Finished | FailedDestroyed | FailedRetained | CleanupFailed

  /** One Daytona response as reported. */
  datatype Response = Response(
    candidateId: string, sandboxId: string, runId: string, purpose: Purpose, capturedAt: string,
    disposition: Disposition, retryable: bool)

  /** One Daytona response as recorded. */
  datatype Attempt = Attempt(response: Response, reserved: bool, duplicateSandbox: bool, duplicateRun: bool)

  datatype PullRequestStatus = Open | Closed | Merged

  datatype PullRequest = PullRequest(
    sessionId: string, candidateId: string, owner: string, repository: string, number: int, url: string,
    headSha: string, headTreeSha: string, baseBranch: string, baseSha: string, status: PullRequestStatus)

  datatype Reviewer = CodeRabbit | ManualVerified

  datatype SourceKind = LiveApi | ManualAttestation

  datatype Severity = Info | Low | Medium | High | Critical

  datatype Finding = Finding(
    sessionId: string, provider: Reviewer, sourceVersion: string, reviewUrl: string, severity: Severity, resolved: bool)

  datatype ReviewReceipt = ReviewReceipt(
    provider: Reviewer, sourceKind: SourceKind, passed: bool, pullNumber: int, headSha: string,
    expectedBaseRef: string, expectedBaseSha: string, observedBaseRef: string, observedBaseSha: string,
    reviewUrl: string, evidenceIds: seq<string>, capturedAt: string, attestedBy: Option<string>)

  datatype ReceiptPurpose = InitialSelection | RepairOfReview

  datatype Gates = Gates(build: bool, unitTests: bool, safetyTests: bool, integrity: bool, scored: bool, eligible: bool)

  datatype Receipt = Receipt(
    purpose: ReceiptPurpose, sessionId: string, policyVersion: string, candidateId: string, patchDigest: string,
    commitSha: string, validatedTreeSha: string, target: Target, evidenceDigest: string, attestationDigest: string,
    sandboxId: string, daytonaRunId: string, daytonaEvidenceRef: string, braintrustExperimentRef: string, gates: Gates)

  /** A stated reason, or one of the two fixed ones: a response reused an identity, or the
      deletion of a sandbox was not confirmed. */
  datatype Reason = Stated(text: string) | IdentityReused | DeletionUnconfirmed

  datatype Failure = Failure(reason: Reason, recoverable: bool, retryAction: Option<string>, failedFrom: State)

  datatype Session = Session(
    sessionId: string,
    updatedAt: string,
    mode: Mode,
    runKind: RunKind,
    state: State,
    policyVersion: string,
    baseCommit: string,
    target: Option<Target>,
    candidateIds: seq<string>,
    sandboxes: map<string, string>,
    history: seq<Attempt>,
    selected: Option<string>,
    patchDigest: Option<string>,
    evidenceDigest: Option<string>,
    commit: Option<string>,
    tree: Option<string>,
    approval: Option<Approval>,
    pullRequest: Option<PullRequest>,
    findings: seq<Finding>,
    review: Option<ReviewReceipt>,
    revalidation: Option<Receipt>,
    revalidationSandboxes: seq<string>,
    round: nat,
    failure: Option<Failure>)

  datatype Event =
    | Start
    | RepositoryIngested
    | IncidentAnalyzed
    | CandidatesGenerated(candidateIds: seq<string>)
    | AttemptRecorded(response: Response)
    | SandboxesProvisioned(sandboxes: map<string, string>)
    | BuildsFinished
    | TestsFinished
    | ScoringFinished
    | CandidateSelected(candidateId: string, patchDigest: string, evidenceDigest: string, commitSha: string,
                        receipt: Option<Receipt>)
    | ApprovalRecorded(approval: Approval)
    | PrCreationRequested
    | PrCreatedOrUpdated(pullRequest: PullRequest)
    | ReviewFindingsReceived(findings: seq<Finding>, review: ReviewReceipt)
    | RepairStarted
    | RepairGenerated(candidateId: string, patchDigest: string)
    | RevalidationPassed(revalidated: Receipt)
    | MarkReadyToMerge
    | Complete
    | Fail(reason: Reason, recoverable: bool, retryAction: Option<string>)
    | Cancel

  /** The text checks the session relies on: case folding, patterns, URLs, time stamps
      and digests (`isStructurallyValid` stands for the receipt checks not written out). Nothing is supposed of them. */
  datatype Env = Env(
    digests: Digests,
    lower: string -> string,
    isIdentifier: string -> bool,
    isGitId: string -> bool,
    isSha256: string -> bool,
    isTime: string -> bool,
    isCanonicalPullRequest: PullRequest -> bool,
    isReviewUrl: (string, string) -> bool,
    isEvidenceUrl: (string, string) -> bool,
    isStructurallyValid: Receipt -> bool,
    referencesValid: Receipt -> bool,
    attestation: Receipt -> string)

  predicate Same(env: Env, a: string, b: string) { env.lower(a) == env.lower(b) }

  predicate Distinct(xs: seq<string>) { forall i, j :: 0 <= i < j < |xs| ==> xs[i] != xs[j] }

  // ----- creation

  /** A session as it starts, over the attempts an earlier start of the same session
      left behind (none for a session that is new). */
  function NewSession(
    sessionId: string, mode: Mode, runKind: RunKind, policyVersion: string, baseCommit: string, target: Option<Target>,
    prior: seq<Attempt>, at: string): Session
  {
    Session(sessionId, at, mode, runKind, Idle, policyVersion, baseCommit, target, [], map[], prior, None, None, None,
            Some(baseCommit), None, None, None, [], None, None, [], 0, None)
  }

  // ----- gates

  function CurrentBinding(s: Session): Option<Binding> {
    if s.selected.None? || s.patchDigest.None? || s.evidenceDigest.None? || s.commit.None? then None
    else Some(Binding(s.selected.value, s.patchDigest.value, s.evidenceDigest.value, s.policyVersion, s.commit.value,
                      s.target))
  }

  /** The approval on record is valid for what the session currently binds. */
  predicate ApprovedNow(env: Env, s: Session) {
    CurrentBinding(s).Some? && IsApprovalValid(env.digests, s.approval, CurrentBinding(s).value)
  }

  predicate CleanAttempt(a: Attempt) {
    && a.reserved && !a.duplicateSandbox && !a.duplicateRun
    && (a.response.disposition == Finished || (a.response.disposition == FailedDestroyed && a.response.retryable))
  }

  predicate HasCleanLiveHistory(s: Session) {
    s.mode == Live ==> s.history != [] && forall i :: 0 <= i < |s.history| ==> CleanAttempt(s.history[i])
  }

  predicate CanCreateOrUpdatePullRequest(env: Env, s: Session) {
    s.state == AwaitingHumanApproval && s.target.Some? && HasCleanLiveHistory(s) && ApprovedNow(env, s)
  }

  predicate IsBlocking(f: Finding) { !f.resolved && (f.severity == Critical || f.severity == High) }

  predicate GatePassed(findings: seq<Finding>) { forall i :: 0 <= i < |findings| ==> !IsBlocking(findings[i]) }

  /** The receipt names the pull request, its head and its base. */
  predicate ReviewsHead(env: Env, r: ReviewReceipt, pr: PullRequest) {
    && r.pullNumber == pr.number
    && Same(env, r.headSha, pr.headSha)
    && r.expectedBaseRef == pr.baseBranch && r.observedBaseRef == pr.baseBranch
    && Same(env, r.expectedBaseSha, pr.baseSha) && Same(env, r.observedBaseSha, pr.baseSha)
  }

  predicate HeadMatches(env: Env, s: Session, pr: PullRequest) {
    && s.commit.Some? && Same(env, pr.headSha, s.commit.value)
    && (s.tree.Some? ==> Same(env, pr.headTreeSha, s.tree.value))
  }

  predicate CanEnterReadyToMerge(env: Env, s: Session) {
    && s.state == ReviewPassed
    && GatePassed(s.findings)
    && s.pullRequest.Some? && s.review.Some? && s.review.value.passed
    && ReviewsHead(env, s.review.value, s.pullRequest.value)
    && ApprovedNow(env, s)
    && s.pullRequest.value.status == Open
    && HeadMatches(env, s, s.pullRequest.value)
    && HasCleanLiveHistory(s)
  }

  // ----- guards of the receipts

  function SandboxIds(history: seq<Attempt>): (ids: seq<string>)
    ensures |ids| == |history| && forall i :: 0 <= i < |ids| ==> ids[i] == history[i].response.sandboxId
  {
    seq(|history|, i requires 0 <= i < |history| => history[i].response.sandboxId)
  }

  function RunIds(history: seq<Attempt>): (ids: seq<string>)
    ensures |ids| == |history| && forall i :: 0 <= i < |ids| ==> ids[i] == history[i].response.runId
  {
    seq(|history|, i requires 0 <= i < |history| => history[i].response.runId)
  }

  predicate Unmarked(a: Attempt) { a.reserved && !a.duplicateSandbox && !a.duplicateRun }

  predicate AllUnmarked(history: seq<Attempt>) { forall i :: 0 <= i < |history| ==> Unmarked(history[i]) }

  predicate Matches(a: Attempt, r: Receipt) {
    && a.reserved && a.response.disposition == Finished
    && (if r.purpose == RepairOfReview then a.response.purpose == ReviewRepair else a.response.purpose != ReviewRepair)
    && a.response.candidateId == r.candidateId
    && a.response.sandboxId == r.sandboxId
    && a.response.runId == r.daytonaRunId
  }

  function CountMatches(history: seq<Attempt>, r: Receipt): nat {
    if history == [] then 0
    else CountMatches(history[..|history| - 1], r) + if Matches(history[|history| - 1], r) then 1 else 0
  }

  predicate HasUniqueReservedAttempt(history: seq<Attempt>, r: Receipt) {
    && history != [] && AllUnmarked(history) && Distinct(SandboxIds(history)) && Distinct(RunIds(history))
    && CountMatches(history, r) == 1
  }

  predicate EveryGatePassed(g: Gates) {
    g.build && g.unitTests && g.safetyTests && g.integrity && g.scored && g.eligible
  }

  predicate SourceIsConsistent(env: Env, r: ReviewReceipt) {
    || (r.provider == CodeRabbit && r.sourceKind == LiveApi)
    || (r.provider == ManualVerified && r.sourceKind == ManualAttestation
         && (r.attestedBy.Some? ==> EventChain.Filled(r.attestedBy.value)))
  }

  predicate FindingIsBound(env: Env, s: Session, r: ReviewReceipt, url: string, f: Finding) {
    && f.sessionId == s.sessionId && f.provider == r.provider && Same(env, f.sourceVersion, r.headSha)
    && (if r.provider == ManualVerified then env.isReviewUrl(f.reviewUrl, url) else env.isEvidenceUrl(f.reviewUrl, url))
  }

  predicate ReviewAccepted(env: Env, s: Session, r: ReviewReceipt, findings: seq<Finding>) {
    && s.pullRequest.Some? && ReviewsHead(env, r, s.pullRequest.value)
    && env.isGitId(r.headSha) && env.isGitId(r.expectedBaseSha) && env.isGitId(r.observedBaseSha)
    && env.isReviewUrl(r.reviewUrl, s.pullRequest.value.url)
    && env.isTime(r.capturedAt)
    && r.evidenceIds != [] && Distinct(r.evidenceIds)
    && (forall i :: 0 <= i < |r.evidenceIds| ==> EventChain.Filled(r.evidenceIds[i]))
    && SourceIsConsistent(env, r)
    && (forall i :: 0 <= i < |findings| ==> FindingIsBound(env, s, r, s.pullRequest.value.url, findings[i]))
    && (r.passed <==> GatePassed(findings))
  }

  /** Sandboxes that already served the session's selection or a repair round. */
  function UsedSandboxes(s: Session): set<string> { s.sandboxes.Values + set x | x in s.revalidationSandboxes }

  predicate RevalidationAccepted(env: Env, s: Session, r: Receipt) {
    && s.mode == Live && r.purpose == RepairOfReview
    && Some(r.candidateId) == s.selected && r.sessionId == s.sessionId && r.policyVersion == s.policyVersion
    && Some(r.target) == s.target
    && Some(r.patchDigest) == s.patchDigest && Some(r.evidenceDigest) != s.evidenceDigest
    && EventChain.Filled(r.candidateId) && env.isStructurallyValid(r)
    && env.isGitId(r.commitSha) && env.isGitId(r.validatedTreeSha) && env.isSha256(r.evidenceDigest)
    && env.isSha256(r.attestationDigest)
    && env.attestation(r.(attestationDigest := "")) == r.attestationDigest
    && HasUniqueReservedAttempt(s.history, r)
    && env.referencesValid(r)
    && r.sandboxId !in UsedSandboxes(s)
    && (s.pullRequest.Some? ==> !Same(env, r.commitSha, s.pullRequest.value.headSha))
    && EveryGatePassed(r.gates)
  }

  predicate InitialReceiptAccepted(
      env: Env, s: Session, candidateId: string, patch: string, evidence: string, commit: string, r: Receipt)
  {
    && r.purpose == InitialSelection && r.sessionId == s.sessionId && r.policyVersion == s.policyVersion
    && r.candidateId == candidateId && r.patchDigest == patch && r.evidenceDigest == evidence
    && Same(env, r.commitSha, commit) && !Same(env, r.commitSha, s.baseCommit)
    && Some(r.target) == s.target
    && candidateId in s.sandboxes && r.sandboxId == s.sandboxes[candidateId]
    && HasUniqueReservedAttempt(s.history, r)
    && r.sandboxId !in s.revalidationSandboxes
    && EventChain.Filled(r.candidateId) && env.isStructurallyValid(r)
    && env.attestation(r.(attestationDigest := "")) == r.attestationDigest
    && EveryGatePassed(r.gates)
  }

  // ----- guards of single events

  /** The stage a session is in, or failed in. */
  function Stage(s: Session): State {
    if s.state.Failed? && s.failure.Some? then s.failure.value.failedFrom else s.state
  }

  /** A failed session still takes the responses of the stage it failed in. */
  predicate StageAllows(s: Session, purpose: Purpose) {
    match purpose
    case ReviewRepair => Stage(s).RepairingReviewFindings? || Stage(s).Revalidating?
    case _ => Stage(s).ProvisioningSandboxes?
  }

  predicate ResponseAccepted(env: Env, s: Session, r: Response) {
    && s.mode == Live && StageAllows(s, r.purpose) && r.candidateId in s.candidateIds
    && env.isIdentifier(r.sandboxId) && env.isIdentifier(r.runId) && env.isTime(r.capturedAt)
    && (r.disposition == FailedDestroyed || !r.retryable)
  }

  /** The attempt as recorded, marked against the attempts before it. */
  function Marked(history: seq<Attempt>, r: Response): Attempt {
    var duplicateSandbox := r.sandboxId in SandboxIds(history);
    var duplicateRun := r.runId in RunIds(history);
    Attempt(r, !duplicateSandbox && !duplicateRun, duplicateSandbox, duplicateRun)
  }

  predicate Reported(s: Session, candidateId: string, sandboxId: string) {
    exists i :: 0 <= i < |s.history| && s.history[i].response.candidateId == candidateId
      && s.history[i].response.sandboxId == sandboxId && s.history[i].response.purpose != ReviewRepair
  }

  predicate SandboxesAccepted(env: Env, s: Session, sandboxes: map<string, string>) {
    && multiset(s.candidateIds) == multiset(sandboxes.Keys)
    && |sandboxes.Values| == |sandboxes|
    && (forall c :: c in sandboxes ==> EventChain.Filled(sandboxes[c]))
    && (s.mode == Live ==> forall c :: c in sandboxes ==> Reported(s, c, sandboxes[c]))
  }

  predicate PullRequestAccepted(env: Env, s: Session, pr: PullRequest) {
    && pr.sessionId == s.sessionId && Some(pr.candidateId) == s.selected && pr.status == Open
    && env.isCanonicalPullRequest(pr)
    && s.target == Some(Target(pr.owner, pr.repository, pr.baseBranch))
    && Same(env, pr.baseSha, s.baseCommit)
    && ApprovedNow(env, s)
    && HeadMatches(env, s, pr)
  }

  /** The binding an approval is checked against once a repair names its patch. */
  function RepairBinding(s: Session, candidateId: string, patch: string): Binding {
    Binding(candidateId, patch, if s.evidenceDigest.Some? then s.evidenceDigest.value else "pending-revalidation",
            s.policyVersion, if s.commit.Some? then s.commit.value else s.baseCommit, s.target)
  }

  function Reinvalidated(env: Env, s: Session, r: Receipt, at: string): Option<Approval> {
    if s.selected.None? || s.selected.value == "" then s.approval
    else InvalidateWhenEvidenceChanges(env.digests, s.approval,
           Binding(s.selected.value, r.patchDigest, r.evidenceDigest, s.policyVersion, r.commitSha, s.target), at)
  }

  // ----- the transition

  predicate Terminal(state: State) { state == Completed || state == Failed || state == CancelledByHuman }

  function Record(env: Env, s: Session, r: Response, at: string): Option<Session> {
    if !ResponseAccepted(env, s, r) then None
    else
      var next := s.(history := s.history + [Marked(s.history, r)], updatedAt := at);
      if Marked(s.history, r).reserved then Some(next)
      else Some(next.(state := Failed,
                      failure := if s.failure.Some? then s.failure
                        else Some(Failure(IdentityReused, false, None, s.state))))
  }

  function Select(
      env: Env, s: Session, candidateId: string, patch: string, evidence: string, commit: string,
      receipt: Option<Receipt>): Option<Session>
  {
    if candidateId !in s.candidateIds || !env.isGitId(commit) || !env.isSha256(patch) || !env.isSha256(evidence)
    then None
    else if
      && s.mode == Live
      && (receipt.None? || !InitialReceiptAccepted(env, s, candidateId, patch, evidence, commit, receipt.value))
    then None
    else
      var used := if s.mode == Live then receipt else None;
      Some(s.(state := AwaitingHumanApproval, selected := Some(candidateId), patchDigest := Some(patch),
              evidenceDigest := Some(evidence), commit := Some(commit),
              tree := if used.Some? then Some(used.value.validatedTreeSha) else None,
              revalidation := used, round := s.round + 1))
  }

  function Repair(env: Env, s: Session, candidateId: string, patch: string, at: string): Option<Session> {
    if candidateId !in s.candidateIds || !env.isSha256(patch) then None
    else Some(s.(state := Revalidating, selected := Some(candidateId), patchDigest := Some(patch), commit := None,
                 tree := None,
                 approval :=
                   InvalidateWhenEvidenceChanges(env.digests, s.approval, RepairBinding(s, candidateId, patch), at)))
  }

  function Revalidate(env: Env, s: Session, r: Receipt, at: string): Option<Session> {
    if !RevalidationAccepted(env, s, r) then None
    else Some(s.(state := AwaitingHumanApproval, evidenceDigest := Some(r.evidenceDigest),
                 patchDigest := Some(r.patchDigest), commit := Some(r.commitSha), tree := Some(r.validatedTreeSha),
                 approval := Reinvalidated(env, s, r, at), round := s.round + 1, revalidation := Some(r),
                 revalidationSandboxes := s.revalidationSandboxes + [r.sandboxId]))
  }

  /** The event a state waits for, and what it does; None where the program throws. */
  function Advance(env: Env, s: Session, e: Event, at: string): Option<Session> {
    match (s.state, e)
    case (Idle, Start) => Some(s.(state := IngestingRepository))
    case (IngestingRepository, RepositoryIngested) => Some(s.(state := AnalyzingIncident))
    case (AnalyzingIncident, IncidentAnalyzed) => Some(s.(state := GeneratingCandidates))
    case (GeneratingCandidates, CandidatesGenerated(ids)) =>
      if Distinct(ids) && |ids| >= (if s.runKind == Tournament then 3 else 1)
      then Some(s.(state := ProvisioningSandboxes, candidateIds := ids)) else None
    case (ProvisioningSandboxes, SandboxesProvisioned(sandboxes)) =>
      if SandboxesAccepted(env, s, sandboxes) then Some(s.(state := Building, sandboxes := sandboxes)) else None
    case (Building, BuildsFinished) => Some(s.(state := RunningTests))
    case (RunningTests, TestsFinished) => Some(s.(state := Scoring))
    case (Scoring, ScoringFinished) => Some(s.(state := Selecting))
    case (Selecting, CandidateSelected(candidateId, patch, evidence, commit, receipt)) =>
      Select(env, s, candidateId, patch, evidence, commit, receipt)
    case (AwaitingHumanApproval, ApprovalRecorded(approval)) =>
      if approval.sessionId == s.sessionId && Some(approval.bound.candidateId) == s.selected
      then Some(s.(approval := Some(approval))) else None
    case (AwaitingHumanApproval, PrCreationRequested) =>
      if CanCreateOrUpdatePullRequest(env, s) then Some(s.(state := CreatingPullRequest)) else None
    case (CreatingPullRequest, PrCreatedOrUpdated(pr)) =>
      if PullRequestAccepted(env, s, pr)
      then Some(s.(state := AwaitingCodeRabbit, pullRequest := Some(pr), findings := [], review := None)) else None
    case (AwaitingCodeRabbit, ReviewFindingsReceived(findings, review)) =>
      if ReviewAccepted(env, s, review, findings)
      then Some(s.(state := if review.passed && GatePassed(findings) then ReviewPassed else ReviewBlocked,
                   findings := findings, review := Some(review)))
      else None
    case (ReviewBlocked, RepairStarted) => Some(s.(state := RepairingReviewFindings))
    case (RepairingReviewFindings, RepairGenerated(candidateId, patch)) => Repair(env, s, candidateId, patch, at)
    case (Revalidating, RevalidationPassed(receipt)) => Revalidate(env, s, receipt, at)
    case (ReviewPassed, MarkReadyToMerge) =>
      if CanEnterReadyToMerge(env, s) then Some(s.(state := ReadyToMerge)) else None
    case (ReadyToMerge, Complete) => Some(s.(state := Completed))
    case _ => None
  }

  /** One transition; None where the program throws and the session stays as it was. */
  function Transition(env: Env, s: Session, e: Event, at: string): Option<Session> {
    if Terminal(s.state) && !(s.state == Failed && e.AttemptRecorded?) then None
    else
      match e
      case Fail(reason, recoverable, retryAction) =>
        Some(s.(state := Failed, updatedAt := at, failure := Some(Failure(reason, recoverable, retryAction, s.state))))
      case Cancel => Some(s.(state := CancelledByHuman, updatedAt := at))
      case AttemptRecorded(response) => Record(env, s, response, at)
      case _ =>
        match Advance(env, s, e, at)
        case None => None
        case Some(next) => Some(next.(updatedAt := at))
  }

  // ----- runs

  datatype Timed = Timed(event: Event, at: string)

  /** The session after a list of transitions, or None when one of them throws. */
  function Run(env: Env, s: Session, steps: seq<Timed>): Option<Session> {
    if steps == [] then Some(s)
    else
      match Run(env, s, steps[..|steps| - 1])
      case None => None
      case Some(before) => Transition(env, before, steps[|steps| - 1].event, steps[|steps| - 1].at)
  }

  lemma {:induction false} RunAppend(env: Env, s: Session, a: seq<Timed>, b: seq<Timed>)
    requires Run(env, s, a + b).Some?
    ensures Run(env, s, a).Some? && Run(env, Run(env, s, a).value, b) == Run(env, s, a + b)
    decreases |b|
  {
    hide Transition;
    if b == [] {
      assert a + b == a;
    } else {
      var init := b[..|b| - 1];
      assert (a + b)[..|a + b| - 1] == a + init;
      RunAppend(env, s, a, init);
    }
  }

  // ----- reachable sessions

  ghost predicate Reaches(env: Env, start: Session, s: Session) {
    exists steps :: Run(env, start, steps) == Some(s)
  }

  lemma OneMore(env: Env, start: Session, steps: seq<Timed>, e: Event, at: string)
    requires Run(env, start, steps).Some?
    ensures Run(env, start, steps + [Timed(e, at)]) == Transition(env, Run(env, start, steps).value, e, at)
  {
    hide Transition;
    assert (steps + [Timed(e, at)])[..|steps|] == steps;
  }

  lemma StartReaches(env: Env, start: Session)
    ensures Reaches(env, start, start)
  {
    hide Transition;
    assert Run(env, start, []) == Some(start);
  }

  lemma ReachesMore(env: Env, start: Session, s: Session, e: Event, at: string)
    requires Reaches(env, start, s) && Transition(env, s, e, at).Some?
    ensures Reaches(env, start, Transition(env, s, e, at).value)
  {
    hide Transition;
    var steps :| Run(env, start, steps) == Some(s);
    OneMore(env, start, steps, e, at);
  }
}
