/** What each event of the validation session takes and does, in the session's own
    fields: exactly when it is accepted, and the session after it. */
module SessionContract {
  import opened Options
  import opened Approvals
  import opened ValidationSession
  import opened SessionSafety
  import opened SessionRuns
  import opened SessionReach
  import EventChain

  // ----- the conditions, spelled out

  predicate Equal(env: Env, a: string, b: string) { env.lower(a) == env.lower(b) }

  ghost predicate Unrepeated(xs: seq<string>) {
    forall i, j :: 0 <= i < |xs| && 0 <= j < |xs| && xs[i] == xs[j] ==> i == j
  }

  /** The approval on record approves, stands, and was given for what the session binds. */
  predicate StandingApproval(env: Env, s: Session) {
    && s.approval.Some? && s.selected.Some? && s.patchDigest.Some? && s.evidenceDigest.Some? && s.commit.Some?
    && var a := s.approval.value;
    && a.decision == Approved && a.invalidatedAt.None?
    && a.bindingDigest == env.digests.binding(Binding(
         s.selected.value, s.patchDigest.value, s.evidenceDigest.value, s.policyVersion, s.commit.value, s.target))
    && a.bound.candidateId == s.selected.value && a.bound.patchDigest == s.patchDigest.value
    && a.bound.evidenceDigest == s.evidenceDigest.value && a.bound.policyVersion == s.policyVersion
    && a.bound.commitSha == s.commit.value && env.digests.target(a.bound.target) == env.digests.target(s.target)
  }

  lemma ApprovalStands(env: Env, s: Session)
    ensures ApprovedNow(env, s) <==> StandingApproval(env, s)
  {}

  predicate CleanHistory(s: Session) {
    s.mode == Live ==> s.history != [] && forall i :: 0 <= i < |s.history| ==> LeftNothing(s.history[i])
  }

  lemma HistoryIsClean(s: Session)
    ensures HasCleanLiveHistory(s) <==> CleanHistory(s)
  {
    assert forall i :: 0 <= i < |s.history| ==> (CleanAttempt(s.history[i]) <==> LeftNothing(s.history[i]));
  }

  /** No identity of the history repeats, and one attempt is the completed one of the
      receipt. */
  ghost predicate AttemptedOnce(history: seq<Attempt>, r: Receipt) {
    && (forall i :: 0 <= i < |history| ==>
          history[i].reserved && !history[i].duplicateSandbox && !history[i].duplicateRun)
    && (forall i, j :: 0 <= i < j < |history| ==>
          && history[i].response.sandboxId != history[j].response.sandboxId
          && history[i].response.runId != history[j].response.runId)
    && exists i :: 0 <= i < |history| && CompletedFor(history[i], r)
  }

  lemma AttemptIsUnique(history: seq<Attempt>, r: Receipt)
    ensures HasUniqueReservedAttempt(history, r) <==> AttemptedOnce(history, r)
  {
    hide CountMatches;
    if HasUniqueReservedAttempt(history, r) {
      CountedIsCompleted(history, r);
      forall i, j | 0 <= i < j < |history|
        ensures history[i].response.sandboxId != history[j].response.sandboxId
        ensures history[i].response.runId != history[j].response.runId
      {
        assert SandboxIds(history)[i] != SandboxIds(history)[j] && RunIds(history)[i] != RunIds(history)[j];
      }
    }
    if AttemptedOnce(history, r) {
      var i :| 0 <= i < |history| && CompletedFor(history[i], r);
      OneMatch(history, r, i);
    }
  }

  // ----- candidates and their sandboxes

  lemma CandidatesTaken(env: Env, s: Session, ids: seq<string>, at: string)
    ensures var t := Transition(env, s, CandidatesGenerated(ids), at);
      && (t.Some? <==>
           s.state == GeneratingCandidates && Unrepeated(ids) && |ids| >= (if s.runKind == Tournament then 3 else 1))
      && (t.Some? ==> t.value == s.(state := ProvisioningSandboxes, candidateIds := ids, updatedAt := at))
  {}

  lemma SandboxesTaken(env: Env, s: Session, sandboxes: map<string, string>, at: string)
    ensures var t := Transition(env, s, SandboxesProvisioned(sandboxes), at);
      && (t.Some? <==>
           && s.state == ProvisioningSandboxes
           && multiset(s.candidateIds) == multiset(sandboxes.Keys) && |sandboxes.Values| == |sandboxes|
           && forall c :: c in sandboxes ==>
                && EventChain.Filled(sandboxes[c])
                && (s.mode == Live ==>
                     exists i :: 0 <= i < |s.history| && RanFirst(s.history[i].response, c, sandboxes[c])))
      && (t.Some? ==> t.value == s.(state := Building, sandboxes := sandboxes, updatedAt := at))
  {
    hide EventChain.Filled;
    forall c | c in sandboxes
      ensures Reported(s, c, sandboxes[c]) <==>
              exists i :: 0 <= i < |s.history| && RanFirst(s.history[i].response, c, sandboxes[c])
    {}
  }

  /** The response is one for the candidate in that sandbox, before any repair. */
  predicate RanFirst(r: Response, candidateId: string, sandboxId: string) {
    r.candidateId == candidateId && r.sandboxId == sandboxId
      && (r.purpose == InitialCandidate || r.purpose == ProfileReplacement)
  }

  // ----- Daytona responses

  /** The stage of the session, or the one it failed in. */
  predicate StageIs(s: Session, state: State) {
    if s.state == Failed then s.failure.Some? && s.failure.value.failedFrom == state else s.state == state
  }

  lemma ResponseTaken(env: Env, s: Session, r: Response, at: string)
    ensures var t := Transition(env, s, AttemptRecorded(r), at);
      && (t.Some? <==>
           && s.mode == Live && r.candidateId in s.candidateIds
           && (if r.purpose == ReviewRepair then StageIs(s, RepairingReviewFindings) || StageIs(s, Revalidating)
               else StageIs(s, ProvisioningSandboxes))
           && env.isIdentifier(r.sandboxId) && env.isIdentifier(r.runId) && env.isTime(r.capturedAt)
           && (r.retryable ==> r.disposition == FailedDestroyed))
      && (t.Some? ==>
           && var sandbox := exists i :: 0 <= i < |s.history| && s.history[i].response.sandboxId == r.sandboxId;
           && var run := exists i :: 0 <= i < |s.history| && s.history[i].response.runId == r.runId;
           && t.value.history == s.history + [Attempt(r, !sandbox && !run, sandbox, run)]
           && t.value.(history := s.history) ==
                if !sandbox && !run then s.(updatedAt := at)
                else s.(updatedAt := at, state := Failed,
                        failure := if s.failure.Some? then s.failure
                                   else Some(Failure(IdentityReused, false, None, s.state))))
  {
    hide Advance;
    IdentityKnown(s.history, r);
    hide SandboxIds, RunIds;
  }

  lemma IdentityKnown(history: seq<Attempt>, r: Response)
    ensures r.sandboxId in SandboxIds(history) <==>
            exists i :: 0 <= i < |history| && history[i].response.sandboxId == r.sandboxId
    ensures r.runId in RunIds(history) <==> exists i :: 0 <= i < |history| && history[i].response.runId == r.runId
  {
    forall i | 0 <= i < |history|
      ensures SandboxIds(history)[i] == history[i].response.sandboxId && RunIds(history)[i] == history[i].response.runId
    {}
  }

  // ----- selection

  /** What the receipt of a live selection must state and pass. */
  ghost predicate SelectionReceipt(
      env: Env, s: Session, candidateId: string, patch: string, evidence: string, commit: string, r: Receipt)
  {
    && r.purpose == InitialSelection && r.sessionId == s.sessionId && r.policyVersion == s.policyVersion
    && r.candidateId == candidateId && r.patchDigest == patch && r.evidenceDigest == evidence
    && Equal(env, r.commitSha, commit) && !Equal(env, r.commitSha, s.baseCommit) && s.target == Some(r.target)
    && candidateId in s.sandboxes && s.sandboxes[candidateId] == r.sandboxId
    && r.sandboxId !in s.revalidationSandboxes && AttemptedOnce(s.history, r)
    && EventChain.Filled(r.candidateId) && env.isStructurallyValid(r)
    && env.attestation(r.(attestationDigest := "")) == r.attestationDigest
    && r.gates.build && r.gates.unitTests && r.gates.safetyTests
    && r.gates.integrity && r.gates.scored && r.gates.eligible
  }

  lemma SelectionReceiptTaken(
      env: Env, s: Session, candidateId: string, patch: string, evidence: string, commit: string, r: Receipt)
    ensures InitialReceiptAccepted(env, s, candidateId, patch, evidence, commit, r) <==>
            SelectionReceipt(env, s, candidateId, patch, evidence, commit, r)
  {
    AttemptIsUnique(s.history, r);
    hide HasUniqueReservedAttempt, AttemptedOnce, EventChain.Filled;
  }

  lemma SelectionTaken(
      env: Env, s: Session, candidateId: string, patch: string, evidence: string, commit: string,
      receipt: Option<Receipt>, at: string)
    ensures var t := Transition(env, s, CandidateSelected(candidateId, patch, evidence, commit, receipt), at);
      && (t.Some? <==>
           && s.state == Selecting && candidateId in s.candidateIds
           && env.isGitId(commit) && env.isSha256(patch) && env.isSha256(evidence)
           && (s.mode == Live ==>
                 receipt.Some? && SelectionReceipt(env, s, candidateId, patch, evidence, commit, receipt.value)))
      && (t.Some? ==>
           t.value == s.(state := AwaitingHumanApproval, updatedAt := at, selected := Some(candidateId),
                         patchDigest := Some(patch), evidenceDigest := Some(evidence), commit := Some(commit),
                         tree := if s.mode == Live then Some(receipt.value.validatedTreeSha) else None,
                         revalidation := if s.mode == Live then receipt else None, round := s.round + 1))
  {
    if receipt.Some? { SelectionReceiptTaken(env, s, candidateId, patch, evidence, commit, receipt.value); }
    hide SelectionReceipt, InitialReceiptAccepted;
  }

  // ----- approval and publication

  lemma ApprovalTaken(env: Env, s: Session, a: Approval, at: string)
    ensures var t := Transition(env, s, ApprovalRecorded(a), at);
      && (t.Some? <==>
           s.state == AwaitingHumanApproval && a.sessionId == s.sessionId && s.selected == Some(a.bound.candidateId))
      && (t.Some? ==> t.value == s.(approval := Some(a), updatedAt := at))
  {}

  lemma RequestTaken(env: Env, s: Session, at: string)
    ensures var t := Transition(env, s, PrCreationRequested, at);
      && (t.Some? <==>
           s.state == AwaitingHumanApproval && s.target.Some? && CleanHistory(s) && StandingApproval(env, s))
      && (t.Some? ==> t.value == s.(state := CreatingPullRequest, updatedAt := at))
  {
    ApprovalStands(env, s);
    HistoryIsClean(s);
    hide ApprovedNow, HasCleanLiveHistory, StandingApproval, CleanHistory;
  }

  lemma PullRequestTaken(env: Env, s: Session, pr: PullRequest, at: string)
    ensures var t := Transition(env, s, PrCreatedOrUpdated(pr), at);
      && (t.Some? <==>
           && s.state == CreatingPullRequest && StandingApproval(env, s)
           && pr.sessionId == s.sessionId && s.selected == Some(pr.candidateId) && pr.status == Open
           && env.isCanonicalPullRequest(pr) && s.target == Some(Target(pr.owner, pr.repository, pr.baseBranch))
           && Equal(env, pr.baseSha, s.baseCommit) && Equal(env, pr.headSha, s.commit.value)
           && (s.tree.Some? ==> Equal(env, pr.headTreeSha, s.tree.value)))
      && (t.Some? ==>
           t.value == s.(state := AwaitingCodeRabbit, pullRequest := Some(pr), findings := [], review := None,
                         updatedAt := at))
  {
    ApprovalStands(env, s);
    hide ApprovedNow;
  }

  // ----- review

  predicate Blocks(f: Finding) { !f.resolved && (f.severity == Critical || f.severity == High) }

  /** The receipt is a consistent one of the exact head and base of the pull request. */
  predicate ReviewReceiptFits(env: Env, pr: PullRequest, r: ReviewReceipt) {
    && r.pullNumber == pr.number && Equal(env, r.headSha, pr.headSha)
    && r.expectedBaseRef == pr.baseBranch && r.observedBaseRef == pr.baseBranch
    && Equal(env, r.expectedBaseSha, pr.baseSha) && Equal(env, r.observedBaseSha, pr.baseSha)
    && env.isGitId(r.headSha) && env.isGitId(r.expectedBaseSha) && env.isGitId(r.observedBaseSha)
    && env.isReviewUrl(r.reviewUrl, pr.url) && env.isTime(r.capturedAt)
    && (if r.provider == CodeRabbit then r.sourceKind == LiveApi
        else r.sourceKind == ManualAttestation && (r.attestedBy.Some? ==> EventChain.Filled(r.attestedBy.value)))
  }

  predicate FindingFits(env: Env, s: Session, pr: PullRequest, r: ReviewReceipt, f: Finding) {
    && f.sessionId == s.sessionId && f.provider == r.provider && Equal(env, f.sourceVersion, r.headSha)
    && (if r.provider ==
         CodeRabbit then env.isEvidenceUrl(f.reviewUrl, pr.url) else env.isReviewUrl(f.reviewUrl, pr.url))
  }

  ghost predicate ReviewFits(env: Env, s: Session, r: ReviewReceipt, findings: seq<Finding>) {
    && s.pullRequest.Some? && ReviewReceiptFits(env, s.pullRequest.value, r)
    && r.evidenceIds != [] && Unrepeated(r.evidenceIds)
    && (forall i :: 0 <= i < |r.evidenceIds| ==> EventChain.Filled(r.evidenceIds[i]))
    && (forall i :: 0 <= i < |findings| ==> FindingFits(env, s, s.pullRequest.value, r, findings[i]))
    && (r.passed <==> forall i :: 0 <= i < |findings| ==> !Blocks(findings[i]))
  }

  lemma ReviewFitsExactly(env: Env, s: Session, r: ReviewReceipt, findings: seq<Finding>)
    ensures ReviewAccepted(env, s, r, findings) <==> ReviewFits(env, s, r, findings)
    ensures GatePassed(findings) <==> forall i :: 0 <= i < |findings| ==> !Blocks(findings[i])
  {
    hide EventChain.Filled;
    assert forall i :: 0 <= i < |findings| ==> (IsBlocking(findings[i]) <==> Blocks(findings[i]));
    if s.pullRequest.Some? {
      var pr := s.pullRequest.value;
      forall i | 0 <= i < |findings|
        ensures FindingIsBound(env, s, r, pr.url, findings[i]) <==> FindingFits(env, s, pr, r, findings[i])
      {}
    }
  }

  lemma ReviewTaken(env: Env, s: Session, findings: seq<Finding>, r: ReviewReceipt, at: string)
    ensures var t := Transition(env, s, ReviewFindingsReceived(findings, r), at);
      && (t.Some? <==> s.state == AwaitingCodeRabbit && ReviewFits(env, s, r, findings))
      && (t.Some? ==>
           t.value == s.(state := if r.passed then ReviewPassed else ReviewBlocked, findings := findings,
                         review := Some(r), updatedAt := at))
  {
    ReviewFitsExactly(env, s, r, findings);
    hide ReviewAccepted, GatePassed, Blocks, ReviewReceiptFits, FindingFits, EventChain.Filled, Unrepeated;
  }

  // ----- repair

  /** What becomes of the approval on record when it is held against other evidence. */
  function HeldAgainst(env: Env, a: Option<Approval>, now: Binding, at: string): Option<Approval> {
    if a.None? || a.value.invalidatedAt.Some? then a
    else if
      && a.value.decision == Approved && a.value.bindingDigest == env.digests.binding(now)
      && a.value.bound.candidateId == now.candidateId && a.value.bound.patchDigest == now.patchDigest
      && a.value.bound.evidenceDigest == now.evidenceDigest && a.value.bound.policyVersion == now.policyVersion
      && a.value.bound.commitSha == now.commitSha
      && env.digests.target(a.value.bound.target) == env.digests.target(now.target)
    then a
    else Some(a.value.(updatedAt := at, invalidatedAt := Some(at)))
  }

  lemma InvalidationSpelled(env: Env, a: Option<Approval>, now: Binding, at: string)
    ensures InvalidateWhenEvidenceChanges(env.digests, a, now, at) == HeldAgainst(env, a, now, at)
  {}

  lemma RepairTaken(env: Env, s: Session, candidateId: string, patch: string, at: string)
    ensures var t := Transition(env, s, RepairGenerated(candidateId, patch), at);
      && (t.Some? <==> s.state == RepairingReviewFindings && candidateId in s.candidateIds && env.isSha256(patch))
      && (t.Some? ==>
           t.value == s.(state := Revalidating, updatedAt := at, selected := Some(candidateId),
                         patchDigest := Some(patch), commit := None, tree := None,
                         approval := HeldAgainst(env, s.approval, Binding(
                           candidateId, patch,
                           if s.evidenceDigest.Some? then s.evidenceDigest.value else "pending-revalidation",
                           s.policyVersion, if s.commit.Some? then s.commit.value else s.baseCommit, s.target), at)))
  {
    InvalidationSpelled(env, s.approval, RepairBinding(s, candidateId, patch), at);
    hide InvalidateWhenEvidenceChanges, HeldAgainst;
  }

  /** What the receipt of a repair must state and pass. */
  ghost predicate RepairReceipt(env: Env, s: Session, r: Receipt) {
    && s.mode == Live && r.purpose == RepairOfReview && s.selected == Some(r.candidateId)
    && r.sessionId == s.sessionId && r.policyVersion == s.policyVersion && s.target == Some(r.target)
    && s.patchDigest == Some(r.patchDigest) && s.evidenceDigest != Some(r.evidenceDigest)
    && EventChain.Filled(r.candidateId) && env.isStructurallyValid(r) && env.referencesValid(r)
    && env.isGitId(r.commitSha) && env.isGitId(r.validatedTreeSha)
    && env.isSha256(r.evidenceDigest) && env.isSha256(r.attestationDigest)
    && env.attestation(r.(attestationDigest := "")) == r.attestationDigest
    && AttemptedOnce(s.history, r)
    && (forall c :: c in s.sandboxes ==> s.sandboxes[c] != r.sandboxId) && r.sandboxId !in s.revalidationSandboxes
    && (s.pullRequest.Some? ==> !Equal(env, r.commitSha, s.pullRequest.value.headSha))
    && r.gates.build && r.gates.unitTests && r.gates.safetyTests
    && r.gates.integrity && r.gates.scored && r.gates.eligible
  }

  lemma RepairReceiptTaken(env: Env, s: Session, r: Receipt)
    ensures RevalidationAccepted(env, s, r) <==> RepairReceipt(env, s, r)
  {
    AttemptIsUnique(s.history, r);
    hide HasUniqueReservedAttempt, AttemptedOnce, EventChain.Filled;
    assert r.sandboxId in s.sandboxes.Values <==> exists c :: c in s.sandboxes && s.sandboxes[c] == r.sandboxId;
  }

  lemma RevalidationTaken(env: Env, s: Session, r: Receipt, at: string)
    ensures var t := Transition(env, s, RevalidationPassed(r), at);
      && (t.Some? <==> s.state == Revalidating && RepairReceipt(env, s, r))
      && (t.Some? ==>
           t.value == s.(state := AwaitingHumanApproval, updatedAt := at, evidenceDigest := Some(r.evidenceDigest),
                         patchDigest := Some(r.patchDigest), commit := Some(r.commitSha),
                         tree := Some(r.validatedTreeSha),
                         approval := if r.candidateId == "" then s.approval
                                     else HeldAgainst(env, s.approval, Binding(r.candidateId, r.patchDigest,
                                            r.evidenceDigest, s.policyVersion, r.commitSha, s.target), at),
                         round := s.round + 1, revalidation := Some(r),
                         revalidationSandboxes := s.revalidationSandboxes + [r.sandboxId]))
  {
    RepairReceiptTaken(env, s, r);
    if s.selected.Some? {
      InvalidationSpelled(env, s.approval, Binding(s.selected.value, r.patchDigest, r.evidenceDigest, s.policyVersion,
                                                   r.commitSha, s.target), at);
    }
    SelectedOfRepair(env, s, r);
    hide RevalidationAccepted, RepairReceipt, InvalidateWhenEvidenceChanges, HeldAgainst;
  }

  lemma SelectedOfRepair(env: Env, s: Session, r: Receipt)
    ensures RepairReceipt(env, s, r) ==> s.selected == Some(r.candidateId)
  {
    hide AttemptedOnce, EventChain.Filled;
  }

  /** A receipt with any gate failed is refused, at selection and at revalidation. */
  lemma FailedGateIsRefused(
      env: Env, s: Session, candidateId: string, patch: string, evidence: string, commit: string, r: Receipt,
      at: string)
    requires !r.gates.build || !r.gates.unitTests || !r.gates.safetyTests
             || !r.gates.integrity || !r.gates.scored || !r.gates.eligible
    ensures s.mode == Live ==>
              Transition(env, s, CandidateSelected(candidateId, patch, evidence, commit, Some(r)), at).None?
    ensures Transition(env, s, RevalidationPassed(r), at).None?
  {
    hide Transition, AttemptedOnce, EventChain.Filled;
    SelectionTaken(env, s, candidateId, patch, evidence, commit, Some(r), at);
    RevalidationTaken(env, s, r, at);
  }

  // ----- readiness, and the events that ask for nothing

  lemma ReadyTaken(env: Env, s: Session, at: string)
    ensures var t := Transition(env, s, MarkReadyToMerge, at);
      && (t.Some? <==>
           && s.state == ReviewPassed && (forall i :: 0 <= i < |s.findings| ==> !Blocks(s.findings[i]))
           && s.pullRequest.Some? && s.review.Some? && s.review.value.passed
           && var pr, r := s.pullRequest.value, s.review.value;
           && r.pullNumber == pr.number && Equal(env, r.headSha, pr.headSha)
           && r.expectedBaseRef == pr.baseBranch && r.observedBaseRef == pr.baseBranch
           && Equal(env, r.expectedBaseSha, pr.baseSha) && Equal(env, r.observedBaseSha, pr.baseSha)
           && StandingApproval(env, s) && pr.status == Open && Equal(env, pr.headSha, s.commit.value)
           && (s.tree.Some? ==> Equal(env, pr.headTreeSha, s.tree.value))
           && CleanHistory(s))
      && (t.Some? ==> t.value == s.(state := ReadyToMerge, updatedAt := at))
  {
    ApprovalStands(env, s);
    HistoryIsClean(s);
    GateSpelled(s.findings);
    hide ApprovedNow, HasCleanLiveHistory, CleanHistory, GatePassed, Blocks;
  }

  lemma GateSpelled(findings: seq<Finding>)
    ensures GatePassed(findings) <==> forall i :: 0 <= i < |findings| ==> !Blocks(findings[i])
  {
    assert forall i :: 0 <= i < |findings| ==> (IsBlocking(findings[i]) <==> Blocks(findings[i]));
  }

  /** The state each event without conditions is for, and the one it leads to. */
  function PlainStep(e: Event): Option<(State, State)> {
    match e
    case Start => Some((Idle, IngestingRepository))
    case RepositoryIngested => Some((IngestingRepository, AnalyzingIncident))
    case IncidentAnalyzed => Some((AnalyzingIncident, GeneratingCandidates))
    case BuildsFinished => Some((Building, RunningTests))
    case TestsFinished => Some((RunningTests, Scoring))
    case ScoringFinished => Some((Scoring, Selecting))
    case RepairStarted => Some((ReviewBlocked, RepairingReviewFindings))
    case Complete => Some((ReadyToMerge, Completed))
    case _ => None
  }

  lemma PlainAdvance(env: Env, s: Session, e: Event, at: string)
    requires PlainStep(e).Some?
    ensures Advance(env, s, e, at) ==
            if s.state == PlainStep(e).value.0 then Some(s.(state := PlainStep(e).value.1)) else None
  {}

  lemma PlainStepTaken(env: Env, s: Session, e: Event, at: string)
    requires PlainStep(e).Some?
    ensures var t, step := Transition(env, s, e, at), PlainStep(e).value;
      && (t.Some? <==> s.state == step.0)
      && (t.Some? ==> t.value == s.(state := step.1, updatedAt := at))
  {
    PlainAdvance(env, s, e, at);
    hide Advance, Record;
  }

  /** Failing and cancelling are possible until the session has ended. */
  lemma EndTaken(env: Env, s: Session, reason: Reason, recoverable: bool, retryAction: Option<string>, at: string)
    ensures var f, c := Transition(env, s, Fail(reason, recoverable, retryAction), at), Transition(env, s, Cancel, at);
      && (f.Some? <==> s.state !in {Completed, Failed, CancelledByHuman}) && (c.Some? <==> f.Some?)
      && (f.Some? ==>
           && f.value == s.(state := Failed, updatedAt := at,
                            failure := Some(Failure(reason, recoverable, retryAction, s.state)))
           && c.value == s.(state := CancelledByHuman, updatedAt := at))
  {
    hide Advance, Record;
  }

  /** A session as created, over the attempts an earlier start left behind. */
  lemma CreatedFields(
      id: string, mode: Mode, runKind: RunKind, policy: string, base: string, target: Option<Target>,
      prior: seq<Attempt>, at: string)
    ensures var s := NewSession(id, mode, runKind, policy, base, target, prior, at);
      && s.sessionId == id && s.mode == mode && s.runKind == runKind && s.policyVersion == policy
      && s.baseCommit == base && s.commit == Some(base) && s.target == target && s.history == prior
      && s.updatedAt == at && s.state == Idle && s.round == 0
      && s.candidateIds == [] && s.sandboxes == map[] && s.findings == [] && s.revalidationSandboxes == []
      && s.selected.None? && s.patchDigest.None? && s.evidenceDigest.None? && s.tree.None? && s.approval.None?
      && s.pullRequest.None? && s.review.None? && s.revalidation.None? && s.failure.None?
  {}
}
