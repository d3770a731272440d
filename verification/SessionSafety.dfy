/** What every step of the validation session keeps, and what every run guarantees. */
module SessionSafety {
  import opened Options
  import opened Approvals
  import opened ValidationSession
  import EventChain

  // ----- invariants

  predicate Early(state: State) {
    || BeforeSandboxes(state) || state.Building? || state.RunningTests? || state.Scoring? || state.Selecting?
  }

  predicate BeforeSandboxes(state: State) { BeforeCandidates(state) || state.ProvisioningSandboxes? }

  predicate BeforeCandidates(state: State) {
    state.Idle? || state.IngestingRepository? || state.AnalyzingIncident? || state.GeneratingCandidates?
  }

  predicate Stopped(state: State) { state.Failed? || state.CancelledByHuman? }

  /** States in which evidence has been published. */
  predicate Published(state: State) {
    state.CreatingPullRequest? || HasPullRequest(state)
  }

  predicate HasPullRequest(state: State) { state.AwaitingCodeRabbit? || Reviewed(state) }

  predicate Reviewed(state: State) {
    state.ReviewBlocked? || state.ReviewPassed? || state.ReadyToMerge? || state.Completed?
  }

  /** Publication needs a target, a clean history and an approval of what is bound now. */
  ghost predicate GateKept(env: Env, s: Session) {
    && (Published(s.state) ==> s.target.Some? && HasCleanLiveHistory(s) && ApprovedNow(env, s))
    && (s.state.RepairingReviewFindings? || s.state.Revalidating? ==>
         ApprovesEvidence(s) && s.selected.Some? && s.pullRequest.Some?)
    && (s.state.Revalidating? ==> s.commit.None? && s.tree.None?)
    && (s.approval.Some? ==> s.approval.value.sessionId == s.sessionId)
  }

  /** The approval on record was given for the evidence now on record. */
  predicate ApprovesEvidence(s: Session) {
    s.approval.Some? && s.evidenceDigest == Some(s.approval.value.bound.evidenceDigest)
  }

  /** The pull request and the review on record belong to what is bound now. */
  ghost predicate ReviewKept(env: Env, s: Session) {
    && (HasPullRequest(s.state) ==> s.pullRequest.Some? && PullRequestAccepted(env, s, s.pullRequest.value))
    && (Reviewed(s.state) ==>
          && s.review.Some? && ReviewAccepted(env, s, s.review.value, s.findings)
          && (s.review.value.passed <==> s.state != ReviewBlocked))
  }

  /** Each attempt is marked as a reuse exactly when an earlier one has its identity, and
      only a failure whose sandbox is gone may be retried. */
  ghost predicate WellMarked(history: seq<Attempt>) {
    forall i :: 0 <= i < |history| ==>
      history[i] == Marked(history[..i], history[i].response) && Consistent(history[i].response)
  }

  predicate Consistent(r: Response) { r.retryable ==> r.disposition == FailedDestroyed }

  ghost predicate HistoryKept(s: Session) {
    && WellMarked(s.history)
    && (s.state != Failed ==> AllUnmarked(s.history))
    && (s.failure.Some? <==> s.state == Failed)
    && (s.failure.Some? ==> !Terminal(s.failure.value.failedFrom))
  }

  /** Some completed review-repair attempt of the history ran in this sandbox. */
  ghost predicate RepairedIn(history: seq<Attempt>, sandbox: string) {
    exists i :: 0 <= i < |history| && history[i].reserved && history[i].response.disposition == Finished
      && history[i].response.purpose == ReviewRepair && history[i].response.sandboxId == sandbox
  }

  ghost predicate RoundsKept(s: Session) {
    && (Early(s.state) ==> s.revalidationSandboxes == [] && s.selected.None? && s.approval.None? && s.pullRequest.None?)
    && s.round == |s.revalidationSandboxes| + (if s.selected.Some? then 1 else 0)
    && Distinct(s.revalidationSandboxes)
    && (forall i :: 0 <= i < |s.revalidationSandboxes| ==>
          s.revalidationSandboxes[i] !in s.sandboxes.Values && RepairedIn(s.history, s.revalidationSandboxes[i]))
  }

  /** The candidates and their sandboxes, once known. */
  ghost predicate CandidatesKept(s: Session) {
    && Distinct(s.candidateIds)
    && (s.selected.Some? ==> s.selected.value in s.candidateIds)
    && (!BeforeCandidates(s.state) && !Stopped(s.state) ==>
          |s.candidateIds| >= if s.runKind == Tournament then 3 else 1)
    && (!BeforeSandboxes(s.state) && !Stopped(s.state) ==>
          && multiset(s.candidateIds) == multiset(s.sandboxes.Keys) && |s.sandboxes.Values| == |s.sandboxes|)
    && SandboxesReported(s)
  }

  /** No candidate's sandbox is blank, and in a live session each was reported by a
      recorded attempt of that candidate outside the repair loop. */
  ghost predicate SandboxesReported(s: Session) {
    forall c :: c in s.sandboxes ==>
      EventChain.Filled(s.sandboxes[c]) && (s.mode == Live ==> Reported(s, c, s.sandboxes[c]))
  }

  /** The receipt behind what is bound now, in a live session. */
  ghost predicate Validated(env: Env, s: Session, r: Receipt) {
    && Some(r.candidateId) == s.selected && Some(r.patchDigest) == s.patchDigest
    && Some(r.evidenceDigest) == s.evidenceDigest
    && s.commit.Some? && Same(env, r.commitSha, s.commit.value) && s.tree == Some(r.validatedTreeSha)
    && Some(r.target) == s.target && r.policyVersion == s.policyVersion && r.sessionId == s.sessionId
    && EveryGatePassed(r.gates) && env.attestation(r.(attestationDigest := "")) == r.attestationDigest
    && CountMatches(s.history, r) == 1
  }

  ghost predicate EvidenceKept(env: Env, s: Session) {
    s.mode == Live && (s.state == AwaitingHumanApproval || Published(s.state)) ==>
      && s.revalidation.Some? && Validated(env, s, s.revalidation.value)
      && (s.revalidationSandboxes == [] ==> !Same(env, s.revalidation.value.commitSha, s.baseCommit))
      && Some(s.revalidation.value.sandboxId) == ValidatedSandbox(s)
  }

  /** Where the evidence now bound was made: in the selected candidate's sandbox, or in
      that of the last repair round. */
  function ValidatedSandbox(s: Session): Option<string> {
    if s.revalidationSandboxes != [] then Some(s.revalidationSandboxes[|s.revalidationSandboxes| - 1])
    else if s.selected.Some? && s.selected.value in s.sandboxes then Some(s.sandboxes[s.selected.value])
    else None
  }

  ghost predicate Kept(env: Env, s: Session) {
    GateKept(env, s) && ReviewKept(env, s) && HistoryKept(s) && RoundsKept(s) && CandidatesKept(s)
      && EvidenceKept(env, s)
  }

  // ----- every step keeps them

  /** What a step changes besides `state`, `updatedAt` and `failure`. */
  function Content(s: Session): Session { s.(state := Idle, updatedAt := "", failure := None) }

  /** Everything but the state itself depends on the content alone. */
  lemma ContentDecides(env: Env, s: Session, t: Session)
    requires Content(s) == Content(t)
    ensures ApprovedNow(env, s) == ApprovedNow(env, t) && HasCleanLiveHistory(s) == HasCleanLiveHistory(t)
    ensures forall pr :: PullRequestAccepted(env, s, pr) == PullRequestAccepted(env, t, pr)
    ensures forall r, findings :: ReviewAccepted(env, s, r, findings) == ReviewAccepted(env, t, r, findings)
    ensures forall r :: Validated(env, s, r) == Validated(env, t, r)
    ensures ApprovesEvidence(s) == ApprovesEvidence(t) && SandboxesReported(s) == SandboxesReported(t)
  {
    hide IsApprovalValid, EventChain.Filled, EveryGatePassed, CountMatches, ReviewsHead, Distinct;
    ContentFields(s, t);
  }

  lemma ContentFields(s: Session, t: Session)
    requires Content(s) == Content(t)
    ensures s.sessionId == t.sessionId && s.mode == t.mode && s.runKind == t.runKind
    ensures s.policyVersion == t.policyVersion
    ensures s.baseCommit == t.baseCommit && s.target == t.target && s.candidateIds == t.candidateIds
    ensures s.sandboxes == t.sandboxes
    ensures s.history == t.history && s.selected == t.selected && s.patchDigest == t.patchDigest
    ensures s.evidenceDigest == t.evidenceDigest
    ensures s.commit == t.commit && s.tree == t.tree && s.approval == t.approval && s.pullRequest == t.pullRequest
    ensures s.findings == t.findings && s.review == t.review && s.revalidation == t.revalidation
    ensures s.revalidationSandboxes == t.revalidationSandboxes && s.round == t.round
  {}

  lemma StopKeeps(env: Env, s: Session, t: Session)
    requires Kept(env, s) && Content(s) == Content(t) && !Terminal(s.state)
    requires ((t.state.CancelledByHuman? && t.failure == s.failure)
             || (t.state.Failed? && t.failure.Some? && t.failure.value.failedFrom == s.state))
    ensures Kept(env, t)
  {
    hide GateKept, ReviewKept, EvidenceKept, SandboxesReported, PullRequestAccepted, ReviewAccepted, WellMarked,
         AllUnmarked, RepairedIn, ApprovedNow, HasCleanLiveHistory, Validated, Distinct, ApprovesEvidence, Content;
    ContentFields(s, t);
    SignerKept(env, s);
    StoppedPromisesLittle(env, t);
    ReportedSame(s, t);
  }

  lemma StoppedPromisesLittle(env: Env, t: Session)
    requires Stopped(t.state) && (t.approval.Some? ==> t.approval.value.sessionId == t.sessionId)
    ensures GateKept(env, t) && ReviewKept(env, t) && EvidenceKept(env, t)
  {
    hide PullRequestAccepted, ReviewAccepted, ApprovedNow, HasCleanLiveHistory, Validated, ApprovesEvidence,
         ValidatedSandbox;
  }

  lemma SignerKept(env: Env, s: Session)
    requires GateKept(env, s)
    ensures s.approval.Some? ==> s.approval.value.sessionId == s.sessionId
  {
    hide ApprovedNow, HasCleanLiveHistory, ApprovesEvidence;
  }

  lemma RequestKeeps(env: Env, s: Session, t: Session)
    requires Kept(env, s) && Content(s) == Content(t) && s.state.AwaitingHumanApproval?
    requires CanCreateOrUpdatePullRequest(env, s) && t.state.CreatingPullRequest? && t.failure == s.failure
    ensures Kept(env, t)
  {
    hide SandboxesReported, PullRequestAccepted, ReviewAccepted, WellMarked, AllUnmarked, RepairedIn, ApprovedNow,
         HasCleanLiveHistory, Validated, Distinct, ApprovesEvidence, Content;
    ContentDecides(env, s, t);
    ContentFields(s, t);
  }

  lemma RepairStartKeeps(env: Env, s: Session, t: Session)
    requires Kept(env, s) && Content(s) == Content(t) && s.state.ReviewBlocked? && t.state.RepairingReviewFindings?
    requires t.failure == s.failure
    ensures Kept(env, t)
  {
    hide SandboxesReported, PullRequestAccepted, ReviewAccepted, WellMarked, AllUnmarked, RepairedIn, ApprovedNow,
         HasCleanLiveHistory, Validated, Distinct, ApprovesEvidence, Content;
    ContentDecides(env, s, t);
    ContentFields(s, t);
    ApprovedEvidence(env, s);
  }

  lemma ReadyKeeps(env: Env, s: Session, t: Session)
    requires Kept(env, s) && Content(s) == Content(t) && t.failure == s.failure
    requires (s.state.ReviewPassed? && t.state.ReadyToMerge?) || (s.state.ReadyToMerge? && t.state.Completed?)
    ensures Kept(env, t)
  {
    hide SandboxesReported, PullRequestAccepted, ReviewAccepted, WellMarked, AllUnmarked, RepairedIn, ApprovedNow,
         HasCleanLiveHistory, Validated, Distinct, ApprovesEvidence, Content;
    ContentDecides(env, s, t);
    ContentFields(s, t);
  }

  lemma EarlyKeeps(env: Env, s: Session, t: Session)
    requires Kept(env, s) && Content(s) == Content(t) && t.failure == s.failure && Early(s.state) && Early(t.state)
    requires BeforeCandidates(t.state) <==> BeforeCandidates(s.state)
    requires BeforeSandboxes(t.state) <==> BeforeSandboxes(s.state)
    ensures Kept(env, t)
  {
    hide SandboxesReported, PullRequestAccepted, ReviewAccepted, WellMarked, AllUnmarked, RepairedIn, ApprovedNow,
         HasCleanLiveHistory, Validated, Distinct, ApprovesEvidence, Content;
    ContentDecides(env, s, t);
    ContentFields(s, t);
  }

  lemma ApprovedEvidence(env: Env, s: Session)
    requires ApprovedNow(env, s)
    ensures ApprovesEvidence(s) && s.selected.Some?
  {}

  lemma CandidatesKeep(env: Env, s: Session, ids: seq<string>)
    requires Kept(env, s) && s.state.GeneratingCandidates? && Distinct(ids)
    requires |ids| >= (if s.runKind == Tournament then 3 else 1)
    ensures Kept(env, s.(state := ProvisioningSandboxes, candidateIds := ids))
  {
    hide SandboxesReported, PullRequestAccepted, ReviewAccepted, WellMarked, AllUnmarked, RepairedIn, ApprovedNow,
         HasCleanLiveHistory, Validated, Distinct, ApprovesEvidence;
    ReportedSame(s, s.(state := ProvisioningSandboxes, candidateIds := ids));
  }

  lemma SandboxesKeep(env: Env, s: Session, sandboxes: map<string, string>)
    requires Kept(env, s) && s.state.ProvisioningSandboxes? && SandboxesAccepted(env, s, sandboxes)
    ensures Kept(env, s.(state := Building, sandboxes := sandboxes))
  {
    hide SandboxesReported, PullRequestAccepted, ReviewAccepted, WellMarked, AllUnmarked, RepairedIn, ApprovedNow,
         HasCleanLiveHistory, Validated, Distinct, ApprovesEvidence, Reported, EventChain.Filled;
    AcceptedIsReported(env, s, sandboxes, s.(state := Building, sandboxes := sandboxes));
  }

  lemma AcceptedIsReported(env: Env, s: Session, sandboxes: map<string, string>, t: Session)
    requires SandboxesAccepted(env, s, sandboxes) && t.sandboxes == sandboxes && t.history == s.history
    requires t.mode == s.mode
    ensures SandboxesReported(t)
  {
    hide EventChain.Filled;
    forall c | c in sandboxes && s.mode == Live ensures Reported(t, c, sandboxes[c]) {
      assert Reported(s, c, sandboxes[c]);
    }
  }

  lemma SelectKeeps(
      env: Env, s: Session, c: string, patch: string, evidence: string, commit: string, receipt: Option<Receipt>)
    requires Kept(env, s) && s.state.Selecting? && Select(env, s, c, patch, evidence, commit, receipt).Some?
    ensures Kept(env, Select(env, s, c, patch, evidence, commit, receipt).value)
  {
    hide SandboxesReported, PullRequestAccepted, ReviewAccepted, WellMarked, AllUnmarked, RepairedIn, ApprovedNow,
         HasCleanLiveHistory, Distinct, ApprovesEvidence, EventChain.Filled, CountMatches;
    ReportedSame(s, Select(env, s, c, patch, evidence, commit, receipt).value);
  }

  lemma ApprovalKeeps(env: Env, s: Session, approval: Approval)
    requires Kept(env, s) && s.state.AwaitingHumanApproval? && approval.sessionId == s.sessionId
    ensures Kept(env, s.(approval := Some(approval)))
  {
    hide SandboxesReported, PullRequestAccepted, ReviewAccepted, WellMarked, AllUnmarked, RepairedIn, ApprovedNow,
         HasCleanLiveHistory, Distinct, ApprovesEvidence, CountMatches;
    ReportedSame(s, s.(approval := Some(approval)));
  }

  lemma PullRequestKeeps(env: Env, s: Session, pr: PullRequest)
    requires Kept(env, s) && s.state.CreatingPullRequest? && PullRequestAccepted(env, s, pr)
    ensures Kept(env, s.(state := AwaitingCodeRabbit, pullRequest := Some(pr), findings := [], review := None))
  {
    hide SandboxesReported, ReviewAccepted, WellMarked, AllUnmarked, RepairedIn, IsApprovalValid, Distinct,
         ApprovesEvidence, CountMatches, EveryGatePassed;
    ReportedSame(s, s.(state := AwaitingCodeRabbit, pullRequest := Some(pr), findings := [], review := None));
  }

  function WithFindings(s: Session, findings: seq<Finding>, review: ReviewReceipt): Session {
    s.(state := if review.passed && GatePassed(findings) then ReviewPassed else ReviewBlocked,
       findings := findings, review := Some(review))
  }

  lemma FindingsKeep(env: Env, s: Session, findings: seq<Finding>, review: ReviewReceipt)
    requires Kept(env, s) && s.state.AwaitingCodeRabbit? && ReviewAccepted(env, s, review, findings)
    ensures Kept(env, WithFindings(s, findings, review))
  {
    hide SandboxesReported, WellMarked, AllUnmarked, RepairedIn, IsApprovalValid, ApprovesEvidence, CountMatches,
         EveryGatePassed, ReviewsHead, EventChain.Filled, Distinct, GatePassed;
    ReportedSame(s, WithFindings(s, findings, review));
  }

  lemma RepairKeeps(env: Env, s: Session, c: string, patch: string, at: string)
    requires Kept(env, s) && s.state.RepairingReviewFindings? && Repair(env, s, c, patch, at).Some?
    ensures Kept(env, Repair(env, s, c, patch, at).value)
  {
    hide SandboxesReported, PullRequestAccepted, ReviewAccepted, WellMarked, AllUnmarked, RepairedIn, IsApprovalValid,
         HasCleanLiveHistory, Validated, Distinct, RepairBinding, ApprovedNow;
    ReportedSame(s, Repair(env, s, c, patch, at).value);
  }

  lemma RevalidateKeeps(env: Env, s: Session, r: Receipt, at: string)
    requires Kept(env, s) && s.state.Revalidating? && Revalidate(env, s, r, at).Some?
    ensures Kept(env, Revalidate(env, s, r, at).value)
  {
    hide SandboxesReported, PullRequestAccepted, ReviewAccepted, WellMarked, AllUnmarked, HasCleanLiveHistory,
         Reinvalidated, ApprovedNow, ApprovesEvidence, EventChain.Filled, RepairedIn, Distinct, SandboxIds, RunIds,
         UsedSandboxes, RoundsKept;
    assert Validated(env, Revalidate(env, s, r, at).value, r);
    assert Revalidate(env, s, r, at).value.revalidationSandboxes != [];
    SameSigner(env, s, r, at);
    RoundKeeps(env, s, r, at);
    ReportedSame(s, Revalidate(env, s, r, at).value);
  }

  lemma SameSigner(env: Env, s: Session, r: Receipt, at: string)
    ensures s.approval.Some? <==> Reinvalidated(env, s, r, at).Some?
    ensures s.approval.Some? ==> Reinvalidated(env, s, r, at).value.sessionId == s.approval.value.sessionId
  {
    hide IsApprovalValid;
  }

  lemma RoundKeeps(env: Env, s: Session, r: Receipt, at: string)
    requires RoundsKept(s) && s.state.Revalidating? && s.selected.Some? && Revalidate(env, s, r, at).Some?
    ensures RoundsKept(Revalidate(env, s, r, at).value)
  {
    hide Reinvalidated, ApprovedNow, EventChain.Filled, RepairedIn, SandboxIds, RunIds, CountMatches, AllUnmarked,
         Distinct, EveryGatePassed;
    RepairAttemptFound(s.history, r);
    DistinctGrows(s.revalidationSandboxes, r.sandboxId);
  }

  lemma DistinctGrows(xs: seq<string>, x: string)
    requires Distinct(xs) && x !in xs
    ensures Distinct(xs + [x])
  {}

  /** A receipt accepted for a repair has its completed review-repair attempt. */
  lemma {:induction false} RepairAttemptFound(history: seq<Attempt>, r: Receipt)
    requires CountMatches(history, r) > 0 && r.purpose == RepairOfReview
    ensures RepairedIn(history, r.sandboxId)
  {
    var n := |history| - 1;
    if !Matches(history[n], r) {
      RepairAttemptFound(history[..n], r);
      var i :| 0 <= i < n && history[..n][i].reserved && history[..n][i].response.disposition == Finished
        && history[..n][i].response.purpose == ReviewRepair && history[..n][i].response.sandboxId == r.sandboxId;
      assert history[i] == history[..n][i];
    }
  }

  lemma RecordKeeps(env: Env, s: Session, r: Response, at: string)
    requires Kept(env, s) && Record(env, s, r, at).Some?
    ensures Kept(env, Record(env, s, r, at).value)
  {
    hide SandboxesReported, PullRequestAccepted, ReviewAccepted, WellMarked, AllUnmarked, HasCleanLiveHistory,
         ApprovedNow, RepairedIn, Validated, Distinct, Marked, RoundsKept, CandidatesKept;
    HistoryGrows(s.history, r);
    RecordKeepsRounds(env, s, r, at);
  }

  lemma RecordKeepsRounds(env: Env, s: Session, r: Response, at: string)
    requires RoundsKept(s) && CandidatesKept(s) && Record(env, s, r, at).Some?
    ensures RoundsKept(Record(env, s, r, at).value) && CandidatesKept(Record(env, s, r, at).value)
  {
    hide SandboxesReported, PullRequestAccepted, ReviewAccepted, WellMarked, AllUnmarked, HasCleanLiveHistory,
         ApprovedNow, RepairedIn, Validated, Distinct, Marked, ApprovesEvidence;
    ReportedGrows(s, Record(env, s, r, at).value);
    forall i | 0 <= i < |s.revalidationSandboxes|
      ensures RepairedIn(s.history + [Marked(s.history, r)], s.revalidationSandboxes[i])
    {
      RepairedInGrows(s.history, Marked(s.history, r), s.revalidationSandboxes[i]);
    }
  }

  lemma ReportedGrows(s: Session, t: Session)
    requires SandboxesReported(s) && t.sandboxes == s.sandboxes && t.mode == s.mode && s.history <= t.history
    ensures SandboxesReported(t)
  {
    hide EventChain.Filled;
    forall c | c in s.sandboxes && s.mode == Live ensures Reported(t, c, s.sandboxes[c]) {
      assert Reported(s, c, s.sandboxes[c]);
      var i :| 0 <= i < |s.history| && s.history[i].response.candidateId == c
        && s.history[i].response.sandboxId == s.sandboxes[c]
        && s.history[i].response.purpose != ReviewRepair;
      assert t.history[i] == s.history[i];
    }
  }

  /** What sandboxes were reported does not change with anything but them. */
  lemma ReportedSame(s: Session, t: Session)
    requires t.sandboxes == s.sandboxes && t.mode == s.mode && s.history == t.history
    ensures SandboxesReported(s) == SandboxesReported(t)
  {
    if SandboxesReported(s) { ReportedGrows(s, t); }
    if SandboxesReported(t) { ReportedGrows(t, s); }
  }

  lemma RepairedInGrows(history: seq<Attempt>, a: Attempt, sandbox: string)
    requires RepairedIn(history, sandbox)
    ensures RepairedIn(history + [a], sandbox)
  {
    var i :| 0 <= i < |history| && history[i].reserved && history[i].response.disposition == Finished
        && history[i].response.purpose == ReviewRepair && history[i].response.sandboxId == sandbox;
    assert (history + [a])[i] == history[i];
  }

  lemma HistoryGrows(history: seq<Attempt>, r: Response)
    requires Consistent(r)
    ensures WellMarked(history) ==> WellMarked(history + [Marked(history, r)])
    ensures AllUnmarked(history) && Marked(history, r).reserved ==> AllUnmarked(history + [Marked(history, r)])
  {
    MarkedFields(history, r);
    hide Marked;
    var all := history + [Marked(history, r)];
    assert all[..|history|] == history;
    assert forall i :: 0 <= i < |history| ==> all[i] == history[i] && all[..i] == history[..i];
  }

  /** A recorded attempt keeps the response and is reserved exactly when it carries no
      mark. */
  lemma MarkedFields(history: seq<Attempt>, r: Response)
    ensures Marked(history, r).response == r && (Marked(history, r).reserved <==> Unmarked(Marked(history, r)))
  {}

  lemma TouchKeeps(env: Env, s: Session, at: string)
    requires Kept(env, s)
    ensures Kept(env, s.(updatedAt := at))
  {
    var t := s.(updatedAt := at);
    hide SandboxesReported, PullRequestAccepted, ReviewAccepted, WellMarked, AllUnmarked, RepairedIn, ApprovedNow,
         HasCleanLiveHistory, Validated, Distinct, ApprovesEvidence, Content;
    ContentSame(s, t);
    ContentDecides(env, s, t);
  }

  lemma ContentSame(s: Session, t: Session)
    requires t == s.(state := t.state, updatedAt := t.updatedAt, failure := t.failure)
    ensures Content(s) == Content(t)
  {}

  /** The moves that change no content. */
  lemma PlainStepKeeps(env: Env, s: Session, e: Event, at: string)
    requires Kept(env, s) && !e.Fail? && !e.Cancel? && !e.AttemptRecorded? && Advance(env, s, e, at).Some?
    requires e.Start? || e.RepositoryIngested? || e.IncidentAnalyzed? || e.BuildsFinished? || e.TestsFinished?
             || e.ScoringFinished?
      || e.PrCreationRequested? || e.RepairStarted? || e.MarkReadyToMerge? || e.Complete?
    ensures Kept(env, Advance(env, s, e, at).value)
  {
    hide Kept, CanEnterReadyToMerge, CanCreateOrUpdatePullRequest, Select, Repair, Revalidate, Content;
    var t := Advance(env, s, e, at).value;
    ContentSame(s, t);
    match e
    case PrCreationRequested => RequestKeeps(env, s, t);
    case RepairStarted => RepairStartKeeps(env, s, t);
    case MarkReadyToMerge => ReadyKeeps(env, s, t);
    case Complete => ReadyKeeps(env, s, t);
    case _ => EarlyKeeps(env, s, t);
  }

  lemma AdvanceKeeps(env: Env, s: Session, e: Event, at: string)
    requires Kept(env, s) && Advance(env, s, e, at).Some?
    ensures Kept(env, Advance(env, s, e, at).value)
  {
    hide Kept, CanEnterReadyToMerge, CanCreateOrUpdatePullRequest, SandboxesAccepted, Select, PullRequestAccepted,
         ReviewAccepted, Repair, Revalidate, Distinct, GatePassed;
    match e
    case CandidatesGenerated(ids) => CandidatesKeep(env, s, ids);
    case SandboxesProvisioned(sandboxes) => SandboxesKeep(env, s, sandboxes);
    case CandidateSelected(c, patch, evidence, commit, receipt) =>
      SelectKeeps(env, s, c, patch, evidence, commit, receipt);
    case ApprovalRecorded(approval) => ApprovalKeeps(env, s, approval);
    case PrCreatedOrUpdated(pr) => PullRequestKeeps(env, s, pr);
    case ReviewFindingsReceived(findings, review) => FindingsKeep(env, s, findings, review);
    case RepairGenerated(c, patch) => RepairKeeps(env, s, c, patch, at);
    case RevalidationPassed(r) => RevalidateKeeps(env, s, r, at);
    case AttemptRecorded(_) =>
    case Fail(_, _, _) =>
    case Cancel =>
    case _ => PlainStepKeeps(env, s, e, at);
  }

  lemma StepKeeps(env: Env, s: Session, e: Event, at: string)
    requires Kept(env, s) && Transition(env, s, e, at).Some?
    ensures Kept(env, Transition(env, s, e, at).value)
  {
    hide Kept, Advance, Record;
    match e
    case AttemptRecorded(r) => RecordKeeps(env, s, r, at);
    case Fail(_, _, _) =>
      ContentSame(s, Transition(env, s, e, at).value);
      StopKeeps(env, s, Transition(env, s, e, at).value);
    case Cancel =>
      ContentSame(s, Transition(env, s, e, at).value);
      StopKeeps(env, s, Transition(env, s, e, at).value);
    case _ =>
      AdvanceKeeps(env, s, e, at);
      TouchKeeps(env, Advance(env, s, e, at).value, at);
  }

  /** A session about to start: new, over attempts that an earlier start recorded. The
      driver refuses to start over attempts that are not all clean. */
  ghost predicate Fresh(s: Session) {
    && s == NewSession(s.sessionId, s.mode, s.runKind, s.policyVersion, s.baseCommit, s.target, s.history, s.updatedAt)
    && WellMarked(s.history) && AllUnmarked(s.history)
  }

  /** `createValidationSession` makes such a session. */
  lemma CreatedIsFresh(
      id: string, mode: Mode, runKind: RunKind, policy: string, base: string, target: Option<Target>, at: string)
    ensures Fresh(NewSession(id, mode, runKind, policy, base, target, [], at))
  {}

  lemma FreshIsKept(env: Env, s: Session)
    requires Fresh(s)
    ensures Kept(env, s)
  {}

  /** Every reachable session satisfies every invariant. */
  lemma {:induction false} RunKeeps(env: Env, start: Session, steps: seq<Timed>)
    requires Fresh(start) && Run(env, start, steps).Some?
    ensures Kept(env, Run(env, start, steps).value)
  {
    hide Kept, Transition, Fresh;
    if steps == [] {
      FreshIsKept(env, start);
    } else {
      var n := |steps| - 1;
      RunKeeps(env, start, steps[..n]);
      StepKeeps(env, Run(env, start, steps[..n]).value, steps[n].event, steps[n].at);
    }
  }

  /** Some run from a fresh session leads here. */
  ghost predicate Reachable(env: Env, s: Session) { exists start :: Fresh(start) && Reaches(env, start, s) }

  lemma FreshIsReachable(env: Env, s: Session)
    requires Fresh(s)
    ensures Reachable(env, s)
  {
    hide Fresh, Reaches;
    StartReaches(env, s);
  }

  lemma ReachableMore(env: Env, s: Session, e: Event, at: string)
    requires Reachable(env, s) && Transition(env, s, e, at).Some?
    ensures Reachable(env, Transition(env, s, e, at).value)
  {
    hide Fresh, Reaches, Transition;
    var start :| Fresh(start) && Reaches(env, start, s);
    ReachesMore(env, start, s, e, at);
  }

  lemma ReachableIsKept(env: Env, s: Session)
    requires Reachable(env, s)
    ensures Kept(env, s)
  {
    hide Fresh, Kept, Transition;
    var start :| Fresh(start) && Reaches(env, start, s);
    var steps :| Run(env, start, steps) == Some(s);
    RunKeeps(env, start, steps);
  }
}
