/** What whole runs of the validation session guarantee. */
module SessionRuns {
  import opened Options
  import opened Approvals
  import opened ValidationSession
  import opened SessionSafety
  import EventChain

  // ----- readiness

  /** Passing the review is enough to be ready: in a reachable session the last gate
      never refuses. */
  lemma ReviewPassedIsReady(env: Env, start: Session, steps: seq<Timed>, at: string)
    requires Fresh(start) && Run(env, start, steps).Some?
    ensures var s := Run(env, start, steps).value;
      s.state == ReviewPassed ==>
        && CanEnterReadyToMerge(env, s)
        && Transition(env, s, MarkReadyToMerge, at) == Some(s.(state := ReadyToMerge, updatedAt := at))
  {
    hide Kept, Transition, CanEnterReadyToMerge, Fresh, Run;
    RunKeeps(env, start, steps);
    var s := Run(env, start, steps).value;
    if s.state == ReviewPassed {
      KeptAllowsReady(env, s);
      MarkedReady(env, s, at);
    }
  }

  lemma MarkedReady(env: Env, s: Session, at: string)
    requires CanEnterReadyToMerge(env, s)
    ensures Transition(env, s, MarkReadyToMerge, at) == Some(s.(state := ReadyToMerge, updatedAt := at))
  {
    hide GatePassed, ReviewsHead, ApprovedNow, HeadMatches, HasCleanLiveHistory;
  }

  lemma KeptAllowsReady(env: Env, s: Session)
    requires Kept(env, s) && s.state == ReviewPassed
    ensures CanEnterReadyToMerge(env, s)
  {
    hide IsApprovalValid, ReviewsHead, HeadMatches, GatePassed, HistoryKept, RoundsKept, CandidatesKept, EvidenceKept;
  }

  /** What a merge rests on. */
  ghost predicate Earned(env: Env, s: Session) { EarnedPublication(env, s) && EarnedReview(env, s) }

  /** A standing approval of exactly what the session binds, and the open pull request for
      it on the ingested base. */
  ghost predicate EarnedPublication(env: Env, s: Session) {
    && s.approval.Some? && s.pullRequest.Some? && s.target.Some? && s.commit.Some?
    && var a, pr := s.approval.value, s.pullRequest.value;
    && a.decision == Approved && a.invalidatedAt.None? && a.sessionId == s.sessionId
    && Some(a.bound.candidateId) == s.selected && Some(a.bound.patchDigest) == s.patchDigest
    && Some(a.bound.evidenceDigest) == s.evidenceDigest && Some(a.bound.commitSha) == s.commit
    && a.bound.policyVersion == s.policyVersion && env.digests.target(a.bound.target) == env.digests.target(s.target)
    && pr.status == Open && Same(env, pr.headSha, a.bound.commitSha) && Same(env, pr.baseSha, s.baseCommit)
    && s.target == Some(Target(pr.owner, pr.repository, pr.baseBranch))
  }

  /** A passing review of the head of that pull request, with no finding left that blocks. */
  ghost predicate EarnedReview(env: Env, s: Session) {
    && s.pullRequest.Some? && s.review.Some?
    && var pr, r := s.pullRequest.value, s.review.value;
    && r.passed && Same(env, r.headSha, pr.headSha) && Same(env, r.observedBaseSha, pr.baseSha)
    && r.pullNumber == pr.number
    && r.evidenceIds != [] && Distinct(r.evidenceIds)
    && (forall i :: 0 <= i < |s.findings| ==>
          && (s.findings[i].resolved || s.findings[i].severity in {Info, Low, Medium})
          && s.findings[i].sessionId == s.sessionId && Same(env, s.findings[i].sourceVersion, pr.headSha))
  }

  /** The validated evidence a live merge rests on: the tree and commit of the pull
      request are those of a receipt that passed its build, unit tests, safety tests,
      integrity checks, scoring and eligibility; the receipt names a completed attempt of
      the history, and every attempt of it is clean. */
  ghost predicate EarnedLive(env: Env, s: Session, r: Receipt) {
    && s.pullRequest.Some? && s.approval.Some?
    && Same(env, r.commitSha, s.pullRequest.value.headSha)
    && Same(env, r.validatedTreeSha, s.pullRequest.value.headTreeSha)
    && r.evidenceDigest == s.approval.value.bound.evidenceDigest && r.candidateId == s.approval.value.bound.candidateId
    && r.gates.build && r.gates.unitTests && r.gates.safetyTests
    && r.gates.integrity && r.gates.scored && r.gates.eligible
    && (exists i :: 0 <= i < |s.history| && CompletedFor(s.history[i], r)) && CountMatches(s.history, r) == 1
    && Some(r.sandboxId) == ValidatedSandbox(s)
    && (s.revalidationSandboxes == [] ==> !Same(env, s.pullRequest.value.headSha, s.baseCommit))
    && (forall i :: 0 <= i < |s.history| ==> LeftNothing(s.history[i]))
  }

  /** The attempt completed, in the sandbox and run the receipt names, for its candidate. */
  predicate CompletedFor(a: Attempt, r: Receipt) {
    && a.reserved && a.response.disposition == Finished
    && a.response.candidateId == r.candidateId && a.response.sandboxId == r.sandboxId
    && a.response.runId == r.daytonaRunId
    && (a.response.purpose == ReviewRepair <==> r.purpose == RepairOfReview)
  }

  /** The attempt reused no identity, and it completed, or failed in a sandbox that is gone
      and may be retried. */
  predicate LeftNothing(a: Attempt) {
    && a.reserved && !a.duplicateSandbox && !a.duplicateRun
    && (a.response.disposition == Finished || (a.response.disposition == FailedDestroyed && a.response.retryable))
  }

  lemma {:induction false} CountedIsCompleted(history: seq<Attempt>, r: Receipt)
    requires CountMatches(history, r) > 0
    ensures exists i :: 0 <= i < |history| && CompletedFor(history[i], r)
  {
    var n := |history| - 1;
    if Matches(history[n], r) {
      assert CompletedFor(history[n], r);
    } else {
      CountedIsCompleted(history[..n], r);
      var i :| 0 <= i < n && CompletedFor(history[..n][i], r);
      assert CompletedFor(history[i], r);
    }
  }

  /** Whatever the run, a session that is ready to merge or completed has earned it. */
  lemma ReadyIsEarned(env: Env, start: Session, steps: seq<Timed>)
    requires Fresh(start) && Run(env, start, steps).Some?
    requires Run(env, start, steps).value.state in {ReadyToMerge, Completed}
    ensures var s := Run(env, start, steps).value;
      Earned(env, s) && (s.mode == Live ==> s.revalidation.Some? && EarnedLive(env, s, s.revalidation.value))
  {
    hide Earned, EarnedLive, Kept;
    RunKeeps(env, start, steps);
    KeptIsEarned(env, Run(env, start, steps).value);
    if Run(env, start, steps).value.mode == Live { KeptIsEarnedLive(env, Run(env, start, steps).value); }
  }

  lemma KeptIsEarned(env: Env, s: Session)
    requires Kept(env, s) && (s.state.ReadyToMerge? || s.state.Completed?)
    ensures Earned(env, s)
  {
    hide HistoryKept, RoundsKept, CandidatesKept, EvidenceKept, EventChain.Filled, SourceIsConsistent,
         HasCleanLiveHistory;
  }

  lemma KeptIsEarnedLive(env: Env, s: Session)
    requires Kept(env, s) && (s.state.ReadyToMerge? || s.state.Completed?) && s.mode == Live
    ensures s.revalidation.Some? && EarnedLive(env, s, s.revalidation.value)
  {
    CountedIsCompleted(s.history, s.revalidation.value);
    hide HistoryKept, RoundsKept, CandidatesKept, EventChain.Filled, SourceIsConsistent, ReviewAccepted,
         CompletedFor, CountMatches;
  }

  /** A review blocks only on an unresolved finding of high or critical severity. */
  lemma BlockedIsWarranted(env: Env, start: Session, steps: seq<Timed>)
    requires Fresh(start) && Run(env, start, steps).Some?
    requires Run(env, start, steps).value.state == ReviewBlocked
    ensures var s := Run(env, start, steps).value;
      exists i :: 0 <= i < |s.findings| && !s.findings[i].resolved && s.findings[i].severity in {High, Critical}
  {
    hide Kept, Transition;
    RunKeeps(env, start, steps);
    KeptIsWarranted(env, Run(env, start, steps).value);
  }

  lemma KeptIsWarranted(env: Env, s: Session)
    requires Kept(env, s) && s.state == ReviewBlocked
    ensures exists i :: 0 <= i < |s.findings| && !s.findings[i].resolved && s.findings[i].severity in {High, Critical}
  {
    hide HistoryKept, RoundsKept, CandidatesKept, EvidenceKept, GateKept, EventChain.Filled, SourceIsConsistent,
         PullRequestAccepted, ReviewsHead;
  }

  /** An accepted review by manual attestation names somebody, in a text that is not blank,
      exactly when it carries a name at all. */
  lemma ManualReviewNamesAttester(env: Env, s: Session, findings: seq<Finding>, review: ReviewReceipt, at: string)
    requires Transition(env, s, ReviewFindingsReceived(findings, review), at).Some? && review.provider == ManualVerified
    ensures (exists name :: review.attestedBy == Some(name) && EventChain.Filled(name)) <==> review.attestedBy.Some?
  {
    AcceptedReviewIsConsistent(env, s, findings, review, at);
    hide EventChain.Filled, Transition;
    if review.attestedBy.Some? { assert EventChain.Filled(review.attestedBy.value); }
  }

  lemma AcceptedReviewIsConsistent(env: Env, s: Session, findings: seq<Finding>, review: ReviewReceipt, at: string)
    requires Transition(env, s, ReviewFindingsReceived(findings, review), at).Some?
    ensures SourceIsConsistent(env, review)
  {
    hide SourceIsConsistent, ReviewsHead, FindingIsBound, GatePassed, Distinct, EventChain.Filled;
  }

  /** With digests that are hashes of the canonical text, the approval of a merge is
      bound to precisely what the session binds, or the texts of two targets clash. */
  lemma ReadyApprovalIsExact(env: Env, start: Session, steps: seq<Timed>, hash: string -> string)
    requires env.digests == TextDigests(hash)
    requires Fresh(start) && Run(env, start, steps).Some?
    requires Run(env, start, steps).value.state in {ReadyToMerge, Completed}
    ensures var s := Run(env, start, steps).value;
      && s.approval.Some?
      && (|| CurrentBinding(s) == Some(s.approval.value.bound)
          || EventChain.Clash(hash, TargetText(s.approval.value.bound.target), TargetText(s.target)))
  {
    hide TargetText, BindingDigest, Kept;
    ReadyIsEarned(env, start, steps);
    var s := Run(env, start, steps).value;
    TargetDigestCommits(hash, s.approval.value.bound.target, s.target);
  }

  // ----- one approval for each validation

  predicate OnlyApprovals(steps: seq<Timed>) {
    forall i :: 0 <= i < |steps| ==> steps[i].event.ApprovalRecorded?
  }

  predicate NoRequest(steps: seq<Timed>) {
    forall i :: 0 <= i < |steps| ==> !steps[i].event.PrCreationRequested?
  }

  /** From a session that awaits approval, one step that does not request publication
      either records an approval or stops the session. */
  lemma AwaitingStep(env: Env, s: Session, e: Event, at: string)
    requires s.state.AwaitingHumanApproval? && !e.PrCreationRequested? && Transition(env, s, e, at).Some?
    ensures var t := Transition(env, s, e, at).value;
      || t.state.Failed? || t.state.CancelledByHuman?
      || (e.ApprovalRecorded? && t == s.(approval := Some(e.approval), updatedAt := at))
  {
    hide Select, Repair, Revalidate, CanCreateOrUpdatePullRequest, CanEnterReadyToMerge, Marked;
  }

  lemma StoppedStep(env: Env, s: Session, e: Event, at: string)
    requires Stopped(s.state) && Transition(env, s, e, at).Some?
    ensures Stopped(Transition(env, s, e, at).value.state)
  {
    hide Advance, Marked, ResponseAccepted;
  }

  /** What becomes of an awaiting session over steps that do not request publication. */
  predicate OnlyApproved(s: Session, steps: seq<Timed>, t: Session) {
    || Stopped(t.state)
    || (OnlyApprovals(steps) &&
        if steps == [] then t == s
        else t == s.(approval := Some(steps[|steps| - 1].event.approval), updatedAt := steps[|steps| - 1].at))
  }

  lemma OnlyApprovedMore(env: Env, s: Session, steps: seq<Timed>, u: Session, e: Event, at: string)
    requires s.state.AwaitingHumanApproval? && OnlyApproved(s, steps, u)
    requires !e.PrCreationRequested? && Transition(env, u, e, at).Some?
    ensures OnlyApproved(s, steps + [Timed(e, at)], Transition(env, u, e, at).value)
  {
    hide Transition;
    if Stopped(u.state) { StoppedStep(env, u, e, at); } else { AwaitingStep(env, u, e, at); }
  }

  /** While publication is not requested, an awaiting session only records approvals. */
  lemma {:induction false} AwaitingRun(env: Env, s: Session, steps: seq<Timed>)
    requires s.state.AwaitingHumanApproval? && NoRequest(steps) && Run(env, s, steps).Some?
    ensures OnlyApproved(s, steps, Run(env, s, steps).value)
  {
    hide Transition;
    if steps != [] {
      hide OnlyApproved;
      var n := |steps| - 1;
      assert steps == steps[..n] + [Timed(steps[n].event, steps[n].at)];
      AwaitingRun(env, s, steps[..n]);
      OnlyApprovedMore(env, s, steps[..n], Run(env, s, steps[..n]).value, steps[n].event, steps[n].at);
    }
  }

  /** Publication is only requested on a valid approval, in a session awaiting it. */
  lemma RequestNeeds(env: Env, s: Session, at: string)
    requires Transition(env, s, PrCreationRequested, at).Some?
    ensures s.state.AwaitingHumanApproval? && ApprovedNow(env, s) && HasCleanLiveHistory(s)
  {
    hide IsApprovalValid;
  }

  /** Once a session awaits approval without a usable one, the next request to publish
      is preceded by a newly recorded approval of exactly the evidence then on record. */
  lemma RequestFollowsApproval(env: Env, s: Session, steps: seq<Timed>, at: string)
    requires s.state.AwaitingHumanApproval? && !ApprovedNow(env, s) && NoRequest(steps)
    requires Run(env, s, steps + [Timed(PrCreationRequested, at)]).Some?
    ensures steps != [] && OnlyApprovals(steps)
    ensures CurrentBinding(s).Some?
    ensures IsApprovalValid(env.digests, Some(steps[|steps| - 1].event.approval), CurrentBinding(s).value)
  {
    hide Transition, IsApprovalValid, HasCleanLiveHistory;
    var request := Timed(PrCreationRequested, at);
    assert (steps + [request])[..|steps|] == steps;
    var t := Run(env, s, steps).value;
    RequestNeeds(env, t, at);
    AwaitingRun(env, s, steps);
    assert CurrentBinding(t) == CurrentBinding(s);
  }

  lemma RevalidationShape(env: Env, s: Session, r: Receipt, at: string)
    requires Transition(env, s, RevalidationPassed(r), at).Some?
    ensures s.state.Revalidating? && Revalidate(env, s, r, at).Some?
    ensures Transition(env, s, RevalidationPassed(r), at).value == Revalidate(env, s, r, at).value.(updatedAt := at)
  {
    hide Revalidate;
  }

  lemma SpentApproval(env: Env, s: Session, r: Receipt, at: string)
    requires ApprovesEvidence(s) && Revalidate(env, s, r, at).Some?
    ensures var t := Revalidate(env, s, r, at).value;
      t.approval.Some? && t.approval.value.invalidatedAt.Some? && s.evidenceDigest != Some(r.evidenceDigest)
  {
    hide HasUniqueReservedAttempt, UsedSandboxes, EveryGatePassed;
    FilledIsNotEmpty(r.candidateId);
  }

  lemma RevalidatedBinding(env: Env, s: Session, r: Receipt, at: string)
    requires Revalidate(env, s, r, at).Some?
    ensures var t := Revalidate(env, s, r, at).value;
      && t.state.AwaitingHumanApproval?
      && t.evidenceDigest == Some(r.evidenceDigest) && t.patchDigest == Some(r.patchDigest)
      && t.commit == Some(r.commitSha)
  {
    hide RevalidationAccepted, Reinvalidated;
  }

  lemma RepairMovesHead(env: Env, s: Session, r: Receipt, at: string)
    requires Revalidate(env, s, r, at).Some? && s.pullRequest.Some?
    ensures !Same(env, r.commitSha, s.pullRequest.value.headSha)
  {
    hide Reinvalidated, HasUniqueReservedAttempt, UsedSandboxes, EveryGatePassed, EventChain.Filled;
  }

  lemma InvalidatedIsRefused(env: Env, s: Session)
    requires s.approval.Some? && s.approval.value.invalidatedAt.Some?
    ensures !ApprovedNow(env, s)
  {}

  /** After a repair round passed, the approval carried over is invalid for good, even
      when the repaired patch digest is the old one; evidence and head are new. */
  lemma RevalidationSpendsApproval(env: Env, s: Session, r: Receipt, at: string)
    requires Kept(env, s) && Transition(env, s, RevalidationPassed(r), at).Some?
    ensures var t := Transition(env, s, RevalidationPassed(r), at).value;
      && t.state.AwaitingHumanApproval? && t.approval.Some? && t.approval.value.invalidatedAt.Some?
      && !ApprovedNow(env, t)
      && t.evidenceDigest == Some(r.evidenceDigest) && t.patchDigest == Some(r.patchDigest)
      && t.commit == Some(r.commitSha)
      && s.evidenceDigest != t.evidenceDigest
      && s.pullRequest.Some? && !Same(env, r.commitSha, s.pullRequest.value.headSha)
  {
    hide ReviewKept, HistoryKept, RoundsKept, CandidatesKept, EvidenceKept, Transition, Revalidate, ApprovedNow,
         ApprovesEvidence;
    RevalidationShape(env, s, r, at);
    SpentApproval(env, s, r, at);
    RevalidatedBinding(env, s, r, at);
    InvalidatedIsRefused(env, Transition(env, s, RevalidationPassed(r), at).value);
    RepairMovesHead(env, s, r, at);
  }

  lemma FilledIsNotEmpty(text: string)
    ensures EventChain.Filled(text) ==> text != ""
  {}

  /** In every run, between a passed revalidation and the next request to publish there
      is a recorded approval, and the last one approves that revalidation's evidence,
      patch and commit. */
  lemma RepairNeedsNewApproval(
      env: Env, start: Session, before: seq<Timed>, r: Receipt, rAt: string, steps: seq<Timed>, at: string)
    requires Fresh(start) && NoRequest(steps)
    requires Run(env, start,
                 before + [Timed(RevalidationPassed(r), rAt)] + (steps + [Timed(PrCreationRequested, at)])).Some?
    ensures steps != [] && OnlyApprovals(steps)
    ensures var a := steps[|steps| - 1].event.approval;
      && a.decision == Approved && a.invalidatedAt.None?
      && a.bound.evidenceDigest == r.evidenceDigest && a.bound.patchDigest == r.patchDigest
      && a.bound.commitSha == r.commitSha
  {
    hide Transition, Kept, Fresh, ApprovedNow;
    var passed := Timed(RevalidationPassed(r), rAt);
    RunAppend(env, start, before + [passed], steps + [Timed(PrCreationRequested, at)]);
    assert (before + [passed])[..|before|] == before;
    RunKeeps(env, start, before);
    var s := Run(env, start, before).value;
    RevalidationSpendsApproval(env, s, r, rAt);
    var t := Run(env, start, before + [passed]).value;
    RequestFollowsApproval(env, t, steps, at);
    BindingFields(t);
  }

  lemma BindingFields(s: Session)
    requires CurrentBinding(s).Some?
    ensures var b := CurrentBinding(s).value;
      Some(b.evidenceDigest) == s.evidenceDigest && Some(b.patchDigest) == s.patchDigest
        && Some(b.commitSha) == s.commit && Some(b.candidateId) == s.selected
  {}

  /** The same for the first selection. */
  lemma SelectionNeedsApproval(
      env: Env, start: Session, before: seq<Timed>, chosen: Event, cAt: string, steps: seq<Timed>, at: string)
    requires Fresh(start) && NoRequest(steps) && chosen.CandidateSelected?
    requires Run(env, start, before + [Timed(chosen, cAt)] + (steps + [Timed(PrCreationRequested, at)])).Some?
    ensures steps != [] && OnlyApprovals(steps)
    ensures var a := steps[|steps| - 1].event.approval;
      && a.decision == Approved && a.invalidatedAt.None? && a.bound.candidateId == chosen.candidateId
      && a.bound.evidenceDigest == chosen.evidenceDigest && a.bound.patchDigest == chosen.patchDigest
      && a.bound.commitSha == chosen.commitSha
  {
    hide Transition, Kept, Fresh, ApprovedNow;
    var made := Timed(chosen, cAt);
    RunAppend(env, start, before + [made], steps + [Timed(PrCreationRequested, at)]);
    assert (before + [made])[..|before|] == before;
    RunKeeps(env, start, before);
    SelectionHasNoApproval(env, Run(env, start, before).value, chosen, cAt);
    var t := Run(env, start, before + [made]).value;
    RequestFollowsApproval(env, t, steps, at);
    BindingFields(t);
  }

  lemma SelectionHasNoApproval(env: Env, s: Session, chosen: Event, at: string)
    requires Kept(env, s) && chosen.CandidateSelected? && Transition(env, s, chosen, at).Some?
    ensures var t := Transition(env, s, chosen, at).value;
      && t.state.AwaitingHumanApproval? && !ApprovedNow(env, t) && t.selected == Some(chosen.candidateId)
      && t.evidenceDigest == Some(chosen.evidenceDigest) && t.patchDigest == Some(chosen.patchDigest)
      && t.commit == Some(chosen.commitSha)
  {
    hide GateKept, ReviewKept, HistoryKept, CandidatesKept, EvidenceKept, InitialReceiptAccepted, RepairedIn, Distinct;
  }

  // ----- the attempt history

  ghost predicate SameSession(s: Session, t: Session) {
    && t.sessionId == s.sessionId && t.mode == s.mode && t.runKind == s.runKind && t.policyVersion == s.policyVersion
    && t.baseCommit == s.baseCommit && t.target == s.target
  }

  lemma RecordExtends(env: Env, s: Session, r: Response, at: string)
    requires Record(env, s, r, at).Some?
    ensures var t := Record(env, s, r, at).value;
      SameSession(s, t) && t.history == s.history + [Marked(s.history, r)]
        && t.revalidationSandboxes == s.revalidationSandboxes
  {
    hide Marked, ResponseAccepted;
  }

  lemma SelectionExtends(
      env: Env, s: Session, c: string, patch: string, evidence: string, commit: string, receipt: Option<Receipt>)
    requires Select(env, s, c, patch, evidence, commit, receipt).Some?
    ensures var t := Select(env, s, c, patch, evidence, commit, receipt).value;
      SameSession(s, t) && t.history == s.history && t.revalidationSandboxes == s.revalidationSandboxes
  {
    hide InitialReceiptAccepted;
  }

  lemma RepairExtends(env: Env, s: Session, c: string, patch: string, at: string)
    requires Repair(env, s, c, patch, at).Some?
    ensures var t := Repair(env, s, c, patch, at).value;
      SameSession(s, t) && t.history == s.history && t.revalidationSandboxes == s.revalidationSandboxes
  {
    hide InvalidateWhenEvidenceChanges, RepairBinding;
  }

  lemma RevalidationExtends(env: Env, s: Session, r: Receipt, at: string)
    requires Revalidate(env, s, r, at).Some?
    ensures var t := Revalidate(env, s, r, at).value;
      SameSession(s, t) && t.history == s.history && t.revalidationSandboxes == s.revalidationSandboxes + [r.sandboxId]
  {
    hide Reinvalidated, RevalidationAccepted;
  }

  lemma AdvanceExtends(env: Env, s: Session, e: Event, at: string)
    requires Advance(env, s, e, at).Some?
    ensures var t := Advance(env, s, e, at).value;
      && SameSession(s, t) && t.history == s.history
      && t.revalidationSandboxes ==
           s.revalidationSandboxes + (if e.RevalidationPassed? then [e.revalidated.sandboxId] else [])
  {
    hide CanCreateOrUpdatePullRequest, CanEnterReadyToMerge, Select, Repair, Revalidate, ReviewAccepted,
         PullRequestAccepted, SandboxesAccepted, Distinct, GatePassed, CurrentBinding;
    match e
    case CandidateSelected(c, patch, evidence, commit, receipt) =>
      SelectionExtends(env, s, c, patch, evidence, commit, receipt);
    case RepairGenerated(c, patch) => RepairExtends(env, s, c, patch, at);
    case RevalidationPassed(r) => RevalidationExtends(env, s, r, at);
    case _ =>
  }

  /** Steps never change what a session is about and only append to its history. */
  lemma StepExtends(env: Env, s: Session, e: Event, at: string)
    requires Transition(env, s, e, at).Some?
    ensures var t := Transition(env, s, e, at).value;
      && s.history <= t.history && |t.history| == |s.history| + (if e.AttemptRecorded? then 1 else 0)
      && SameSession(s, t)
      && t.revalidationSandboxes ==
           s.revalidationSandboxes + (if e.RevalidationPassed? then [e.revalidated.sandboxId] else [])
  {
    hide Advance, Record;
    match e
    case AttemptRecorded(r) => RecordExtends(env, s, r, at);
    case Fail(_, _, _) =>
    case Cancel =>
    case _ => AdvanceExtends(env, s, e, at);
  }

  function CountRounds(steps: seq<Timed>): nat {
    if steps == [] then 0
    else CountRounds(steps[..|steps| - 1]) + if steps[|steps| - 1].event.RevalidationPassed? then 1 else 0
  }

  function CountAttempts(steps: seq<Timed>): nat {
    if steps == [] then 0
    else CountAttempts(steps[..|steps| - 1]) + if steps[|steps| - 1].event.AttemptRecorded? then 1 else 0
  }

  /** Over a run the history only grows, by one entry for each recorded response, and
      each passed revalidation adds one sandbox. */
  lemma {:induction false} RunExtends(env: Env, s: Session, steps: seq<Timed>)
    requires Run(env, s, steps).Some?
    ensures var t := Run(env, s, steps).value;
      && s.history <= t.history && |t.history| == |s.history| + CountAttempts(steps)
      && |t.revalidationSandboxes| == |s.revalidationSandboxes| + CountRounds(steps)
      && t.mode == s.mode
  {
    hide Transition;
    if steps != [] {
      var n := |steps| - 1;
      RunExtends(env, s, steps[..n]);
      StepExtends(env, Run(env, s, steps[..n]).value, steps[n].event, steps[n].at);
    }
  }

  /** The marks of an attempt say which of its identities an earlier attempt had, and only
      a failure whose sandbox is gone may be retried. */
  lemma MarksNameTheReuse(history: seq<Attempt>, j: nat)
    requires WellMarked(history) && j < |history|
    ensures var a := history[j];
      && (a.duplicateSandbox <==> exists i :: 0 <= i < j && history[i].response.sandboxId == a.response.sandboxId)
      && (a.duplicateRun <==> exists i :: 0 <= i < j && history[i].response.runId == a.response.runId)
      && (a.reserved <==> !a.duplicateSandbox && !a.duplicateRun)
      && (a.response.retryable ==> a.response.disposition == FailedDestroyed)
  {
    var prefix, a := history[..j], history[j];
    assert a == Marked(prefix, a.response);
    if i :| 0 <= i < j && history[i].response.sandboxId == a.response.sandboxId {
      assert SandboxIds(prefix)[i] == a.response.sandboxId;
    }
    if i :| 0 <= i < j && history[i].response.runId == a.response.runId {
      assert RunIds(prefix)[i] == a.response.runId;
    }
  }

  lemma MarksMeanDistinct(history: seq<Attempt>)
    requires WellMarked(history) && AllUnmarked(history)
    ensures Distinct(SandboxIds(history)) && Distinct(RunIds(history))
  {
    forall i, j | 0 <= i < j < |history|
      ensures history[i].response.sandboxId != history[j].response.sandboxId
      ensures history[i].response.runId != history[j].response.runId
    {
      assert Unmarked(history[j]) && history[j] == Marked(history[..j], history[j].response);
      assert SandboxIds(history[..j])[i] == history[i].response.sandboxId;
      assert RunIds(history[..j])[i] == history[i].response.runId;
    }
  }

  /** In every run: outside failure each attempt is reserved and all identities are
      pairwise distinct; an attempt is marked exactly when it reuses an identity. */
  lemma HistoryStaysUnique(env: Env, start: Session, steps: seq<Timed>)
    requires Fresh(start) && Run(env, start, steps).Some?
    ensures var s := Run(env, start, steps).value;
      && start.history <= s.history && |s.history| == |start.history| + CountAttempts(steps)
      && WellMarked(s.history)
      && (s.state != Failed ==>
           AllUnmarked(s.history) && Distinct(SandboxIds(s.history)) && Distinct(RunIds(s.history)))
  {
    hide Transition, WellMarked, AllUnmarked, Distinct, GateKept, ReviewKept, RoundsKept, CandidatesKept, EvidenceKept,
         Fresh;
    RunKeeps(env, start, steps);
    RunExtends(env, start, steps);
    var s := Run(env, start, steps).value;
    if s.state != Failed { MarksMeanDistinct(s.history); }
  }

  /** A failed session stays failed, keeps its first failure and takes nothing but
      further Daytona responses. */
  lemma {:induction false} FailureIsFinal(env: Env, s: Session, steps: seq<Timed>)
    requires s.state == Failed && s.failure.Some? && Run(env, s, steps).Some?
    ensures var t := Run(env, s, steps).value; t.state == Failed && t.failure == s.failure
    ensures forall i :: 0 <= i < |steps| ==> steps[i].event.AttemptRecorded?
  {
    hide Transition;
    if steps != [] {
      var n := |steps| - 1;
      FailureIsFinal(env, s, steps[..n]);
      FailedStep(env, Run(env, s, steps[..n]).value, steps[n].event, steps[n].at);
      assert forall i :: 0 <= i < n ==> steps[..n][i] == steps[i];
    }
  }

  lemma FailedStep(env: Env, s: Session, e: Event, at: string)
    requires s.state == Failed && s.failure.Some? && Transition(env, s, e, at).Some?
    ensures e.AttemptRecorded? && Transition(env, s, e, at).value.state == Failed
    ensures Transition(env, s, e, at).value.failure == s.failure
  {
    hide Advance, Marked, ResponseAccepted;
  }

  /** The attempt that ran in a sandbox, for a sandbox of a passed repair round. */
  ghost function RepairIndex(history: seq<Attempt>, sandbox: string): (i: nat)
    requires RepairedIn(history, sandbox)
    ensures i < |history| && history[i].reserved && history[i].response.disposition == Finished
    ensures history[i].response.purpose == ReviewRepair && history[i].response.sandboxId == sandbox
  {
    var i :| 0 <= i < |history| && history[i].reserved && history[i].response.disposition == Finished
      && history[i].response.purpose == ReviewRepair && history[i].response.sandboxId == sandbox;
    i
  }

  /** In every run the passed repair rounds inject into distinct completed review-repair
      attempts, in sandboxes none of which served a candidate of the selection. */
  lemma RoundsAreDistinctAttempts(env: Env, start: Session, steps: seq<Timed>)
    requires Fresh(start) && Run(env, start, steps).Some?
    ensures var s := Run(env, start, steps).value;
      && |s.revalidationSandboxes| == CountRounds(steps)
      && s.round == CountRounds(steps) + (if s.selected.Some? then 1 else 0)
      && (forall k :: 0 <= k < |s.revalidationSandboxes| ==>
            RepairedIn(s.history, s.revalidationSandboxes[k]) && s.revalidationSandboxes[k] !in s.sandboxes.Values)
      && (forall k, l :: 0 <= k < l < |s.revalidationSandboxes| ==>
            RepairIndex(s.history, s.revalidationSandboxes[k]) != RepairIndex(s.history, s.revalidationSandboxes[l]))
  {
    hide Transition, RepairedIn, GateKept, ReviewKept, HistoryKept, CandidatesKept, EvidenceKept;
    RunKeeps(env, start, steps);
    RunExtends(env, start, steps);
    var s := Run(env, start, steps).value;
    forall k, l | 0 <= k < l < |s.revalidationSandboxes|
      ensures RepairIndex(s.history, s.revalidationSandboxes[k]) != RepairIndex(s.history, s.revalidationSandboxes[l])
    {
      assert s.revalidationSandboxes[k] != s.revalidationSandboxes[l];
    }
  }

  // ----- the stages of the history

  /** Responses are only taken while their stage runs, or once the session failed in it. */
  lemma ResponsesFitTheirStage(env: Env, s: Session, r: Response, at: string)
    requires Transition(env, s, AttemptRecorded(r), at).Some? && (s.failure.Some? <==> s.state == Failed)
    ensures s.mode == Live && r.candidateId in s.candidateIds
    ensures if r.purpose == ReviewRepair then Stage(s).RepairingReviewFindings? || Stage(s).Revalidating?
            else Stage(s).ProvisioningSandboxes?
    ensures Stage(Transition(env, s, AttemptRecorded(r), at).value) == Stage(s)
  {
    hide Marked, Advance;
  }

  lemma LateStaysLate(env: Env, s: Session, e: Event, at: string)
    requires Transition(env, s, e, at).Some? && !e.AttemptRecorded? && !Early(Stage(s))
    requires s.failure.Some? <==> s.state == Failed
    ensures !Early(Stage(Transition(env, s, e, at).value))
  {
    hide Advance;
    match e
    case Fail(_, _, _) =>
    case Cancel =>
    case AttemptRecorded(_) =>
    case _ => LateAdvance(env, s, e, at);
  }

  lemma LateAdvance(env: Env, s: Session, e: Event, at: string)
    requires Advance(env, s, e, at).Some? && !Early(s.state)
    ensures !Early(Advance(env, s, e, at).value.state) && !Advance(env, s, e, at).value.state.Failed?
  {
    hide CanCreateOrUpdatePullRequest, CanEnterReadyToMerge, Select, Repair, Revalidate, ReviewAccepted,
         PullRequestAccepted, SandboxesAccepted, Distinct, GatePassed;
    match e
    case RepairGenerated(c, patch) => LateRepair(env, s, c, patch, at);
    case RevalidationPassed(r) => LateRevalidation(env, s, r, at);
    case _ =>
  }

  lemma LateRepair(env: Env, s: Session, c: string, patch: string, at: string)
    requires Repair(env, s, c, patch, at).Some?
    ensures Repair(env, s, c, patch, at).value.state.Revalidating?
  {
    hide InvalidateWhenEvidenceChanges, RepairBinding;
  }

  lemma LateRevalidation(env: Env, s: Session, r: Receipt, at: string)
    requires Revalidate(env, s, r, at).Some?
    ensures Revalidate(env, s, r, at).value.state.AwaitingHumanApproval?
  {
    hide RevalidationAccepted, Reinvalidated;
  }

  /** From index `k` on, no review repair precedes another kind of attempt, and there is
      none before the repair loop. */
  ghost predicate RepairsLast(s: Session, k: nat) {
    && (forall i, j :: k <= i < j < |s.history| && s.history[i].response.purpose == ReviewRepair ==>
         s.history[j].response.purpose == ReviewRepair)
    && (Early(Stage(s)) ==> forall i :: k <= i < |s.history| ==> s.history[i].response.purpose != ReviewRepair)
  }

  lemma StepKeepsRepairsLast(env: Env, s: Session, e: Event, at: string, k: nat)
    requires RepairsLast(s, k) && Transition(env, s, e, at).Some? && (s.failure.Some? <==> s.state == Failed)
    ensures RepairsLast(Transition(env, s, e, at).value, k)
  {
    hide Transition, Marked;
    var t := Transition(env, s, e, at).value;
    StepExtends(env, s, e, at);
    if e.AttemptRecorded? {
      ResponsesFitTheirStage(env, s, e.response, at);
      LastIsResponse(env, s, e.response, at);
      assert forall i :: 0 <= i < |s.history| ==> t.history[i] == s.history[i];
    } else {
      if !Early(Stage(s)) { LateStaysLate(env, s, e, at); }
      assert t.history == s.history;
    }
  }

  lemma LastIsResponse(env: Env, s: Session, r: Response, at: string)
    requires Transition(env, s, AttemptRecorded(r), at).Some?
    ensures var t := Transition(env, s, AttemptRecorded(r), at).value;
      t.history == s.history + [Marked(s.history, r)] && t.history[|s.history|].response == r
  {
    hide Advance;
  }

  /** In every run the attempts of the selection all come before those of repairs. */
  lemma {:induction false} RepairsComeLast(env: Env, start: Session, steps: seq<Timed>)
    requires Fresh(start) && Run(env, start, steps).Some?
    ensures RepairsLast(Run(env, start, steps).value, |start.history|)
  {
    hide Transition, Fresh, RepairsLast, Kept;
    if steps == [] {
      NoRepairsYet(start);
    } else {
      var n := |steps| - 1;
      RepairsComeLast(env, start, steps[..n]);
      RunKeeps(env, start, steps[..n]);
      FailureOnRecord(env, Run(env, start, steps[..n]).value);
      StepKeepsRepairsLast(env, Run(env, start, steps[..n]).value, steps[n].event, steps[n].at, |start.history|);
    }
  }

  lemma NoRepairsYet(s: Session)
    ensures RepairsLast(s, |s.history|)
  {}

  lemma FailureOnRecord(env: Env, s: Session)
    requires Kept(env, s)
    ensures s.failure.Some? <==> s.state == Failed
  {
    hide GateKept, ReviewKept, RoundsKept, CandidatesKept, EvidenceKept, WellMarked, AllUnmarked;
  }

  // ----- unclean histories

  ghost predicate Unclean(s: Session) {
    s.mode == Live && exists i :: 0 <= i < |s.history| && !CleanAttempt(s.history[i])
  }

  predicate InRepair(state: State) { state.RepairingReviewFindings? || state.Revalidating? }

  /** The states from the request to publish on: publication, review and the repair loop. */
  predicate FromPublication(state: State) { Published(state) || InRepair(state) }

  /** No run leads the session to any of those states. */
  ghost predicate NeverPublishes(env: Env, s: Session) {
    forall later :: Run(env, s, later).Some? ==> !FromPublication(Run(env, s, later).value.state)
  }

  lemma AdvanceToRepair(env: Env, s: Session, e: Event, at: string)
    requires Advance(env, s, e, at).Some? && InRepair(Advance(env, s, e, at).value.state)
    ensures s.state.ReviewBlocked? || s.state.RepairingReviewFindings?
  {
    hide CanCreateOrUpdatePullRequest, CanEnterReadyToMerge, InitialReceiptAccepted, Repair, Revalidate, ReviewAccepted,
         PullRequestAccepted, SandboxesAccepted, Distinct, GatePassed;
    match e
    case RevalidationPassed(r) => LateRevalidation(env, s, r, at);
    case _ =>
  }

  /** The repair loop is entered from a blocked review alone, and a response does not
      change the state unless it fails the session. */
  lemma RepairEntered(env: Env, s: Session, e: Event, at: string)
    requires Transition(env, s, e, at).Some? && InRepair(Transition(env, s, e, at).value.state)
    ensures if e.AttemptRecorded? then InRepair(s.state) else s.state.ReviewBlocked? || s.state.RepairingReviewFindings?
  {
    hide Advance, ResponseAccepted, Marked;
    match e
    case AttemptRecorded(_) =>
    case Fail(_, _, _) =>
    case Cancel =>
    case _ => AdvanceToRepair(env, s, e, at);
  }

  lemma PublishedIsClean(env: Env, s: Session)
    requires Kept(env, s) && Published(s.state)
    ensures !Unclean(s)
  {
    hide ReviewKept, HistoryKept, RoundsKept, CandidatesKept, EvidenceKept, ApprovedNow, CleanAttempt;
  }

  // The attempts that a repair may leave unclean.

  /** In the repair loop of a live session all attempts but those of repairs are clean. */
  ghost predicate SelectionClean(s: Session) {
    s.mode == Live && InRepair(s.state) ==>
      forall i :: 0 <= i < |s.history| ==> CleanAttempt(s.history[i]) || s.history[i].response.purpose == ReviewRepair
  }

  lemma StepKeepsSelectionClean(env: Env, s: Session, e: Event, at: string)
    requires Kept(env, s) && SelectionClean(s) && Transition(env, s, e, at).Some?
    ensures SelectionClean(Transition(env, s, e, at).value)
  {
    hide Kept, Transition, Marked, CleanAttempt;
    var t := Transition(env, s, e, at).value;
    StepExtends(env, s, e, at);
    FailureOnRecord(env, s);
    if InRepair(t.state) && t.mode == Live {
      RepairEntered(env, s, e, at);
      if e.AttemptRecorded? {
        ResponsesFitTheirStage(env, s, e.response, at);
        LastIsResponse(env, s, e.response, at);
      } else if s.state.ReviewBlocked? {
        PublishedIsClean(env, s);
      }
    }
  }

  /** In every run: while a live session repairs or revalidates, each attempt that is not
      clean was made by a review repair. */
  lemma {:induction false} UncleanIsRepair(env: Env, start: Session, steps: seq<Timed>)
    requires Fresh(start) && Run(env, start, steps).Some?
    ensures var s := Run(env, start, steps).value;
      s.mode == Live && InRepair(s.state) ==>
        forall i :: 0 <= i < |s.history| && !CleanAttempt(s.history[i]) ==>
          s.history[i].response.purpose == ReviewRepair
  {
    hide Transition, Kept, CleanAttempt;
    if steps != [] {
      hide Fresh;
      var n := |steps| - 1;
      UncleanIsRepair(env, start, steps[..n]);
      RunKeeps(env, start, steps[..n]);
      assert SelectionClean(Run(env, start, steps[..n]).value);
      StepKeepsSelectionClean(env, Run(env, start, steps[..n]).value, steps[n].event, steps[n].at);
    }
  }

  // When an unclean history stops a session.

  lemma StillUnclean(env: Env, s: Session, steps: seq<Timed>)
    requires Unclean(s) && Run(env, s, steps).Some?
    ensures Unclean(Run(env, s, steps).value)
  {
    hide Run, CleanAttempt;
    RunExtends(env, s, steps);
    var i :| 0 <= i < |s.history| && !CleanAttempt(s.history[i]);
    assert Run(env, s, steps).value.history[i] == s.history[i];
  }

  /** Once a live history holds an attempt that is not clean, no later state publishes
      or rests on published evidence. */
  lemma UncleanNeverPublishes(env: Env, start: Session, before: seq<Timed>, later: seq<Timed>)
    requires Fresh(start) && Run(env, start, before + later).Some?
    requires Run(env, start, before).Some? && Unclean(Run(env, start, before).value)
    ensures !Published(Run(env, start, before + later).value.state)
  {
    hide Fresh, Run, Kept, Unclean, Published;
    RunAppend(env, start, before, later);
    StillUnclean(env, Run(env, start, before).value, later);
    RunKeeps(env, start, before + later);
    if Published(Run(env, start, before + later).value.state) {
      PublishedIsClean(env, Run(env, start, before + later).value);
    }
  }

  lemma {:induction false} UncleanStaysOut(env: Env, start: Session, before: seq<Timed>, later: seq<Timed>)
    requires Fresh(start) && Run(env, start, before).Some? && Unclean(Run(env, start, before).value)
    requires !FromPublication(Run(env, start, before).value.state)
    requires Run(env, start, before + later).Some?
    ensures !FromPublication(Run(env, start, before + later).value.state)
    decreases |later|
  {
    hide Fresh, Transition, Unclean, Published;
    UncleanNeverPublishes(env, start, before, later);
    if later == [] {
      assert before + later == before;
    } else {
      var n := |later| - 1;
      var all := before + later;
      assert all[..|all| - 1] == before + later[..n];
      UncleanStaysOut(env, start, before, later[..n]);
      var u := Run(env, start, before + later[..n]).value;
      if InRepair(Run(env, start, all).value.state) {
        RepairEntered(env, u, later[n].event, later[n].at);
        BlockedIsPublished(u.state);
      }
    }
  }

  lemma BlockedIsPublished(state: State)
    ensures state.ReviewBlocked? ==> Published(state)
  {}

  /** A session with an unclean live history is barred from publication, review and repair
      for good exactly when it is not in the repair loop already. */
  lemma UncleanBarsExactly(env: Env, start: Session, before: seq<Timed>)
    requires Fresh(start) && Run(env, start, before).Some? && Unclean(Run(env, start, before).value)
    ensures var s := Run(env, start, before).value;
      NeverPublishes(env, s) <==> !InRepair(s.state)
  {
    hide Fresh, Transition, Unclean, Published;
    var s := Run(env, start, before).value;
    assert before + [] == before;
    UncleanNeverPublishes(env, start, before, []);
    if InRepair(s.state) {
      assert Run(env, s, []) == Some(s);
    } else {
      forall later | Run(env, s, later).Some? ensures !FromPublication(Run(env, s, later).value.state) {
        RunConcat(env, start, before, later);
        UncleanStaysOut(env, start, before, later);
      }
    }
  }

  lemma {:induction false} RunConcat(env: Env, s: Session, a: seq<Timed>, b: seq<Timed>)
    requires Run(env, s, a).Some? && Run(env, Run(env, s, a).value, b).Some?
    ensures Run(env, s, a + b) == Run(env, Run(env, s, a).value, b)
    decreases |b|
  {
    hide Transition;
    if b == [] {
      assert a + b == a;
    } else {
      var init := b[..|b| - 1];
      assert (a + b)[..|a + b| - 1] == a + init;
      RunConcat(env, s, a, init);
    }
  }

  /** Where a response leaves the session. */
  lemma ResponseLeads(env: Env, s: Session, r: Response, at: string)
    requires Kept(env, s) && Transition(env, s, AttemptRecorded(r), at).Some?
    ensures var t := Transition(env, s, AttemptRecorded(r), at).value;
      InRepair(t.state) <==>
        && r.purpose == ReviewRepair && s.state != Failed
        && r.sandboxId !in SandboxIds(s.history) && r.runId !in RunIds(s.history)
  {
    FailureOnRecord(env, s);
    hide Kept, Advance;
  }

  /** An accepted response that is not clean bars its session from publication, review and
      repair for good exactly when it is no review repair, or it ends the session or finds
      it ended: the session has failed, or the response reuses an identity. */
  lemma UncleanResponseBarsExactly(env: Env, start: Session, before: seq<Timed>, r: Response, at: string)
    requires Fresh(start) && Run(env, start, before).Some?
    requires Transition(env, Run(env, start, before).value, AttemptRecorded(r), at).Some?
    requires !CleanAttempt(Marked(Run(env, start, before).value.history, r))
    ensures var s := Run(env, start, before).value;
      NeverPublishes(env, Transition(env, s, AttemptRecorded(r), at).value) <==>
        || r.purpose != ReviewRepair || s.state == Failed
        || r.sandboxId in SandboxIds(s.history) || r.runId in RunIds(s.history)
  {
    hide Fresh, Transition, Kept, CleanAttempt, Marked, NeverPublishes;
    var s := Run(env, start, before).value;
    RunKeeps(env, start, before);
    FailureOnRecord(env, s);
    ResponsesFitTheirStage(env, s, r, at);
    LastIsResponse(env, s, r, at);
    ResponseLeads(env, s, r, at);
    OneMore(env, start, before, AttemptRecorded(r), at);
    var t := Transition(env, s, AttemptRecorded(r), at).value;
    StepExtends(env, s, AttemptRecorded(r), at);
    assert t.history[|s.history|] == Marked(s.history, r);
    UncleanBarsExactly(env, start, before + [Timed(AttemptRecorded(r), at)]);
  }

  /** A failed review repair whose sandbox is gone leaves the repair loop running over an
      unclean history. */
  lemma RepairMayHoldUnclean(env: Env, s: Session, r: Response, at: string)
    requires s.state.Revalidating? && ResponseAccepted(env, s, r) && r.disposition == FailedDestroyed && !r.retryable
    requires r.sandboxId !in SandboxIds(s.history) && r.runId !in RunIds(s.history)
    ensures Transition(env, s, AttemptRecorded(r), at).Some?
    ensures var t := Transition(env, s, AttemptRecorded(r), at).value; t.state.Revalidating? && Unclean(t)
  {
    hide Advance;
    var t := Transition(env, s, AttemptRecorded(r), at).value;
    assert !CleanAttempt(t.history[|s.history|]);
  }
}
