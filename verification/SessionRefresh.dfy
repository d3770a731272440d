/** The freshness check of a ready session. It is the one operation that writes a session
    outside its transitions: it replaces the review, or revokes the claim. */
module SessionRefresh {
  import opened Options
  import opened Approvals
  import opened ValidationSession
  import opened SessionSafety
  import opened SessionRuns
  import opened SessionReach
  import EventChain

  // ----- the operation

  datatype InspectionStatus = Passed | Blocked | Pending | Stale

  /** What a read-only inspection of the pull request reports; an official one comes from
      the live CodeRabbit client. */
  datatype Inspection = Inspection(
    official: bool, status: InspectionStatus, passed: bool, timedOut: bool, requiresFullRevalidation: bool,
    pullNumber: int, headSha: string, observedPrHeadSha: string, expectedBaseRef: string, expectedBaseSha: string,
    observedBaseRef: string, observedBaseSha: string, findings: seq<Finding>, evidenceIds: seq<string>,
    reason: string, capturedAt: string)

  /** How a check ends; the first three are throws that leave the session as it was. */
  datatype Refreshing = NoClaim | Unavailable | Untrusted | Revoked | Refreshed

  predicate HasClaim(s: Session) { s.state == ReadyToMerge && s.pullRequest.Some? && s.review.Some? }

  predicate Confirms(i: Inspection) {
    i.status == Passed && i.passed && !i.timedOut && !i.requiresFullRevalidation
  }

  /** `createLiveIndependentReviewReceipt`; None where it throws. */
  function ReceiptOf(env: Env, reviewUrl: int -> string, i: Inspection): Option<ReviewReceipt> {
    if || !i.official
       || !((i.status == Passed && i.passed) || (i.status == Blocked && !i.passed))
       || i.timedOut
       || !Same(env, i.headSha, i.observedPrHeadSha)
       || i.expectedBaseRef != i.observedBaseRef || !Same(env, i.expectedBaseSha, i.observedBaseSha)
       || i.requiresFullRevalidation
       || i.evidenceIds == []
    then None
    else
      Some(ReviewReceipt(CodeRabbit, LiveApi, i.status == Passed, i.pullNumber, i.headSha, i.expectedBaseRef,
                         i.expectedBaseSha, i.observedBaseRef, i.observedBaseSha, reviewUrl(i.pullNumber),
                         i.evidenceIds, i.capturedAt, None))
  }

  /** The session with another review in place of the one on record. */
  function WithReview(s: Session, review: ReviewReceipt, findings: seq<Finding>, at: string): Session {
    s.(review := Some(review), findings := findings, updatedAt := at)
  }

  function RestartAction(): string { "start-new-live-validation" }

  function RevocationReason(reason: string): string {
    "READY evidence invalidated by read-only remote freshness check: " + reason
  }

  /** The revocation of an approval overwrites an earlier one. */
  function StampInvalid(a: Option<Approval>, at: string): Option<Approval> {
    if a.None? then None else Some(a.value.(invalidatedAt := Some(at)))
  }

  /** The session failed, with its approval invalidated and its review removed. */
  function RevokedSession(s: Session, reason: string, at: string): Session {
    s.(state := Failed, updatedAt := at,
       failure := Some(Failure(Stated(reason), false, Some(RestartAction()), s.state)),
       approval := StampInvalid(s.approval, at), review := None, findings := [])
  }

  /** The answer of a check of one session, and the session after it. */
  function AfterRefresh(
      env: Env, reviewUrl: int -> string, s: Session, inspected: Option<Inspection>, at: string): (Refreshing, Session)
  {
    if !HasClaim(s) then (NoClaim, s)
    else
      match inspected
      case None => (Unavailable, s)
      case Some(i) =>
        if !Confirms(i) then (Revoked, RevokedSession(s, RevocationReason(i.reason), at))
        else
          match ReceiptOf(env, reviewUrl, i)
          case None => (Untrusted, s)
          case Some(review) => (Refreshed, WithReview(s, review, i.findings, review.capturedAt))
  }

  /** The answer of a check and the session it leaves, written out: a claim is confirmed by
      a passed inspection alone, its receipt needs an official one on the same head and
      base with evidence, and everything else the inspection says revokes the claim. */
  lemma CheckedExactly(env: Env, reviewUrl: int -> string, s: Session, inspected: Option<Inspection>, at: string)
    ensures var (answer, t) := AfterRefresh(env, reviewUrl, s, inspected, at);
      && (answer == NoClaim <==> !(s.state == ReadyToMerge && s.pullRequest.Some? && s.review.Some?))
      && (answer == Unavailable <==> answer != NoClaim && inspected == None)
      && (answer == NoClaim || answer == Unavailable || answer == Untrusted ==> t == s)
      && (answer != NoClaim && inspected.Some? ==> CheckedBy(env, reviewUrl, s, inspected.value, at, answer, t))
  {}

  predicate CheckedBy(
      env: Env, reviewUrl: int -> string, s: Session, i: Inspection, at: string, answer: Refreshing, t: Session)
  {
    && (answer == Revoked <==> i.status != Passed || !i.passed || i.timedOut || i.requiresFullRevalidation)
    && (answer == Refreshed <==>
          && answer != Revoked && i.official && env.lower(i.headSha) == env.lower(i.observedPrHeadSha)
          && i.expectedBaseRef == i.observedBaseRef && env.lower(i.expectedBaseSha) == env.lower(i.observedBaseSha)
          && |i.evidenceIds| > 0)
    && (answer == Refreshed ==>
          t == s.(
            review := Some(ReviewReceipt(
              provider := CodeRabbit, sourceKind := LiveApi, passed := true, pullNumber := i.pullNumber,
              headSha := i.headSha, expectedBaseRef := i.expectedBaseRef, expectedBaseSha := i.expectedBaseSha,
              observedBaseRef := i.observedBaseRef, observedBaseSha := i.observedBaseSha,
              reviewUrl := reviewUrl(i.pullNumber), evidenceIds := i.evidenceIds, capturedAt := i.capturedAt,
              attestedBy := None)),
            findings := i.findings, updatedAt := i.capturedAt))
    && (answer == Revoked ==>
          t == s.(
            state := Failed, updatedAt := at, review := None, findings := [],
            failure := Some(Failure(
              reason := Stated("READY evidence invalidated by read-only remote freshness check: " + i.reason),
              recoverable := false, retryAction := Some("start-new-live-validation"), failedFrom := ReadyToMerge)),
            approval := if s.approval.Some? then Some(s.approval.value.(invalidatedAt := Some(at))) else None))
  }

  // ----- how a session became ready

  lemma LastStep(env: Env, start: Session, s: Session) returns (w: Session, e: Event, at: string)
    requires Fresh(start) && Reaches(env, start, s) && !s.state.Idle?
    ensures Reaches(env, start, w) && Transition(env, w, e, at) == Some(s)
  {
    assert start.state.Idle?;
    hide Fresh, Transition;
    var steps: seq<Timed> :| Run(env, start, steps) == Some(s);
    var n := |steps| - 1;
    w, e, at := Run(env, start, steps[..n]).value, steps[n].event, steps[n].at;
  }

  /** A passed review, a ready claim and completion are reached by advancing alone. */
  lemma StepIsAdvance(env: Env, w: Session, e: Event, at: string)
    requires Transition(env, w, e, at).Some?
    requires var t := Transition(env, w, e, at).value;
      t.state.ReviewPassed? || t.state.ReadyToMerge? || t.state.Completed?
    ensures Advance(env, w, e, at).Some?
    ensures Transition(env, w, e, at).value == Advance(env, w, e, at).value.(updatedAt := at)
  {
    hide Advance, Marked;
  }

  lemma IntoReady(env: Env, w: Session, e: Event, at: string)
    requires Transition(env, w, e, at).Some? && Transition(env, w, e, at).value.state.ReadyToMerge?
    ensures w.state.ReviewPassed? && Transition(env, w, e, at).value == w.(state := ReadyToMerge, updatedAt := at)
  {
    StepIsAdvance(env, w, e, at);
    hide Transition, CanCreateOrUpdatePullRequest, CanEnterReadyToMerge, InitialReceiptAccepted, RevalidationAccepted,
         Reinvalidated, InvalidateWhenEvidenceChanges, RepairBinding, ReviewAccepted, PullRequestAccepted,
         SandboxesAccepted, Distinct, GatePassed;
  }

  lemma IntoReviewPassed(env: Env, u: Session, e: Event, at: string)
    requires Transition(env, u, e, at).Some? && Transition(env, u, e, at).value.state.ReviewPassed?
    ensures var w := Transition(env, u, e, at).value;
      u.state.AwaitingCodeRabbit? &&
      w == u.(state := ReviewPassed, findings := w.findings, review := w.review, updatedAt := at)
  {
    StepIsAdvance(env, u, e, at);
    hide Transition, CanCreateOrUpdatePullRequest, CanEnterReadyToMerge, InitialReceiptAccepted, RevalidationAccepted,
         Reinvalidated, InvalidateWhenEvidenceChanges, RepairBinding, ReviewAccepted, PullRequestAccepted,
         SandboxesAccepted, Distinct, GatePassed;
  }

  lemma IntoCompleted(env: Env, w: Session, e: Event, at: string)
    requires Transition(env, w, e, at).Some? && Transition(env, w, e, at).value.state.Completed?
    ensures w.state.ReadyToMerge? && Transition(env, w, e, at).value == w.(state := Completed, updatedAt := at)
  {
    StepIsAdvance(env, w, e, at);
    hide Transition, CanCreateOrUpdatePullRequest, CanEnterReadyToMerge, InitialReceiptAccepted, RevalidationAccepted,
         Reinvalidated, InvalidateWhenEvidenceChanges, RepairBinding, ReviewAccepted, PullRequestAccepted,
         SandboxesAccepted, Distinct, GatePassed;
  }

  /** The session under review that a ready session comes from. */
  lemma ReadyCameFrom(env: Env, start: Session, s: Session) returns (u: Session)
    requires Fresh(start) && Reaches(env, start, s) && s.state.ReadyToMerge?
    ensures Reaches(env, start, u) && u.state.AwaitingCodeRabbit?
    ensures s == u.(state := ReadyToMerge, findings := s.findings, review := s.review, updatedAt := s.updatedAt)
  {
    hide Fresh, Reaches, Transition;
    var w, e, at := LastStep(env, start, s);
    IntoReady(env, w, e, at);
    var f, before;
    u, f, before := LastStep(env, start, w);
    IntoReviewPassed(env, u, f, before);
  }

  // ----- the success branch

  lemma AnotherReviewReaches(
      env: Env, start: Session, s: Session, review: ReviewReceipt, findings: seq<Finding>, at: string)
    requires Fresh(start) && Reaches(env, start, s) && s.state.ReadyToMerge?
    requires ReviewAccepted(env, s, review, findings) && review.passed
    ensures Reaches(env, start, WithReview(s, review, findings, at))
  {
    hide Fresh, Reaches, Transition, ReviewAccepted;
    var u := ReadyCameFrom(env, start, s);
    ReviewPullRequest(env, s, review, findings);
    ReviewDependsOn(env, s, u, review, findings);
    FindingsStep(env, u, findings, review, at);
    ReachesMore(env, start, u, ReviewFindingsReceived(findings, review), at);
    var w := u.(state := ReviewPassed, findings := findings, review := Some(review), updatedAt := at);
    PassedBecomesReady(env, start, w, at);
    assert w.(state := ReadyToMerge, updatedAt := at) == WithReview(s, review, findings, at);
  }

  lemma ReviewPullRequest(env: Env, s: Session, review: ReviewReceipt, findings: seq<Finding>)
    requires ReviewAccepted(env, s, review, findings)
    ensures s.pullRequest.Some?
  {
    hide ReviewsHead, SourceIsConsistent, GatePassed;
  }

  lemma ReviewOnRecordAccepted(env: Env, s: Session)
    requires Reachable(env, s) && (s.state.ReadyToMerge? || s.state.Completed?)
    ensures s.review.Some? && ReviewAccepted(env, s, s.review.value, s.findings) && s.review.value.passed
  {
    ReachableIsKept(env, s);
    hide Reachable, GateKept, HistoryKept, RoundsKept, CandidatesKept, EvidenceKept, ReviewAccepted,
         PullRequestAccepted;
  }

  /** A ready session with another review in place is one the transitions lead to exactly
      when they would have accepted that review and it passes. */
  lemma RefreshedIsReachable(env: Env, s: Session, review: ReviewReceipt, findings: seq<Finding>, at: string)
    requires Reachable(env, s) && s.state.ReadyToMerge?
    ensures Reachable(env, WithReview(s, review, findings, at)) <==>
            ReviewAccepted(env, s, review, findings) && review.passed
  {
    hide Fresh, Reaches, ReviewAccepted;
    var t := WithReview(s, review, findings, at);
    if ReviewAccepted(env, s, review, findings) && review.passed {
      var start :| Fresh(start) && Reaches(env, start, s);
      AnotherReviewReaches(env, start, s, review, findings, at);
    }
    if Reachable(env, t) {
      ReviewOnRecordAccepted(env, t);
      ReviewDependsOn(env, t, s, review, findings);
    }
  }

  /** What the driver leaves unchecked of a confirming inspection: that it inspected the
      pull request on record, and that its evidence and findings are those of a review
      that passes. */
  lemma UncheckedConditions(
      env: Env, reviewUrl: int -> string, s: Session, pr: PullRequest, i: Inspection, review: ReviewReceipt)
    requires s.pullRequest == Some(pr) && Confirms(i) && ReceiptOf(env, reviewUrl, i) == Some(review)
    ensures review.passed
    ensures ReviewAccepted(env, s, review, i.findings) <==>
            && i.pullNumber == pr.number && Same(env, i.headSha, pr.headSha)
            && i.expectedBaseRef == pr.baseBranch && Same(env, i.expectedBaseSha, pr.baseSha)
            && env.isGitId(i.headSha) && env.isGitId(i.expectedBaseSha) && env.isGitId(i.observedBaseSha)
            && env.isReviewUrl(reviewUrl(i.pullNumber), pr.url) && env.isTime(i.capturedAt)
            && Distinct(i.evidenceIds)
            && (forall k :: 0 <= k < |i.evidenceIds| ==> EventChain.Filled(i.evidenceIds[k]))
            && (forall k :: 0 <= k < |i.findings| ==> FindingIsBound(env, s, review, pr.url, i.findings[k]))
            && GatePassed(i.findings)
  {
    hide Distinct, EventChain.Filled, FindingIsBound, GatePassed;
  }

  // ----- the revoking branch

  /** A session that failed from a ready claim still has its review. */
  ghost predicate FailedKeepsReview(s: Session) {
    s.state.Failed? && s.failure.Some? && s.failure.value.failedFrom.ReadyToMerge? ==> s.review.Some?
  }

  lemma StepKeepsFailedReview(env: Env, s: Session, e: Event, at: string)
    requires Kept(env, s) && FailedKeepsReview(s) && Transition(env, s, e, at).Some?
    ensures FailedKeepsReview(Transition(env, s, e, at).value)
  {
    ReadyHasReview(env, s);
    FailureOnRecord(env, s);
    hide Kept, Advance, Record;
    match e
    case AttemptRecorded(r) =>
      hide Transition;
      ResponsesFitTheirStage(env, s, r, at);
    case Fail(_, _, _) =>
    case Cancel =>
    case _ => AdvanceNeverFails(env, s, e, at);
  }

  lemma ReadyHasReview(env: Env, s: Session)
    requires Kept(env, s)
    ensures s.state.ReadyToMerge? ==> s.review.Some?
  {
    hide GateKept, HistoryKept, RoundsKept, CandidatesKept, EvidenceKept, ReviewAccepted, PullRequestAccepted;
  }

  lemma AdvanceNeverFails(env: Env, s: Session, e: Event, at: string)
    requires Advance(env, s, e, at).Some?
    ensures !Advance(env, s, e, at).value.state.Failed?
  {
    hide CanCreateOrUpdatePullRequest, CanEnterReadyToMerge, InitialReceiptAccepted, RevalidationAccepted,
         Reinvalidated, InvalidateWhenEvidenceChanges, RepairBinding, ReviewAccepted, PullRequestAccepted,
         SandboxesAccepted, Distinct, GatePassed;
  }

  lemma {:induction false} RunKeepsFailedReview(env: Env, start: Session, steps: seq<Timed>)
    requires Fresh(start) && Run(env, start, steps).Some?
    ensures FailedKeepsReview(Run(env, start, steps).value)
  {
    hide Kept, Transition;
    if steps != [] {
      hide Fresh;
      var n := |steps| - 1;
      RunKeepsFailedReview(env, start, steps[..n]);
      RunKeeps(env, start, steps[..n]);
      StepKeepsFailedReview(env, Run(env, start, steps[..n]).value, steps[n].event, steps[n].at);
    }
  }

  /** No run of transitions leads to a revoked session. */
  lemma RevokedIsUnreachable(env: Env, s: Session, reason: string, at: string)
    requires s.state.ReadyToMerge?
    ensures !Reachable(env, RevokedSession(s, reason, at))
  {
    hide Fresh, Transition;
    var t := RevokedSession(s, reason, at);
    if Reachable(env, t) {
      var start :| Fresh(start) && Reaches(env, start, t);
      var steps :| Run(env, start, steps) == Some(t);
      RunKeepsFailedReview(env, start, steps);
    }
  }

  /** It accepts no event, and its approval is valid for no binding. */
  lemma RevokedIsFinal(
      env: Env, s: Session, reason: string, at: string, e: Event, later: string, d: Digests, b: Binding)
    requires s.state.ReadyToMerge?
    ensures Transition(env, RevokedSession(s, reason, at), e, later).None?
    ensures !IsApprovalValid(d, RevokedSession(s, reason, at).approval, b)
  {
    hide Advance, Marked, RestartAction;
  }

  // ----- what the driver's sessions can be

  /** A ready claim, or what it was ended to. */
  predicate AtOrPastReady(s: Session) {
    Stage(s).ReadyToMerge? || s.state.Completed? || s.state.CancelledByHuman?
  }

  predicate DiffersInReview(b: Session, s: Session) {
    AtOrPastReady(b) && s == b.(review := s.review, findings := s.findings, updatedAt := s.updatedAt)
  }

  ghost predicate RevokedFrom(b: Session, s: Session) {
    b.state.ReadyToMerge? && exists reason, at :: s == RevokedSession(b, reason, at)
  }

  /** A session that transitions and freshness checks can lead to: a reachable one, or one
      that differs in its review from a reachable one that has been ready, or a
      revocation of a reachable ready one. */
  ghost predicate Driven(env: Env, s: Session) {
    Reachable(env, s) || exists b :: Reachable(env, b) && (DiffersInReview(b, s) || RevokedFrom(b, s))
  }

  lemma BaseOf(env: Env, s: Session) returns (b: Session)
    requires Driven(env, s)
    ensures Reachable(env, b) && (b == s || DiffersInReview(b, s) || RevokedFrom(b, s))
  {
    hide Reachable, DiffersInReview, RevokedFrom;
    if Reachable(env, s) { b := s; } else { b :| Reachable(env, b) && (DiffersInReview(b, s) || RevokedFrom(b, s)); }
  }

  /** What no freshness check changes. */
  lemma DrivenHistory(env: Env, s: Session)
    requires Driven(env, s)
    ensures (s.failure.Some? <==> s.state == Failed) && WellMarked(s.history)
    ensures s.state != Failed ==> AllUnmarked(s.history)
  {
    hide Driven, Reachable, WellMarked, AllUnmarked, GateKept, ReviewKept, RoundsKept, CandidatesKept, EvidenceKept;
    var b := BaseOf(env, s);
    ReachableIsKept(env, b);
  }

  /** Past readiness no response is taken. */
  lemma PastReadyTakesNothing(env: Env, s: Session, r: Response)
    requires AtOrPastReady(s)
    ensures !ResponseAccepted(env, s, r)
  {}

  /** A session that takes responses is a reachable one. */
  lemma TakingIsReachable(env: Env, s: Session, r: Response)
    requires Driven(env, s) && ResponseAccepted(env, s, r)
    ensures Reachable(env, s)
  {
    var b := BaseOf(env, s);
    if b != s {
      assert AtOrPastReady(s);
      PastReadyTakesNothing(env, s, r);
    }
  }

  /** From a ready claim on, the only events are those that end it. */
  lemma PastReadySteps(env: Env, s: Session, e: Event, at: string)
    requires AtOrPastReady(s) && Transition(env, s, e, at).Some?
    ensures s.state.ReadyToMerge? && (e.Complete? || e.Fail? || e.Cancel?)
  {
    hide Record;
    match e
    case AttemptRecorded(r) =>
      hide Advance;
      RecordNeedsAcceptance(env, s, r, at);
      PastReadyTakesNothing(env, s, r);
    case _ =>
      hide CanCreateOrUpdatePullRequest, CanEnterReadyToMerge, Select, Repair, Revalidate, ReviewAccepted,
           PullRequestAccepted, SandboxesAccepted, Distinct, GatePassed;
  }

  lemma RecordNeedsAcceptance(env: Env, s: Session, r: Response, at: string)
    requires Record(env, s, r, at).Some?
    ensures ResponseAccepted(env, s, r)
  {
    hide Marked;
  }

  lemma CompleteStep(env: Env, s: Session, at: string)
    requires s.state.ReadyToMerge?
    ensures Transition(env, s, Complete, at) == Some(s.(state := Completed, updatedAt := at))
  {}

  /** Those events neither read nor write the review. */
  lemma StepIgnoresReview(env: Env, b: Session, s: Session, e: Event, at: string)
    requires DiffersInReview(b, s) && Transition(env, s, e, at).Some?
    ensures Transition(env, b, e, at).Some?
    ensures DiffersInReview(Transition(env, b, e, at).value, Transition(env, s, e, at).value)
  {
    PastReadySteps(env, s, e, at);
    hide CanCreateOrUpdatePullRequest, CanEnterReadyToMerge, Select, Repair, Revalidate, Record;
    if e.Complete? {
      CompleteStep(env, s, at);
      CompleteStep(env, b, at);
    }
  }

  lemma DrivenStep(env: Env, s: Session, e: Event, at: string)
    requires Driven(env, s) && Transition(env, s, e, at).Some?
    ensures Driven(env, Transition(env, s, e, at).value)
  {
    hide Reachable, Transition, DiffersInReview;
    var b := BaseOf(env, s);
    if b == s {
      ReachableMore(env, s, e, at);
    } else if DiffersInReview(b, s) {
      StepIgnoresReview(env, b, s, e, at);
      ReachableMore(env, b, e, at);
    } else {
      var reason, before :| s == RevokedSession(b, reason, before);
      RevokedIsFinal(env, b, reason, before, e, at, env.digests, Binding("", "", "", "", "", None));
    }
  }

  /** A check of a driven session leads to a driven session of the same history. */
  lemma DrivenRefresh(env: Env, reviewUrl: int -> string, s: Session, inspected: Option<Inspection>, at: string)
    requires Driven(env, s)
    ensures var t := AfterRefresh(env, reviewUrl, s, inspected, at).1;
      Driven(env, t) && t.history == s.history && t.sessionId == s.sessionId && t.mode == s.mode
  {
    hide Reachable, ReceiptOf, RevocationReason, RestartAction;
    var b := BaseOf(env, s);
    var t := AfterRefresh(env, reviewUrl, s, inspected, at).1;
    if HasClaim(s) && t != s {
      if t.state.Failed? {
        var reason := RevocationReason(inspected.value.reason);
        assert RevokedSession(s, reason, at) == RevokedSession(b, reason, at);
        assert RevokedFrom(b, t);
      } else {
        assert DiffersInReview(b, t);
      }
    }
  }

  /** A ready or completed session of the driver is reachable by transitions exactly when
      the review on its record is one they would accept, and passes. */
  lemma DrivenReadyExactly(env: Env, s: Session)
    requires Driven(env, s) && (s.state.ReadyToMerge? || s.state.Completed?)
    ensures Reachable(env, s) <==>
            s.review.Some? && ReviewAccepted(env, s, s.review.value, s.findings) && s.review.value.passed
  {
    hide Driven, ReviewAccepted, Reachable;
    if Reachable(env, s) { ReviewOnRecordAccepted(env, s); }
    var b := BaseOf(env, s);
    if s.review.Some? && ReviewAccepted(env, s, s.review.value, s.findings) && s.review.value.passed {
      ReviewPullRequest(env, s, s.review.value, s.findings);
      ReviewDependsOn(env, s, b, s.review.value, s.findings);
      if s.state.ReadyToMerge? {
        RefreshedIsReachable(env, b, s.review.value, s.findings, s.updatedAt);
        assert s == WithReview(b, s.review.value, s.findings, s.updatedAt);
      } else {
        CompletedIsReachable(env, b, s);
      }
    }
  }

  lemma CompletedIsReachable(env: Env, b: Session, s: Session)
    requires Reachable(env, b) && s.state.Completed? && s.review.Some?
    requires s == b.(review := s.review, findings := s.findings, updatedAt := s.updatedAt)
    requires ReviewAccepted(env, b, s.review.value, s.findings) && s.review.value.passed
    ensures Reachable(env, s)
  {
    hide Fresh, Reaches, Transition, ReviewAccepted;
    var start :| Fresh(start) && Reaches(env, start, b);
    var w, e, at := LastStep(env, start, b);
    IntoCompleted(env, w, e, at);
    ReviewPullRequest(env, b, s.review.value, s.findings);
    ReviewDependsOn(env, b, w, s.review.value, s.findings);
    AnotherReviewReaches(env, start, w, s.review.value, s.findings, s.updatedAt);
    var t := WithReview(w, s.review.value, s.findings, s.updatedAt);
    CompleteStep(env, t, s.updatedAt);
    ReachesMore(env, start, t, Complete, s.updatedAt);
  }

  /** Whatever freshness checks came before, a ready or completed session of the driver has
      its publication earned and, in live mode, the evidence behind it. */
  lemma DrivenPublicationIsEarned(env: Env, s: Session)
    requires Driven(env, s) && (s.state.ReadyToMerge? || s.state.Completed?)
    ensures EarnedPublication(env, s)
    ensures s.mode == Live ==> s.revalidation.Some? && EarnedLive(env, s, s.revalidation.value)
  {
    hide Driven, Fresh, Transition, EarnedPublication, EarnedReview, EarnedLive;
    var b := BaseOf(env, s);
    var start :| Fresh(start) && Reaches(env, start, b);
    var steps :| Run(env, start, steps) == Some(b);
    ReadyIsEarned(env, start, steps);
    if b != s { PublicationIgnoresReview(env, b, s); }
  }

  lemma PublicationIgnoresReview(env: Env, b: Session, s: Session)
    requires DiffersInReview(b, s) && EarnedPublication(env, b)
    ensures EarnedPublication(env, s)
    ensures b.revalidation.Some? ==>
              (EarnedLive(env, b, b.revalidation.value) <==> EarnedLive(env, s, b.revalidation.value))
  {
    hide EveryGatePassed, CountMatches;
  }
}
