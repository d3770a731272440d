/** What a validation session can become: new sessions reach readiness, in live mode and
    outside it, and blocked live sessions can be repaired, or left unclean. */
module SessionReach {
  import opened Options
  import opened Approvals
  import opened ValidationSession
  import opened SessionSafety
  import opened SessionRuns
  import EventChain

  // ----- inputs

  /** One validated change, the pull request for it and its review. */
  datatype Change = Change(
    candidate: string, patch: string, evidence: string, commit: string, receipt: Receipt,
    pullRequest: PullRequest, findings: seq<Finding>, review: ReviewReceipt)

  /** The candidates of a run, each with its sandbox and run, and the change selected. */
  datatype Plan = Plan(ids: seq<string>, sandboxes: seq<string>, runs: seq<string>, winner: nat, change: Change)

  predicate Shaped(p: Plan) { |p.ids| == |p.sandboxes| == |p.runs| && p.winner < |p.ids| }

  function InitialResponse(p: Plan, i: nat, at: string): Response
    requires Shaped(p) && i < |p.ids|
  {
    Response(p.ids[i], p.sandboxes[i], p.runs[i], InitialCandidate, at, Finished, false)
  }

  /** The candidates and their sandboxes suit the session. */
  ghost predicate SuitsCandidates(env: Env, start: Session, p: Plan, at: string) {
    && Shaped(p) && |p.ids| >= (if start.runKind == Tournament then 3 else 1)
    && Distinct(p.ids) && Distinct(p.sandboxes)
    && (forall i :: 0 <= i < |p.sandboxes| ==> EventChain.Filled(p.sandboxes[i]))
    && (start.mode == Live ==> SuitsAttempts(env, start, p, at))
  }

  /** In a live session the sandboxes and runs are new, and what earlier starts left
      behind is clean. */
  ghost predicate SuitsAttempts(env: Env, start: Session, p: Plan, at: string)
    requires Shaped(p)
  {
    && Distinct(p.runs) && env.isTime(at)
    && (forall i :: 0 <= i < |start.history| ==> CleanAttempt(start.history[i]))
    && (forall i :: 0 <= i < |p.ids| ==> NewIdentity(env, start.history, p.sandboxes[i], p.runs[i]))
  }

  predicate NewIdentity(env: Env, history: seq<Attempt>, sandbox: string, run: string) {
    env.isIdentifier(sandbox) && env.isIdentifier(run) && sandbox !in SandboxIds(history) && run !in RunIds(history)
  }

  /** What every receipt must state and pass. */
  ghost predicate SuitsReceipt(env: Env, s: Session, c: Change, purpose: ReceiptPurpose, sandbox: string, run: string) {
    && c.receipt.purpose == purpose && c.receipt.sessionId == s.sessionId && c.receipt.policyVersion == s.policyVersion
    && c.receipt.candidateId == c.candidate && c.receipt.patchDigest == c.patch
    && c.receipt.evidenceDigest == c.evidence
    && Some(c.receipt.target) == s.target && c.receipt.sandboxId == sandbox && c.receipt.daytonaRunId == run
    && EventChain.Filled(c.candidate) && env.isStructurallyValid(c.receipt) && EveryGatePassed(c.receipt.gates)
    && env.attestation(c.receipt.(attestationDigest := "")) == c.receipt.attestationDigest
  }

  ghost predicate SuitsSelection(env: Env, start: Session, p: Plan)
    requires Shaped(p)
  {
    var c := p.change;
    && c.candidate == p.ids[p.winner] && env.isGitId(c.commit) && env.isSha256(c.patch) && env.isSha256(c.evidence)
    && (start.mode == Live ==>
          && SuitsReceipt(env, start, c, InitialSelection, p.sandboxes[p.winner], p.runs[p.winner])
          && Same(env, c.receipt.commitSha, c.commit) && !Same(env, c.receipt.commitSha, start.baseCommit))
  }

  /** The pull request is one for the change, and the review is acceptable for it. */
  ghost predicate SuitsReview(env: Env, s: Session, c: Change, tree: Option<string>) {
    && PullRequestFits(env, s, c.candidate, c.commit, tree, c.pullRequest)
    && ReviewAccepted(env, s.(pullRequest := Some(c.pullRequest)), c.review, c.findings)
  }

  predicate PullRequestFits(
      env: Env, s: Session, candidate: string, commit: string, tree: Option<string>, pr: PullRequest)
  {
    && pr.sessionId == s.sessionId && pr.candidateId == candidate && pr.status == Open && env.isCanonicalPullRequest(pr)
    && s.target == Some(Target(pr.owner, pr.repository, pr.baseBranch))
    && Same(env, pr.baseSha, s.baseCommit) && Same(env, pr.headSha, commit)
    && (tree.Some? ==> Same(env, pr.headTreeSha, tree.value))
  }

  /** The tree a first change binds: that of its receipt, in live mode. */
  function FirstTree(start: Session, c: Change): Option<string> {
    if start.mode == Live then Some(c.receipt.validatedTreeSha) else None
  }

  ghost predicate Suits(env: Env, start: Session, p: Plan, at: string) {
    && Shaped(p) && SuitsCandidates(env, start, p, at) && SuitsSelection(env, start, p)
    && SuitsReview(env, start, p.change, FirstTree(start, p.change))
  }

  // ----- up to selection

  /** Each candidate with its sandbox. */
  function Mapping(ids: seq<string>, sandboxes: seq<string>): map<string, string>
    requires |ids| == |sandboxes|
  {
    if ids == [] then map[]
    else Mapping(ids[..|ids| - 1], sandboxes[..|ids| - 1])[ids[|ids| - 1] := sandboxes[|ids| - 1]]
  }

  lemma DistinctInit(xs: seq<string>)
    requires xs != [] && Distinct(xs)
    ensures Distinct(xs[..|xs| - 1]) && xs[|xs| - 1] !in xs[..|xs| - 1]
  {}

  lemma LastSplit(xs: seq<string>)
    requires xs != []
    ensures xs == xs[..|xs| - 1] + [xs[|xs| - 1]]
    ensures forall x :: x in xs <==> x in xs[..|xs| - 1] || x == xs[|xs| - 1]
  {}

  lemma {:induction false} MappingLooksUp(ids: seq<string>, sandboxes: seq<string>)
    requires |ids| == |sandboxes| && Distinct(ids)
    ensures var m := Mapping(ids, sandboxes);
      && (forall c :: c in m <==> c in ids) && |m| == |ids|
      && (forall i :: 0 <= i < |ids| ==> ids[i] in m && m[ids[i]] == sandboxes[i])
  {
    hide Distinct;
    if ids != [] {
      var n := |ids| - 1;
      DistinctInit(ids);
      LastSplit(ids);
      MappingLooksUp(ids[..n], sandboxes[..n]);
      EventChain.ValuesGrow(Mapping(ids[..n], sandboxes[..n]), ids[n], sandboxes[n]);
      forall i | 0 <= i < n
        ensures ids[i] in Mapping(ids, sandboxes) && Mapping(ids, sandboxes)[ids[i]] == sandboxes[i]
      {
        assert ids[..n][i] == ids[i] && sandboxes[..n][i] == sandboxes[i] && ids[i] in ids[..n];
      }
    }
  }

  lemma {:induction false} MappingSizes(ids: seq<string>, sandboxes: seq<string>)
    requires |ids| == |sandboxes| && Distinct(ids) && Distinct(sandboxes)
    ensures var m := Mapping(ids, sandboxes);
      |m.Values| == |m| && forall x :: x in m.Values <==> x in sandboxes
  {
    hide Distinct;
    if ids != [] {
      var n := |ids| - 1;
      DistinctInit(ids);
      DistinctInit(sandboxes);
      LastSplit(sandboxes);
      MappingLooksUp(ids[..n], sandboxes[..n]);
      MappingSizes(ids[..n], sandboxes[..n]);
      EventChain.ValuesGrow(Mapping(ids[..n], sandboxes[..n]), ids[n], sandboxes[n]);
    }
  }

  lemma {:induction false} DistinctBag(xs: seq<string>)
    requires Distinct(xs)
    ensures multiset(xs) == multiset(set x | x in xs)
  {
    hide Distinct;
    if xs != [] {
      var init, last := xs[..|xs| - 1], xs[|xs| - 1];
      DistinctInit(xs);
      LastSplit(xs);
      DistinctBag(init);
      BagGrows(init, last, xs);
    }
  }

  lemma BagGrows(init: seq<string>, last: string, xs: seq<string>)
    requires xs == init + [last] && last !in init && multiset(init) == multiset(set x | x in init)
    ensures multiset(xs) == multiset(set x | x in xs)
  {
    var some, all := set x | x in init, set x | x in xs;
    assert all == some + {last};
    assert multiset(all) == multiset(some) + multiset{last};
    assert multiset(xs) == multiset(init) + multiset{last};
  }

  lemma MappingFacts(ids: seq<string>, sandboxes: seq<string>)
    requires |ids| == |sandboxes| && Distinct(ids) && Distinct(sandboxes)
    ensures var m := Mapping(ids, sandboxes);
      && multiset(ids) == multiset(m.Keys) && |m.Values| == |m|
      && (forall c :: c in m <==> c in ids)
      && (forall i :: 0 <= i < |ids| ==> ids[i] in m && m[ids[i]] == sandboxes[i])
  {
    hide Distinct, Mapping;
    MappingLooksUp(ids, sandboxes);
    MappingSizes(ids, sandboxes);
    DistinctBag(ids);
    assert Mapping(ids, sandboxes).Keys == set x | x in ids;
  }

  /** The history once the first `n` candidates were recorded. */
  function HistoryAfter(start: Session, p: Plan, n: nat, at: string): seq<Attempt>
    requires Shaped(p) && n <= |p.ids|
  {
    if n == 0 then start.history
    else HistoryAfter(start, p, n - 1, at) + [Attempt(InitialResponse(p, n - 1, at), true, false, false)]
  }

  /** Which attempts those are. */
  lemma {:induction false} HistoryAfterFacts(start: Session, p: Plan, n: nat, at: string)
    requires Shaped(p) && n <= |p.ids|
    ensures var h := HistoryAfter(start, p, n, at);
      && |h| == |start.history| + n && start.history <= h
      && (forall i :: 0 <= i < n ==> h[|start.history| + i] == Attempt(InitialResponse(p, i, at), true, false, false))
  {
    if n > 0 { HistoryAfterFacts(start, p, n - 1, at); }
  }

  /** No recorded attempt has the identity of the next candidate. */
  lemma RecordedDiffers(env: Env, start: Session, p: Plan, n: nat, at: string, i: nat)
    requires Shaped(p) && SuitsCandidates(env, start, p, at) && start.mode == Live && n < |p.ids|
    requires i < |start.history| + n
    ensures i < |HistoryAfter(start, p, n, at)|
    ensures var r := HistoryAfter(start, p, n, at)[i].response; r.sandboxId != p.sandboxes[n] && r.runId != p.runs[n]
  {
    HistoryAfterFacts(start, p, n, at);
    hide EventChain.Filled, CleanAttempt, HistoryAfter;
    var h, k := HistoryAfter(start, p, n, at), |start.history|;
    if i < k {
      assert h[i] == start.history[i];
      assert NewIdentity(env, start.history, p.sandboxes[n], p.runs[n]);
      EarlierDiffers(env, start.history, p.sandboxes[n], p.runs[n], i);
    } else {
      assert h[k + (i - k)] == Attempt(InitialResponse(p, i - k, at), true, false, false);
    }
  }

  lemma EarlierDiffers(env: Env, history: seq<Attempt>, sandbox: string, run: string, i: nat)
    requires NewIdentity(env, history, sandbox, run) && i < |history|
    ensures history[i].response.sandboxId != sandbox && history[i].response.runId != run
  {
    assert SandboxIds(history)[i] in SandboxIds(history) && RunIds(history)[i] in RunIds(history);
  }

  lemma NextIsNew(env: Env, start: Session, p: Plan, n: nat, at: string)
    requires Shaped(p) && SuitsCandidates(env, start, p, at) && start.mode == Live && n < |p.ids|
    ensures Marked(HistoryAfter(start, p, n, at), InitialResponse(p, n, at)) ==
            Attempt(InitialResponse(p, n, at), true, false, false)
  {
    HistoryAfterFacts(start, p, n, at);
    var h := HistoryAfter(start, p, n, at);
    forall i | 0 <= i < |h| ensures SandboxIds(h)[i] != p.sandboxes[n] && RunIds(h)[i] != p.runs[n] {
      hide *;
      RecordedDiffers(env, start, p, n, at, i);
    }
    hide SuitsCandidates, HistoryAfter;
  }

  /** A session while its candidates are being validated. */
  function Provisioning(start: Session, p: Plan, n: nat, at: string): Session
    requires Shaped(p) && n <= |p.ids|
  {
    start.(state := ProvisioningSandboxes, updatedAt := at, candidateIds := p.ids,
           history := HistoryAfter(start, p, n, at))
  }

  lemma FirstSteps(env: Env, start: Session, p: Plan, at: string)
    requires Fresh(start) && Shaped(p) && SuitsCandidates(env, start, p, at)
    ensures Reaches(env, start, Provisioning(start, p, 0, at))
  {
    hide Reaches, Record, Select, Repair, Revalidate, CanEnterReadyToMerge, CanCreateOrUpdatePullRequest,
         SandboxesAccepted, WellMarked, AllUnmarked, SuitsAttempts, EventChain.Filled, Distinct;
    StartReaches(env, start);
    ReachesMore(env, start, start, Start, at);
    ReachesMore(env, start, start.(state := IngestingRepository, updatedAt := at), RepositoryIngested, at);
    ReachesMore(env, start, start.(state := AnalyzingIncident, updatedAt := at), IncidentAnalyzed, at);
    ReachesMore(env, start, start.(state := GeneratingCandidates, updatedAt := at), CandidatesGenerated(p.ids), at);
  }

  lemma RecordStep(env: Env, s: Session, r: Response, at: string)
    requires !Terminal(s.state) && ResponseAccepted(env, s, r) && Marked(s.history, r).reserved
    ensures Transition(env, s, AttemptRecorded(r), at) ==
            Some(s.(history := s.history + [Marked(s.history, r)], updatedAt := at))
  {
    hide ResponseAccepted, Marked, Advance;
  }

  lemma ResponseFits(env: Env, start: Session, p: Plan, n: nat, at: string)
    requires Shaped(p) && SuitsCandidates(env, start, p, at) && start.mode == Live && n < |p.ids|
    ensures ResponseAccepted(env, Provisioning(start, p, n, at), InitialResponse(p, n, at))
  {
    hide Distinct, EventChain.Filled, CleanAttempt, SandboxIds, RunIds, HistoryAfter;
    assert NewIdentity(env, start.history, p.sandboxes[n], p.runs[n]);
  }

  lemma RecordingStep(env: Env, start: Session, p: Plan, n: nat, at: string)
    requires Shaped(p) && SuitsCandidates(env, start, p, at) && start.mode == Live && n < |p.ids|
    ensures Transition(env, Provisioning(start, p, n, at), AttemptRecorded(InitialResponse(p, n, at)), at) ==
            Some(Provisioning(start, p, n + 1, at))
  {
    hide Transition, Marked, SuitsCandidates, ResponseAccepted;
    NextIsNew(env, start, p, n, at);
    ResponseFits(env, start, p, n, at);
    RecordStep(env, Provisioning(start, p, n, at), InitialResponse(p, n, at), at);
  }

  lemma {:induction false} RecordingReaches(env: Env, start: Session, p: Plan, n: nat, at: string)
    requires Fresh(start) && Shaped(p) && SuitsCandidates(env, start, p, at) && start.mode == Live && n <= |p.ids|
    ensures Reaches(env, start, Provisioning(start, p, n, at))
  {
    hide Reaches, Transition, Fresh, SuitsCandidates, Provisioning;
    if n == 0 {
      FirstSteps(env, start, p, at);
    } else {
      RecordingReaches(env, start, p, n - 1, at);
      RecordingStep(env, start, p, n - 1, at);
      ReachesMore(env, start, Provisioning(start, p, n - 1, at), AttemptRecorded(InitialResponse(p, n - 1, at)), at);
    }
  }

  /** How many candidates a session records: all in live mode, none otherwise. */
  function Attempted(start: Session, p: Plan): nat { if start.mode == Live then |p.ids| else 0 }

  lemma CandidatesReported(env: Env, start: Session, p: Plan, at: string)
    requires Shaped(p) && SuitsCandidates(env, start, p, at)
    ensures SandboxesAccepted(env, Provisioning(start, p, Attempted(start, p), at), Mapping(p.ids, p.sandboxes))
  {
    hide Distinct, EventChain.Filled, SuitsAttempts;
    MappingFacts(p.ids, p.sandboxes);
    var m, s := Mapping(p.ids, p.sandboxes), Provisioning(start, p, Attempted(start, p), at);
    HistoryAfterFacts(start, p, Attempted(start, p), at);
    forall c | c in m ensures EventChain.Filled(m[c]) && (s.mode == Live ==> Reported(s, c, m[c])) {
      var i :| 0 <= i < |p.ids| && p.ids[i] == c;
      if s.mode == Live { assert s.history[|start.history| + i].response == InitialResponse(p, i, at); }
    }
  }

  function SelectingSession(start: Session, p: Plan, at: string): Session
    requires Shaped(p)
  {
    Provisioning(start, p, Attempted(start, p), at).(state := Selecting, sandboxes := Mapping(p.ids, p.sandboxes))
  }

  lemma ProvisionStep(env: Env, s: Session, sandboxes: map<string, string>, at: string)
    requires s.state.ProvisioningSandboxes? && SandboxesAccepted(env, s, sandboxes)
    ensures Transition(env, s, SandboxesProvisioned(sandboxes), at) ==
            Some(s.(state := Building, sandboxes := sandboxes, updatedAt := at))
  {
    hide SandboxesAccepted;
  }

  lemma SelectingReached(env: Env, start: Session, p: Plan, at: string)
    requires Fresh(start) && Shaped(p) && SuitsCandidates(env, start, p, at)
    ensures Reaches(env, start, SelectingSession(start, p, at))
  {
    hide Reaches, Transition, SandboxesAccepted, SuitsAttempts, Fresh, Mapping, HistoryAfter, Distinct,
         EventChain.Filled;
    var s, m := Provisioning(start, p, Attempted(start, p), at), Mapping(p.ids, p.sandboxes);
    if start.mode == Live { RecordingReaches(env, start, p, |p.ids|, at); } else { FirstSteps(env, start, p, at); }
    CandidatesReported(env, start, p, at);
    ProvisionStep(env, s, m, at);
    ReachesMore(env, start, s, SandboxesProvisioned(m), at);
    LastSteps(env, start, s.(state := Building, sandboxes := m), at);
  }

  lemma LastSteps(env: Env, start: Session, s: Session, at: string)
    requires Reaches(env, start, s) && s.state.Building? && s.updatedAt == at
    ensures Reaches(env, start, s.(state := Selecting))
  {
    hide Reaches, Record, Select, Repair, Revalidate, CanEnterReadyToMerge, CanCreateOrUpdatePullRequest,
         SandboxesAccepted;
    ReachesMore(env, start, s, BuildsFinished, at);
    ReachesMore(env, start, s.(state := RunningTests), TestsFinished, at);
    ReachesMore(env, start, s.(state := Scoring), ScoringFinished, at);
  }

  // ----- selection

  /** A clean history of new identities holds exactly one attempt for a receipt that names
      one of its completed attempts. */
  lemma {:induction false} OneMatch(history: seq<Attempt>, r: Receipt, i: nat)
    requires i < |history| && Matches(history[i], r) && Distinct(SandboxIds(history))
    ensures CountMatches(history, r) == 1
  {
    var n := |history| - 1;
    assert forall k :: 0 <= k < n ==> SandboxIds(history[..n])[k] == SandboxIds(history)[k];
    if i < n {
      assert SandboxIds(history)[i] != SandboxIds(history)[n];
      OneMatch(history[..n], r, i);
    } else {
      NoMatch(history[..n], r);
    }
  }

  lemma {:induction false} NoMatch(history: seq<Attempt>, r: Receipt)
    requires forall k :: 0 <= k < |history| ==> SandboxIds(history)[k] != r.sandboxId
    ensures CountMatches(history, r) == 0
  {
    if history != [] {
      var n := |history| - 1;
      assert forall k :: 0 <= k < n ==> SandboxIds(history[..n])[k] == SandboxIds(history)[k];
      assert SandboxIds(history)[n] != r.sandboxId;
      NoMatch(history[..n], r);
    }
  }

  /** A reachable session that did not fail has such a history. */
  lemma ReachedIsUnique(env: Env, start: Session, s: Session, r: Receipt, i: nat)
    requires Fresh(start) && Reaches(env, start, s) && s.state != Failed
    requires i < |s.history| && Matches(s.history[i], r)
    ensures HasUniqueReservedAttempt(s.history, r)
  {
    hide Fresh, Transition, Distinct, SandboxIds, RunIds, WellMarked, AllUnmarked, Matches, CountMatches;
    var steps :| Run(env, start, steps) == Some(s);
    HistoryStaysUnique(env, start, steps);
    OneMatch(s.history, r, i);
  }

  /** The session after its selection. */
  function SelectedSession(start: Session, p: Plan, at: string): Session
    requires Shaped(p)
  {
    SelectingSession(start, p, at).(
      state := AwaitingHumanApproval, selected := Some(p.change.candidate), patchDigest := Some(p.change.patch),
      evidenceDigest := Some(p.change.evidence), commit := Some(p.change.commit), tree := FirstTree(start, p.change),
      revalidation := if start.mode == Live then Some(p.change.receipt) else None, round := 1)
  }

  function SelectionEvent(start: Session, c: Change): Event {
    CandidateSelected(c.candidate, c.patch, c.evidence, c.commit, if start.mode == Live then Some(c.receipt) else None)
  }

  lemma SelectedReached(env: Env, start: Session, p: Plan, at: string)
    requires Fresh(start) && Shaped(p) && SuitsCandidates(env, start, p, at) && SuitsSelection(env, start, p)
    ensures Reaches(env, start, SelectedSession(start, p, at))
  {
    hide Reaches, Transition, SuitsAttempts, SuitsReceipt, Mapping, HistoryAfter, Distinct, EventChain.Filled,
         EveryGatePassed, WellMarked, AllUnmarked;
    var s := SelectingSession(start, p, at);
    SelectingReached(env, start, p, at);
    if start.mode == Live { FirstReceiptAccepted(env, start, p, at); }
    SelectionStep(env, s, start, p.change, at);
    ReachesMore(env, start, s, SelectionEvent(start, p.change), at);
  }

  lemma SelectionStep(env: Env, s: Session, start: Session, c: Change, at: string)
    requires s.state.Selecting? && s.mode == start.mode && c.candidate in s.candidateIds && s.round == 0
    requires env.isGitId(c.commit) && env.isSha256(c.patch) && env.isSha256(c.evidence)
    requires s.mode == Live ==> InitialReceiptAccepted(env, s, c.candidate, c.patch, c.evidence, c.commit, c.receipt)
    ensures Transition(env, s, SelectionEvent(start, c), at) == Some(s.(
      state := AwaitingHumanApproval, updatedAt := at, selected := Some(c.candidate), patchDigest := Some(c.patch),
      evidenceDigest := Some(c.evidence), commit := Some(c.commit), tree := FirstTree(start, c),
      revalidation := if start.mode == Live then Some(c.receipt) else None, round := 1))
  {
    hide InitialReceiptAccepted;
  }

  lemma FirstReceiptAccepted(env: Env, start: Session, p: Plan, at: string)
    requires Fresh(start) && Shaped(p) && SuitsCandidates(env, start, p, at) && SuitsSelection(env, start, p)
    requires start.mode == Live
    ensures InitialReceiptAccepted(env, SelectingSession(start, p, at), p.change.candidate, p.change.patch,
                                   p.change.evidence,
                                   p.change.commit, p.change.receipt)
  {
    hide Reaches, SuitsAttempts, Mapping, HistoryAfter, Distinct, EventChain.Filled, EveryGatePassed,
         HasUniqueReservedAttempt, WellMarked, AllUnmarked;
    var s := SelectingSession(start, p, at);
    SelectingReached(env, start, p, at);
    HistoryAfterFacts(start, p, |p.ids|, at);
    MappingFacts(p.ids, p.sandboxes);
    var i := |start.history| + p.winner;
    assert s.history[i] == Attempt(InitialResponse(p, p.winner, at), true, false, false);
    ReachedIsUnique(env, start, s, p.change.receipt, i);
  }

  lemma SelectedIsClean(env: Env, start: Session, p: Plan, at: string)
    requires Shaped(p) && SuitsCandidates(env, start, p, at)
    ensures HasCleanLiveHistory(SelectedSession(start, p, at))
  {
    hide Distinct, EventChain.Filled, Mapping;
    var s, k := SelectedSession(start, p, at), |start.history|;
    HistoryAfterFacts(start, p, Attempted(start, p), at);
    if start.mode == Live {
      forall i | 0 <= i < |s.history| ensures CleanAttempt(s.history[i]) {
        if i < k {
          assert s.history[i] == start.history[i];
        } else {
          assert s.history[k + (i - k)] == Attempt(InitialResponse(p, i - k, at), true, false, false);
        }
      }
    }
  }

  // ----- publication

  lemma ApprovalStep(env: Env, s: Session, a: Approval, at: string)
    requires s.state.AwaitingHumanApproval? && a.sessionId == s.sessionId && Some(a.bound.candidateId) == s.selected
    ensures Transition(env, s, ApprovalRecorded(a), at) == Some(s.(approval := Some(a), updatedAt := at))
  {}

  lemma RequestStep(env: Env, s: Session, at: string)
    requires CanCreateOrUpdatePullRequest(env, s)
    ensures Transition(env, s, PrCreationRequested, at) == Some(s.(state := CreatingPullRequest, updatedAt := at))
  {
    hide ApprovedNow, HasCleanLiveHistory;
  }

  lemma PullRequestStep(env: Env, s: Session, pr: PullRequest, at: string)
    requires s.state.CreatingPullRequest? && PullRequestAccepted(env, s, pr)
    ensures Transition(env, s, PrCreatedOrUpdated(pr), at) ==
            Some(s.(state := AwaitingCodeRabbit, pullRequest := Some(pr), findings := [], review := None,
                    updatedAt := at))
  {
    hide PullRequestAccepted;
  }

  /** The session under review once approval `a` and pull request `pr` are on record. */
  function UnderReview(s: Session, a: Approval, pr: PullRequest, at: string): Session {
    s.(state := AwaitingCodeRabbit, approval := Some(a), pullRequest := Some(pr), findings := [], review := None,
       updatedAt := at)
  }

  /** A waiting session with a clean history is published once what it binds is approved. */
  lemma PublicationReaches(env: Env, start: Session, s: Session, approver: string, pr: PullRequest, at: string)
    returns (a: Approval)
    requires Reaches(env, start, s) && s.state.AwaitingHumanApproval? && s.target.Some? && HasCleanLiveHistory(s)
    requires CurrentBinding(s).Some?
    requires PullRequestFits(env, s, CurrentBinding(s).value.candidateId, CurrentBinding(s).value.commitSha, s.tree, pr)
    ensures Reaches(env, start, UnderReview(s, a, pr, at))
  {
    hide Reaches, Transition, IsApprovalValid, HasCleanLiveHistory;
    var bound := CurrentBinding(s).value;
    a := CreateHumanApproval(env.digests, s.sessionId, approver, Approved, at, bound);
    OwnApprovalValid(env.digests, s.sessionId, approver, at, bound);
    ApprovalStep(env, s, a, at);
    ReachesMore(env, start, s, ApprovalRecorded(a), at);
    var t := s.(approval := Some(a), updatedAt := at);
    SameBinding(s, t);
    SameClean(s, t);
    RequestStep(env, t, at);
    ReachesMore(env, start, t, PrCreationRequested, at);
    var u := t.(state := CreatingPullRequest);
    SameBinding(s, u);
    BindingFields(s);
    assert PullRequestAccepted(env, u, pr);
    PullRequestStep(env, u, pr, at);
    ReachesMore(env, start, u, PrCreatedOrUpdated(pr), at);
  }

  lemma OwnApprovalValid(d: Digests, sessionId: string, approver: string, at: string, bound: Binding)
    ensures IsApprovalValid(d, Some(CreateHumanApproval(d, sessionId, approver, Approved, at, bound)), bound)
  {}

  lemma SameBinding(s: Session, t: Session)
    requires t == s.(state := t.state, approval := t.approval, updatedAt := t.updatedAt)
    ensures CurrentBinding(t) == CurrentBinding(s)
  {}

  lemma SameClean(s: Session, t: Session)
    requires t.mode == s.mode && t.history == s.history && HasCleanLiveHistory(s)
    ensures HasCleanLiveHistory(t)
  {
    hide CleanAttempt;
  }

  // ----- review

  lemma FindingsStep(env: Env, s: Session, findings: seq<Finding>, review: ReviewReceipt, at: string)
    requires s.state.AwaitingCodeRabbit? && ReviewAccepted(env, s, review, findings)
    ensures Transition(env, s, ReviewFindingsReceived(findings, review), at) ==
            Some(s.(state := if review.passed then ReviewPassed else ReviewBlocked, findings := findings,
                    review := Some(review), updatedAt := at))
  {
    ReviewIsGate(env, s, findings, review);
    hide ReviewAccepted, GatePassed;
  }

  lemma ReviewIsGate(env: Env, s: Session, findings: seq<Finding>, review: ReviewReceipt)
    requires ReviewAccepted(env, s, review, findings)
    ensures review.passed <==> GatePassed(findings)
  {
    hide GatePassed, ReviewsHead, FindingIsBound, SourceIsConsistent, EventChain.Filled, Distinct;
  }

  /** What a review is checked against: the session and its pull request. */
  lemma ReviewDependsOn(env: Env, s: Session, t: Session, review: ReviewReceipt, findings: seq<Finding>)
    requires ReviewAccepted(env, s, review, findings) && t.sessionId == s.sessionId && t.pullRequest == s.pullRequest
    ensures ReviewAccepted(env, t, review, findings)
  {
    hide GatePassed, ReviewsHead, SourceIsConsistent, EventChain.Filled, Distinct;
    forall i | 0 <= i < |findings| ensures FindingIsBound(env, t, review, t.pullRequest.value.url, findings[i]) {
      assert FindingIsBound(env, s, review, s.pullRequest.value.url, findings[i]);
    }
  }

  /** The session once its review came in. */
  function ReviewedSession(s: Session, c: Change, at: string): Session {
    s.(state := if c.review.passed then ReviewPassed else ReviewBlocked, findings := c.findings,
       review := Some(c.review), updatedAt := at)
  }

  /** A passed review is enough to become ready. */
  lemma PassedBecomesReady(env: Env, start: Session, s: Session, at: string)
    requires Fresh(start) && Reaches(env, start, s) && s.state == ReviewPassed
    ensures Reaches(env, start, s.(state := ReadyToMerge, updatedAt := at))
  {
    hide Fresh, Transition, CanEnterReadyToMerge;
    var steps :| Run(env, start, steps) == Some(s);
    ReviewPassedIsReady(env, start, steps, at);
    OneMore(env, start, steps, MarkReadyToMerge, at);
  }

  /** With suitable inputs every new session, live or not, with one candidate or several,
      gets the review of its first change. */
  lemma ReviewIsReachable(env: Env, start: Session, p: Plan, approver: string, at: string) returns (a: Approval)
    requires Fresh(start) && start.target.Some? && Shaped(p) && Suits(env, start, p, at)
    ensures Reaches(env, start,
                    ReviewedSession(UnderReview(SelectedSession(start, p, at), a, p.change.pullRequest, at), p.change,
                                    at))
  {
    hide Reaches, Transition, SuitsCandidates, SuitsSelection, ReviewAccepted, HasCleanLiveHistory, Mapping,
         HistoryAfter,
         WellMarked, AllUnmarked;
    var s := SelectedSession(start, p, at);
    SelectedReached(env, start, p, at);
    SelectedIsClean(env, start, p, at);
    a := PublicationReaches(env, start, s, approver, p.change.pullRequest, at);
    var t := UnderReview(s, a, p.change.pullRequest, at);
    ReviewDependsOn(env, start.(pullRequest := Some(p.change.pullRequest)), t, p.change.review, p.change.findings);
    FindingsStep(env, t, p.change.findings, p.change.review, at);
    ReachesMore(env, start, t, ReviewFindingsReceived(p.change.findings, p.change.review), at);
  }

  lemma FreshHasNoRounds(start: Session)
    requires Fresh(start)
    ensures start.revalidationSandboxes == []
  {}

  /** Readiness is no empty promise: with suitable inputs and a passing review every new
      session reaches it. */
  lemma ReadyIsReachable(env: Env, start: Session, p: Plan, approver: string, at: string)
    requires Fresh(start) && start.target.Some? && Shaped(p) && Suits(env, start, p, at) && p.change.review.passed
    ensures exists s: Session ::
            s.state == ReadyToMerge && s.mode == start.mode && s.revalidationSandboxes == [] && Reaches(env, start, s)
  {
    FreshHasNoRounds(start);
    hide Reaches, Suits, Fresh, Mapping, HistoryAfter;
    var a := ReviewIsReachable(env, start, p, approver, at);
    var s := ReviewedSession(UnderReview(SelectedSession(start, p, at), a, p.change.pullRequest, at), p.change, at);
    PassedBecomesReady(env, start, s, at);
  }

  // ----- repair

  /** A repair of a blocked change: where it is validated, and the repaired change. */
  datatype RepairPlan = RepairPlan(sandbox: string, run: string, change: Change)

  ghost predicate SuitsRepair(env: Env, s: Session, q: RepairPlan, at: string) {
    var c := q.change;
    && c.candidate in s.candidateIds && env.isTime(at) && NewIdentity(env, s.history, q.sandbox, q.run)
    && SuitsReceipt(env, s, c, RepairOfReview, q.sandbox, q.run) && c.commit == c.receipt.commitSha
    && env.isSha256(c.patch) && env.isSha256(c.evidence) && env.isSha256(c.receipt.attestationDigest)
    && env.isGitId(c.commit) && env.isGitId(c.receipt.validatedTreeSha) && env.referencesValid(c.receipt)
    && Some(c.evidence) != s.evidenceDigest
    && (s.pullRequest.Some? ==> !Same(env, c.commit, s.pullRequest.value.headSha))
    && SuitsReview(env, s, c, Some(c.receipt.validatedTreeSha))
  }

  function RepairResponse(c: string, sandbox: string, run: string, at: string, disposition: Disposition): Response {
    Response(c, sandbox, run, ReviewRepair, at, disposition, false)
  }

  function Repairing(s: Session, at: string): Session { s.(state := RepairingReviewFindings, updatedAt := at) }

  /** The session once the repair named its patch. */
  function RepairedPatch(env: Env, s: Session, c: string, patch: string, at: string): Session {
    var repairing := Repairing(s, at);
    repairing.(state := Revalidating, selected := Some(c), patchDigest := Some(patch), commit := None, tree := None,
               approval :=
                 InvalidateWhenEvidenceChanges(env.digests, s.approval, RepairBinding(repairing, c, patch), at))
  }

  lemma RepairSteps(env: Env, s: Session, c: string, patch: string, at: string)
    requires s.state.ReviewBlocked? && c in s.candidateIds && env.isSha256(patch)
    ensures Transition(env, s, RepairStarted, at) == Some(Repairing(s, at))
    ensures Transition(env, Repairing(s, at), RepairGenerated(c, patch), at) ==
            Some(RepairedPatch(env, s, c, patch, at))
  {
    hide InvalidateWhenEvidenceChanges, RepairBinding;
  }

  lemma RepairedPatchReached(env: Env, start: Session, s: Session, c: string, patch: string, at: string)
    requires Reaches(env, start, s) && s.state.ReviewBlocked? && c in s.candidateIds && env.isSha256(patch)
    ensures Reaches(env, start, RepairedPatch(env, s, c, patch, at))
  {
    hide Reaches, Transition, Repairing, RepairedPatch;
    RepairSteps(env, s, c, patch, at);
    ReachesMore(env, start, s, RepairStarted, at);
    ReachesMore(env, start, Repairing(s, at), RepairGenerated(c, patch), at);
  }

  lemma RepairResponseFits(
      env: Env, s: Session, c: string, patch: string, sandbox: string, run: string, disposition: Disposition,
      at: string)
    requires s.mode == Live && c in s.candidateIds && env.isTime(at) && NewIdentity(env, s.history, sandbox, run)
    ensures var t, r := RepairedPatch(env, s, c, patch, at), RepairResponse(c, sandbox, run, at, disposition);
      && ResponseAccepted(env, t, r) && Marked(t.history, r) == Attempt(r, true, false, false) && t.history == s.history
      && t.state.Revalidating?
  {
    hide InvalidateWhenEvidenceChanges, RepairBinding;
  }

  /** From every reachable blocked live session a run leads to a revalidation whose history
      is unclean. */
  lemma UncleanRepairIsReachable(
      env: Env, start: Session, s: Session, c: string, patch: string, sandbox: string, run: string, at: string)
    requires Reaches(env, start, s) && s.state.ReviewBlocked? && s.mode == Live
    requires c in s.candidateIds && env.isSha256(patch) && env.isTime(at) && NewIdentity(env, s.history, sandbox, run)
    ensures exists t: Session :: t.state == Revalidating && Unclean(t) && Reaches(env, start, t)
  {
    hide Reaches, Transition, RepairedPatch, ResponseAccepted, Marked, NewIdentity, Unclean;
    var t, r := RepairedPatch(env, s, c, patch, at), RepairResponse(c, sandbox, run, at, FailedDestroyed);
    RepairedPatchReached(env, start, s, c, patch, at);
    RepairResponseFits(env, s, c, patch, sandbox, run, FailedDestroyed, at);
    NewResponseIsNew(env, s.history, sandbox, run);
    RepairMayHoldUnclean(env, t, r, at);
    ReachesMore(env, start, t, AttemptRecorded(r), at);
  }

  lemma NewResponseIsNew(env: Env, history: seq<Attempt>, sandbox: string, run: string)
    requires NewIdentity(env, history, sandbox, run)
    ensures sandbox !in SandboxIds(history) && run !in RunIds(history)
  {}

  /** The session once the repaired change was validated in a sandbox of its own. */
  function RepairRecorded(env: Env, s: Session, q: RepairPlan, at: string): Session {
    var t := RepairedPatch(env, s, q.change.candidate, q.change.patch, at);
    t.(history := s.history
      + [Attempt(RepairResponse(q.change.candidate, q.sandbox, q.run, at, Finished), true, false, false)])
  }

  lemma RepairRecordedReached(env: Env, start: Session, s: Session, q: RepairPlan, at: string)
    requires Reaches(env, start, s) && s.state.ReviewBlocked? && s.mode == Live && SuitsRepair(env, s, q, at)
    ensures Reaches(env, start, RepairRecorded(env, s, q, at))
  {
    hide Reaches, Transition, RepairedPatch, ResponseAccepted, Marked, NewIdentity, SuitsReceipt, SuitsReview;
    var c := q.change;
    var t, r :=
      RepairedPatch(env, s, c.candidate, c.patch, at), RepairResponse(c.candidate, q.sandbox, q.run, at, Finished);
    RepairedPatchReached(env, start, s, c.candidate, c.patch, at);
    RepairResponseFits(env, s, c.candidate, c.patch, q.sandbox, q.run, Finished, at);
    RecordStep(env, t, r, at);
    ReachesMore(env, start, t, AttemptRecorded(r), at);
    RepairedPatchTime(env, s, c.candidate, c.patch, at);
  }

  lemma RepairedPatchTime(env: Env, s: Session, c: string, patch: string, at: string)
    ensures RepairedPatch(env, s, c, patch, at).updatedAt == at
  {
    hide InvalidateWhenEvidenceChanges, RepairBinding;
  }

  lemma ReportedIsRecorded(s: Session, c: string, sandbox: string)
    requires Reported(s, c, sandbox)
    ensures sandbox in SandboxIds(s.history)
  {
    var i :| 0 <= i < |s.history| && s.history[i].response.sandboxId == sandbox;
    assert SandboxIds(s.history)[i] == sandbox;
  }

  lemma RepairedIsRecorded(history: seq<Attempt>, sandbox: string)
    requires RepairedIn(history, sandbox)
    ensures sandbox in SandboxIds(history)
  {
    var i :| 0 <= i < |history| && history[i].response.sandboxId == sandbox;
    assert SandboxIds(history)[i] == sandbox;
  }

  /** A sandbox that served a candidate or a repair round is in the history. */
  lemma UsedIsRecorded(env: Env, s: Session, sandbox: string)
    requires Kept(env, s) && s.mode == Live && sandbox in UsedSandboxes(s)
    ensures sandbox in SandboxIds(s.history)
  {
    hide GateKept, ReviewKept, HistoryKept, EvidenceKept, EventChain.Filled, Reported, RepairedIn, SandboxIds;
    if sandbox in s.sandboxes.Values {
      var c :| c in s.sandboxes && s.sandboxes[c] == sandbox;
      ReportedIsRecorded(s, c, sandbox);
    } else {
      RepairedIsRecorded(s.history, sandbox);
    }
  }

  lemma RepairReceiptAccepted(env: Env, start: Session, s: Session, q: RepairPlan, at: string)
    requires Fresh(start) && Reaches(env, start, s) && s.state.ReviewBlocked? && s.mode == Live
    requires SuitsRepair(env, s, q, at)
    ensures RevalidationAccepted(env, RepairRecorded(env, s, q, at), q.change.receipt)
  {
    hide Reaches, Fresh, Kept, Transition, HasUniqueReservedAttempt, UsedSandboxes, SuitsReview, EventChain.Filled,
         EveryGatePassed, InvalidateWhenEvidenceChanges, RepairBinding;
    var t := RepairRecorded(env, s, q, at);
    RepairRecordedReached(env, start, s, q, at);
    ReachedIsUnique(env, start, t, q.change.receipt, |s.history|);
    ReachableIsKept(env, s);
    if q.sandbox in UsedSandboxes(s) { UsedIsRecorded(env, s, q.sandbox); }
    SameUsed(s, t);
  }

  lemma SameUsed(s: Session, t: Session)
    requires t.sandboxes == s.sandboxes && t.revalidationSandboxes == s.revalidationSandboxes
    ensures UsedSandboxes(t) == UsedSandboxes(s)
  {}

  /** The session after the repair round. */
  function RoundPassed(env: Env, s: Session, q: RepairPlan, at: string): Session {
    var t, r := RepairRecorded(env, s, q, at), q.change.receipt;
    t.(state := AwaitingHumanApproval, updatedAt := at, evidenceDigest := Some(r.evidenceDigest),
       patchDigest := Some(r.patchDigest), commit := Some(r.commitSha), tree := Some(r.validatedTreeSha),
       approval := Reinvalidated(env, t, r, at), round := s.round + 1, revalidation := Some(r),
       revalidationSandboxes := s.revalidationSandboxes + [r.sandboxId])
  }

  lemma RoundStep(env: Env, t: Session, r: Receipt, at: string)
    requires t.state.Revalidating? && RevalidationAccepted(env, t, r)
    ensures Transition(env, t, RevalidationPassed(r), at) == Some(t.(
      state := AwaitingHumanApproval, updatedAt := at, evidenceDigest := Some(r.evidenceDigest),
      patchDigest := Some(r.patchDigest), commit := Some(r.commitSha), tree := Some(r.validatedTreeSha),
      approval := Reinvalidated(env, t, r, at), round := t.round + 1, revalidation := Some(r),
      revalidationSandboxes := t.revalidationSandboxes + [r.sandboxId]))
  {
    hide RevalidationAccepted, Reinvalidated;
  }

  lemma RoundReached(env: Env, start: Session, s: Session, q: RepairPlan, at: string)
    requires Fresh(start) && Reaches(env, start, s) && s.state.ReviewBlocked? && s.mode == Live
    requires SuitsRepair(env, s, q, at)
    ensures Reaches(env, start, RoundPassed(env, s, q, at))
  {
    hide Reaches, Fresh, Transition, RevalidationAccepted, Reinvalidated, SuitsRepair, InvalidateWhenEvidenceChanges,
         RepairBinding;
    var t := RepairRecorded(env, s, q, at);
    RepairRecordedReached(env, start, s, q, at);
    RepairReceiptAccepted(env, start, s, q, at);
    RoundStep(env, t, q.change.receipt, at);
    ReachesMore(env, start, t, RevalidationPassed(q.change.receipt), at);
  }

  lemma RoundIsClean(env: Env, start: Session, s: Session, q: RepairPlan, at: string)
    requires Fresh(start) && Reaches(env, start, s) && s.state.ReviewBlocked?
    ensures HasCleanLiveHistory(RoundPassed(env, s, q, at))
  {
    hide Reaches, Fresh, Transition, Reinvalidated, ReviewKept, HistoryKept, RoundsKept, CandidatesKept, EvidenceKept,
         ApprovedNow, InvalidateWhenEvidenceChanges, RepairBinding;
    ReachableIsKept(env, s);
    var t := RoundPassed(env, s, q, at);
    forall i | 0 <= i < |t.history| && s.mode == Live ensures CleanAttempt(t.history[i]) {
      assert i < |s.history| ==> t.history[i] == s.history[i];
    }
  }

  /** A session reachable from `start` that is ready after one more repair round than `s`,
      at the repaired commit and tree. */
  ghost predicate ReadyAfterRepair(env: Env, start: Session, s: Session, q: RepairPlan, t: Session) {
    && t.state == ReadyToMerge && t.mode == Live && Reaches(env, start, t)
    && t.revalidationSandboxes == s.revalidationSandboxes + [q.sandbox]
    && t.commit == Some(q.change.commit) && t.tree == Some(q.change.receipt.validatedTreeSha)
    && t.pullRequest == Some(q.change.pullRequest)
  }

  /** Every reachable blocked live session becomes ready with a suitable repair: a recorded
      attempt, a passed revalidation, a new approval and a second pull request. */
  lemma RepairIsReachable(env: Env, start: Session, s: Session, q: RepairPlan, approver: string, at: string)
    requires Fresh(start) && Reaches(env, start, s) && s.state.ReviewBlocked? && s.mode == Live && s.target.Some?
    requires SuitsRepair(env, s, q, at) && q.change.review.passed
    ensures exists t :: ReadyAfterRepair(env, start, s, q, t)
  {
    hide Reaches, Fresh, Transition, Reinvalidated, ReviewAccepted, HasCleanLiveHistory, NewIdentity, EveryGatePassed,
         EventChain.Filled, InvalidateWhenEvidenceChanges, RepairBinding;
    var c, t := q.change, RoundPassed(env, s, q, at);
    RoundReached(env, start, s, q, at);
    RoundIsClean(env, start, s, q, at);
    var a := PublicationReaches(env, start, t, approver, c.pullRequest, at);
    var u := UnderReview(t, a, c.pullRequest, at);
    ReviewDependsOn(env, s.(pullRequest := Some(c.pullRequest)), u, c.review, c.findings);
    FindingsStep(env, u, c.findings, c.review, at);
    ReachesMore(env, start, u, ReviewFindingsReceived(c.findings, c.review), at);
    var v := ReviewedSession(u, c, at);
    PassedBecomesReady(env, start, v, at);
    assert ReadyAfterRepair(env, start, s, q, v.(state := ReadyToMerge, updatedAt := at));
  }
}
