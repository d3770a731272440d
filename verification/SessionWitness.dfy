/** Live tournaments that do become ready, with and without a repair, one whose repair is
    left unclean, and what freshness checks make of a ready one: instances of the general
    results, with nothing left to suppose. */
module SessionWitness {
  import opened Options
  import opened Approvals
  import opened ValidationSession
  import opened SessionSafety
  import opened SessionRuns
  import opened SessionReach
  import opened SessionRefresh
  import EventChain

  /** Checks that accept every text, and digests that tell nothing apart. */
  function PermissiveEnv(): Env {
    Env(Digests(_ => "", _ => ""), x => x, _ => true, _ => true, _ => true, _ => true, _ => true, (_, _) => true,
        (_, _) => true,
        _ => true, _ => true, _ => "")
  }

  function Upstream(): Target { Target("o", "r", "b") }

  function LiveStart(): Session { NewSession("s", Live, Tournament, "p", "0", Some(Upstream()), [], "t") }

  function PassingReceipt(
      purpose: ReceiptPurpose, patch: string, commit: string, tree: string, evidence: string, sandbox: string,
      run: string): Receipt
  {
    Receipt(purpose, "s", "p", "a", patch, commit, tree, Upstream(), evidence, "", sandbox, run, "", "",
            Gates(true, true, true, true, true, true))
  }

  function OpenPullRequest(commit: string, tree: string): PullRequest {
    PullRequest("s", "a", "o", "r", 1, "u", commit, tree, "b", "0", Open)
  }

  /** How a review ends: it passes or blocks on a finding, or passes as a manual
      attestation that names nobody. */
  datatype Verdict = Passes | Blocks | AttestedByNobody

  function ReviewOf(commit: string, v: Verdict): ReviewReceipt {
    var manual := v.AttestedByNobody?;
    ReviewReceipt(
      if manual then ManualVerified else CodeRabbit, if manual then ManualAttestation
        else LiveApi, !v.Blocks?, 1, commit,
      "b", "0", "b", "0", "u", ["v"], "t", None)
  }

  function FindingsOf(commit: string, v: Verdict): seq<Finding> {
    if v.Blocks? then [Finding("s", CodeRabbit, commit, "u", Critical, false)] else []
  }

  function FirstChange(v: Verdict): Change {
    Change("a", "x", "y", "1", PassingReceipt(InitialSelection, "x", "1", "w", "y", "d", "g"),
           OpenPullRequest("1", "w"),
           FindingsOf("1", v), ReviewOf("1", v))
  }

  function Candidates(v: Verdict): Plan { Plan(["a", "b", "c"], ["d", "e", "f"], ["g", "h", "i"], 0, FirstChange(v)) }

  function RepairedChange(): RepairPlan {
    RepairPlan("j", "k",
      Change("a", "m", "z", "2", PassingReceipt(RepairOfReview, "m", "2", "n", "z", "j", "k"),
             OpenPullRequest("2", "n"),
             FindingsOf("2", Passes), ReviewOf("2", Passes)))
  }

  ghost predicate LiveTournament(start: Session) {
    Fresh(start) && start.mode == Live && start.runKind == Tournament && start.history == []
  }

  lemma StartIsLive()
    ensures LiveTournament(LiveStart()) && LiveStart().target.Some?
  {}

  lemma OneLetterIsFilled(c: char)
    requires 'a' <= c <= 'z'
    ensures EventChain.Filled([c])
  {
    assert !EventChain.IsBlank([c][0]);
  }

  lemma NamesDiffer(x: char, y: char, z: char)
    requires x < y < z
    ensures Distinct([[x], [y], [z]])
  {
    assert [x][0] != [y][0] && [y][0] != [z][0] && [x][0] != [z][0];
  }

  lemma NamesAreLetters(v: Verdict)
    ensures var p := Candidates(v);
      && p.ids == [['a'], ['b'], ['c']] && p.sandboxes == [['d'], ['e'], ['f']] && p.runs == [['g'], ['h'], ['i']]
  {}

  lemma CandidatesSuit(v: Verdict)
    ensures Shaped(Candidates(v)) && SuitsCandidates(PermissiveEnv(), LiveStart(), Candidates(v), "t")
  {
    NamesAreLetters(v);
    NamesDiffer('a', 'b', 'c');
    NamesDiffer('d', 'e', 'f');
    NamesDiffer('g', 'h', 'i');
    OneLetterIsFilled('d');
    OneLetterIsFilled('e');
    OneLetterIsFilled('f');
    hide EventChain.Filled, Distinct, Candidates;
    assert SandboxIds([]) == [] && RunIds([]) == [];
  }

  lemma ChangeSuits(v: Verdict)
    ensures Shaped(Candidates(v)) && SuitsSelection(PermissiveEnv(), LiveStart(), Candidates(v))
  {
    OneLetterIsFilled('a');
    hide EventChain.Filled;
    assert "a" == ['a'];
  }

  lemma ReviewPasses(v: Verdict, commit: string)
    ensures GatePassed(FindingsOf(commit, v)) <==> !v.Blocks?
  {
    if v.Blocks? { assert IsBlocking(FindingsOf(commit, v)[0]); }
  }

  lemma EvidenceIsNamed()
    ensures Distinct(["v"]) && forall i :: 0 <= i < |["v"]| ==> EventChain.Filled(["v"][i])
  {
    OneLetterIsFilled('v');
    assert "v" == ['v'];
  }

  lemma ReviewSuits(s: Session, c: Change, tree: string, v: Verdict)
    requires s.sessionId == "s" && s.target == Some(Upstream()) && s.baseCommit == "0"
    requires c.candidate == "a" && c.pullRequest == OpenPullRequest(c.commit, tree)
    requires c.review == ReviewOf(c.commit, v) && c.findings == FindingsOf(c.commit, v)
    ensures SuitsReview(PermissiveEnv(), s, c, Some(tree))
  {
    EvidenceIsNamed();
    ReviewPasses(v, c.commit);
    hide EventChain.Filled, Distinct, GatePassed;
    forall i | 0 <= i < |c.findings|
      ensures FindingIsBound(PermissiveEnv(), s, c.review, c.pullRequest.url, c.findings[i])
    {}
    assert ReviewsHead(PermissiveEnv(), c.review, c.pullRequest);
  }

  lemma PlanSuits(v: Verdict)
    ensures Shaped(Candidates(v)) && Suits(PermissiveEnv(), LiveStart(), Candidates(v), "t")
  {
    hide SuitsCandidates, SuitsSelection, SuitsReview;
    CandidatesSuit(v);
    ChangeSuits(v);
    ReviewSuits(LiveStart(), FirstChange(v), "w", v);
  }

  /** A run that ends ready after `rounds` passed revalidations. */
  ghost predicate ReadyBy(env: Env, start: Session, steps: seq<Timed>, rounds: nat) {
    Run(env, start, steps).Some? && Run(env, start, steps).value.state == ReadyToMerge && CountRounds(steps) == rounds
  }

  lemma ReadyRun(env: Env, start: Session, s: Session) returns (steps: seq<Timed>)
    requires Fresh(start) && Reaches(env, start, s) && s.state == ReadyToMerge
    ensures ReadyBy(env, start, steps, |s.revalidationSandboxes|)
  {
    hide Fresh, Transition, RepairedIn;
    steps :| Run(env, start, steps) == Some(s);
    RoundsAreDistinctAttempts(env, start, steps);
  }

  /** A live tournament becomes ready after its first review. */
  lemma LiveTournamentBecomesReady()
    ensures exists env, start, steps :: LiveTournament(start) && ReadyBy(env, start, steps, 0)
  {
    StartIsLive();
    hide Suits, Fresh, Reaches, ReadyBy;
    PlanSuits(Passes);
    ReadyIsReachable(PermissiveEnv(), LiveStart(), Candidates(Passes), "q", "t");
    var s: Session :| s.state == ReadyToMerge && s.revalidationSandboxes == []
      && Reaches(PermissiveEnv(), LiveStart(), s);
    var steps := ReadyRun(PermissiveEnv(), LiveStart(), s);
  }

  /** So does one whose review is a manual attestation that names nobody. */
  lemma UnnamedAttestationBecomesReady()
    ensures exists env, start, s ::
      && LiveTournament(start) && Reaches(env, start, s) && s.state == ReadyToMerge
      && s.review.Some? && s.review.value.provider == ManualVerified && s.review.value.attestedBy.None?
  {
    StartIsLive();
    PlanSuits(AttestedByNobody);
    hide Suits, Fresh, Reaches, HistoryAfter, Mapping;
    var env, start, p := PermissiveEnv(), LiveStart(), Candidates(AttestedByNobody);
    var a := ReviewIsReachable(env, start, p, "q", "t");
    var s := ReviewedSession(UnderReview(SelectedSession(start, p, "t"), a, OpenPullRequest("1", "w"), "t"), p.change,
                             "t");
    PassedBecomesReady(env, start, s, "t");
    var t := s.(state := ReadyToMerge, updatedAt := "t");
    assert t.review == Some(ReviewOf("1", AttestedByNobody));
  }

  // ----- the same tournament with a review that blocks

  lemma BlockedTournament() returns (s: Session)
    ensures Reaches(PermissiveEnv(), LiveStart(), s) && s.state.ReviewBlocked? && s.mode == Live
    ensures s.target == Some(Upstream())
    ensures s.sessionId == "s" && s.policyVersion == "p" && s.baseCommit == "0" && s.candidateIds == ["a", "b", "c"]
    ensures s.history == HistoryAfter(LiveStart(), Candidates(Blocks), 3, "t") && s.evidenceDigest == Some("y")
    ensures s.pullRequest == Some(OpenPullRequest("1", "w")) && s.revalidationSandboxes == []
  {
    StartIsLive();
    PlanSuits(Blocks);
    hide Suits, Fresh, Reaches, HistoryAfter, Mapping;
    var a := ReviewIsReachable(PermissiveEnv(), LiveStart(), Candidates(Blocks), "q", "t");
    s := ReviewedSession(UnderReview(SelectedSession(LiveStart(), Candidates(Blocks), "t"), a,
                                     OpenPullRequest("1", "w"), "t"), FirstChange(Blocks), "t");
  }

  lemma RepairIdentityIsNew()
    ensures NewIdentity(PermissiveEnv(), HistoryAfter(LiveStart(), Candidates(Blocks), 3, "t"), "j", "k")
  {
    var p := Candidates(Blocks);
    var h := HistoryAfter(LiveStart(), p, 3, "t");
    HistoryAfterFacts(LiveStart(), p, 3, "t");
    forall i | 0 <= i < |h| ensures SandboxIds(h)[i] != "j" && RunIds(h)[i] != "k" {
      assert h[0 + i] == Attempt(InitialResponse(p, i, "t"), true, false, false);
    }
  }

  lemma RepairSuits(s: Session)
    requires s.sessionId == "s" && s.policyVersion == "p" && s.baseCommit == "0" && s.candidateIds == ["a", "b", "c"]
    requires s.target == Some(Upstream()) && s.evidenceDigest == Some("y")
    requires s.pullRequest == Some(OpenPullRequest("1", "w"))
    requires NewIdentity(PermissiveEnv(), s.history, "j", "k")
    ensures SuitsRepair(PermissiveEnv(), s, RepairedChange(), "t")
  {
    OneLetterIsFilled('a');
    ReviewSuits(s, RepairedChange().change, "n", Passes);
    hide EventChain.Filled, NewIdentity, SuitsReview;
    assert "a" == ['a'] && s.candidateIds[0] == "a";
  }

  /** A live tournament whose first review blocks becomes ready after one repair. */
  lemma RepairedTournamentBecomesReady()
    ensures exists env, start, steps :: LiveTournament(start) && ReadyBy(env, start, steps, 1)
  {
    StartIsLive();
    hide Suits, Fresh, Reaches, ReadyBy, SuitsRepair, HistoryAfter, NewIdentity;
    var env, start := PermissiveEnv(), LiveStart();
    var s := BlockedTournament();
    RepairIdentityIsNew();
    RepairSuits(s);
    RepairIsReachable(env, start, s, RepairedChange(), "q", "t");
    var t :| ReadyAfterRepair(env, start, s, RepairedChange(), t);
    var steps := ReadyRun(env, start, t);
  }

  /** And one whose repair leaves an unclean attempt waits in revalidation. */
  lemma UncleanTournamentRevalidates()
    ensures exists env, start, s ::
            LiveTournament(start) && Reaches(env, start, s) && s.state == Revalidating && Unclean(s)
  {
    StartIsLive();
    hide Suits, Fresh, Reaches, HistoryAfter, NewIdentity, Unclean;
    var s := BlockedTournament();
    RepairIdentityIsNew();
    assert s.candidateIds[0] == "a";
    UncleanRepairIsReachable(PermissiveEnv(), LiveStart(), s, "a", "m", "j", "k", "t");
  }

  // ----- freshness checks of a ready tournament

  lemma ReadyTournament() returns (s: Session)
    ensures Reachable(PermissiveEnv(), s) && s.state == ReadyToMerge && s.mode == Live && HasClaim(s)
  {
    StartIsLive();
    hide Suits, Fresh, Reaches, ReviewAccepted;
    PlanSuits(Passes);
    ReadyIsReachable(PermissiveEnv(), LiveStart(), Candidates(Passes), "q", "t");
    s :| s.state == ReadyToMerge && s.mode == Live && Reaches(PermissiveEnv(), LiveStart(), s);
    ReviewOnRecordAccepted(PermissiveEnv(), s);
    ReviewPullRequest(PermissiveEnv(), s, s.review.value, s.findings);
  }

  /** An inspection that reports a pass, with or without an unresolved critical finding, or
      that the head moved. */
  function InspectionOf(status: InspectionStatus, findings: seq<Finding>): Inspection {
    Inspection(true, status, status.Passed?, false, false, 1, "1", "1", "b", "0", "b", "0", findings, ["v"], "", "t")
  }

  ghost predicate ReadyLive(env: Env, s: Session) { Reachable(env, s) && s.state == ReadyToMerge && s.mode == Live }

  function SameUrl(): int -> string { _ => "" }

  /** A freshness check of `s` gives that answer and leads to `t`. */
  predicate ChecksTo(env: Env, s: Session, i: Inspection, answer: Refreshing, t: Session) {
    AfterRefresh(env, SameUrl(), s, Some(i), "t") == (answer, t)
  }

  /** A freshness check may leave a session ready over a finding that blocks: a session no
      transitions lead to. */
  lemma RefreshedTournamentMayBlock()
    ensures exists env, s, i, t ::
      && ReadyLive(env, s) && ChecksTo(env, s, i, Refreshed, t)
      && t.state == ReadyToMerge && !GatePassed(t.findings) && !Reachable(env, t)
  {
    var env, findings := PermissiveEnv(), FindingsOf("1", Blocks);
    var i := InspectionOf(Passed, findings);
    var review := ReceiptOf(env, SameUrl(), i).value;
    ReviewPasses(Blocks, "1");
    hide Reachable, GatePassed, ReviewAccepted;
    var s := ReadyTournament();
    RefreshedIsReachable(env, s, review, findings, review.capturedAt);
    if ReviewAccepted(env, s, review, findings) { ReviewIsGate(env, s, findings, review); }
    assert ChecksTo(env, s, i, Refreshed, WithReview(s, review, findings, review.capturedAt));
  }

  /** And a moved head does revoke a ready claim. */
  lemma RefreshedTournamentMayBeRevoked()
    ensures exists env, s, i, t ::
      ReadyLive(env, s) && ChecksTo(env, s, i, Revoked, t) && t.state == Failed && !Reachable(env, t)
  {
    hide Reachable, PermissiveEnv, RevocationReason, RestartAction;
    var s := ReadyTournament();
    var env, i := PermissiveEnv(), InspectionOf(Stale, []);
    RevokedIsUnreachable(env, s, RevocationReason(i.reason), "t");
    assert ChecksTo(env, s, i, Revoked, RevokedSession(s, RevocationReason(i.reason), "t"));
  }
}
