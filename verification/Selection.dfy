/** From scores to a winner: the hard gates, the weighted score, the ranking and the
    selection, for code candidates and for database plans. */
module Selection {
  import opened Options
  import opened Sorting
  import opened Scorers

  // ----- gates and weights

  datatype HardGate = BuildGate | SafetyGate | IntegrityGate | UnitTestGate

  function FailureIf(failed: bool, gate: HardGate): seq<HardGate> { if failed then [gate] else [] }

  function Failures(v: Values): seq<HardGate> {
    FailureIf(v.buildSuccess != 1.0, BuildGate) + FailureIf(v.safetyInvariant != 1.0, SafetyGate)
    + FailureIf(v.patchIntegrity != 1.0, IntegrityGate) + FailureIf(v.unitTestPassRate < 0.95, UnitTestGate)
  }

  /** Collects the failed gates; throws exactly when some value is no score. */
  method EvaluateEligibility(v: Values) returns (r: Option<seq<HardGate>>)
    ensures r == if AllInUnit(v) then Some(Failures(v)) else None
    ensures r.Some? <==>
              && 0.0 <= v.buildSuccess <= 1.0 && 0.0 <= v.unitTestPassRate <= 1.0 && 0.0 <= v.safetyInvariant <= 1.0
              && 0.0 <= v.regressionProtection <= 1.0 && 0.0 <= v.patchIntegrity <= 1.0
              && 0.0 <= v.patchMinimality <= 1.0 && 0.0 <= v.explanationGroundedness <= 1.0
              && 0.0 <= v.reproducibility <= 1.0
    ensures r.Some? ==>
              && (BuildGate in r.value <==> v.buildSuccess != 1.0)
              && (SafetyGate in r.value <==> v.safetyInvariant != 1.0)
              && (IntegrityGate in r.value <==> v.patchIntegrity != 1.0)
              && (UnitTestGate in r.value <==> v.unitTestPassRate < 0.95)
  {
    if !AllInUnit(v) { return None; }
    var failures: seq<HardGate> := [];
    if v.buildSuccess != 1.0 { failures := failures + [BuildGate]; }
    assert failures == FailureIf(v.buildSuccess != 1.0, BuildGate);
    ghost var first := failures;
    if v.safetyInvariant != 1.0 { failures := failures + [SafetyGate]; }
    assert failures == first + FailureIf(v.safetyInvariant != 1.0, SafetyGate);
    ghost var second := failures;
    if v.patchIntegrity != 1.0 { failures := failures + [IntegrityGate]; }
    assert failures == second + FailureIf(v.patchIntegrity != 1.0, IntegrityGate);
    ghost var third := failures;
    if v.unitTestPassRate < 0.95 { failures := failures + [UnitTestGate]; }
    assert failures == third + FailureIf(v.unitTestPassRate < 0.95, UnitTestGate);
    r := Some(failures);
  }

  /** The weighted sum before rounding. */
  function WeightedSum(v: Values): real {
    0.3 * v.regressionProtection + 0.25 * v.unitTestPassRate + 0.2 * v.patchMinimality
    + 0.15 * v.explanationGroundedness + 0.1 * v.reproducibility
  }

  function WeightedScore(v: Values): real { Round6(WeightedSum(v)) }

  lemma WeightedInUnit(v: Values)
    requires AllInUnit(v)
    ensures InUnit(WeightedScore(v))
  {
    assert 0.0 <= WeightedSum(v) <= 1.0;
    hide Round6;
    RoundKeepsUnit(WeightedSum(v));
  }

  /** A candidate at least as good in every weighted respect weighs at least as much, and
      one score throughout weighs that score. */
  lemma WeightedRespectsScores(v: Values, w: Values, x: real)
    requires v.regressionProtection <= w.regressionProtection && v.unitTestPassRate <= w.unitTestPassRate
    requires v.patchMinimality <= w.patchMinimality
    requires v.explanationGroundedness <= w.explanationGroundedness && v.reproducibility <= w.reproducibility
    ensures WeightedScore(v) <= WeightedScore(w)
    ensures WeightedScore(Values(x, x, x, x, x, x, x, x)) == Round6(x)
  {
    hide Round6;
    RoundGrows(WeightedSum(v), WeightedSum(w));
    assert WeightedSum(Values(x, x, x, x, x, x, x, x)) == x;
  }

  /** Whatever the scores, the same gain counts most in regression protection, then in
      unit tests, minimality, grounding and reproducibility. */
  lemma WeightsRank(v: Values, gain: real)
    requires gain >= 0.0
    ensures var regression := v.(regressionProtection := v.regressionProtection + gain);
      var units := v.(unitTestPassRate := v.unitTestPassRate + gain);
      var minimality := v.(patchMinimality := v.patchMinimality + gain);
      var grounding := v.(explanationGroundedness := v.explanationGroundedness + gain);
      var reproducibility := v.(reproducibility := v.reproducibility + gain);
      && WeightedScore(v) <= WeightedScore(reproducibility) <= WeightedScore(grounding) <= WeightedScore(minimality)
      && WeightedScore(minimality) <= WeightedScore(units) <= WeightedScore(regression)
  {
    hide Round6;
    var regression := v.(regressionProtection := v.regressionProtection + gain);
    var units := v.(unitTestPassRate := v.unitTestPassRate + gain);
    var minimality := v.(patchMinimality := v.patchMinimality + gain);
    var grounding := v.(explanationGroundedness := v.explanationGroundedness + gain);
    var reproducibility := v.(reproducibility := v.reproducibility + gain);
    RoundGrows(WeightedSum(v), WeightedSum(reproducibility));
    RoundGrows(WeightedSum(reproducibility), WeightedSum(grounding));
    RoundGrows(WeightedSum(grounding), WeightedSum(minimality));
    RoundGrows(WeightedSum(minimality), WeightedSum(units));
    RoundGrows(WeightedSum(units), WeightedSum(regression));
  }

  /** A score in one respect alone weighs its share. */
  lemma OneRespectAlone(v: Values, x: real)
    requires v.regressionProtection == v.unitTestPassRate == v.patchMinimality == 0.0
    requires v.explanationGroundedness == v.reproducibility == 0.0
    ensures WeightedScore(v.(regressionProtection := x)) == Round6(0.3 * x)
    ensures WeightedScore(v.(unitTestPassRate := x)) == Round6(0.25 * x)
    ensures WeightedScore(v.(patchMinimality := x)) == Round6(0.2 * x)
    ensures WeightedScore(v.(explanationGroundedness := x)) == Round6(0.15 * x)
    ensures WeightedScore(v.(reproducibility := x)) == Round6(0.1 * x)
  {
    hide Round6;
    assert WeightedSum(v.(regressionProtection := x)) == 0.3 * x && WeightedSum(v.(unitTestPassRate := x)) == 0.25 * x;
    assert WeightedSum(v.(patchMinimality := x)) == 0.2 * x
      && WeightedSum(v.(explanationGroundedness := x)) == 0.15 * x;
    assert WeightedSum(v.(reproducibility := x)) == 0.1 * x;
  }

  /** What passing every hard gate means for the evidence. */
  predicate Sound(e: Evidence) {
    && e.exitCode == Some(0)
    && e.safetyTests.total > 0 && e.safetyTests.passed == e.safetyTests.total && e.criticalFailures == []
    && e.integrityPassed && e.violations == []
    && e.unitTests.total > 0 && 100000 * (19 * e.unitTests.total - 20 * e.unitTests.passed) <= e.unitTests.total
  }

  /** A candidate is eligible exactly when its evidence is sound. */
  lemma EligibleExactly(e: Evidence)
    requires WellFormed(e)
    ensures EvaluateDeterministicScorers(e).Some?
    ensures Failures(EvaluateDeterministicScorers(e).value) == [] <==> Sound(e)
  {
    hide Round6, Ratio, TallyOk, PatchMinimality, PatchCounts, RateScore, AllInUnit, WellFormed, Score;
    ScoresInUnit(e);
    GateScores(e);
    UnitScore(e);
  }

  lemma GateScores(e: Evidence)
    requires WellFormed(e)
    ensures EvaluateDeterministicScorers(e).Some?
    ensures var v := EvaluateDeterministicScorers(e).value;
      && (v.buildSuccess == 1.0 <==> e.exitCode == Some(0))
      && (v.patchIntegrity == 1.0 <==> e.integrityPassed && e.violations == [])
      && (v.safetyInvariant == 1.0 <==>
           e.safetyTests.total > 0 && e.safetyTests.passed == e.safetyTests.total && e.criticalFailures == [])
      && Some(v.unitTestPassRate) == RateScore(e.unitTests)
  {
    ScoresInUnit(e);
    RatioInUnit(e.safetyTests);
    hide Round6, Ratio, PatchMinimality, RateScore, Score, PatchCounts;
    ScoreOfPass(e.exitCode == Some(0));
    ScoreOfPass(e.integrityPassed && e.violations == []);
    ScoreOfPass(e.safetyTests.total > 0 && Ratio(e.safetyTests) == 1.0 && e.criticalFailures == []);
  }

  lemma UnitScore(e: Evidence)
    requires WellFormed(e)
    ensures RateScore(e.unitTests).Some?
    ensures RateScore(e.unitTests).value >= 0.95 <==>
            e.unitTests.total > 0 && 100000 * (19 * e.unitTests.total - 20 * e.unitTests.passed) <= e.unitTests.total
  {
    RateScored(e.unitTests);
    if e.unitTests.total > 0 { UnitGateExact(e.unitTests); }
  }

  // ----- ranking

  datatype Ranking = Ranking(candidateId: string, eligible: bool, weightedScore: real, evidenceDigest: string)

  /** The comparison function of the sort. */
  function Before(precedes: (string, string) -> bool): (Ranking, Ranking) -> bool {
    (x: Ranking, y: Ranking) =>
      if x.eligible != y.eligible then x.eligible
      else if x.weightedScore != y.weightedScore then x.weightedScore > y.weightedScore
      else if x.evidenceDigest != y.evidenceDigest then precedes(x.evidenceDigest, y.evidenceDigest)
      else precedes(x.candidateId, y.candidateId)
  }

  predicate IdsDistinct(rs: seq<Ranking>) {
    forall i, j :: 0 <= i < j < |rs| ==> rs[i].candidateId != rs[j].candidateId
  }

  lemma RankingsCompare(precedes: (string, string) -> bool, rs: seq<Ranking>)
    requires StrictTotal(precedes)
    ensures StrictOrder(Before(precedes))
    ensures IdsDistinct(rs) ==> Comparable(Before(precedes), rs)
  {
    hide StrictTotal;
    var before := Before(precedes);
    forall x: Ranking, y: Ranking, z: Ranking
      ensures !before(x, x) && (before(x, y) && before(y, z) ==> before(x, z))
      ensures x.candidateId != y.candidateId ==> before(x, y) || before(y, x)
    {
      StrictTotalFacts(precedes, x.evidenceDigest, y.evidenceDigest, z.evidenceDigest);
      StrictTotalFacts(precedes, y.evidenceDigest, x.evidenceDigest, z.evidenceDigest);
      StrictTotalFacts(precedes, x.candidateId, y.candidateId, z.candidateId);
    }
  }

  /** Eligible ones first, then by higher score, then by digest, then by identifier. */
  predicate ComesBefore(precedes: (string, string) -> bool, x: Ranking, y: Ranking) {
    || (x.eligible && !y.eligible)
    || (x.eligible == y.eligible && x.weightedScore > y.weightedScore)
    || (x.eligible == y.eligible && x.weightedScore == y.weightedScore && x.evidenceDigest != y.evidenceDigest
        && precedes(x.evidenceDigest, y.evidenceDigest))
    || (x.eligible == y.eligible && x.weightedScore == y.weightedScore && x.evidenceDigest == y.evidenceDigest
        && precedes(x.candidateId, y.candidateId))
  }

  ghost predicate InRankOrder(precedes: (string, string) -> bool, rs: seq<Ranking>) {
    forall i, j :: 0 <= i < j < |rs| ==> ComesBefore(precedes, rs[i], rs[j])
  }

  lemma SortRanks(precedes: (string, string) -> bool, rs: seq<Ranking>)
    requires StrictTotal(precedes) && IdsDistinct(rs)
    ensures InRankOrder(precedes, SortBy(Before(precedes), rs))
    ensures multiset(SortBy(Before(precedes), rs)) == multiset(rs)
  {
    hide StrictTotal, StrictOrder, SortBy, IdsDistinct;
    RankingsCompare(precedes, rs);
    SortPermutes(Before(precedes), rs);
    SortOrders(Before(precedes), rs);
    var sorted := SortBy(Before(precedes), rs);
    forall i, j | 0 <= i < j < |sorted| ensures ComesBefore(precedes, sorted[i], sorted[j]) {
      assert Before(precedes)(sorted[i], sorted[j]);
    }
  }

  /** `rankings.find(candidate => candidate.eligible)`. */
  function FirstEligible(rs: seq<Ranking>): Option<Ranking> {
    if rs == [] then None else if rs[0].eligible then Some(rs[0]) else FirstEligible(rs[1..])
  }

  /** `w` is eligible and beats every other eligible candidate: by score, on a tie by
      evidence digest, and on another tie by identifier. */
  ghost predicate IsBest(precedes: (string, string) -> bool, rs: seq<Ranking>, w: Ranking) {
    && w in rs && w.eligible
    && forall r :: r in rs && r.eligible && r != w ==>
         || w.weightedScore > r.weightedScore
         || (w.weightedScore == r.weightedScore && w.evidenceDigest != r.evidenceDigest
              && precedes(w.evidenceDigest, r.evidenceDigest))
         || (w.weightedScore == r.weightedScore && w.evidenceDigest == r.evidenceDigest
              && precedes(w.candidateId, r.candidateId))
  }

  lemma {:induction false} FirstEligibleFound(rs: seq<Ranking>)
    ensures FirstEligible(rs).None? <==> forall r :: r in rs ==> !r.eligible
    ensures FirstEligible(rs).Some? ==>
      exists k :: 0 <= k < |rs| && rs[k] == FirstEligible(rs).value && rs[k].eligible
        && forall i :: 0 <= i < k ==> !rs[i].eligible
  {
    if rs != [] {
      FirstEligibleFound(rs[1..]);
      assert rs == [rs[0]] + rs[1..];
      if !rs[0].eligible && FirstEligible(rs[1..]).Some? {
        var k :| 0 <= k < |rs| - 1 && rs[1..][k] == FirstEligible(rs).value && rs[1..][k].eligible
          && forall i :: 0 <= i < k ==> !rs[1..][i].eligible;
        assert rs[k + 1] == rs[1..][k];
        assert forall i :: 1 <= i < k + 1 ==> rs[i] == rs[1..][i - 1];
      }
    }
  }

  /** The first eligible of the sorted rankings is the best of the given ones; there is
      none exactly when none is eligible. */
  lemma WinnerIsBest(precedes: (string, string) -> bool, rs: seq<Ranking>)
    requires StrictTotal(precedes) && IdsDistinct(rs)
    ensures var w := FirstEligible(SortBy(Before(precedes), rs));
      (w.None? <==> forall r :: r in rs ==> !r.eligible) && (w.Some? ==> IsBest(precedes, rs, w.value))
  {
    hide StrictTotal, StrictOrder, SortBy, IdsDistinct;
    var sorted := SortBy(Before(precedes), rs);
    RankingsCompare(precedes, rs);
    SortPermutes(Before(precedes), rs);
    SortOrders(Before(precedes), rs);
    SameElements(sorted, rs);
    FirstEligibleFound(sorted);
    var w := FirstEligible(sorted);
    if w.Some? {
      var k :| 0 <= k < |sorted| && sorted[k] == w.value && sorted[k].eligible
        && forall i :: 0 <= i < k ==> !sorted[i].eligible;
      forall r | r in rs && r.eligible && r != w.value ensures Before(precedes)(w.value, r) {
        var i :| 0 <= i < |sorted| && sorted[i] == r;
        assert k < i;
      }
      assert w.value in sorted;
    }
  }

  lemma BestUnique(precedes: (string, string) -> bool, xs: seq<Ranking>, ys: seq<Ranking>, v: Ranking, w: Ranking)
    requires StrictTotal(precedes) && IsBest(precedes, xs, v) && IsBest(precedes, ys, w)
    requires forall r: Ranking :: r.eligible ==> (r in xs <==> r in ys)
    ensures v == w
  {}

  /** The winner depends on the eligible candidates alone: not on the order of the input,
      and not on which ineligible ones there are or how they score. */
  lemma WinnerIgnoresTheRest(precedes: (string, string) -> bool, xs: seq<Ranking>, ys: seq<Ranking>)
    requires StrictTotal(precedes) && IdsDistinct(xs) && IdsDistinct(ys)
    requires forall r: Ranking :: r.eligible ==> (r in xs <==> r in ys)
    ensures FirstEligible(SortBy(Before(precedes), xs)) == FirstEligible(SortBy(Before(precedes), ys))
  {
    hide StrictTotal, SortBy, IdsDistinct, IsBest, FirstEligible;
    var v, w := FirstEligible(SortBy(Before(precedes), xs)), FirstEligible(SortBy(Before(precedes), ys));
    WinnerIsBest(precedes, xs);
    WinnerIsBest(precedes, ys);
    if v.Some? && w.Some? { BestUnique(precedes, xs, ys, v.value, w.value); }
  }

  // ----- code candidates

  datatype Input = Input(candidateId: string, values: Values, evidenceDigest: string)

  function RankingOf(c: Input): Ranking {
    Ranking(c.candidateId, Failures(c.values) == [], WeightedScore(c.values), c.evidenceDigest)
  }

  function RankingsOf(cs: seq<Input>): (rs: seq<Ranking>)
    ensures |rs| == |cs| && forall i :: 0 <= i < |cs| ==> rs[i] == RankingOf(cs[i])
  {
    seq(|cs|, i requires 0 <= i < |cs| => RankingOf(cs[i]))
  }

  predicate Rankable(cs: seq<Input>) {
    && (forall i :: 0 <= i < |cs| ==> AllInUnit(cs[i].values))
    && (forall i, j :: 0 <= i < j < |cs| ==> cs[i].candidateId != cs[j].candidateId)
  }

  /** The ranking is that candidate's: its identifier and digest, its eligibility by the
      four hard gates, and its score to six decimals. */
  predicate Ranks(r: Ranking, c: Input) {
    && r.candidateId == c.candidateId && r.evidenceDigest == c.evidenceDigest
    && (r.eligible <==>
          && c.values.buildSuccess == 1.0 && c.values.safetyInvariant == 1.0 && c.values.patchIntegrity == 1.0
          && c.values.unitTestPassRate >= 0.95)
    && r.weightedScore == Round6(
         0.3 * c.values.regressionProtection + 0.25 * c.values.unitTestPassRate + 0.2 * c.values.patchMinimality
         + 0.15 * c.values.explanationGroundedness + 0.1 * c.values.reproducibility)
  }

  lemma RankingRanks(c: Input)
    ensures Ranks(RankingOf(c), c)
  {
    hide Round6;
  }

  ghost predicate RanksSome(r: Ranking, cs: seq<Input>) { exists k :: 0 <= k < |cs| && Ranks(r, cs[k]) }

  ghost predicate IsRanked(rs: seq<Ranking>, c: Input) { exists i :: 0 <= i < |rs| && Ranks(rs[i], c) }

  /** Every candidate has one ranking, and every ranking is that of one candidate. */
  ghost predicate RanksAll(rs: seq<Ranking>, cs: seq<Input>) {
    && |rs| == |cs|
    && (forall i :: 0 <= i < |rs| ==> RanksSome(rs[i], cs))
    && (forall k :: 0 <= k < |cs| ==> IsRanked(rs, cs[k]))
    && (forall i, j :: 0 <= i < j < |rs| ==> rs[i].candidateId != rs[j].candidateId)
  }

  lemma RankableIsDistinct(cs: seq<Input>)
    requires Rankable(cs)
    ensures IdsDistinct(RankingsOf(cs))
  {
    hide AllInUnit, RankingOf;
    forall k | 0 <= k < |cs| ensures RankingsOf(cs)[k].candidateId == cs[k].candidateId { RankingRanks(cs[k]); }
  }

  lemma SortedRanksAll(precedes: (string, string) -> bool, cs: seq<Input>)
    requires Rankable(cs)
    ensures RanksAll(SortBy(Before(precedes), RankingsOf(cs)), cs)
  {
    hide SortBy, Before, Ranks, RankingOf, Rankable;
    var given, sorted := RankingsOf(cs), SortBy(Before(precedes), RankingsOf(cs));
    SortPermutes(Before(precedes), given);
    SameElements(sorted, given);
    assert |multiset(sorted)| == |multiset(given)|;
    forall k | 0 <= k < |cs| ensures Ranks(given[k], cs[k]) { RankingRanks(cs[k]); }
    forall i | 0 <= i < |sorted| ensures RanksSome(sorted[i], cs) {
      assert sorted[i] in given;
      var k :| 0 <= k < |given| && given[k] == sorted[i];
      assert Ranks(sorted[i], cs[k]);
    }
    forall k | 0 <= k < |cs| ensures IsRanked(sorted, cs[k]) {
      assert given[k] in sorted;
      var i :| 0 <= i < |sorted| && sorted[i] == given[k];
      assert Ranks(sorted[i], cs[k]);
    }
    RankableIsDistinct(cs);
    StillDistinct(sorted, given);
  }

  lemma {:induction false} StillDistinct(xs: seq<Ranking>, ys: seq<Ranking>)
    requires multiset(xs) == multiset(ys) && IdsDistinct(ys)
    ensures IdsDistinct(xs)
  {
    forall i, j | 0 <= i < j < |xs| ensures xs[i].candidateId != xs[j].candidateId {
      if xs[i].candidateId == xs[j].candidateId {
        assert xs[i] in multiset(ys) && xs[j] in multiset(ys);
        var k :| 0 <= k < |ys| && ys[k] == xs[i];
        var l :| 0 <= l < |ys| && ys[l] == xs[j];
        assert k == l;
        Twice(xs, i, j);
        Once(ys, k);
      }
    }
  }

  lemma Twice(xs: seq<Ranking>, i: nat, j: nat)
    requires i < j < |xs| && xs[i] == xs[j]
    ensures multiset(xs)[xs[i]] >= 2
  {
    assert xs == xs[..j] + xs[j..] && xs[i] in xs[..j] && xs[j] in xs[j..];
    assert multiset(xs) == multiset(xs[..j]) + multiset(xs[j..]);
    assert xs[..j][i] == xs[i] && xs[j..][0] == xs[j];
  }

  lemma Once(ys: seq<Ranking>, k: nat)
    requires IdsDistinct(ys) && k < |ys|
    ensures multiset(ys)[ys[k]] == 1
  {
    assert ys == ys[..k] + [ys[k]] + ys[k + 1..];
    assert multiset(ys) == multiset(ys[..k]) + multiset{ys[k]} + multiset(ys[k + 1..]);
    assert ys[k] !in ys[..k];
    assert ys[k] !in ys[k + 1..];
  }

  /** Ranks candidates; throws exactly on a repeated identifier or a value that is no
      score. */
  method RankCandidates(precedes: (string, string) -> bool, cs: seq<Input>) returns (r: Option<seq<Ranking>>)
    ensures r == if Rankable(cs) then Some(SortBy(Before(precedes), RankingsOf(cs))) else None
    ensures r.Some? ==> RanksAll(r.value, cs) && (StrictTotal(precedes) ==> InRankOrder(precedes, r.value))
  {
    hide AllInUnit, Failures, WeightedScore, SortBy, Before;
    var seen: set<string> := {};
    var rankings: seq<Ranking> := [];
    for n := 0 to |cs|
      invariant seen == set i | 0 <= i < n :: cs[i].candidateId
      invariant forall i :: 0 <= i < n ==> AllInUnit(cs[i].values)
      invariant forall i, j :: 0 <= i < j < n ==> cs[i].candidateId != cs[j].candidateId
      invariant |rankings| == n && forall i :: 0 <= i < n ==> rankings[i] == RankingOf(cs[i])
    {
      if cs[n].candidateId in seen { return None; }
      seen := seen + {cs[n].candidateId};
      var failures := EvaluateEligibility(cs[n].values);
      if failures.None? { return None; }
      rankings := rankings
        + [Ranking(cs[n].candidateId, failures.value == [], WeightedScore(cs[n].values), cs[n].evidenceDigest)];
    }
    assert rankings == RankingsOf(cs);
    SortedRanksAll(precedes, cs);
    RankableIsDistinct(cs);
    if StrictTotal(precedes) { SortRanks(precedes, rankings); }
    r := Some(SortBy(Before(precedes), rankings));
  }

  datatype Decision = Decision(winnerCandidateId: Option<string>, rankings: seq<Ranking>)

  function Winner(precedes: (string, string) -> bool, rs: seq<Ranking>): Option<string> {
    match FirstEligible(SortBy(Before(precedes), rs))
    case None => None
    case Some(w) => Some(w.candidateId)
  }

  /** `w` passed the hard gates and beats every other candidate that did. */
  ghost predicate Wins(precedes: (string, string) -> bool, cs: seq<Input>, w: string) {
    exists rs, r: Ranking :: RanksAll(rs, cs) && r in rs && r.candidateId == w && IsBest(precedes, rs, r)
  }

  /** The candidate's values pass the four hard gates. */
  predicate PassesGates(v: Values) {
    v.buildSuccess == 1.0 && v.safetyInvariant == 1.0 && v.patchIntegrity == 1.0 && v.unitTestPassRate >= 0.95
  }

  /** There is no winner exactly when no candidate passes the gates, and a winner is the
      best of those that do. */
  lemma WinnerOfCandidates(precedes: (string, string) -> bool, cs: seq<Input>)
    requires StrictTotal(precedes) && Rankable(cs)
    ensures var w := Winner(precedes, RankingsOf(cs));
      && (w.None? <==> forall k :: 0 <= k < |cs| ==> !PassesGates(cs[k].values))
      && (w.Some? ==>
            && Wins(precedes, cs, w.value)
            && exists k :: 0 <= k < |cs| && cs[k].candidateId == w.value && PassesGates(cs[k].values))
  {
    hide StrictTotal, SortBy, Before, Rankable, IsBest, RankingOf, FirstEligible;
    var rs := RankingsOf(cs);
    RankableIsDistinct(cs);
    WinnerIsBest(precedes, rs);
    GivenRanksAll(cs);
    hide Round6, RanksAll;
    forall k | 0 <= k < |cs| ensures Ranks(rs[k], cs[k]) && rs[k] in rs { RankingRanks(cs[k]); }
    var w := FirstEligible(SortBy(Before(precedes), rs));
    if w.Some? {
      BestIsEligible(precedes, rs, w.value);
      var k :| 0 <= k < |rs| && rs[k] == w.value;
      assert Ranks(rs[k], cs[k]);
    }
  }

  lemma GivenRanksAll(cs: seq<Input>)
    requires Rankable(cs)
    ensures RanksAll(RankingsOf(cs), cs)
  {
    hide Ranks, RankingOf, Rankable;
    RankableIsDistinct(cs);
    var rs := RankingsOf(cs);
    forall k | 0 <= k < |cs| ensures RanksSome(rs[k], cs) && IsRanked(rs, cs[k]) {
      RankingRanks(cs[k]);
      assert Ranks(rs[k], cs[k]);
    }
  }

  lemma BestIsEligible(precedes: (string, string) -> bool, rs: seq<Ranking>, w: Ranking)
    requires IsBest(precedes, rs, w)
    ensures w in rs && w.eligible
  {}

  /** For values scored from evidence: there is no winner exactly when no evidence is
      sound, and the winner's is. */
  lemma WinnerIsSound(precedes: (string, string) -> bool, cs: seq<Input>, es: seq<Evidence>)
    requires StrictTotal(precedes) && |cs| == |es|
    requires forall i :: 0 <= i < |cs| ==>
               WellFormed(es[i]) && Some(cs[i].values) == EvaluateDeterministicScorers(es[i])
    requires forall i, j :: 0 <= i < j < |cs| ==> cs[i].candidateId != cs[j].candidateId
    ensures var w := Winner(precedes, RankingsOf(cs));
      && (w.None? <==> forall k :: 0 <= k < |es| ==> !Sound(es[k]))
      && (w.Some? ==> exists k :: 0 <= k < |es| && cs[k].candidateId == w.value && Sound(es[k]))
  {
    ScoredIsRankable(cs, es);
    WinnerOfCandidates(precedes, cs);
    hide Winner, RankingsOf, Rankable, StrictTotal, EvaluateDeterministicScorers, WellFormed, Sound, PassesGates, Wins;
    forall k | 0 <= k < |cs| ensures PassesGates(cs[k].values) <==> Sound(es[k]) { GatesAreSound(es[k]); }
  }

  lemma GatesAreSound(e: Evidence)
    requires WellFormed(e)
    ensures EvaluateDeterministicScorers(e).Some?
    ensures PassesGates(EvaluateDeterministicScorers(e).value) <==> Sound(e)
  {
    EligibleExactly(e);
    hide EvaluateDeterministicScorers, WellFormed, Sound;
  }

  method SelectCandidate(precedes: (string, string) -> bool, cs: seq<Input>) returns (r: Option<Decision>)
    ensures r.Some? <==> cs != [] && Rankable(cs)
    ensures r.Some? ==> r.value == Decision(Winner(precedes, RankingsOf(cs)), SortBy(Before(precedes), RankingsOf(cs)))
    ensures r.Some? ==>
              RanksAll(r.value.rankings, cs) && (StrictTotal(precedes) ==> InRankOrder(precedes, r.value.rankings))
    ensures r.Some? && StrictTotal(precedes) ==>
              var w := r.value.winnerCandidateId;
              && (w.None? <==> forall k :: 0 <= k < |cs| ==> !PassesGates(cs[k].values))
              && (w.Some? ==> Wins(precedes, cs, w.value))
  {
    hide SortBy, Before;
    if cs == [] { return None; }
    var rankings := RankCandidates(precedes, cs);
    if rankings.None? { return None; }
    if StrictTotal(precedes) { WinnerOfCandidates(precedes, cs); }
    var first := FirstEligible(rankings.value);
    r := Some(Decision(if first.None? then None else Some(first.value.candidateId), rankings.value));
  }

  /** Scores of well-formed evidence are always rankable, so selection throws only on an
      empty list or a repeated identifier. */
  lemma ScoredIsRankable(cs: seq<Input>, es: seq<Evidence>)
    requires |cs| == |es|
    requires forall i :: 0 <= i < |cs| ==>
             WellFormed(es[i]) && Some(cs[i].values) == EvaluateDeterministicScorers(es[i])
    requires forall i, j :: 0 <= i < j < |cs| ==> cs[i].candidateId != cs[j].candidateId
    ensures Rankable(cs)
  {
    hide EvaluateDeterministicScorers, WellFormed, AllInUnit;
    forall i | 0 <= i < |cs| ensures AllInUnit(cs[i].values) { ScoresInUnit(es[i]); }
  }

  // ----- database plans

  datatype Quality = Quality(taskCompletion: real, minimality: real, explanationGroundedness: real,
                             reproducibility: real, latency: real, cost: real)

  /** `risks.join(" ")`. */
  function Joined(texts: seq<string>): string {
    if texts == [] then "" else if |texts| == 1 then texts[0] else texts[0] + " " + Joined(texts[1..])
  }

  predicate Includes(text: string, term: string) {
    exists i :: 0 <= i <= |text| && term <= text[i..]
  }

  /** The term occurs somewhere in the text. */
  lemma IncludesExactly(text: string, term: string)
    ensures Includes(text, term) <==> exists front: string, back: string :: text == front + term + back
  {
    if i :| 0 <= i <= |text| && term <= text[i..] {
      assert text == text[..i] + term + text[i..][|term|..];
    }
    if front: string, back: string :| text == front + term + back {
      assert text[|front|..] == term + back;
    }
  }

  /** Joined texts are separated by single spaces. */
  lemma JoinedExactly(first: string, rest: seq<string>)
    ensures Joined([]) == "" && Joined([first]) == first
    ensures rest != [] ==> Joined([first] + rest) == first + " " + Joined(rest)
  {
    assert ([first] + rest)[1..] == rest;
  }

  /** The words that name a failed gate. */
  function TermsOf(lower: string -> string, gate: string): seq<string> {
    match gate
    case "WarehouseScope" => ["warehouse"]
    case "TenantIsolation" => ["tenant"]
    case "ProtectedOrderState" => ["shipped", "order"]
    case _ => [lower(gate)]
  }

  /** `failedGateNames.flatMap(…)`. */
  function FailureTerms(lower: string -> string, gates: seq<string>): seq<string> {
    if gates == [] then [] else TermsOf(lower, gates[0]) + FailureTerms(lower, gates[1..])
  }

  function Groundedness(lower: string -> string, failedGates: seq<string>, risks: seq<string>): real {
    var terms, riskText := FailureTerms(lower, failedGates), lower(Joined(risks));
    if |terms| == 0 then 0.75
    else if forall i :: 0 <= i < |terms| ==> Includes(riskText, terms[i]) then 1.0
    else 0.5
  }

  /** The risks name the gate: by "warehouse", by "tenant", by both "shipped" and "order",
      or by its own name in lower case. */
  predicate Named(lower: string -> string, gate: string, riskText: string) {
    if gate == "WarehouseScope" then Includes(riskText, "warehouse")
    else if gate == "TenantIsolation" then Includes(riskText, "tenant")
    else if gate == "ProtectedOrderState" then Includes(riskText, "shipped") && Includes(riskText, "order")
    else Includes(riskText, lower(gate))
  }

  lemma TermsName(lower: string -> string, gate: string, riskText: string)
    ensures TermsOf(lower, gate) != []
    ensures Named(lower, gate, riskText) <==> forall term :: term in TermsOf(lower, gate) ==> Includes(riskText, term)
  {
    hide Includes;
    var terms := TermsOf(lower, gate);
    assert terms[0] in terms && (|terms| > 1 ==> terms[1] in terms);
  }

  lemma {:induction false} AllTermsName(lower: string -> string, gates: seq<string>, riskText: string)
    ensures FailureTerms(lower, gates) == [] <==> gates == []
    ensures (forall term :: term in FailureTerms(lower, gates) ==> Includes(riskText, term)) <==>
            forall gate :: gate in gates ==> Named(lower, gate, riskText)
  {
    hide Includes, Named, TermsOf;
    if gates != [] {
      TermsName(lower, gates[0], riskText);
      AllTermsName(lower, gates[1..], riskText);
      assert gates == [gates[0]] + gates[1..];
    }
  }

  /** The grounding is full exactly when some gate failed and the risks name every one
      that did, 0.75 when none failed, and 0.5 when some failed gate goes unnamed. */
  lemma GroundedExactly(lower: string -> string, failedGates: seq<string>, risks: seq<string>)
    ensures var g, named := Groundedness(lower, failedGates, risks),
                            forall gate :: gate in failedGates ==> Named(lower, gate, lower(Joined(risks)));
      && (g == 1.0 <==> failedGates != [] && named)
      && (g == 0.75 <==> failedGates == [])
      && (g == 0.5 <==> failedGates != [] && !named)
  {
    hide Includes, Named, TermsOf, FailureTerms, Joined;
    AllTermsName(lower, failedGates, lower(Joined(risks)));
    var terms := FailureTerms(lower, failedGates);
    assert forall i :: 0 <= i < |terms| ==> terms[i] in terms;
  }

  function QualityScores(
    expected: set<string>, observed: set<string>, changedRows: nat, requestedEffects: nat, lower: string -> string,
    failedGates: seq<string>, risks: seq<string>, idempotent: bool, rollbackVerified: bool): Quality
  {
    Quality(
      if |expected| == 0 then 0.0 else |expected * observed| as real / |expected| as real,
      Max(0.0, 1.0 - Max(0.0, (changedRows - requestedEffects) as real) / 24.0),
      Groundedness(lower, failedGates, risks), Pass(idempotent && rollbackVerified), 1.0, 1.0)
  }

  predicate QualityInUnit(q: Quality) {
    InUnit(q.taskCompletion) && InUnit(q.minimality) && InUnit(q.explanationGroundedness)
      && InUnit(q.reproducibility) && InUnit(q.latency) && InUnit(q.cost)
  }

  /** None where it throws. */
  function DatabaseWeightedScore(q: Quality): Option<real> {
    if !QualityInUnit(q) then None
    else Some(Round6(0.35 * q.taskCompletion + 0.2 * q.minimality + 0.15 * q.explanationGroundedness
      + 0.15 * q.reproducibility + 0.1 * q.latency + 0.05 * q.cost))
  }

  /** Which figures give which quality, reproducibility needing both gates. */
  lemma QualitySpelled(
    expected: set<string>, observed: set<string>, changedRows: nat, requestedEffects: nat, lower: string -> string,
    failedGates: seq<string>, risks: seq<string>, idempotent: bool, rollbackVerified: bool)
    ensures
      var q := QualityScores(expected, observed, changedRows, requestedEffects, lower, failedGates, risks, idempotent,
                             rollbackVerified);
      && (expected == {} ==> q.taskCompletion == 0.0)
      && (expected != {} ==> q.taskCompletion * |expected| as real == |expected * observed| as real)
      && (changedRows <= requestedEffects ==> q.minimality == 1.0)
      && (requestedEffects < changedRows <= requestedEffects + 24 ==>
            24.0 * q.minimality == (requestedEffects + 24 - changedRows) as real)
      && (changedRows > requestedEffects + 24 ==> q.minimality == 0.0)
      && q.reproducibility == (if idempotent && rollbackVerified then 1.0 else 0.0) && q.latency == q.cost == 1.0
  {
    hide Groundedness;
  }

  /** A quality in one respect alone weighs its share. */
  lemma OneQualityAlone(x: real)
    requires 0.0 <= x <= 1.0
    ensures DatabaseWeightedScore(Quality(x, 0.0, 0.0, 0.0, 0.0, 0.0)) == Some(Round6(0.35 * x))
    ensures DatabaseWeightedScore(Quality(0.0, x, 0.0, 0.0, 0.0, 0.0)) == Some(Round6(0.2 * x))
    ensures DatabaseWeightedScore(Quality(0.0, 0.0, x, 0.0, 0.0, 0.0)) == Some(Round6(0.15 * x))
    ensures DatabaseWeightedScore(Quality(0.0, 0.0, 0.0, x, 0.0, 0.0)) == Some(Round6(0.15 * x))
    ensures DatabaseWeightedScore(Quality(0.0, 0.0, 0.0, 0.0, x, 0.0)) == Some(Round6(0.1 * x))
    ensures DatabaseWeightedScore(Quality(0.0, 0.0, 0.0, 0.0, 0.0, x)) == Some(Round6(0.05 * x))
  {
    hide Round6;
  }

  /** The quality of any plan is scored, and so is its weighted sum. */
  lemma QualityIsScored(
    expected: set<string>, observed: set<string>, changedRows: nat, requestedEffects: nat, lower: string -> string,
    failedGates: seq<string>, risks: seq<string>, idempotent: bool, rollbackVerified: bool)
    ensures
      var q := QualityScores(expected, observed, changedRows, requestedEffects, lower, failedGates, risks, idempotent,
                             rollbackVerified);
      QualityInUnit(q) && DatabaseWeightedScore(q).Some? && InUnit(DatabaseWeightedScore(q).value)
  {
    hide Joined, FailureTerms, Includes;
    var q := QualityScores(expected, observed, changedRows, requestedEffects, lower, failedGates, risks, idempotent,
                           rollbackVerified);
    if |expected| > 0 {
      assert expected == expected * observed + (expected - observed);
      FractionInUnit(|expected * observed|, |expected|);
    }
    assert QualityInUnit(q);
    hide Round6;
    RoundKeepsUnit(0.35 * q.taskCompletion + 0.2 * q.minimality + 0.15 * q.explanationGroundedness
                   + 0.15 * q.reproducibility + 0.1 * q.latency + 0.05 * q.cost);
  }

  /** Ranks database plans by the same comparison; throws exactly on a repeated
      identifier. */
  method RankDatabaseCandidates(precedes: (string, string) -> bool, cs: seq<Ranking>) returns (r: Option<seq<Ranking>>)
    ensures r == if IdsDistinct(cs) then Some(SortBy(Before(precedes), cs)) else None
    ensures r.Some? && StrictTotal(precedes) ==> InRankOrder(precedes, r.value) && multiset(r.value) == multiset(cs)
  {
    hide SortBy, Before;
    var seen: set<string> := {};
    for n := 0 to |cs|
      invariant seen == set i | 0 <= i < n :: cs[i].candidateId
      invariant forall i, j :: 0 <= i < j < n ==> cs[i].candidateId != cs[j].candidateId
    {
      if cs[n].candidateId in seen { return None; }
      seen := seen + {cs[n].candidateId};
    }
    if StrictTotal(precedes) { SortRanks(precedes, cs); }
    r := Some(SortBy(Before(precedes), cs));
  }
}
