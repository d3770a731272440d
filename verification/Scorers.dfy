/** The eight deterministic scorers, with exact rationals and their six-decimal rounding,
    and what they make of the evidence. */
module Scorers {
  import opened Options

  datatype Tally = Tally(passed: int, total: int)

  datatype Patch = Patch(changedFiles: int, changedLines: int, maxChangedFiles: int, maxChangedLines: int,
                         binaryFiles: int, dependenciesAdded: int)

  datatype Reproduction = Reproduction(attempted: bool, sameCommit: bool, sameConfiguration: bool,
                                       artifactHashesMatch: bool)

  datatype Evidence = Evidence(
    exitCode: Option<int>, unitTests: Tally, safetyTests: Tally, criticalFailures: seq<string>, regressionTests: Tally,
    integrityPassed: bool, violations: seq<string>, patch: Patch, claims: Tally, reproduction: Reproduction)

  datatype Values = Values(
    buildSuccess: real, unitTestPassRate: real, safetyInvariant: real, regressionProtection: real,
    patchIntegrity: real, patchMinimality: real, explanationGroundedness: real, reproducibility: real)

  // ----- rounding (section 21.1.3.3 of ECMA-262)

  /** The nearest multiple of one millionth, the larger of two equally near. */
  function Round6(x: real): real { (x * 1000000.0 + 0.5).Floor as real / 1000000.0 }

  /** Rounding to six decimals keeps order and moves nothing by more than half a unit. */
  lemma RoundIsNearest(x: real)
    ensures x - 0.0000005 < Round6(x) <= x + 0.0000005
  {}

  lemma RoundKeepsUnit(x: real)
    requires 0.0 <= x <= 1.0
    ensures 0.0 <= Round6(x) <= 1.0
  {}

  // ----- counts and rates

  const MAX_SAFE_INTEGER := 9007199254740991

  predicate IsCount(v: int) { 0 <= v <= MAX_SAFE_INTEGER }

  predicate TallyOk(t: Tally) { IsCount(t.passed) && IsCount(t.total) && t.passed <= t.total }

  function Ratio(t: Tally): real { if t.total == 0 then 0.0 else t.passed as real / t.total as real }

  /** `checkedRate`; None where it throws. */
  function CheckedRate(t: Tally): Option<real> { if TallyOk(t) then Some(Ratio(t)) else None }

  lemma RatioInUnit(t: Tally)
    requires TallyOk(t)
    ensures 0.0 <= Ratio(t) <= 1.0
    ensures Ratio(t) == 1.0 <==> t.total > 0 && t.passed == t.total
  {
    if t.total > 0 {
      Cross(t.passed as real, t.total as real, 0.0);
      Cross(t.passed as real, t.total as real, 1.0);
      FractionInUnit(t.passed, t.total);
    }
  }

  lemma Cross(p: real, n: real, c: real)
    requires n > 0.0
    ensures p / n >= c <==> p >= c * n
  {
    var r := p / n;
    assert r * n == p;
    if r >= c {
      assert (r - c) * n >= 0.0;
    } else {
      assert (c - r) * n > 0.0;
    }
  }

  lemma FractionInUnit(a: int, b: int)
    requires 0 <= a <= b && b > 0
    ensures 0.0 <= a as real / b as real <= 1.0
  {
    var r := a as real / b as real;
    assert r * b as real == a as real;
  }

  /** `score`; None where the value is no score. */
  function Score(value: real): Option<real> { if value < 0.0 || value > 1.0 then None else Some(Round6(value)) }

  // ----- the scorers

  function Pass(passed: bool): real { if passed then 1.0 else 0.0 }

  function BuildSuccess(e: Evidence): Option<real> { Score(Pass(e.exitCode == Some(0))) }

  function RateScore(t: Tally): Option<real> {
    match CheckedRate(t)
    case None => None
    case Some(value) => Score(value)
  }

  function SafetyInvariant(e: Evidence): Option<real> {
    match CheckedRate(e.safetyTests)
    case None => None
    case Some(rate) => Score(Pass(e.safetyTests.total > 0 && rate == 1.0 && e.criticalFailures == []))
  }

  function PatchIntegrity(e: Evidence): Option<real> { Score(Pass(e.integrityPassed && e.violations == [])) }

  predicate PatchCounts(p: Patch) {
    IsCount(p.changedFiles) && IsCount(p.changedLines) && IsCount(p.maxChangedFiles) && IsCount(p.maxChangedLines)
    && IsCount(p.binaryFiles) && IsCount(p.dependenciesAdded)
  }

  function Min(a: real, b: real): real { if a < b then a else b }

  function Max(a: real, b: real): real { if a < b then b else a }

  function Footprint(p: Patch): real
    requires p.maxChangedFiles != 0 && p.maxChangedLines != 0
  {
    0.4 * (p.changedFiles as real / p.maxChangedFiles as real)
      + 0.6 * (p.changedLines as real / p.maxChangedLines as real)
  }

  function PatchMinimality(e: Evidence): Option<real> {
    var p := e.patch;
    if !PatchCounts(p) then None
    else if p.maxChangedFiles == 0 || p.maxChangedLines == 0 then Score(0.0)
    else if p.changedFiles == 0 || p.changedLines == 0 || p.changedFiles > p.maxChangedFiles
      || p.changedLines > p.maxChangedLines || p.binaryFiles > 0
    then Score(0.0)
    else Score(Max(0.0, 1.0 - Footprint(p) - Min(0.5, p.dependenciesAdded as real * 0.25)))
  }

  function Reproducibility(e: Evidence): Option<real> {
    var r := e.reproduction;
    Score(Pass(r.attempted && r.sameCommit && r.sameConfiguration && r.artifactHashesMatch))
  }

  function EvaluateDeterministicScorers(e: Evidence): Option<Values> {
    var build, units, safety, regression :=
      BuildSuccess(e), RateScore(e.unitTests), SafetyInvariant(e), RateScore(e.regressionTests);
    var integrity, minimality, grounded, reproduced :=
      PatchIntegrity(e), PatchMinimality(e), RateScore(e.claims), Reproducibility(e);
    if build.None? || units.None? || safety.None? || regression.None? || integrity.None? || minimality.None?
      || grounded.None? || reproduced.None?
    then None
    else Some(Values(build.value, units.value, safety.value, regression.value, integrity.value, minimality.value,
                     grounded.value, reproduced.value))
  }

  // ----- what the scores say

  predicate InUnit(x: real) { 0.0 <= x <= 1.0 }

  predicate AllInUnit(v: Values) {
    InUnit(v.buildSuccess) && InUnit(v.unitTestPassRate) && InUnit(v.safetyInvariant) && InUnit(v.regressionProtection)
    && InUnit(v.patchIntegrity) && InUnit(v.patchMinimality) && InUnit(v.explanationGroundedness)
    && InUnit(v.reproducibility)
  }

  predicate WellFormed(e: Evidence) {
    TallyOk(e.unitTests) && TallyOk(e.safetyTests) && TallyOk(e.regressionTests) && TallyOk(e.claims)
      && PatchCounts(e.patch)
  }

  lemma ScoreOfUnit(x: real)
    requires InUnit(x)
    ensures Score(x).Some? && InUnit(Score(x).value)
  {
    RoundKeepsUnit(x);
  }

  lemma ScoreOfPass(passed: bool)
    ensures Score(Pass(passed)) == Some(Pass(passed))
  {}

  lemma RateScored(t: Tally)
    ensures RateScore(t).Some? <==> TallyOk(t)
    ensures RateScore(t).Some? ==> InUnit(RateScore(t).value) && RateScore(t).value == Round6(Ratio(t))
  {
    hide Ratio, Round6;
    if TallyOk(t) {
      RatioInUnit(t);
      RoundKeepsUnit(Ratio(t));
    }
  }

  lemma MinimalityScored(e: Evidence)
    ensures PatchMinimality(e).Some? <==> PatchCounts(e.patch)
    ensures PatchMinimality(e).Some? ==> InUnit(PatchMinimality(e).value)
  {
    var p := e.patch;
    if PatchCounts(p) {
      ScoreOfUnit(0.0);
      if p.maxChangedFiles > 0 && p.maxChangedLines > 0 && p.changedFiles <= p.maxChangedFiles
        && p.changedLines <= p.maxChangedLines
      {
        FractionInUnit(p.changedFiles, p.maxChangedFiles);
        FractionInUnit(p.changedLines, p.maxChangedLines);
        hide Round6, Score;
        ScoreOfUnit(Max(0.0, 1.0 - Footprint(p) - Min(0.5, p.dependenciesAdded as real * 0.25)));
      }
    }
  }

  lemma FractionGrows(a: int, c: int, b: int)
    requires 0 <= a <= c && b > 0
    ensures a as real / b as real <= c as real / b as real
  {
    Cross(c as real, b as real, a as real / b as real);
    assert (a as real / b as real) * b as real == a as real;
  }

  lemma RoundGrows(x: real, y: real)
    requires x <= y
    ensures Round6(x) <= Round6(y)
  {
    FloorGrows(x * 1000000.0 + 0.5, y * 1000000.0 + 0.5);
  }

  lemma FloorGrows(x: real, y: real)
    requires x <= y
    ensures x.Floor <= y.Floor
  {}

  predicate WithinLimits(p: Patch) {
    0 < p.changedFiles <= p.maxChangedFiles && 0 < p.changedLines <= p.maxChangedLines && p.binaryFiles == 0
  }

  function Kept(p: Patch): real
    requires p.maxChangedFiles != 0 && p.maxChangedLines != 0
  {
    Max(0.0, 1.0 - Footprint(p) - Min(0.5, p.dependenciesAdded as real * 0.25))
  }

  lemma KeptInUnit(p: Patch)
    requires PatchCounts(p) && WithinLimits(p)
    ensures InUnit(Kept(p))
  {
    FractionInUnit(p.changedFiles, p.maxChangedFiles);
    FractionInUnit(p.changedLines, p.maxChangedLines);
  }

  lemma MinimalityIsKept(e: Evidence)
    requires PatchCounts(e.patch) && WithinLimits(e.patch)
    ensures PatchMinimality(e) == Score(Kept(e.patch))
  {
    hide Score, Max, Min, Footprint;
  }

  lemma SmallerKeepsMore(p: Patch, q: Patch)
    requires p.maxChangedFiles == q.maxChangedFiles > 0 && p.maxChangedLines == q.maxChangedLines > 0
    requires 0 <= p.changedFiles <= q.changedFiles && 0 <= p.changedLines <= q.changedLines
    requires p.dependenciesAdded <= q.dependenciesAdded
    ensures Kept(q) <= Kept(p)
  {
    FractionGrows(p.changedFiles, q.changedFiles, p.maxChangedFiles);
    FractionGrows(p.changedLines, q.changedLines, p.maxChangedLines);
    var files, lines := p.changedFiles as real / p.maxChangedFiles as real,
      p.changedLines as real / p.maxChangedLines as real;
    assert Footprint(p) == 0.4 * files + 0.6 * lines;
  }

  /** Under the same limits a patch that changes no more files and lines and adds no more
      dependencies scores no lower, and one outside its limits scores nothing. */
  lemma SmallerScoresNoLower(e: Evidence, f: Evidence)
    requires PatchCounts(e.patch) && PatchCounts(f.patch)
    requires e.patch.maxChangedFiles == f.patch.maxChangedFiles && e.patch.maxChangedLines == f.patch.maxChangedLines
    requires e.patch.changedFiles <= f.patch.changedFiles && e.patch.changedLines <= f.patch.changedLines
    requires e.patch.dependenciesAdded <= f.patch.dependenciesAdded
    requires WithinLimits(e.patch)
    ensures PatchMinimality(e).Some? && PatchMinimality(f).Some? && PatchMinimality(f).value <= PatchMinimality(e).value
    ensures !WithinLimits(f.patch) ==> PatchMinimality(f).value == 0.0
  {
    var p, q := e.patch, f.patch;
    MinimalityScored(e);
    MinimalityScored(f);
    if WithinLimits(q) {
      SmallerKeepsMore(p, q);
      hide Round6, Max, Min, Footprint;
      RoundGrows(Kept(q), Kept(p));
      MinimalityIsKept(e);
      MinimalityIsKept(f);
      KeptInUnit(p);
      KeptInUnit(q);
    }
  }

  /** Lines weigh more than files: of two patches with their shares exchanged, the one with
      the larger share of lines scores no higher. */
  lemma LinesWeighMore(e: Evidence, f: Evidence, a: int, b: int, m: int)
    requires 0 < a <= b <= m && IsCount(m)
    requires e.patch == Patch(a, b, m, m, 0, 0) && f.patch == Patch(b, a, m, m, 0, 0)
    ensures PatchMinimality(e).Some? && PatchMinimality(f).Some? && PatchMinimality(e).value <= PatchMinimality(f).value
  {
    MinimalityScored(e);
    MinimalityScored(f);
    FractionInUnit(a, m);
    FractionInUnit(b, m);
    FractionGrows(a, b, m);
    hide Round6;
    RoundGrows(Max(0.0, 1.0 - Footprint(e.patch) - Min(0.5, 0.0)), Max(0.0, 1.0 - Footprint(f.patch) - Min(0.5, 0.0)));
  }

  /** Well-formed evidence, and no other, is scored, and every score is in [0, 1]. */
  lemma ScoresInUnit(e: Evidence)
    ensures EvaluateDeterministicScorers(e).Some? <==> WellFormed(e)
    ensures WellFormed(e) ==> AllInUnit(EvaluateDeterministicScorers(e).value)
  {
    hide Score, Round6, Ratio, TallyOk, PatchMinimality, PatchCounts, RateScore;
    ScoreOfPass(e.exitCode == Some(0));
    ScoreOfPass(e.integrityPassed && e.violations == []);
    ScoreOfPass(e.reproduction.attempted && e.reproduction.sameCommit && e.reproduction.sameConfiguration
      && e.reproduction.artifactHashesMatch);
    ScoreOfPass(e.safetyTests.total > 0 && Ratio(e.safetyTests) == 1.0 && e.criticalFailures == []);
    RateScored(e.unitTests);
    RateScored(e.regressionTests);
    RateScored(e.claims);
    MinimalityScored(e);
  }

  // ----- which evidence gives which score

  /** Both are safe integers, and no more passed than there are. */
  predicate Tallied(t: Tally) { 0 <= t.passed <= t.total <= 9007199254740991 }

  predicate SafeCount(n: int) { 0 <= n <= 9007199254740991 }

  /** Evidence is scored exactly when its tallies and patch counts are such. */
  lemma ScoredExactly(e: Evidence)
    ensures EvaluateDeterministicScorers(e).Some? <==>
            && Tallied(e.unitTests) && Tallied(e.safetyTests) && Tallied(e.regressionTests) && Tallied(e.claims)
            && SafeCount(e.patch.changedFiles) && SafeCount(e.patch.changedLines)
            && SafeCount(e.patch.maxChangedFiles) && SafeCount(e.patch.maxChangedLines)
            && SafeCount(e.patch.binaryFiles) && SafeCount(e.patch.dependenciesAdded)
  {
    ScoresInUnit(e);
    hide EvaluateDeterministicScorers;
  }

  /** The share of tests, claims or the like that passed, to six decimals; nothing of none
      is nothing. */
  function Share(t: Tally): real { if t.total == 0 then 0.0 else Round6(t.passed as real / t.total as real) }

  /** What is left of a full score after 0.4 of the share of files, 0.6 of the share of
      lines and 0.25 for each of up to two new dependencies. */
  function Remainder(p: Patch): real
    requires p.maxChangedFiles > 0 && p.maxChangedLines > 0
  {
    var spent := 0.4 * (p.changedFiles as real / p.maxChangedFiles as real)
      + 0.6 * (p.changedLines as real / p.maxChangedLines as real)
      + (if p.dependenciesAdded >= 2 then 0.5 else 0.25 * p.dependenciesAdded as real);
    if spent >= 1.0 then 0.0 else 1.0 - spent
  }

  lemma ScoresSpelled(e: Evidence)
    requires WellFormed(e)
    ensures EvaluateDeterministicScorers(e).Some?
    ensures var v := EvaluateDeterministicScorers(e).value;
      && v.buildSuccess == (if e.exitCode == Some(0) then 1.0 else 0.0)
      && v.unitTestPassRate == Share(e.unitTests)
      && v.regressionProtection == Share(e.regressionTests)
      && v.explanationGroundedness == Share(e.claims)
      && v.safetyInvariant == (
           if e.safetyTests.total > 0 && e.safetyTests.passed == e.safetyTests.total && e.criticalFailures == []
           then 1.0 else 0.0)
      && v.patchIntegrity == (if e.integrityPassed && e.violations == [] then 1.0 else 0.0)
      && v.reproducibility == (
           if && e.reproduction.attempted && e.reproduction.sameCommit && e.reproduction.sameConfiguration
              && e.reproduction.artifactHashesMatch
           then 1.0 else 0.0)
      && Some(v.patchMinimality) == PatchMinimality(e)
  {
    ScoresInUnit(e);
    RateScored(e.unitTests);
    RateScored(e.regressionTests);
    RateScored(e.claims);
    RatioInUnit(e.safetyTests);
    ShareIsRounded(e.unitTests);
    ShareIsRounded(e.regressionTests);
    ShareIsRounded(e.claims);
    hide Round6, Ratio, PatchMinimality, RateScore, Score, PatchCounts, Share;
    ScoreOfPass(e.exitCode == Some(0));
    ScoreOfPass(e.integrityPassed && e.violations == []);
    ScoreOfPass(e.safetyTests.total > 0 && Ratio(e.safetyTests) == 1.0 && e.criticalFailures == []);
    ScoreOfPass(e.reproduction.attempted && e.reproduction.sameCommit && e.reproduction.sameConfiguration
                && e.reproduction.artifactHashesMatch);
  }

  lemma ShareIsRounded(t: Tally)
    ensures Round6(Ratio(t)) == Share(t)
  {}

  /** Minimality, in the figures of the patch. */
  lemma MinimalitySpelled(e: Evidence)
    requires PatchCounts(e.patch)
    ensures PatchMinimality(e).Some?
    ensures PatchMinimality(e).value == (
              var p := e.patch;
              if && 0 < p.changedFiles <= p.maxChangedFiles && 0 < p.changedLines <= p.maxChangedLines
                 && p.binaryFiles == 0
              then Round6(Remainder(p)) else 0.0)
  {
    MinimalityScored(e);
    var p := e.patch;
    hide Round6;
    if 0 < p.changedFiles <= p.maxChangedFiles && 0 < p.changedLines <= p.maxChangedLines && p.binaryFiles == 0 {
      assert Max(0.0, 1.0 - Footprint(p) - Min(0.5, p.dependenciesAdded as real * 0.25)) == Remainder(p);
    } else {
      RoundOfZero();
    }
  }

  lemma RoundOfZero()
    ensures Round6(0.0) == 0.0
  {}

  // ----- the rounded gate on unit tests

  lemma RoundedGate(x: real)
    ensures Round6(x) >= 0.95 <==> x >= 0.9499995
  {}

  /** The gate compares a rounded rate: it holds exactly when the shortfall from 95% is at
      most one test in two million. */
  lemma UnitGateExact(t: Tally)
    requires TallyOk(t) && t.total > 0
    ensures Round6(Ratio(t)) >= 0.95 <==> 100000 * (19 * t.total - 20 * t.passed) <= t.total
  {
    RoundedGate(Ratio(t));
    Cross(t.passed as real, t.total as real, 0.9499995);
    hide Round6;
    var p, n := t.passed, t.total;
    assert p as real >= 0.9499995 * n as real <==> 2000000 * p >= 1899999 * n;
  }

  /** Below 100,000 tests it is the exact 95% gate. */
  lemma UnitGateBelowHundredThousand(t: Tally)
    requires TallyOk(t) && 0 < t.total < 100000
    ensures Round6(Ratio(t)) >= 0.95 <==> 20 * t.passed >= 19 * t.total
  {
    UnitGateExact(t);
  }

  /** From there on it can let a rate below 95% pass. */
  lemma UnitGateRoundsUp()
    ensures var t := Tally(95018, 100019);
      TallyOk(t) && Round6(Ratio(t)) >= 0.95 && 20 * t.passed < 19 * t.total
  {
    UnitGateExact(Tally(95018, 100019));
  }
}
