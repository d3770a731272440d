/** The trial of a change plan inside one transaction that is never committed. */
module TrialRuns {
  import opened Options
  import opened RowDeltas

  /** What a statement does to the contents of the database. */
  datatype Effect<S> = Refused | ReturnsRows | Changes(state: S, affectedRows: nat)

  datatype Statement<!S> = Statement(run: S -> Effect<S>, maxAffectedRows: nat)

  /** How a call to the server may go wrong: before or after it took effect. */
  datatype Fault = Works | NotSent | ReplyLost

  function Applied<S(!new)>(st: Statement<S>, s: S): Option<S> {
    match st.run(s)
    case Changes(t, n) => if n <= st.maxAffectedRows then Some(t) else None
    case _ => None
  }

  /** A list of statements as one step; None where the program gives up. */
  function Plan<S(!new)>(statements: seq<Statement<S>>, s: S): Option<S> {
    if statements == [] then Some(s)
    else
      match Plan(statements[..|statements| - 1], s)
      case None => None
      case Some(t) => Applied(statements[|statements| - 1], t)
  }

  function AffectedBy<S(!new)>(statements: seq<Statement<S>>, s: S): seq<nat> {
    if statements == [] then []
    else
      var prior := statements[..|statements| - 1];
      match Plan(prior, s)
      case None => AffectedBy(prior, s)
      case Some(t) =>
        match statements[|statements| - 1].run(t)
        case Changes(_, n) => AffectedBy(prior, s) + [n]
        case _ => AffectedBy(prior, s)
  }

  /** The statement takes `a` to `b` and affects `n` rows, no more than it may. */
  ghost predicate Takes<S(!new)>(st: Statement<S>, a: S, b: S, n: nat) {
    st.run(a) == Changes(b, n) && n <= st.maxAffectedRows
  }

  /** The states a list of statements goes through and the rows each affects. */
  ghost predicate Traced<S(!new)>(statements: seq<Statement<S>>, states: seq<S>, counts: seq<nat>) {
    && |states| == |statements| + 1 && |counts| == |statements|
    && forall i :: 0 <= i < |statements| ==> Takes(statements[i], states[i], states[i + 1], counts[i])
  }

  lemma {:induction false} TraceIsPlan<S(!new)>(statements: seq<Statement<S>>, states: seq<S>, counts: seq<nat>)
    requires Traced(statements, states, counts)
    ensures Plan(statements, states[0]) == Some(states[|statements|]) && AffectedBy(statements, states[0]) == counts
  {
    var n := |statements| - 1;
    if n >= 0 {
      TraceIsPlan(statements[..n], states[..n + 1], counts[..n]);
      assert Takes(statements[n], states[n], states[n + 1], counts[n]);
      assert counts == counts[..n] + [counts[n]];
    }
  }

  lemma {:induction false} PlanHasTrace<S(!new)>(statements: seq<Statement<S>>, s: S)
    requires Plan(statements, s).Some?
    ensures exists states, counts :: Traced(statements, states, counts) && states[0] == s
  {
    var n := |statements| - 1;
    if n < 0 {
      assert Traced(statements, [s], []) && [s][0] == s;
    } else {
      PlanHasTrace(statements[..n], s);
      var states: seq<S>, counts: seq<nat> :| Traced(statements[..n], states, counts) && states[0] == s;
      TraceIsPlan(statements[..n], states, counts);
      var effect := statements[n].run(states[n]);
      var more, rows := states + [effect.state], counts + [effect.affectedRows];
      forall i | 0 <= i <= n ensures Takes(statements[i], more[i], more[i + 1], rows[i]) {
        assert i < n ==> Takes(statements[..n][i], states[i], states[i + 1], counts[i]);
      }
      assert Traced(statements, more, rows) && more[0] == s;
    }
  }

  /** A plan ends in `t` with those row counts exactly when its statements lead there one
      after the other, each changing rows within its own limit. */
  lemma PlanExactly<S(!new)>(statements: seq<Statement<S>>, s: S, t: S, counts: seq<nat>)
    ensures Plan(statements, s) == Some(t) && AffectedBy(statements, s) == counts <==>
            exists states :: Traced(statements, states, counts) && states[0] == s && states[|statements|] == t
  {
    hide Plan, AffectedBy, Takes;
    if Plan(statements, s) == Some(t) && AffectedBy(statements, s) == counts {
      PlanHasTrace(statements, s);
      var states: seq<S>, rows: seq<nat> :| Traced(statements, states, rows) && states[0] == s;
      TraceIsPlan(statements, states, rows);
    }
    if states :| Traced(statements, states, counts) && states[0] == s && states[|statements|] == t {
      TraceIsPlan(statements, states, counts);
    }
  }

  /** Preconditions read the state; None stands for a failing query. */
  type Precondition<!S> = S -> Option<bool>

  datatype ChangePlan<!S> = ChangePlan(preconditions: seq<Precondition<S>>, statements: seq<Statement<S>>,
                                       rollbackPlan: seq<Statement<S>>)

  datatype Trial<S> = Trial(before: S, after: S, secondRun: S, rollback: S, affected: seq<nat>)

  /** Every call goes through. */
  ghost predicate Reliable(fault: nat -> Fault) { forall n :: fault(n) == Works }

  /** One more call was made, and its failure is noted. */
  ghost predicate Called(fault: nat -> Fault, before: nat, after: nat, failedBefore: bool, failed: bool) {
    && after == before + 1 && (failed <==> failedBefore || fault(before) != Works)
    && (Reliable(fault) ==> failed == failedBefore)
  }

  /** A server session; `failed` says whether any of its calls has not gone through. Outside
      a transaction every change is durable at once, and beginning a transaction commits one
      that is open. */
  class Connection<S(!new)> {
    const fault: nat -> Fault
    ghost var failed: bool
    var calls: nat
    var durable: S
    var working: Option<S>
    var savepoint: Option<S>

    constructor (fault: nat -> Fault, durable: S)
      ensures this.fault == fault && this.durable == durable && working.None? && savepoint.None? && !failed
    {
      this.fault, this.durable, calls, working, savepoint := fault, durable, 0, None, None;
      failed := false;
    }

    method Begin() returns (ok: bool)
      modifies this
      ensures Called(fault, old(calls), calls, old(failed), failed) && (ok <==> fault(old(calls)) == Works)
      ensures durable == if old(working).Some? && fault(old(calls)) != NotSent then old(working).value else old(durable)
      ensures working == if fault(old(calls)) != NotSent then Some(durable) else old(working)
      ensures savepoint == if fault(old(calls)) != NotSent then None else old(savepoint)
    {
      var f := fault(calls);
      calls, failed := calls + 1, failed || f != Works;
      if f != NotSent {
        if working.Some? { durable := working.value; }
        working, savepoint := Some(durable), None;
      }
      ok := f == Works;
    }

    method Query(st: Statement<S>) returns (reply: Option<Effect<S>>)
      modifies this
      ensures Called(fault, old(calls), calls, old(failed), failed) && savepoint == old(savepoint)
      ensures var effect := st.run(if old(working).Some? then old(working).value else old(durable));
              && reply == (if fault(old(calls)) == Works then Some(effect) else None)
              && (if fault(old(calls)) == NotSent || !effect.Changes?
                  then working == old(working) && durable == old(durable)
                  else if old(working).Some? then working == Some(effect.state) && durable == old(durable)
                  else working == None && durable == effect.state)
    {
      var f := fault(calls);
      calls, failed := calls + 1, failed || f != Works;
      if f == NotSent { return None; }
      var effect := st.run(if working.Some? then working.value else durable);
      if effect.Changes? {
        if working.Some? { working := Some(effect.state); } else { durable := effect.state; }
      }
      reply := if f == Works then Some(effect) else None;
    }

    method Read() returns (state: Option<S>)
      modifies this`calls, this`failed
      ensures Called(fault, old(calls), calls, old(failed), failed)
      ensures state ==
              if fault(old(calls)) != Works then None else Some(if working.Some? then working.value else durable)
    {
      var f := fault(calls);
      calls, failed := calls + 1, failed || f != Works;
      state := if f != Works then None else Some(if working.Some? then working.value else durable);
    }

    method Savepoint() returns (ok: bool)
      modifies this`calls, this`failed, this`savepoint
      ensures Called(fault, old(calls), calls, old(failed), failed) && (ok <==> fault(old(calls)) == Works)
      ensures savepoint == if fault(old(calls)) != NotSent then working else old(savepoint)
    {
      var f := fault(calls);
      calls, failed := calls + 1, failed || f != Works;
      if f != NotSent { savepoint := working; }
      ok := f == Works;
    }

    method RollbackToSavepoint() returns (ok: bool)
      modifies this`calls, this`failed, this`working
      ensures Called(fault, old(calls), calls, old(failed), failed)
      ensures ok <==> fault(old(calls)) == Works && old(working).Some? && savepoint.Some?
      ensures working ==
              if fault(old(calls)) != NotSent && old(working).Some? && savepoint.Some? then savepoint else old(working)
    {
      var f := fault(calls);
      calls, failed := calls + 1, failed || f != Works;
      if working.None? || savepoint.None? { return false; }
      if f != NotSent { working := savepoint; }
      ok := f == Works;
    }

    method Rollback() returns (ok: bool)
      modifies this`calls, this`failed, this`working, this`savepoint
      ensures Called(fault, old(calls), calls, old(failed), failed) && (ok <==> fault(old(calls)) == Works)
      ensures if fault(old(calls)) != NotSent then working == savepoint == None
              else working == old(working) && savepoint == old(savepoint)
    {
      var f := fault(calls);
      calls, failed := calls + 1, failed || f != Works;
      if f != NotSent { working, savepoint := None, None; }
      ok := f == Works;
    }

    /** Closing the session drops whatever was not committed. */
    method End()
      modifies this`working, this`savepoint
      ensures working.None? && savepoint.None?
    {
      working, savepoint := None, None;
    }
  }

  lemma {:induction false} PlanStops<S(!new)>(statements: seq<Statement<S>>, n: nat, s: S)
    requires n <= |statements| && Plan(statements[..n], s).None?
    ensures Plan(statements, s).None?
  {
    if n == |statements| {
      assert statements[..n] == statements;
    } else {
      var prior := statements[..|statements| - 1];
      assert prior[..n] == statements[..n];
      PlanStops(prior, n, s);
    }
  }

  /** Runs statements one by one, giving up where one fails, returns rows, or affects
      more rows than it may; what it did by then stays in the transaction. */
  method ExecuteStatements<S(!new)>(c: Connection<S>, statements: seq<Statement<S>>) returns (results: Option<seq<nat>>)
    requires c.working.Some?
    modifies c
    ensures c.durable == old(c.durable) && c.working.Some? && c.savepoint == old(c.savepoint)
    ensures results.Some? ==>
            && Plan(statements, old(c.working).value) == c.working && c.failed == old(c.failed)
            && results.value == AffectedBy(statements, old(c.working).value)
    ensures results.None? ==> c.failed || Plan(statements, old(c.working).value).None?
    ensures Reliable(c.fault) ==> c.failed == old(c.failed)
  {
    ghost var start := c.working.value;
    hide Reliable;
    var done: seq<nat> := [];
    assert statements[..0] == [];
    for i := 0 to |statements|
      invariant c.durable == old(c.durable) && c.working.Some? && c.savepoint == old(c.savepoint)
      invariant Plan(statements[..i], start) == c.working && done == AffectedBy(statements[..i], start)
      invariant c.failed == old(c.failed)
    {
      assert statements[..i + 1][..i] == statements[..i] && statements[..i + 1][i] == statements[i];
      ghost var here := c.working.value;
      assert Plan(statements[..i + 1], start) == Applied(statements[i], here);
      if Applied(statements[i], here).None? { PlanStops(statements, i + 1, start); }
      var reply := c.Query(statements[i]);
      if reply.None? { return None; }
      if !reply.value.Changes? { return None; }
      if reply.value.affectedRows > statements[i].maxAffectedRows { return None; }
      done := done + [reply.value.affectedRows];
    }
    assert statements[..|statements|] == statements;
    results := Some(done);
  }

  method CheckPreconditions<S(!new)>(c: Connection<S>, checks: seq<Precondition<S>>) returns (ok: bool)
    requires c.working.Some?
    modifies c`calls, c`failed
    ensures ok ==> AllMet(checks, c.working.value) && c.failed == old(c.failed)
    ensures !ok ==> c.failed || !AllMet(checks, c.working.value)
    ensures Reliable(c.fault) ==> c.failed == old(c.failed)
  {
    hide Reliable;
    for i := 0 to |checks|
      invariant forall k :: 0 <= k < i ==> checks[k](c.working.value) == Some(true)
      invariant c.failed == old(c.failed)
    {
      var state := c.Read();
      if state.None? || checks[i](state.value) != Some(true) { return false; }
    }
    ok := true;
  }

  predicate AllMet<S(!new)>(checks: seq<Precondition<S>>, s: S) {
    forall i :: 0 <= i < |checks| ==> checks[i](s) == Some(true)
  }

  /** What a trial that was not given up has seen. */
  ghost predicate Observed<S(!new)>(plan: ChangePlan<S>, baseline: S, t: Trial<S>) {
    && t.before == baseline
    && (forall i :: 0 <= i < |plan.preconditions| ==> plan.preconditions[i](baseline) == Some(true))
    && Plan(plan.statements, baseline) == Some(t.after) && t.affected == AffectedBy(plan.statements, baseline)
    && Plan(plan.statements, t.after) == Some(t.secondRun)
    && Plan(plan.rollbackPlan, t.after) == Some(t.rollback)
  }

  /** The trial of a plan on a baseline where every call goes through; None where the
      preconditions or a statement stop it. */
  function TrialOf<S(!new)>(plan: ChangePlan<S>, baseline: S): Option<Trial<S>> {
    if !AllMet(plan.preconditions, baseline) then None
    else
      match Plan(plan.statements, baseline)
      case None => None
      case Some(after) =>
        var secondRun, rollback := Plan(plan.statements, after), Plan(plan.rollbackPlan, after);
        if secondRun.None? || rollback.None? then None
        else Some(Trial(baseline, after, secondRun.value, rollback.value, AffectedBy(plan.statements, baseline)))
  }

  lemma ObservedIsTrialOf<S(!new)>(plan: ChangePlan<S>, baseline: S, t: Trial<S>)
    ensures Observed(plan, baseline, t) <==> TrialOf(plan, baseline) == Some(t)
  {
    hide Plan, AffectedBy;
  }

  /** The part between connecting and closing. `judge` says whether gates and evidence can
      be computed from what was observed. */
  method Attempt<S(!new)>(c: Connection<S>, plan: ChangePlan<S>, isBaseline: S -> bool, judge: Trial<S> -> bool)
    returns (result: Option<Trial<S>>, transactionOpen: bool)
    requires c.working.None?
    modifies c
    ensures c.durable == old(c.durable)
    ensures result.Some? ==> result == TrialOf(plan, c.durable) && isBaseline(c.durable) && judge(result.value)
    ensures result.Some? ==> c.failed == old(c.failed) && c.working.None? && !transactionOpen
    ensures result.None? && !c.failed ==>
              !isBaseline(c.durable) || TrialOf(plan, c.durable).None? || !judge(TrialOf(plan, c.durable).value)
    ensures Reliable(c.fault) ==> c.failed == old(c.failed)
  {
    hide Reliable, Plan, AffectedBy, AllMet;
    result, transactionOpen := None, false;
    var begun := c.Begin();
    if !begun { return; }
    transactionOpen := true;
    var before := c.Read();
    if before.None? || !isBaseline(before.value) { return; }
    var met := CheckPreconditions(c, plan.preconditions);
    if !met { return; }
    var statementResults := ExecuteStatements(c, plan.statements);
    if statementResults.None? { return; }
    var after := c.Read();
    if after.None? { return; }
    var saved := c.Savepoint();
    if !saved { return; }
    var again := ExecuteStatements(c, plan.statements);
    if again.None? { return; }
    var secondRun := c.Read();
    if secondRun.None? { return; }
    var restored := c.RollbackToSavepoint();
    if !restored { return; }
    var undone := ExecuteStatements(c, plan.rollbackPlan);
    if undone.None? { return; }
    var rollback := c.Read();
    if rollback.None? { return; }
    var trial := Trial(before.value, after.value, secondRun.value, rollback.value, statementResults.value);
    if !judge(trial) { return; }
    var rolledBack := c.Rollback();
    if !rolledBack { return; }
    transactionOpen := false;
    result := Some(trial);
  }

  /** Whatever fails and wherever, the trial leaves the durable contents as they were and
      no transaction open; on a session whose calls went through so far it completes exactly
      when no call fails and the baseline, the preconditions, both runs, the rollback plan
      and the judgement allow it. */
  method RunLocalMysqlCandidate<S(!new)>(
      c: Connection<S>, plan: ChangePlan<S>, isBaseline: S -> bool, judge: Trial<S> -> bool)
    returns (result: Option<Trial<S>>)
    requires c.working.None?
    modifies c
    ensures c.durable == old(c.durable) && c.working.None?
    ensures result.Some? ==> isBaseline(c.durable) && Observed(plan, c.durable, result.value) && judge(result.value)
    ensures !old(c.failed) ==>
              (result.Some? <==>
                 !c.failed && isBaseline(c.durable) && exists t :: Observed(plan, c.durable, t) && judge(t))
    ensures Reliable(c.fault) ==> c.failed == old(c.failed)
  {
    hide TrialOf, Observed, Reliable;
    forall t ensures Observed(plan, c.durable, t) <==> TrialOf(plan, c.durable) == Some(t) {
      ObservedIsTrialOf(plan, c.durable, t);
    }
    assert TrialOf(plan, c.durable).Some? ==> Observed(plan, c.durable, TrialOf(plan, c.durable).value);
    var transactionOpen;
    result, transactionOpen := Attempt(c, plan, isBaseline, judge);
    if transactionOpen { var _ := c.Rollback(); }
    c.End();
  }

  // ----- what the two gates guarantee

  /** The plan run `n` times over. */
  function Repeated<S(!new)>(statements: seq<Statement<S>>, n: nat, s: S): Option<S> {
    if n == 0 then Some(s)
    else
      match Repeated(statements, n - 1, s)
      case None => None
      case Some(t) => Plan(statements, t)
  }

  /** The plan run `n` times and then the rollback plan. */
  function RepeatedThenUndone<S(!new)>(plan: ChangePlan<S>, n: nat, s: S): Option<S> {
    match Repeated(plan.statements, n, s)
    case None => None
    case Some(t) => Plan(plan.rollbackPlan, t)
  }

  ghost predicate GatesPass<S(!new)>(digest: S -> string, t: Trial<S>) {
    digest(t.after) == digest(t.secondRun) && digest(t.before) == digest(t.rollback)
  }

  /** The digest tells the states a trial observes apart. */
  ghost predicate TellsStates<S(!new)>(digest: S -> string, t: Trial<S>) {
    TellsApart(digest, {t.before, t.after, t.secondRun, t.rollback})
  }

  /** When both gates pass, running the plan any number of times from the baseline gives
      the state after one run, and the rollback plan restores the baseline from there. */
  lemma {:induction false} GatesGiveRepeatableRollback<S(!new)>(
      digest: S -> string, plan: ChangePlan<S>, baseline: S, t: Trial<S>, n: nat)
    requires TellsStates(digest, t) && Observed(plan, baseline, t) && GatesPass(digest, t) && n >= 1
    ensures Repeated(plan.statements, n, baseline) == Some(t.after)
    ensures RepeatedThenUndone(plan, n, baseline) == Some(baseline)
  {
    if n == 1 {
      assert Repeated(plan.statements, 0, baseline) == Some(baseline);
    } else {
      GatesGiveRepeatableRollback(digest, plan, baseline, t, n - 1);
    }
  }

  /** And only then: the gates pass exactly when two runs end where one does and the
      rollback plan undoes either. */
  lemma GatesAreExact<S(!new)>(digest: S -> string, plan: ChangePlan<S>, baseline: S, t: Trial<S>)
    requires TellsStates(digest, t) && Observed(plan, baseline, t)
    ensures GatesPass(digest, t) <==>
            && Repeated(plan.statements, 2, baseline) == Repeated(plan.statements, 1, baseline)
            && (forall n :: 1 <= n ==> RepeatedThenUndone(plan, n, baseline) == Some(baseline))
  {
    assert Repeated(plan.statements, 0, baseline) == Some(baseline);
    assert Repeated(plan.statements, 1, baseline) == Some(t.after);
    assert Repeated(plan.statements, 2, baseline) == Some(t.secondRun);
    assert RepeatedThenUndone(plan, 1, baseline) == Some(t.rollback);
    if GatesPass(digest, t) {
      forall n | 1 <= n ensures RepeatedThenUndone(plan, n, baseline) == Some(baseline) {
        GatesGiveRepeatableRollback(digest, plan, baseline, t, n);
      }
    }
  }
}
