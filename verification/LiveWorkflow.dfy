/** The workflow object that drives live sessions: run identifiers, Daytona responses
    recorded both in a session and in a history that outlives it, and the freshness check
    of ready sessions. */
module LiveWorkflows {
  import opened Options
  import opened Approvals
  import opened ValidationSession
  import opened SessionSafety
  import opened RunIdentifiers
  import opened Deliveries
  import opened SessionRefresh
  import SessionRuns

  /** The persisted history and the session's own name different responses. */
  predicate Diverges(persisted: seq<Attempt>, history: seq<Attempt>) {
    || |persisted| != |history|
    || exists i :: 0 <= i < |persisted| && (persisted[i].response.sandboxId != history[i].response.sandboxId
                                            || persisted[i].response.runId != history[i].response.runId)
  }

  /** What `appendDaytonaAttempt` does: two ways to throw, or the next session and
      whether its evidence may be used. */
  datatype Appended = Diverged | Refused | Appended(session: Session, accepted: bool)

  function HighestRun(history: seq<Attempt>): nat {
    if history == [] then 0
    else
      var floor, n := HighestRun(history[..|history| - 1]), RunNumber(history[|history| - 1].response.runId);
      if floor < n then n else floor
  }

  lemma {:induction false} HighestRunBounds(history: seq<Attempt>, i: nat)
    requires i < |history|
    ensures RunNumber(history[i].response.runId) <= HighestRun(history)
  {
    hide RunNumber;
    var n := |history| - 1;
    if i < n { HighestRunBounds(history[..n], i); }
  }

  /** And is itself a recorded number, or 0. */
  lemma {:induction false} HighestRunIsRecorded(history: seq<Attempt>)
    ensures HighestRun(history) == 0 ||
            exists i :: 0 <= i < |history| && RunNumber(history[i].response.runId) == HighestRun(history)
  {
    hide RunNumber;
    if history != [] {
      var n := |history| - 1;
      HighestRunIsRecorded(history[..n]);
      if HighestRun(history[..n]) == HighestRun(history) > 0 {
        var i :| 0 <= i < n && RunNumber(history[..n][i].response.runId) == HighestRun(history);
        assert history[i] == history[..n][i];
      }
    }
  }

  /** A session start that earlier attempts do not forbid. */
  predicate Restartable(prior: seq<Attempt>) { forall i :: 0 <= i < |prior| ==> CleanAttempt(prior[i]) }

  lemma RestartIsFresh(s: Session)
    requires s ==
             NewSession(s.sessionId, s.mode, s.runKind, s.policyVersion, s.baseCommit, s.target, s.history, s.updatedAt)
    requires WellMarked(s.history) && Restartable(s.history)
    ensures Fresh(s)
  {
    hide WellMarked;
  }

  /** A transition other than a recorded response leaves the history alone. */
  lemma OtherStepKeepsHistory(env: Env, s: Session, e: Event, at: string)
    requires !e.AttemptRecorded? && Transition(env, s, e, at).Some?
    ensures Transition(env, s, e, at).value.history == s.history
    ensures Transition(env, s, e, at).value.sessionId == s.sessionId
    ensures Transition(env, s, e, at).value.mode == s.mode
  {
    hide Transition;
    SessionRuns.StepExtends(env, s, e, at);
  }

  /** Recording a response, and failing the session on an unconfirmed deletion, are
      transitions. */
  lemma AfterIsReachable(env: Env, s: Session, r: Response, at: string)
    requires Reachable(env, s) && ResponseAccepted(env, s, r)
    ensures Reachable(env, After(env, s, r, at))
  {
    hide Reachable, ResponseAccepted, RetryAction, Advance, Marked;
    RecordIsStep(env, s, r, at);
    ReachableMore(env, s, AttemptRecorded(r), at);
    var t, u := Record(env, s, r, at).value, After(env, s, r, at);
    if u != t {
      RecordedStates(env, s, r, at);
      var fail := Fail(DeletionUnconfirmed, false, Some(RetryAction()));
      assert Transition(env, t, fail, at) == Some(u);
      ReachableMore(env, t, fail, at);
    }
  }

  lemma RecordIsStep(env: Env, s: Session, r: Response, at: string)
    requires ResponseAccepted(env, s, r)
    ensures Transition(env, s, AttemptRecorded(r), at) == Record(env, s, r, at)
  {
    hide Record, Advance;
  }

  lemma RecordedStates(env: Env, s: Session, r: Response, at: string)
    requires ResponseAccepted(env, s, r) && s.state != Failed
    ensures var t := Record(env, s, r, at).value;
      t.history != [] && (t.history[|t.history| - 1].reserved ==> t.state == s.state && !Terminal(t.state))
  {
    hide Marked;
  }

  lemma NoDivergence(history: seq<Attempt>)
    ensures !Diverges(history, history)
  {}

  lemma DeliverIsDriven(env: Env, s: Session, d: Delivery, at: string)
    requires Driven(env, s)
    ensures Driven(env, Deliver(env, s, d, at))
    ensures Deliver(env, s, d, at).sessionId == s.sessionId && Deliver(env, s, d, at).mode == s.mode
  {
    hide Reachable, ResponseAccepted, After, ResponseOf, Driven;
    DrivenHistory(env, s);
    if Recordable(env, s, d) {
      var r := ResponseOf(s.sessionId, d).value;
      TakingIsReachable(env, s, r);
      AfterIsReachable(env, s, r, at);
      ReachableIsDriven(env, After(env, s, r, at));
      AfterShape(env, s, r, at);
    }
  }

  lemma ReachableIsDriven(env: Env, s: Session)
    requires Reachable(env, s)
    ensures Driven(env, s)
  {
    hide Reachable;
  }

  /** A reply is used exactly when it is recordable, the session has not failed, and its
      sandbox and run are new to the history. */
  lemma AcceptedExactly(env: Env, s: Session, d: Delivery, at: string)
    requires Recordable(env, s, d)
    ensures var r := ResponseOf(s.sessionId, d).value;
      AcceptedAfter(s, Record(env, s, r, at).value) <==>
        s.state != Failed && r.sandboxId !in SandboxIds(s.history) && r.runId !in RunIds(s.history)
  {
    hide ResponseOf, ResponseAccepted, SandboxIds, RunIds;
  }

  lemma DeliverHistory(env: Env, s: Session, d: Delivery, at: string)
    ensures !Recordable(env, s, d) ==> Deliver(env, s, d, at) == s
  {
    hide Recordable, After;
  }

  lemma FreshHasPrior(id: string, policy: string, base: string, target: Option<Target>, prior: seq<Attempt>, at: string)
    requires WellMarked(prior) && Restartable(prior)
    ensures Fresh(NewSession(id, Live, Tournament, policy, base, target, prior, at))
  {
    RestartIsFresh(NewSession(id, Live, Tournament, policy, base, target, prior, at));
  }

  // ----- the object's invariant, over the values of its fields

  function Prior(attempts: map<string, seq<Attempt>>, id: string): seq<Attempt> {
    if id in attempts then attempts[id] else []
  }

  function Reached(runSequence: map<string, nat>, id: string): nat { if id in runSequence then runSequence[id] else 0 }

  ghost predicate AttemptsValid(attempts: map<string, seq<Attempt>>) {
    forall id :: id in attempts ==> WellMarked(attempts[id])
  }

  /** Every session is live, one that transitions and freshness checks lead to from a fresh
      one, and has the persisted history. */
  ghost predicate SessionsValid(env: Env, attempts: map<string, seq<Attempt>>, sessions: map<string, Session>) {
    forall id :: id in sessions ==> SessionValid(env, attempts, id, sessions[id])
  }

  ghost predicate SessionValid(env: Env, attempts: map<string, seq<Attempt>>, id: string, s: Session) {
    s.history == Prior(attempts, id) && s.sessionId == id && Driven(env, s) && s.mode == Live
  }

  /** Every recorded run was issued by this object. */
  ghost predicate AttemptsIssued(issued: set<string>, attempts: map<string, seq<Attempt>>) {
    forall id :: id in attempts ==> HistoryIssued(issued, attempts[id])
  }

  ghost predicate HistoryIssued(issued: set<string>, history: seq<Attempt>) {
    forall i :: 0 <= i < |history| ==> history[i].response.runId in issued
  }

  /** A recorded reply names the run its call was made under. */
  lemma DeliverIssued(env: Env, s: Session, d: Delivery, at: string, issued: set<string>)
    requires Driven(env, s) && HistoryIssued(issued, s.history) && d.expectedRun in issued
    ensures HistoryIssued(issued, Deliver(env, s, d, at).history)
  {
    DrivenHistory(env, s);
    hide Driven, ResponseAccepted, After;
    if Recordable(env, s, d) {
      var r := ResponseOf(s.sessionId, d).value;
      AfterShape(env, s, r, at);
      assert Marked(s.history, r).response == r && r.runId == d.expectedRun;
    }
  }

  /** An issued name carries a number its session has reached. */
  ghost predicate IssuedValid(issued: set<string>, runSequence: map<string, nat>) {
    forall run :: run in issued ==> Issued(run, runSequence)
  }

  ghost predicate Issued(run: string, runSequence: map<string, nat>) {
    exists id, n: nat :: run == RunId(id, n) && n <= Reached(runSequence, id)
  }

  /** Replacing one session, with its persisted history brought up to date, keeps the
      invariant. */
  lemma ReplaceKeeps(
      env: Env, attempts: map<string, seq<Attempt>>, after: map<string, seq<Attempt>>, sessions: map<string, Session>,
      id: string, next: Session)
    requires AttemptsValid(attempts) && SessionsValid(env, attempts, sessions)
    requires after == attempts || after == attempts[id := next.history]
    requires next.history == Prior(after, id) && next.sessionId == id && Driven(env, next) && next.mode == Live
    ensures AttemptsValid(after) && SessionsValid(env, after, sessions[id := next])
  {
    hide Driven, WellMarked;
    DrivenHistory(env, next);
    forall k | k in sessions && k != id ensures SessionValid(env, after, k, sessions[k]) {
      assert SessionValid(env, attempts, k, sessions[k]);
    }
  }

  lemma IssueKeeps(issued: set<string>, runSequence: map<string, nat>, id: string, next: nat)
    requires IssuedValid(issued, runSequence) && next >= Reached(runSequence, id)
    ensures IssuedValid(issued + {RunId(id, next)}, runSequence[id := next])
  {
    hide RunId;
    var after := runSequence[id := next];
    forall run | run in issued ensures Issued(run, after) {
      assert Issued(run, runSequence);
      var k, n: nat :| run == RunId(k, n) && n <= Reached(runSequence, k);
      assert n <= Reached(after, k);
    }
    assert next <= Reached(after, id);
  }

  lemma IsNew(issued: set<string>, runSequence: map<string, nat>, history: seq<Attempt>, id: string, next: nat)
    requires IssuedValid(issued, runSequence) && next > Reached(runSequence, id) && next > HighestRun(history)
    ensures RunId(id, next) !in issued && RunId(id, next) !in RunIds(history)
  {
    hide RunId, RunNumber, HighestRun;
    var run := RunId(id, next);
    RunNumberOfRunId(id, next);
    forall i | 0 <= i < |history| ensures history[i].response.runId != run { HighestRunBounds(history, i); }
    if run in issued {
      assert Issued(run, runSequence);
      var k, n: nat :| run == RunId(k, n) && n <= Reached(runSequence, k);
      RunIdInjective(id, next, k, n);
    }
  }

  lemma UnissuedIsUnrecorded(issued: set<string>, attempts: map<string, seq<Attempt>>, id: string, run: string)
    requires AttemptsIssued(issued, attempts) && run !in issued
    ensures run !in RunIds(Prior(attempts, id))
  {
    if id in attempts { assert HistoryIssued(issued, attempts[id]); }
  }

  lemma MoreIssued(issued: set<string>, attempts: map<string, seq<Attempt>>, run: string)
    requires AttemptsIssued(issued, attempts)
    ensures AttemptsIssued(issued + {run}, attempts)
  {
    forall id | id in attempts ensures HistoryIssued(issued + {run}, attempts[id]) {
      assert HistoryIssued(issued, attempts[id]);
    }
  }

  lemma PriorIssued(issued: set<string>, attempts: map<string, seq<Attempt>>, id: string)
    requires AttemptsIssued(issued, attempts)
    ensures HistoryIssued(issued, Prior(attempts, id))
  {}

  lemma SessionOf(env: Env, attempts: map<string, seq<Attempt>>, sessions: map<string, Session>, id: string)
    requires SessionsValid(env, attempts, sessions) && id in sessions
    ensures sessions[id].history == Prior(attempts, id) && sessions[id].sessionId == id
    ensures Driven(env, sessions[id]) && sessions[id].mode == Live
  {
    hide Driven;
    assert SessionValid(env, attempts, id, sessions[id]);
  }

  /** A session of the driver that is ready to merge or completed has earned its
      publication and the live evidence behind it, whatever freshness checks it went
      through. It is one that transitions lead to, and so has earned its review too,
      exactly when they would accept the review on its record and that review passes. */
  lemma DrivenReadyIsEarned(env: Env, attempts: map<string, seq<Attempt>>, sessions: map<string, Session>, id: string)
    requires SessionsValid(env, attempts, sessions) && id in sessions && sessions[id].state in {ReadyToMerge, Completed}
    ensures var s := sessions[id];
      && SessionRuns.EarnedPublication(env, s)
      && s.revalidation.Some? && SessionRuns.EarnedLive(env, s, s.revalidation.value)
      && (Reachable(env, s) <==>
            s.review.Some? && ReviewAccepted(env, s, s.review.value, s.findings) && s.review.value.passed)
      && (Reachable(env, s) ==> SessionRuns.Earned(env, s))
  {
    hide Driven, Fresh, Transition, SessionRuns.EarnedPublication, SessionRuns.EarnedLive, ReviewAccepted,
         SessionRuns.Earned;
    SessionOf(env, attempts, sessions, id);
    DrivenPublicationIsEarned(env, sessions[id]);
    DrivenReadyExactly(env, sessions[id]);
    if Reachable(env, sessions[id]) {
      var start :| Fresh(start) && Reaches(env, start, sessions[id]);
      var steps :| Run(env, start, steps) == Some(sessions[id]);
      SessionRuns.ReadyIsEarned(env, start, steps);
    }
  }

  /** The live sessions of one process. A key of `sessions` is a start in progress or a
      recorded session; an entry of `attempts` outlives a start that failed. */
  class LiveWorkflow {
    const env: Env
    const reviewUrl: int -> string
    var attempts: map<string, seq<Attempt>>
    var runSequence: map<string, nat>
    var sessions: map<string, Session>
    ghost var issued: set<string>

    ghost predicate Valid()
      reads this
    {
      && AttemptsValid(attempts) && SessionsValid(env, attempts, sessions)
      && IssuedValid(issued, runSequence) && AttemptsIssued(issued, attempts)
    }

    /** The persisted history is the session's own. */
    ghost predicate Aligned(s: Session)
      reads this
    {
      s.history == History(s.sessionId)
    }

    function History(sessionId: string): seq<Attempt>
      reads this
    {
      Prior(attempts, sessionId)
    }

    function Sequence(sessionId: string): nat
      reads this
    {
      Reached(runSequence, sessionId)
    }

    constructor (env: Env, reviewUrl: int -> string)
      ensures Valid() && this.env == env && this.reviewUrl == reviewUrl && sessions == map[] && attempts == map[]
    {
      this.env, this.reviewUrl := env, reviewUrl;
      attempts, runSequence, sessions, issued := map[], map[], map[], {};
    }

    /** Every name it issues is new: neither issued nor recorded before, for this or any
        other session, even when the recorded history comes from an earlier start. */
    method NextDaytonaRunId(sessionId: string) returns (run: string)
      requires Valid()
      modifies this`runSequence, this`issued
      ensures Valid() && issued == old(issued) + {run}
      ensures run !in old(issued) && forall id :: run !in RunIds(History(id))
      ensures run == RunId(sessionId, Sequence(sessionId))
      ensures var floor, current := HighestRun(History(sessionId)), old(Sequence(sessionId));
              Sequence(sessionId) == if current < floor then floor + 1 else current + 1
      ensures forall id :: id != sessionId ==> Sequence(id) == old(Sequence(id))
    {
      hide RunId, HighestRun, AttemptsValid, SessionsValid, IssuedValid, AttemptsIssued;
      var floor := HighestRun(History(sessionId));
      var current := Sequence(sessionId);
      var next := (if current < floor then floor else current) + 1;
      run := RunId(sessionId, next);
      IsNew(issued, runSequence, History(sessionId), sessionId, next);
      IssueKeeps(issued, runSequence, sessionId, next);
      MoreIssued(issued, attempts, run);
      ghost var before := issued;
      runSequence := runSequence[sessionId := next];
      issued := issued + {run};
      forall id ensures run !in RunIds(History(id)) { UnissuedIsUnrecorded(before, attempts, id, run); }
    }

    /** Records a response in the session and in the persisted history together. For a
        session aligned with that history the divergence error does not arise. */
    method AppendDaytonaAttempt(session: Session, r: Response, at: string) returns (out: Appended)
      modifies this`attempts
      ensures out == Diverged <==>
              session.sessionId in old(attempts) && Diverges(old(attempts)[session.sessionId], session.history)
      ensures out != Diverged && session.sessionId in old(attempts) ==>
        var persisted := old(attempts)[session.sessionId];
        && |persisted| == |session.history|
        && forall i :: 0 <= i < |persisted| ==>
             && persisted[i].response.sandboxId == session.history[i].response.sandboxId
             && persisted[i].response.runId == session.history[i].response.runId
      ensures out.Diverged? || out.Refused? ==> attempts == old(attempts)
      ensures !out.Diverged? ==> (out.Refused? <==> !ResponseAccepted(env, session, r))
      ensures out.Appended? ==>
        && Some(out.session) == Record(env, session, r, at) && out.accepted == AcceptedAfter(session, out.session)
        && attempts == old(attempts)[session.sessionId := out.session.history]
    {
      hide ResponseAccepted, Marked;
      var persisted := if session.sessionId in attempts then attempts[session.sessionId] else session.history;
      var diverged := |persisted| != |session.history|;
      if !diverged {
        for i := 0 to |persisted|
          invariant forall k :: 0 <= k < i ==>
            persisted[k].response.sandboxId == session.history[k].response.sandboxId
              && persisted[k].response.runId == session.history[k].response.runId
        {
          if persisted[i].response.sandboxId != session.history[i].response.sandboxId
            || persisted[i].response.runId != session.history[i].response.runId
          {
            return Diverged;
          }
        }
      }
      if diverged { return Diverged; }
      var next := Record(env, session, r, at);
      if next.None? { return Refused; }
      attempts := attempts[session.sessionId := next.value.history];
      out := Appended(next.value, AcceptedAfter(session, next.value));
    }

    /** `reserveDaytonaAttempt` and `reserveFailedDaytonaAttempt`: a reply bound to its
        call is recorded, and an unconfirmed deletion fails the session; any other reply
        leaves everything as it was. */
    method Reserve(session: Session, d: Delivery, at: string) returns (next: Session, accepted: bool)
      requires Aligned(session)
      modifies this`attempts
      ensures next == Deliver(env, session, d, at)
      ensures attempts ==
              if Recordable(env, session, d) then old(attempts)[session.sessionId := next.history] else old(attempts)
      ensures accepted <==>
              Recordable(env, session, d)
                && AcceptedAfter(session, Record(env, session, ResponseOf(session.sessionId, d).value, at).value)
    {
      hide ResponseAccepted, ResponseOf, RetryAction, Diverges, Marked;
      var response := ResponseOf(session.sessionId, d);
      if response.None? { return session, false; }
      NoDivergence(session.history);
      var out := AppendDaytonaAttempt(session, response.value, at);
      if out.Refused? { return session, false; }
      if out.accepted && Unconfirmed(response.value.disposition) {
        next := out.session.(state := Failed, updatedAt := at,
                             failure := Some(Failure(DeletionUnconfirmed, false, Some(RetryAction()),
                                                     out.session.state)));
        return next, true;
      }
      return out.session, out.accepted;
    }

    /** Handles one reply to a call made under an issued name. The session keeps the
        persisted history and stays one that the driver's operations lead to. */
    method Settle(sessionId: string, d: Delivery, at: string) returns (accepted: bool)
      requires Valid() && sessionId in sessions && d.expectedRun in issued
      modifies this`attempts, this`sessions
      ensures Valid()
      ensures sessions == old(sessions)[sessionId := Deliver(env, old(sessions)[sessionId], d, at)]
      ensures accepted <==>
              && Recordable(env, old(sessions)[sessionId], d) && old(sessions)[sessionId].state != Failed
              && var r := ResponseOf(sessionId, d).value;
              r.sandboxId !in SandboxIds(old(History(sessionId))) && r.runId !in RunIds(old(History(sessionId)))
      ensures forall id :: id != sessionId ==> History(id) == old(History(id))
    {
      hide Driven, Recordable, Deliver, AttemptsValid, SessionsValid, IssuedValid, HistoryIssued;
      SessionOf(env, attempts, sessions, sessionId);
      var session := sessions[sessionId];
      ghost var before := attempts;
      DeliverIsDriven(env, session, d, at);
      PriorIssued(issued, attempts, sessionId);
      DeliverIssued(env, session, d, at, issued);
      DeliverHistory(env, session, d, at);
      if Recordable(env, session, d) { AcceptedExactly(env, session, d, at); }
      var next, used := Reserve(session, d, at);
      ReplaceKeeps(env, before, attempts, sessions, sessionId, next);
      sessions := sessions[sessionId := next];
      accepted := used;
    }

    /** Handles the replies of concurrent calls in the order in which they complete. */
    method SettleAll(sessionId: string, ds: seq<Delivery>, clock: nat -> string)
      requires Valid() && sessionId in sessions && forall i :: 0 <= i < |ds| ==> ds[i].expectedRun in issued
      modifies this`attempts, this`sessions
      ensures Valid()
      ensures sessions == old(sessions)[sessionId := DeliverAll(env, old(sessions)[sessionId], ds, clock)]
      ensures History(sessionId) == sessions[sessionId].history
    {
      hide Deliver, AttemptsValid, SessionsValid, IssuedValid, AttemptsIssued;
      ghost var start := sessions[sessionId];
      assert ds[..0] == [];
      assert sessions == sessions[sessionId := start];
      for i := 0 to |ds|
        invariant Valid() && sessionId in sessions
        invariant sessions == old(sessions)[sessionId := DeliverAll(env, start, ds[..i], clock)]
      {
        assert ds[..i + 1][..i] == ds[..i] && ds[..i + 1][i] == ds[i];
        var _ := Settle(sessionId, ds[i], clock(i));
      }
      assert ds[..|ds|] == ds;
      SessionOf(env, attempts, sessions, sessionId);
    }

    /** Starts a session, unless one of that name exists or an earlier start left an
        attempt behind that may not be built upon. */
    method StartTournament(
        sessionId: string, policyVersion: string, baseCommit: string, target: Option<Target>, at: string)
      returns (ok: bool)
      requires Valid()
      modifies this`sessions
      ensures Valid()
      ensures ok <==> sessionId !in old(sessions) && Restartable(History(sessionId))
      ensures ok <==>
              sessionId !in old(sessions) && forall i :: 0 <= i < |History(sessionId)| ==>
                var a := History(sessionId)[i];
                && a.reserved && !a.duplicateSandbox && !a.duplicateRun
                && (|| a.response.disposition == Finished
                    || (a.response.disposition == FailedDestroyed && a.response.retryable))
      ensures ok ==>
              sessions ==
                old(sessions)[sessionId :=
                  NewSession(sessionId, Live, Tournament, policyVersion, baseCommit, target, History(sessionId), at)]
      ensures ok ==> Fresh(sessions[sessionId])
      ensures !ok ==> sessions == old(sessions)
    {
      hide Driven, Reachable, WellMarked, Fresh, SessionsValid, IssuedValid, AttemptsIssued;
      if sessionId in sessions { return false; }
      var prior := History(sessionId);
      for i := 0 to |prior|
        invariant forall k :: 0 <= k < i ==>
                  prior[k].response.disposition == Finished
                    || (prior[k].response.disposition == FailedDestroyed && prior[k].response.retryable)
      {
        var a := prior[i].response;
        if Unconfirmed(a.disposition) || (a.disposition == FailedDestroyed && !a.retryable) { return false; }
      }
      for i := 0 to |prior|
        invariant forall k :: 0 <= k < i ==> Unmarked(prior[k])
      {
        if !prior[i].reserved || prior[i].duplicateSandbox || prior[i].duplicateRun { return false; }
      }
      EmptyIsWellMarked();
      FreshHasPrior(sessionId, policyVersion, baseCommit, target, prior, at);
      var session := NewSession(sessionId, Live, Tournament, policyVersion, baseCommit, target, prior, at);
      FreshIsReachable(env, session);
      ReachableIsDriven(env, session);
      ReplaceKeeps(env, attempts, attempts, sessions, sessionId, session);
      sessions := sessions[sessionId := session];
      ok := true;
    }

    /** Any other transition of a session. */
    method Apply(sessionId: string, e: Event, at: string) returns (ok: bool)
      requires Valid() && sessionId in sessions && !e.AttemptRecorded?
      modifies this`sessions
      ensures Valid()
      ensures ok <==> Transition(env, old(sessions)[sessionId], e, at).Some?
      ensures sessions ==
              if ok then old(sessions)[sessionId := Transition(env, old(sessions)[sessionId], e, at).value]
                else old(sessions)
    {
      hide Driven, Transition, AttemptsValid, SessionsValid, IssuedValid, AttemptsIssued;
      SessionOf(env, attempts, sessions, sessionId);
      var next := Transition(env, sessions[sessionId], e, at);
      if next.None? { return false; }
      DrivenStep(env, sessions[sessionId], e, at);
      OtherStepKeepsHistory(env, sessions[sessionId], e, at);
      ReplaceKeeps(env, attempts, attempts, sessions, sessionId, next.value);
      sessions := sessions[sessionId := next.value];
      ok := true;
    }

    /** `refreshReadyToMerge`: writes the review of a ready session anew, or fails the
        session, invalidates its approval and removes its review. Histories stay as they
        are; `inspected` is None where the inspection throws or is not available. */
    method RefreshReadyToMerge(sessionId: string, inspected: Option<Inspection>, at: string)
      returns (answer: Refreshing)
      requires Valid()
      modifies this`sessions
      ensures Valid()
      ensures sessionId !in old(sessions) ==> answer == NoClaim && sessions == old(sessions)
      ensures sessionId in old(sessions) ==>
        var (expected, next) := AfterRefresh(env, reviewUrl, old(sessions)[sessionId], inspected, at);
        answer == expected && sessions == old(sessions)[sessionId := next]
    {
      hide Driven, Transition, AttemptsValid, SessionsValid, IssuedValid, AttemptsIssued, RevocationReason,
           RestartAction;
      if sessionId !in sessions { return NoClaim; }
      var s := sessions[sessionId];
      SessionOf(env, attempts, sessions, sessionId);
      DrivenRefresh(env, reviewUrl, s, inspected, at);
      assert sessions == sessions[sessionId := s];
      if s.state != ReadyToMerge || s.pullRequest.None? || s.review.None? { return NoClaim; }
      if inspected.None? { return Unavailable; }
      var i := inspected.value;
      if i.status != Passed || !i.passed || i.timedOut || i.requiresFullRevalidation {
        var approval := if s.approval.None? then None else Some(s.approval.value.(invalidatedAt := Some(at)));
        var fail := Fail(Stated(RevocationReason(i.reason)), false, Some(RestartAction()));
        FailStep(env, s, Stated(RevocationReason(i.reason)), at);
        var failed := Transition(env, s, fail, at).value;
        var next := failed.(approval := approval, review := None, findings := []);
        ReplaceKeeps(env, attempts, attempts, sessions, sessionId, next);
        sessions := sessions[sessionId := next];
        return Revoked;
      }
      var receipt := ReceiptOf(env, reviewUrl, i);
      if receipt.None? { return Untrusted; }
      var next := s.(review := receipt, findings := i.findings, updatedAt := receipt.value.capturedAt);
      ReplaceKeeps(env, attempts, attempts, sessions, sessionId, next);
      sessions := sessions[sessionId := next];
      return Refreshed;
    }

    /** A start that throws drops its session; the attempts it recorded stay. */
    method Abandon(sessionId: string)
      requires Valid()
      modifies this`sessions
      ensures Valid() && sessions == old(sessions) - {sessionId}
    {
      hide Driven, WellMarked, AttemptsIssued;
      sessions := sessions - {sessionId};
    }
  }

  lemma FailStep(env: Env, s: Session, reason: Reason, at: string)
    requires s.state.ReadyToMerge?
    ensures Transition(env, s, Fail(reason, false, Some(RestartAction())), at) ==
            Some(s.(state := Failed, updatedAt := at,
                    failure := Some(Failure(reason, false, Some(RestartAction()), s.state))))
  {
    hide Advance, Record, RestartAction;
  }

  lemma EmptyIsWellMarked()
    ensures WellMarked([])
  {}
}
