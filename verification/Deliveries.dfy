/** Daytona responses recorded in the order in which they complete. */
module Deliveries {
  import opened Options
  import opened ValidationSession
  import opened SessionSafety
  import SessionRuns

  /** What one call to the sandbox provider ends in. */
  datatype Reply =
    | Evidence(fromDaytona: bool, sessionId: string, candidateId: string, sandboxId: string, runId: string,
               retained: bool, destroyed: bool, capturedAt: Option<string>)
    | AttemptError(candidateId: string, sandboxId: string, runId: string, observedAt: string,
                   disposition: Disposition, retryable: bool)
    | OtherError

  /** A reply together with the call it answers. */
  datatype Delivery = Delivery(reply: Reply, purpose: Purpose, expectedCandidate: string, expectedRun: string)

  predicate Unconfirmed(d: Disposition) { d == CleanupFailed || d == FailedRetained }

  /** The response to record, or None where the reply is not bound to its call. */
  function ResponseOf(sessionId: string, d: Delivery): Option<Response> {
    match d.reply
    case Evidence(fromDaytona, replySession, candidateId, sandboxId, runId, retained, destroyed, capturedAt) =>
      if fromDaytona && replySession == sessionId && candidateId == d.expectedCandidate && runId == d.expectedRun
         && !retained && destroyed && capturedAt.Some?
      then Some(Response(candidateId, sandboxId, runId, d.purpose, capturedAt.value, Finished, false))
      else None
    case AttemptError(candidateId, sandboxId, runId, observedAt, disposition, retryable) =>
      if candidateId == d.expectedCandidate && runId == d.expectedRun
      then Some(Response(candidateId, sandboxId, runId, d.purpose, observedAt, disposition,
                         if Unconfirmed(disposition) then false else retryable))
      else None
    case OtherError => None
  }

  function RetryAction(): string { "reconcile-and-start-new-session" }

  /** Whether a recorded response is usable. */
  predicate AcceptedAfter(s: Session, t: Session) {
    s.state != Failed && t.history != [] && t.history[|t.history| - 1].reserved
  }

  /** The session once an acceptable response is recorded: an unconfirmed deletion of a
      freshly reserved sandbox fails it. */
  function After(env: Env, s: Session, r: Response, at: string): Session
    requires ResponseAccepted(env, s, r)
  {
    var t := Record(env, s, r, at).value;
    if AcceptedAfter(s, t) && Unconfirmed(r.disposition)
    then t.(state := Failed, updatedAt := at,
            failure := Some(Failure(DeletionUnconfirmed, false, Some(RetryAction()), t.state)))
    else t
  }

  predicate Recordable(env: Env, s: Session, d: Delivery) {
    ResponseOf(s.sessionId, d).Some? && ResponseAccepted(env, s, ResponseOf(s.sessionId, d).value)
  }

  /** The fields a reply must have to be recorded, whatever it reports. */
  predicate ValidFields(
      env: Env, s: Session, candidateId: string, sandboxId: string, runId: string, at: string, d: Delivery)
  {
    && candidateId == d.expectedCandidate && runId == d.expectedRun
    && s.mode == Live && StageAllows(s, d.purpose) && candidateId in s.candidateIds
    && env.isIdentifier(sandboxId) && env.isIdentifier(runId) && env.isTime(at)
  }

  /** Every bound reply with valid fields is recordable: evidence if it names this session
      and its sandbox was destroyed, and a failed attempt whatever became of its sandbox. */
  lemma RecordableExactly(env: Env, s: Session, d: Delivery)
    ensures Recordable(env, s, d) <==>
      match d.reply
      case Evidence(fromDaytona, replySession, candidateId, sandboxId, runId, retained, destroyed, capturedAt) =>
        fromDaytona && replySession == s.sessionId && destroyed && !retained && capturedAt.Some?
        && ValidFields(env, s, candidateId, sandboxId, runId, capturedAt.value, d)
      case AttemptError(candidateId, sandboxId, runId, observedAt, disposition, retryable) =>
        ValidFields(env, s, candidateId, sandboxId, runId, observedAt, d) && (disposition == Finished ==> !retryable)
      case OtherError => false
  {
    hide StageAllows;
  }

  function Deliver(env: Env, s: Session, d: Delivery, at: string): Session {
    if Recordable(env, s, d) then After(env, s, ResponseOf(s.sessionId, d).value, at) else s
  }

  function DeliverAll(env: Env, s: Session, ds: seq<Delivery>, clock: nat -> string): Session {
    if ds == [] then s
    else Deliver(env, DeliverAll(env, s, ds[..|ds| - 1], clock), ds[|ds| - 1], clock(|ds| - 1))
  }

  /** The responses of the recordable deliveries, in order. */
  function RecordedResponses(env: Env, s: Session, ds: seq<Delivery>): seq<Response> {
    if ds == [] then []
    else
      var d := ds[|ds| - 1];
      RecordedResponses(env, s, ds[..|ds| - 1])
        + if Recordable(env, s, d) then [ResponseOf(s.sessionId, d).value] else []
  }

  function Responses(history: seq<Attempt>): (rs: seq<Response>)
    ensures |rs| == |history| && forall i :: 0 <= i < |rs| ==> rs[i] == history[i].response
  {
    seq(|history|, i requires 0 <= i < |history| => history[i].response)
  }

  /** What recordability depends on. */
  ghost predicate SameIntake(s: Session, t: Session) {
    && s.sessionId == t.sessionId && s.mode == t.mode && s.candidateIds == t.candidateIds && Stage(s) == Stage(t)
    && Steady(s) && Steady(t)
  }

  /** A failure is on record exactly in a failed session. */
  ghost predicate Steady(s: Session) { s.failure.Some? <==> s.state == Failed }

  lemma SameIntakeRecords(env: Env, s: Session, t: Session, d: Delivery)
    requires SameIntake(s, t)
    ensures Recordable(env, s, d) <==> Recordable(env, t, d)
  {
    hide ResponseOf;
  }

  lemma AfterShape(env: Env, s: Session, r: Response, at: string)
    requires ResponseAccepted(env, s, r) && Steady(s)
    ensures var t := After(env, s, r, at);
      && SameIntake(s, t) && t.history == s.history + [Marked(s.history, r)]
      && (t.state == Failed <==> s.state == Failed || !Marked(s.history, r).reserved || Unconfirmed(r.disposition))
  {
    hide Marked, RetryAction;
  }

  // ----- every delivery is recorded exactly once

  predicate AnyUnconfirmed(rs: seq<Response>) { exists i :: 0 <= i < |rs| && Unconfirmed(rs[i].disposition) }

  /** Whatever the order, the recordable deliveries and no others are appended, each
      once and in order of completion. */
  lemma {:induction false} EachRecordedOnce(env: Env, s: Session, ds: seq<Delivery>, clock: nat -> string)
    requires Steady(s)
    ensures var t := DeliverAll(env, s, ds, clock);
      && SameIntake(s, t) && s.history <= t.history
      && Responses(t.history) == Responses(s.history) + RecordedResponses(env, s, ds)
  {
    hide SameIntake, Recordable, After, ResponseAccepted, ResponseOf;
    if ds == [] {
      SameIntakeReflexive(s);
    } else {
      var prior, d := ds[..|ds| - 1], ds[|ds| - 1];
      EachRecordedOnce(env, s, prior, clock);
      var u := DeliverAll(env, s, prior, clock);
      SameIntakeRecords(env, s, u, d);
      DeliverShape(env, s, u, d, clock(|ds| - 1));
    }
  }

  lemma SameIntakeReflexive(s: Session)
    requires Steady(s)
    ensures SameIntake(s, s)
  {}

  lemma DeliverShape(env: Env, s: Session, u: Session, d: Delivery, at: string)
    requires SameIntake(s, u)
    ensures var t := Deliver(env, u, d, at);
      && SameIntake(s, t) && u.history <= t.history
      && Responses(t.history) == Responses(u.history)
           + if Recordable(env, s, d) then [ResponseOf(s.sessionId, d).value] else []
  {
    hide ResponseOf, After, ResponseAccepted, Marked;
    SameIntakeRecords(env, s, u, d);
    if Recordable(env, u, d) {
      var r := ResponseOf(s.sessionId, d).value;
      AfterShape(env, u, r, at);
      MarkedFields(u.history, r);
    }
  }

  // ----- when a session fails

  lemma MarksStayExact(env: Env, s: Session, ds: seq<Delivery>, clock: nat -> string)
    requires WellMarked(s.history) && Steady(s)
    ensures WellMarked(DeliverAll(env, s, ds, clock).history)
  {
    hide WellMarked, Deliver;
    if ds != [] {
      var prior := ds[..|ds| - 1];
      MarksStayExact(env, s, prior, clock);
      EachRecordedOnce(env, s, prior, clock);
      DeliverMarks(env, DeliverAll(env, s, prior, clock), ds[|ds| - 1], clock(|ds| - 1));
    }
  }

  lemma AcceptedIsConsistent(env: Env, s: Session, r: Response)
    requires ResponseAccepted(env, s, r)
    ensures Consistent(r)
  {
    hide StageAllows;
  }

  lemma DeliverMarks(env: Env, s: Session, d: Delivery, at: string)
    requires WellMarked(s.history) && Steady(s)
    ensures WellMarked(Deliver(env, s, d, at).history)
  {
    hide WellMarked, After, ResponseAccepted, Marked, ResponseOf;
    if Recordable(env, s, d) {
      var r := ResponseOf(s.sessionId, d).value;
      AfterShape(env, s, r, at);
      AcceptedIsConsistent(env, s, r);
      HistoryGrows(s.history, r);
    }
  }

  /** A session that has not failed fails exactly when some recorded response leaves a
      deletion unconfirmed or some attempt of the history reuses an identity. */
  lemma {:induction false} FailsExactly(env: Env, s: Session, ds: seq<Delivery>, clock: nat -> string)
    requires s.state != Failed && s.failure.None? && WellMarked(s.history) && AllUnmarked(s.history)
    ensures var t := DeliverAll(env, s, ds, clock);
      t.state == Failed <==> AnyUnconfirmed(RecordedResponses(env, s, ds)) || !AllUnmarked(t.history)
  {
    hide Deliver, AllUnmarked, Unconfirmed, WellMarked, ResponseOf, Stage, ResponseAccepted;
    if ds != [] {
      var prior, d, at := ds[..|ds| - 1], ds[|ds| - 1], clock(|ds| - 1);
      FailsExactly(env, s, prior, clock);
      EachRecordedOnce(env, s, prior, clock);
      var u := DeliverAll(env, s, prior, clock);
      SameIntakeRecords(env, s, u, d);
      DeliverFails(env, s, u, d, at);
      if Recordable(env, s, d) { MoreUnconfirmed(RecordedResponses(env, s, prior), ResponseOf(s.sessionId, d).value); }
    }
  }

  lemma DeliverFails(env: Env, s: Session, u: Session, d: Delivery, at: string)
    requires SameIntake(s, u)
    ensures var t := Deliver(env, u, d, at);
      && (!Recordable(env, s, d) ==> t == u)
      && (Recordable(env, s, d) ==>
            var r := ResponseOf(s.sessionId, d).value;
            && (t.state == Failed <==>
                 u.state == Failed || !Unmarked(Marked(u.history, r)) || Unconfirmed(r.disposition))
            && (AllUnmarked(t.history) <==> AllUnmarked(u.history) && Unmarked(Marked(u.history, r))))
  {
    hide ResponseOf, After, ResponseAccepted, Marked, Unmarked, Unconfirmed;
    SameIntakeRecords(env, s, u, d);
    if Recordable(env, u, d) {
      var r := ResponseOf(s.sessionId, d).value;
      AfterShape(env, u, r, at);
      MarkedFields(u.history, r);
      UnmarkedGrows(u.history, Marked(u.history, r));
    }
  }

  lemma UnmarkedGrows(history: seq<Attempt>, a: Attempt)
    ensures AllUnmarked(history + [a]) <==> AllUnmarked(history) && Unmarked(a)
  {
    hide Unmarked;
    var all := history + [a];
    assert all[|history|] == a && forall i :: 0 <= i < |history| ==> all[i] == history[i];
    if AllUnmarked(all) {
      forall i | 0 <= i < |history| ensures Unmarked(history[i]) { assert Unmarked(all[i]); }
      assert Unmarked(all[|history|]);
    }
  }

  lemma MoreUnconfirmed(rs: seq<Response>, r: Response)
    ensures AnyUnconfirmed(rs + [r]) <==> AnyUnconfirmed(rs) || Unconfirmed(r.disposition)
  {
    hide Unconfirmed;
    var all := rs + [r];
    assert all[|rs|] == r && forall i :: 0 <= i < |rs| ==> all[i] == rs[i];
    if AnyUnconfirmed(rs) {
      var i :| 0 <= i < |rs| && Unconfirmed(rs[i].disposition);
      assert Unconfirmed(all[i].disposition);
    }
  }

  // ----- identities, without reference to marks

  predicate IdentitiesDistinct(rs: seq<Response>) {
    forall i, j :: 0 <= i < j < |rs| ==> rs[i].sandboxId != rs[j].sandboxId && rs[i].runId != rs[j].runId
  }

  /** The marks say neither more nor less than that identities repeat. */
  lemma MarksAreExact(history: seq<Attempt>)
    requires WellMarked(history)
    ensures AllUnmarked(history) <==> IdentitiesDistinct(Responses(history))
  {
    hide WellMarked;
    forall j | 0 <= j < |history|
      ensures Unmarked(history[j]) <==>
              forall i :: 0 <= i < j ==>
                history[i].response.sandboxId != history[j].response.sandboxId
                  && history[i].response.runId != history[j].response.runId
    {
      SessionRuns.MarksNameTheReuse(history, j);
    }
  }

  /** Two responses of a list share an identity; said of a multiset. */
  ghost predicate Repeats(rs: multiset<Response>) {
    exists a, b :: a in rs && b in rs && (a.sandboxId == b.sandboxId || a.runId == b.runId) && (a != b || rs[a] > 1)
  }

  lemma RepeatsIsNotDistinct(rs: seq<Response>)
    ensures Repeats(multiset(rs)) <==> !IdentitiesDistinct(rs)
  {
    if !IdentitiesDistinct(rs) {
      var i, j :| 0 <= i < j < |rs| && (rs[i].sandboxId == rs[j].sandboxId || rs[i].runId == rs[j].runId);
      var a, b := rs[i], rs[j];
      if a == b { Twice(rs, i, j); }
      assert a in multiset(rs) && b in multiset(rs);
    }
    if Repeats(multiset(rs)) {
      var a, b :| a in multiset(rs) && b in multiset(rs) && (a.sandboxId == b.sandboxId || a.runId == b.runId)
        && (a != b || multiset(rs)[a] > 1);
      if a != b {
        var i :| 0 <= i < |rs| && rs[i] == a;
        var j :| 0 <= j < |rs| && rs[j] == b;
        assert i < j || j < i;
      } else {
        RepeatedTwice(rs, a);
      }
    }
  }

  lemma Twice(rs: seq<Response>, i: nat, j: nat)
    requires i < j < |rs| && rs[i] == rs[j]
    ensures multiset(rs)[rs[i]] > 1
  {
    assert rs == rs[..i + 1] + rs[i + 1..];
    assert rs[i] in rs[..i + 1] && rs[i + 1..][j - i - 1] == rs[j];
    assert multiset(rs) == multiset(rs[..i + 1]) + multiset(rs[i + 1..]);
  }

  lemma {:induction false} RepeatedTwice(rs: seq<Response>, a: Response)
    requires multiset(rs)[a] > 1
    ensures exists i, j :: 0 <= i < j < |rs| && rs[i] == a && rs[j] == a
  {
    var rest := rs[1..];
    assert rs == [rs[0]] + rest;
    if rs[0] == a {
      assert a in multiset(rest);
      var j :| 0 <= j < |rest| && rest[j] == a;
      assert rs[j + 1] == a;
    } else {
      RepeatedTwice(rest, a);
      var i, j :| 0 <= i < j < |rest| && rest[i] == a && rest[j] == a;
      assert rs[i + 1] == a && rs[j + 1] == a;
    }
  }

  // ----- failures, in the terms of the replies

  /** The response on record of a recordable reply: it is for the call's candidate, run
      and purpose, and only a failed attempt whose sandbox is gone may be retried. */
  lemma ResponseSpelled(env: Env, s: Session, d: Delivery)
    requires Recordable(env, s, d)
    ensures var r := ResponseOf(s.sessionId, d).value;
      && r.candidateId == d.expectedCandidate && r.runId == d.expectedRun && r.purpose == d.purpose
      && match d.reply
         case Evidence(_, _, _, sandboxId, _, _, _, capturedAt) =>
           && r.sandboxId == sandboxId && Some(r.capturedAt) == capturedAt
           && r.disposition == Finished && !r.retryable
         case AttemptError(_, sandboxId, _, observedAt, disposition, retryable) =>
           && r.sandboxId == sandboxId && r.capturedAt == observedAt && r.disposition == disposition
           && (r.retryable <==> retryable && disposition == FailedDestroyed)
         case OtherError => false
  {}

  /** A session that has not failed fails exactly when some recorded response reports a
      failed cleanup or a retained sandbox, or an identity occurs twice in its history. */
  lemma FailsOnDisposition(env: Env, s: Session, ds: seq<Delivery>, clock: nat -> string)
    requires s.state != Failed && s.failure.None? && WellMarked(s.history) && AllUnmarked(s.history)
    ensures var t, rs := DeliverAll(env, s, ds, clock), RecordedResponses(env, s, ds);
      t.state == Failed <==>
        || (exists i :: 0 <= i < |rs| && (rs[i].disposition == CleanupFailed || rs[i].disposition == FailedRetained))
        || (exists i, j :: 0 <= i < j < |t.history| &&
              (|| t.history[i].response.sandboxId == t.history[j].response.sandboxId
               || t.history[i].response.runId == t.history[j].response.runId))
  {
    var t, rs := DeliverAll(env, s, ds, clock), RecordedResponses(env, s, ds);
    hide WellMarked, AllUnmarked, DeliverAll, RecordedResponses;
    FailsExactly(env, s, ds, clock);
    MarksStayExact(env, s, ds, clock);
    MarksAreExact(t.history);
    assert forall i :: 0 <= i < |t.history| ==> Responses(t.history)[i] == t.history[i].response;
    assert AnyUnconfirmed(rs) <==>
           exists i :: 0 <= i < |rs| && (rs[i].disposition == CleanupFailed || rs[i].disposition == FailedRetained);
  }

  lemma {:induction false} FailureStays(env: Env, s: Session, ds: seq<Delivery>, k: nat, clock: nat -> string)
    requires k <= |ds| && Steady(s) && DeliverAll(env, s, ds[..k], clock).state == Failed
    ensures DeliverAll(env, s, ds, clock).failure == DeliverAll(env, s, ds[..k], clock).failure
    ensures DeliverAll(env, s, ds, clock).state == Failed
    decreases |ds|
  {
    hide Deliver;
    if k == |ds| {
      assert ds[..k] == ds;
    } else {
      var prior := ds[..|ds| - 1];
      assert prior[..k] == ds[..k];
      FailureStays(env, s, prior, k, clock);
      EachRecordedOnce(env, s, prior, clock);
      FailedDelivery(env, DeliverAll(env, s, prior, clock), ds[|ds| - 1], clock(|ds| - 1));
    }
  }

  lemma FailedDelivery(env: Env, s: Session, d: Delivery, at: string)
    requires s.state == Failed && s.failure.Some?
    ensures Deliver(env, s, d, at).state == Failed && Deliver(env, s, d, at).failure == s.failure
  {
    hide ResponseOf, ResponseAccepted, Marked;
  }

  lemma FailingDelivery(env: Env, s: Session, d: Delivery, at: string)
    requires s.state != Failed && s.failure.None? && Recordable(env, s, d)
    ensures var r, t := ResponseOf(s.sessionId, d).value, Deliver(env, s, d, at);
      if r.sandboxId in SandboxIds(s.history) || r.runId in RunIds(s.history)
      then t.state == Failed && t.failure == Some(Failure(IdentityReused, false, None, s.state))
      else if r.disposition == CleanupFailed || r.disposition == FailedRetained
      then t.state == Failed &&
           t.failure == Some(Failure(DeletionUnconfirmed, false, Some("reconcile-and-start-new-session"), s.state))
      else t.state == s.state && t.failure.None?
  {
    hide ResponseOf, ResponseAccepted, SandboxIds, RunIds;
  }

  /** The failure on record is that of the first recorded response that reuses an identity
      or leaves a deletion unconfirmed, whatever replies follow. */
  lemma FirstFailureIsRecorded(env: Env, s: Session, ds: seq<Delivery>, k: nat, clock: nat -> string)
    requires s.state != Failed && s.failure.None? && k < |ds| && Recordable(env, s, ds[k])
    requires DeliverAll(env, s, ds[..k], clock).state != Failed
    ensures var r, before := ResponseOf(s.sessionId, ds[k]).value, DeliverAll(env, s, ds[..k], clock).history;
      var t := DeliverAll(env, s, ds, clock);
      if r.sandboxId in SandboxIds(before) || r.runId in RunIds(before)
      then t.state == Failed && t.failure == Some(Failure(IdentityReused, false, None, s.state))
      else r.disposition == CleanupFailed || r.disposition == FailedRetained ==>
           t.state == Failed &&
           t.failure == Some(Failure(DeletionUnconfirmed, false, Some("reconcile-and-start-new-session"), s.state))
  {
    hide Deliver, Recordable, ResponseOf, SandboxIds, RunIds;
    var u := DeliverAll(env, s, ds[..k], clock);
    EachRecordedOnce(env, s, ds[..k], clock);
    SameIntakeRecords(env, s, u, ds[k]);
    assert ds[..k + 1][..k] == ds[..k] && ds[..k + 1][k] == ds[k];
    FailingDelivery(env, u, ds[k], clock(k));
    if DeliverAll(env, s, ds[..k + 1], clock).state == Failed { FailureStays(env, s, ds, k + 1, clock); }
  }

  // ----- the order of completion

  function MaybeResponse(env: Env, s: Session, d: Delivery): multiset<Response> {
    if Recordable(env, s, d) then multiset{ResponseOf(s.sessionId, d).value} else multiset{}
  }

  function RecordedBag(env: Env, s: Session, ds: seq<Delivery>): multiset<Response> {
    multiset(RecordedResponses(env, s, ds))
  }

  lemma RecordedStep(env: Env, s: Session, ds: seq<Delivery>, d: Delivery)
    ensures RecordedBag(env, s, ds + [d]) == RecordedBag(env, s, ds) + MaybeResponse(env, s, d)
  {
    hide Recordable, ResponseOf;
    assert (ds + [d])[..|ds|] == ds;
  }

  lemma {:induction false} RecordedSplit(env: Env, s: Session, a: seq<Delivery>, d: Delivery, b: seq<Delivery>)
    ensures RecordedBag(env, s, a + [d] + b) == RecordedBag(env, s, a + b) + MaybeResponse(env, s, d)
    decreases |b|
  {
    hide RecordedBag, MaybeResponse;
    if b == [] {
      assert a + [d] + b == a + [d] && a + b == a;
      RecordedStep(env, s, a, d);
    } else {
      var init, last := b[..|b| - 1], b[|b| - 1];
      assert a + [d] + b == a + [d] + init + [last] && a + b == a + init + [last];
      RecordedStep(env, s, a + [d] + init, last);
      RecordedStep(env, s, a + init, last);
      RecordedSplit(env, s, a, d, init);
    }
  }

  lemma CancelOne(x: multiset<Delivery>, y: multiset<Delivery>, d: Delivery)
    requires x + multiset{d} == y + multiset{d}
    ensures x == y
  {
    forall e ensures x[e] == y[e] { assert (x + multiset{d})[e] == (y + multiset{d})[e]; }
  }

  /** Which responses are recorded does not depend on the order of completion. */
  lemma {:induction false} RecordedPermutes(env: Env, s: Session, ds: seq<Delivery>, es: seq<Delivery>)
    requires multiset(ds) == multiset(es)
    ensures RecordedBag(env, s, ds) == RecordedBag(env, s, es)
  {
    hide RecordedBag, MaybeResponse;
    assert es == [] || es[0] in multiset(es);
    if ds != [] {
      var init, d := ds[..|ds| - 1], ds[|ds| - 1];
      assert ds == init + [d];
      assert d in multiset(es);
      var k :| 0 <= k < |es| && es[k] == d;
      var a, b := es[..k], es[k + 1..];
      assert es == a + [d] + b;
      assert multiset(ds) == multiset(init) + multiset{d};
      assert multiset(es) == multiset(a + b) + multiset{d};
      CancelOne(multiset(init), multiset(a + b), d);
      RecordedPermutes(env, s, init, a + b);
      RecordedStep(env, s, init, d);
      RecordedSplit(env, s, a, d, b);
    }
  }

  /** Nor does it matter for the outcome in which order concurrent responses arrive. */
  lemma OrderDoesNotMatter(
      env: Env, s: Session, ds: seq<Delivery>, es: seq<Delivery>, clock: nat -> string, other: nat -> string)
    requires s.state != Failed && s.failure.None? && WellMarked(s.history) && AllUnmarked(s.history)
    requires multiset(ds) == multiset(es)
    ensures var t, u := DeliverAll(env, s, ds, clock), DeliverAll(env, s, es, other);
      && (t.state == Failed <==> u.state == Failed)
      && multiset(Responses(t.history)) == multiset(Responses(u.history))
  {
    hide WellMarked, AllUnmarked, SameIntake, RecordedResponses, DeliverAll, IdentitiesDistinct, AnyUnconfirmed,
         Repeats;
    OutcomeOf(env, s, ds, clock);
    OutcomeOf(env, s, es, other);
    RecordedPermutes(env, s, ds, es);
  }

  /** The outcome in terms of the bag of recorded responses. */
  lemma OutcomeOf(env: Env, s: Session, ds: seq<Delivery>, clock: nat -> string)
    requires s.state != Failed && s.failure.None? && WellMarked(s.history) && AllUnmarked(s.history)
    ensures var t := DeliverAll(env, s, ds, clock);
      && multiset(Responses(t.history)) == multiset(Responses(s.history)) + RecordedBag(env, s, ds)
      && (t.state == Failed <==>
           SomeUnconfirmed(RecordedBag(env, s, ds))
             || Repeats(multiset(Responses(s.history)) + RecordedBag(env, s, ds)))
  {
    hide WellMarked, AllUnmarked, SameIntake, RecordedResponses, DeliverAll, IdentitiesDistinct, Repeats;
    var t := DeliverAll(env, s, ds, clock);
    EachRecordedOnce(env, s, ds, clock);
    FailsExactly(env, s, ds, clock);
    MarksStayExact(env, s, ds, clock);
    MarksAreExact(t.history);
    RepeatsIsNotDistinct(Responses(t.history));
    UnconfirmedBag(RecordedResponses(env, s, ds));
  }

  predicate SomeUnconfirmed(rs: multiset<Response>) { exists r :: r in rs && Unconfirmed(r.disposition) }

  lemma UnconfirmedBag(rs: seq<Response>)
    ensures SomeUnconfirmed(multiset(rs)) <==> AnyUnconfirmed(rs)
  {
    if AnyUnconfirmed(rs) {
      var i :| 0 <= i < |rs| && Unconfirmed(rs[i].disposition);
      assert rs[i] in multiset(rs);
    }
  }
}
