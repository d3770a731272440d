/** Which logs are accepted, stated without the verifier's running state: a condition
    on each event that refers to the events before it. */
module LogMeaning {
  import opened Options
  import opened EventChain

  ghost predicate StartsCandidate(e: Event, candidate: string, sandbox: string) {
    && KindOf(e.eventType) == ValidationStarted
    && CandidateOf(e) == Some(candidate) && SandboxOf(e) == Some(sandbox)
  }

  ghost predicate CompletesCandidate(e: Event, candidate: string, eligible: bool) {
    && KindOf(e.eventType) == ValidationCompleted
    && CandidateOf(e) == Some(candidate) && EligibleOf(e) == Some(eligible)
  }

  /** Candidate `candidate` was started in `sandbox` somewhere in the log. */
  ghost predicate StartedIn(events: seq<Event>, candidate: string, sandbox: string) {
    exists j :: 0 <= j < |events| && StartsCandidate(events[j], candidate, sandbox)
  }

  ghost predicate CompletedAs(events: seq<Event>, candidate: string, eligible: bool) {
    exists j :: 0 <= j < |events| && CompletesCandidate(events[j], candidate, eligible)
  }

  function CountKind(events: seq<Event>, kind: Kind): nat {
    if events == [] then 0
    else CountKind(events[..|events| - 1], kind) + if KindOf(events[|events| - 1].eventType) == kind then 1 else 0
  }

  /** `e` may follow the log `before`. */
  ghost predicate MayFollow(hash: string -> string, before: seq<Event>, e: Event) {
    && e.schemaVersion == 1 && e.sequence == |before| + 1
    && (before != [] ==> e.sessionId == before[0].sessionId)
    && LocalTest(e.provenance)
    && e.previousEventHash == (if before == [] then None else Some(before[|before| - 1].eventHash))
    && e.eventHash == Digest(hash, e)
    && CountKind(before, TournamentCompleted) == 0 && CountKind(before, TournamentFailed) == 0
    && Fits(before, e)
  }

  /** What the type of the event asks of the log. */
  ghost predicate Fits(before: seq<Event>, e: Event) {
    var candidate, sandbox := CandidateOf(e), SandboxOf(e);
    match KindOf(e.eventType)
    case TournamentStarted => before == [] && DeclaresThree(e)
    case ValidationStarted =>
      && before != [] && candidate.Some? && sandbox.Some? && CountKind(before, ValidationStarted) < 3
      && (forall s :: !StartedIn(before, candidate.value, s))
      && (forall c :: !StartedIn(before, c, sandbox.value))
    case CommandCompleted =>
      && candidate.Some? && sandbox.Some? && CommandOf(e).Some?
      && StartedIn(before, candidate.value, sandbox.value)
    case ValidationCompleted =>
      && candidate.Some? && sandbox.Some? && EligibleOf(e).Some?
      && StartedIn(before, candidate.value, sandbox.value)
      && (forall flag :: !CompletedAs(before, candidate.value, flag))
    case TournamentCompleted =>
      var winner := WinnerOf(e);
      && winner.Some? && CountKind(before, ValidationStarted) == 3 && CountKind(before, ValidationCompleted) == 3
      && CompletedAs(before, winner.value, true)
    case TournamentFailed => before != []
    case Unsupported => false
  }

  /** The verifier's state records exactly what the log contains. */
  ghost predicate Records(c: Chain, events: seq<Event>) {
    && c.count == |events|
    && c.last == (if events == [] then None else Some(events[|events| - 1].eventHash))
    && c.session == (if events == [] then None else Some(events[0].sessionId))
    && (c.declared <==> events != [])
    && (c.terminal <==> CountKind(events, TournamentCompleted) + CountKind(events, TournamentFailed) > 0)
    && RecordsCandidates(c, events)
  }

  ghost predicate RecordsCandidates(c: Chain, events: seq<Event>) {
    && |c.started| == CountKind(events, ValidationStarted)
    && |c.completed| == CountKind(events, ValidationCompleted)
    && (forall k, s :: StartedIn(events, k, s) <==> k in c.started && c.started[k] == s)
    && (forall k, flag :: CompletedAs(events, k, flag) <==> k in c.completed && c.completed[k] == flag)
  }

  lemma StartedInExtends(events: seq<Event>, e: Event, k: string, s: string)
    ensures StartedIn(events + [e], k, s) <==> StartedIn(events, k, s) || StartsCandidate(e, k, s)
  {
    hide StartsCandidate;
    var all := events + [e];
    assert all[|events|] == e;
    if StartedIn(events, k, s) {
      var j :| 0 <= j < |events| && StartsCandidate(events[j], k, s);
      assert all[j] == events[j];
    }
  }

  lemma CompletedAsExtends(events: seq<Event>, e: Event, k: string, flag: bool)
    ensures CompletedAs(events + [e], k, flag) <==> CompletedAs(events, k, flag) || CompletesCandidate(e, k, flag)
  {
    hide CompletesCandidate;
    var all := events + [e];
    assert all[|events|] == e;
    if CompletedAs(events, k, flag) {
      var j :| 0 <= j < |events| && CompletesCandidate(events[j], k, flag);
      assert all[j] == events[j];
    }
  }

  lemma CountExtends(events: seq<Event>, e: Event, kind: Kind)
    ensures CountKind(events + [e], kind) == CountKind(events, kind) + if KindOf(e.eventType) == kind then 1 else 0
  {
    assert (events + [e])[..|events|] == events;
  }

  lemma StartMeans(hash: string -> string, c: Chain, events: seq<Event>, e: Event)
    requires Records(c, events) && c.sandboxes == c.started.Values && KindOf(e.eventType) == ValidationStarted
    ensures Step(hash, c, e).Some? <==> MayFollow(hash, events, e)
  {
    hide KindOf, CandidateOf, SandboxOf, CommandOf, WinnerOf, EligibleOf, DeclaresThree, LocalTest, Digest, StartedIn,
         CompletedAs;
    var candidate, sandbox := CandidateOf(e), SandboxOf(e);
    if candidate.Some? && sandbox.Some? {
      if candidate.value in c.started {
        assert StartedIn(events, candidate.value, c.started[candidate.value]);
      }
      if sandbox.value in c.sandboxes {
        var k :| k in c.started && c.started[k] == sandbox.value;
        assert StartedIn(events, k, sandbox.value);
      }
    }
  }

  lemma CompletionMeans(hash: string -> string, c: Chain, events: seq<Event>, e: Event)
    requires Records(c, events) && KindOf(e.eventType) == ValidationCompleted
    ensures Step(hash, c, e).Some? <==> MayFollow(hash, events, e)
  {
    hide KindOf, CandidateOf, SandboxOf, CommandOf, WinnerOf, EligibleOf, DeclaresThree, LocalTest, Digest, StartedIn,
         CompletedAs;
    var candidate := CandidateOf(e);
    if candidate.Some? && candidate.value in c.completed {
      assert CompletedAs(events, candidate.value, c.completed[candidate.value]);
    }
  }

  lemma StepMeans(hash: string -> string, c: Chain, events: seq<Event>, e: Event)
    requires Records(c, events) && c.sandboxes == c.started.Values
    ensures Step(hash, c, e).Some? <==> MayFollow(hash, events, e)
  {
    hide KindOf, CandidateOf, SandboxOf, CommandOf, WinnerOf, EligibleOf, DeclaresThree, LocalTest, Digest, StartedIn,
         CompletedAs;
    if KindOf(e.eventType) == ValidationStarted {
      StartMeans(hash, c, events, e);
    } else if KindOf(e.eventType) == ValidationCompleted {
      CompletionMeans(hash, c, events, e);
    } else {
      OtherStepMeans(hash, c, events, e);
    }
  }

  lemma OtherStepMeans(hash: string -> string, c: Chain, events: seq<Event>, e: Event)
    requires Records(c, events) && KindOf(e.eventType) !in {ValidationStarted, ValidationCompleted}
    ensures Step(hash, c, e).Some? <==> MayFollow(hash, events, e)
  {
    hide KindOf, CandidateOf, SandboxOf, CommandOf, WinnerOf, EligibleOf, DeclaresThree, LocalTest, Digest, StartedIn,
         CompletedAs;
  }

  lemma StepRecords(hash: string -> string, c: Chain, events: seq<Event>, e: Event)
    requires Records(c, events) && Step(hash, c, e).Some?
    ensures Records(Step(hash, c, e).value, events + [e])
  {
    assert events == [] ==> c.started == map[];
    hide Step, KindOf, LocalTest, Digest, RecordsCandidates, CountKind;
    CountExtends(events, e, TournamentCompleted);
    CountExtends(events, e, TournamentFailed);
    StepRecordsCandidates(hash, c, events, e);
    StepFacts(hash, c, e);
  }

  lemma StepRecordsCandidates(hash: string -> string, c: Chain, events: seq<Event>, e: Event)
    requires RecordsCandidates(c, events) && Step(hash, c, e).Some?
    ensures RecordsCandidates(Step(hash, c, e).value, events + [e])
  {
    hide Step, KindOf, StartedIn, CompletedAs, CountKind, StartsCandidate, CompletesCandidate;
    var after := Step(hash, c, e).value;
    StepSizes(hash, c, e);
    CountExtends(events, e, ValidationStarted);
    CountExtends(events, e, ValidationCompleted);
    forall k, s ensures StartedIn(events + [e], k, s) <==> k in after.started && after.started[k] == s {
      StartedInExtends(events, e, k, s);
      StepChanges(hash, c, e, k, s, true);
    }
    forall k, flag ensures CompletedAs(events + [e], k, flag) <==> k in after.completed && after.completed[k] == flag {
      CompletedAsExtends(events, e, k, flag);
      StepChanges(hash, c, e, k, "", flag);
    }
  }

  /** The entries of the candidate maps after one accepted step. */
  lemma StepChanges(hash: string -> string, c: Chain, e: Event, k: string, s: string, flag: bool)
    requires Step(hash, c, e).Some?
    ensures var after := Step(hash, c, e).value;
      && (k in after.started && after.started[k] == s <==>
           (k in c.started && c.started[k] == s) || StartsCandidate(e, k, s))
      && (k in after.completed && after.completed[k] == flag <==>
           (k in c.completed && c.completed[k] == flag) || CompletesCandidate(e, k, flag))
  {
    hide Linked, KindOf, CandidateOf, SandboxOf, CommandOf, WinnerOf, EligibleOf, DeclaresThree;
  }

  lemma StepSizes(hash: string -> string, c: Chain, e: Event)
    requires Step(hash, c, e).Some?
    ensures var after := Step(hash, c, e).value;
      && |after.started| == |c.started| + (if KindOf(e.eventType) == ValidationStarted then 1 else 0)
      && |after.completed| == |c.completed| + (if KindOf(e.eventType) == ValidationCompleted then 1 else 0)
  {
    hide Linked, KindOf, CandidateOf, SandboxOf, CommandOf, WinnerOf, EligibleOf, DeclaresThree;
  }

  lemma EmptyRecords()
    ensures Records(EMPTY_CHAIN, [])
  {}

  lemma {:induction false} VerifierRecords(hash: string -> string, events: seq<Event>)
    requires Accepted(hash, events)
    ensures Records(Verify(hash, events).value, events)
  {
    hide Step, Records;
    if events == [] {
      EmptyRecords();
    } else {
      var prior, e := events[..|events| - 1], events[|events| - 1];
      VerifierRecords(hash, prior);
      StepRecords(hash, Verify(hash, prior).value, prior, e);
      assert events == prior + [e];
    }
  }

  ghost predicate FollowsAt(hash: string -> string, events: seq<Event>, i: nat)
    requires i < |events|
  {
    MayFollow(hash, events[..i], events[i])
  }

  lemma FollowsAtPrefix(hash: string -> string, prior: seq<Event>, e: Event, i: nat)
    requires i < |prior|
    ensures FollowsAt(hash, prior + [e], i) <==> FollowsAt(hash, prior, i)
  {
    assert (prior + [e])[..i] == prior[..i];
  }

  /** A log is accepted exactly when each of its events may follow those before it. */
  lemma {:induction false} AcceptedMeans(hash: string -> string, events: seq<Event>)
    ensures Accepted(hash, events) <==> forall i :: 0 <= i < |events| ==> FollowsAt(hash, events, i)
  {
    if events != [] {
      var n := |events| - 1;
      var prior, e := events[..n], events[n];
      assert events == prior + [e];
      AcceptedMeans(hash, prior);
      LastEventMeans(hash, prior, e);
      forall i | 0 <= i < n ensures FollowsAt(hash, events, i) <==> FollowsAt(hash, prior, i) {
        FollowsAtPrefix(hash, prior, e, i);
      }
      if Accepted(hash, events) {
        forall i | 0 <= i < |events| ensures FollowsAt(hash, events, i) { assert i < n ==> FollowsAt(hash, prior, i); }
      } else if forall i :: 0 <= i < |events| ==> FollowsAt(hash, events, i) {
        assert FollowsAt(hash, events, n);
        forall i | 0 <= i < n ensures FollowsAt(hash, prior, i) { assert FollowsAt(hash, events, i); }
      }
    }
  }

  lemma LastEventMeans(hash: string -> string, prior: seq<Event>, e: Event)
    ensures Accepted(hash, prior + [e]) <==> Accepted(hash, prior) && FollowsAt(hash, prior + [e], |prior|)
  {
    VerifyExtend(hash, prior, e);
    assert (prior + [e])[..|prior|] == prior;
    if Accepted(hash, prior) {
      VerifierRecords(hash, prior);
      AcceptedIsSound(hash, prior);
      StepMeans(hash, Verify(hash, prior).value, prior, e);
    }
  }
}
