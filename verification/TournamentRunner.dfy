/** The local tournament as a protocol over its log: which events it emits in which
    order, and that the log accepts all of them but one. */
module TournamentRunner {
  import opened Options
  import opened JsonText
  import opened EventChain
  import opened EventStore

  /** Three candidates, each with the sandbox directory made for it. */
  datatype Tournament = Tournament(sessionId: string, ids: seq<string>, sandboxes: seq<string>)

  predicate Proper(t: Tournament) {
    && |t.ids| == 3 && |t.sandboxes| == 3
    && t.ids[0] != t.ids[1] && t.ids[0] != t.ids[2] && t.ids[1] != t.ids[2]
  }

  /** What happens in a run after the start of the tournament was logged. */
  datatype Action =
    | Begin(candidate: nat)
    | Command(candidate: nat)
    | Conclude(candidate: nat, eligible: bool)
    | Decide(winner: Option<nat>)
    | Abort

  datatype Runner = Runner(begun: set<nat>, concluded: map<nat, bool>, over: bool)

  const AT_START := Runner({}, map[], false)

  /** The order the runner keeps, whatever the interleaving: candidates begin and run
      commands independently; conclusions wait for all three; the decision waits for
      all conclusions and names an eligible candidate or none; an abort may come at any
      time before the end. A sandbox directory that exists already cannot be made. */
  function Next(t: Tournament, r: Runner, a: Action): Option<Runner> {
    if r.over then None
    else
      match a
      case Begin(i) =>
        if i < 3 && i < |t.sandboxes| && i !in r.begun && r.concluded == map[]
           && (forall j :: j in r.begun && j < |t.sandboxes| ==> t.sandboxes[j] != t.sandboxes[i])
        then Some(r.(begun := r.begun + {i})) else None
      case Command(i) => if i in r.begun && r.concluded == map[] then Some(r) else None
      case Conclude(i, eligible) =>
        if r.begun == {0, 1, 2} && i in r.begun && i !in r.concluded
          then Some(r.(concluded := r.concluded[i := eligible])) else None
      case Decide(None) =>
        if r.concluded.Keys == {0, 1, 2} && (forall i :: i in r.concluded ==> !r.concluded[i]) then Some(r) else None
      case Decide(Some(w)) =>
        if r.concluded.Keys == {0, 1, 2} && w in r.concluded && r.concluded[w] then Some(r.(over := true)) else None
      case Abort => Some(r.(over := true))
  }

  /** An action together with the event it asks the log to append. */
  datatype Emission = Emission(action: Action, draft: Draft)

  function Unlinked(d: Draft): Event { Unsigned([], d) }

  /** The event says what happened; its other payload members do not matter. */
  predicate Carries(t: Tournament, a: Action, d: Draft)
    requires Proper(t)
  {
    && d.sessionId == t.sessionId && d.provenance.None?
    && var e := Unlinked(d);
    match a
    case Begin(i) =>
      KindOf(d.eventType) == ValidationStarted && i < 3 && CandidateOf(e) == Some(t.ids[i])
        && SandboxOf(e) == Some(t.sandboxes[i])
    case Command(i) =>
      && KindOf(d.eventType) == CommandCompleted && i < 3 && CandidateOf(e) == Some(t.ids[i])
      && SandboxOf(e) == Some(t.sandboxes[i])
      && CommandOf(e).Some?
    case Conclude(i, eligible) =>
      && KindOf(d.eventType) == ValidationCompleted && i < 3 && CandidateOf(e) == Some(t.ids[i])
      && SandboxOf(e) == Some(t.sandboxes[i])
      && EligibleOf(e) == Some(eligible)
    case Decide(None) => KindOf(d.eventType) == TournamentCompleted && WinnerOf(e).None?
    case Decide(Some(w)) => KindOf(d.eventType) == TournamentCompleted && w < 3 && WinnerOf(e) == Some(t.ids[w])
    case Abort => KindOf(d.eventType) == TournamentFailed
  }

  predicate Opens(t: Tournament, d: Draft) {
    d.sessionId == t.sessionId && d.provenance.None? && KindOf(d.eventType) == TournamentStarted
      && DeclaresThree(Unlinked(d))
  }

  /** The runner after a list of actions, or None where it does not act so. */
  function RunnerAfter(t: Tournament, emissions: seq<Emission>): Option<Runner> {
    if emissions == [] then Some(AT_START)
    else
      match RunnerAfter(t, emissions[..|emissions| - 1])
      case None => None
      case Some(r) => Next(t, r, emissions[|emissions| - 1].action)
  }

  ghost predicate AllCarry(t: Tournament, emissions: seq<Emission>)
    requires Proper(t)
  {
    forall i :: 0 <= i < |emissions| ==> Carries(t, emissions[i].action, emissions[i].draft)
  }

  predicate Rejected(a: Action) { a == Decide(None) }

  /** The log a run leaves: everything but a decision without a winner. */
  function LogAfter(hash: string -> string, start: Draft, emissions: seq<Emission>): seq<Event> {
    if emissions == [] then [Stamped(hash, [], start)]
    else
      var log := LogAfter(hash, start, emissions[..|emissions| - 1]);
      var last := emissions[|emissions| - 1];
      if Rejected(last.action) then log else log + [Stamped(hash, log, last.draft)]
  }

  // ----- the verifier follows the runner

  ghost predicate Follows(t: Tournament, r: Runner, c: Chain)
    requires Proper(t)
  {
    && c.declared && (c.terminal <==> r.over) && c.session == Some(t.sessionId)
    && r.begun <= {0, 1, 2} && r.concluded.Keys <= r.begun
    && |c.started| == |r.begun| && |c.completed| == |r.concluded|
    && (forall i :: 0 <= i < 3 ==> BegunAgrees(t, r, c, i) && ConcludedAgrees(t, r, c, i))
    && (forall s :: s in c.sandboxes ==> exists i :: i in r.begun && s == t.sandboxes[i])
  }

  predicate BegunAgrees(t: Tournament, r: Runner, c: Chain, i: nat)
    requires Proper(t) && i < 3
  {
    (i in r.begun <==> t.ids[i] in c.started) && (i in r.begun ==> c.started[t.ids[i]] == t.sandboxes[i])
  }

  predicate ConcludedAgrees(t: Tournament, r: Runner, c: Chain, i: nat)
    requires Proper(t) && i < 3
  {
    (i in r.concluded <==> t.ids[i] in c.completed) && (i in r.concluded ==> c.completed[t.ids[i]] == r.concluded[i])
  }

  lemma IdsDiffer(t: Tournament, i: nat, j: nat)
    requires Proper(t) && i < 3 && j < 3 && i != j
    ensures t.ids[i] != t.ids[j]
  {}

  /** An event stamped after an accepted log is linked to it. */
  lemma StampedIsLinked(hash: string -> string, log: seq<Event>, d: Draft)
    requires Accepted(hash, log) && d.provenance.None?
    requires log == [] || Verify(hash, log).value.session == Some(d.sessionId)
    requires !Verify(hash, log).value.terminal
    ensures Linked(hash, Verify(hash, log).value, Stamped(hash, log, d))
  {
    AcceptedIsSound(hash, log);
    LocalProvenance();
    hide Verify, KindOf, LocalTest, SoundMaps, Digest;
    SameDigest(hash, Unsigned(log, d));
  }

  lemma LocalProvenance()
    ensures LocalTest(LOCAL_TEST_PROVENANCE)
  {}

  lemma SameDigest(hash: string -> string, e: Event)
    ensures Digest(hash, e.(eventHash := Digest(hash, e))) == Digest(hash, e)
  {
    var d := e.(eventHash := Digest(hash, e));
    assert UnsignedMembers(d) == UnsignedMembers(e);
  }

  /** Stamping changes none of the fields the verifier reads from the payload. */
  lemma StampedReads(hash: string -> string, log: seq<Event>, d: Draft)
    ensures var e := Stamped(hash, log, d);
      && e.eventType == d.eventType && CandidateOf(e) == CandidateOf(Unlinked(d))
      && SandboxOf(e) == SandboxOf(Unlinked(d))
      && CommandOf(e) == CommandOf(Unlinked(d)) && WinnerOf(e) == WinnerOf(Unlinked(d))
      && EligibleOf(e) == EligibleOf(Unlinked(d))
      && (DeclaresThree(e) <==> DeclaresThree(Unlinked(d))) && e.sessionId == d.sessionId
  {
    hide RequiredText, Field, Digest;
  }

  lemma FirstStep(hash: string -> string, t: Tournament, start: Draft)
    requires Proper(t) && Opens(t, start)
    ensures Accepted(hash, LogAfter(hash, start, []))
    ensures Follows(t, AT_START, Verify(hash, LogAfter(hash, start, [])).value)
  {
    hide KindOf, CandidateOf, SandboxOf, CommandOf, WinnerOf, EligibleOf, DeclaresThree, LocalTest, Digest;
    StampedIsLinked(hash, [], start);
    StampedReads(hash, [], start);
    VerifyExtend(hash, [], Stamped(hash, [], start));
    assert [] + [Stamped(hash, [], start)] == [Stamped(hash, [], start)];
  }

  lemma BeginStep(hash: string -> string, c: Chain, e: Event, k: string, s: string)
    requires Linked(hash, c, e) && KindOf(e.eventType) == ValidationStarted && CandidateOf(e) == Some(k)
    requires SandboxOf(e) == Some(s)
    requires c.declared && k !in c.started && s !in c.sandboxes && |c.started| < 3
    ensures Step(hash, c, e) == Some(c.(count := c.count + 1, last := Some(e.eventHash), session := Some(e.sessionId),
                                       started := c.started[k := s], sandboxes := c.sandboxes + {s}))
  {
    hide KindOf, CandidateOf, SandboxOf, CommandOf, WinnerOf, EligibleOf, DeclaresThree, Linked;
  }

  lemma BeginFollows(hash: string -> string, t: Tournament, r: Runner, c: Chain, i: nat, e: Event)
    requires Proper(t) && Follows(t, r, c) && Linked(hash, c, e) && Next(t, r, Begin(i)).Some?
    requires KindOf(e.eventType) == ValidationStarted && CandidateOf(e) == Some(t.ids[i])
    requires SandboxOf(e) == Some(t.sandboxes[i])
    requires e.sessionId == t.sessionId
    ensures Step(hash, c, e).Some? && Follows(t, Next(t, r, Begin(i)).value, Step(hash, c, e).value)
  {
    hide KindOf, CandidateOf, SandboxOf, CommandOf, WinnerOf, EligibleOf, DeclaresThree, Linked, Step;
    FewerThanThree(r.begun, i);
    assert BegunAgrees(t, r, c, i);
    assert t.sandboxes[i] !in c.sandboxes;
    BeginStep(hash, c, e, t.ids[i], t.sandboxes[i]);
    BegunFollows(t, r, c, i, Step(hash, c, e).value);
  }

  lemma BegunFollows(t: Tournament, r: Runner, c: Chain, i: nat, d: Chain)
    requires Proper(t) && Follows(t, r, c) && i < 3 && i !in r.begun && !r.over && r.concluded == map[]
    requires d.declared && d.terminal == c.terminal && d.session == Some(t.sessionId) && d.completed == c.completed
    requires t.ids[i] !in c.started && d.started == c.started[t.ids[i] := t.sandboxes[i]]
    requires d.sandboxes == c.sandboxes + {t.sandboxes[i]}
    ensures Follows(t, r.(begun := r.begun + {i}), d)
  {
    hide BegunAgrees, ConcludedAgrees;
    var next := r.(begun := r.begun + {i});
    forall j | 0 <= j < 3 ensures BegunAgrees(t, next, d, j) && ConcludedAgrees(t, next, d, j) {
      BegunAt(t, r, c, i, d, j);
    }
    assert i in next.begun;
  }

  lemma BegunAt(t: Tournament, r: Runner, c: Chain, i: nat, d: Chain, j: nat)
    requires Proper(t) && i < 3 && j < 3 && BegunAgrees(t, r, c, j) && ConcludedAgrees(t, r, c, j)
    requires d.started == c.started[t.ids[i] := t.sandboxes[i]] && d.completed == c.completed
    ensures BegunAgrees(t, r.(begun := r.begun + {i}), d, j) && ConcludedAgrees(t, r.(begun := r.begun + {i}), d, j)
  {
    if i != j { IdsDiffer(t, i, j); }
  }

  lemma FewerThanThree(s: set<nat>, i: nat)
    requires s <= {0, 1, 2} && i in {0, 1, 2} && i !in s
    ensures |s| < 3 && |s + {i}| == |s| + 1
  {
    Subset(s + {i}, {0, 1, 2});
  }

  lemma {:induction false} Subset(a: set<nat>, b: set<nat>)
    requires a <= b
    ensures |a| <= |b|
  {
    assert b == a + (b - a);
  }

  lemma CommandFollows(hash: string -> string, t: Tournament, r: Runner, c: Chain, i: nat, e: Event)
    requires Proper(t) && Follows(t, r, c) && Linked(hash, c, e) && Next(t, r, Command(i)).Some?
    requires KindOf(e.eventType) == CommandCompleted && i < 3 && CandidateOf(e) == Some(t.ids[i])
    requires SandboxOf(e) == Some(t.sandboxes[i])
    requires CommandOf(e).Some? && e.sessionId == t.sessionId
    ensures Step(hash, c, e).Some? && Follows(t, Next(t, r, Command(i)).value, Step(hash, c, e).value)
  {
    hide KindOf, CandidateOf, SandboxOf, CommandOf, WinnerOf, EligibleOf, DeclaresThree, Linked;
    assert BegunAgrees(t, r, c, i);
    var d := Step(hash, c, e).value;
    forall j | 0 <= j < 3 ensures BegunAgrees(t, r, d, j) && ConcludedAgrees(t, r, d, j) {
      assert BegunAgrees(t, r, c, j) && ConcludedAgrees(t, r, c, j);
    }
  }

  lemma ConcludeFollows(hash: string -> string, t: Tournament, r: Runner, c: Chain, i: nat, eligible: bool, e: Event)
    requires Proper(t) && Follows(t, r, c) && Linked(hash, c, e) && Next(t, r, Conclude(i, eligible)).Some?
    requires KindOf(e.eventType) == ValidationCompleted && i < 3 && CandidateOf(e) == Some(t.ids[i])
    requires SandboxOf(e) == Some(t.sandboxes[i])
    requires EligibleOf(e) == Some(eligible) && e.sessionId == t.sessionId
    ensures Step(hash, c, e).Some? && Follows(t, Next(t, r, Conclude(i, eligible)).value, Step(hash, c, e).value)
  {
    hide KindOf, CandidateOf, SandboxOf, CommandOf, WinnerOf, EligibleOf, DeclaresThree, Linked;
    var next := Next(t, r, Conclude(i, eligible)).value;
    assert BegunAgrees(t, r, c, i) && ConcludedAgrees(t, r, c, i);
    var d := Step(hash, c, e).value;
    forall j | 0 <= j < 3 ensures BegunAgrees(t, next, d, j) && ConcludedAgrees(t, next, d, j) {
      assert BegunAgrees(t, r, c, j) && ConcludedAgrees(t, r, c, j);
      if i != j { IdsDiffer(t, i, j); }
    }
  }

  /** A decision closes the log when it names an eligible candidate and is rejected when
      it names none. */
  lemma DecideFollows(hash: string -> string, t: Tournament, r: Runner, c: Chain, winner: Option<nat>, e: Event)
    requires Proper(t) && Follows(t, r, c) && Linked(hash, c, e) && Next(t, r, Decide(winner)).Some?
    requires KindOf(e.eventType) == TournamentCompleted && e.sessionId == t.sessionId
    requires if winner.None? then WinnerOf(e).None? else winner.value < 3 && WinnerOf(e) == Some(t.ids[winner.value])
    ensures Step(hash, c, e).Some? <==> winner.Some?
    ensures winner.Some? ==> Follows(t, Next(t, r, Decide(winner)).value, Step(hash, c, e).value)
  {
    hide KindOf, CandidateOf, SandboxOf, CommandOf, WinnerOf, EligibleOf, DeclaresThree, Linked;
    if winner.Some? {
      assert ConcludedAgrees(t, r, c, winner.value);
      assert |r.concluded| == |r.concluded.Keys| == 3;
      Subset({0, 1, 2}, r.begun);
      Subset(r.begun, {0, 1, 2});
      assert |r.begun| == 3;
      var d, next := Step(hash, c, e).value, Next(t, r, Decide(winner)).value;
      forall j | 0 <= j < 3 ensures BegunAgrees(t, next, d, j) && ConcludedAgrees(t, next, d, j) {
        assert BegunAgrees(t, r, c, j) && ConcludedAgrees(t, r, c, j);
      }
    }
  }

  lemma AbortFollows(hash: string -> string, t: Tournament, r: Runner, c: Chain, e: Event)
    requires Proper(t) && Follows(t, r, c) && Linked(hash, c, e) && Next(t, r, Abort).Some?
    requires KindOf(e.eventType) == TournamentFailed && e.sessionId == t.sessionId
    ensures Step(hash, c, e).Some? && Follows(t, Next(t, r, Abort).value, Step(hash, c, e).value)
  {
    hide KindOf, CandidateOf, SandboxOf, CommandOf, WinnerOf, EligibleOf, DeclaresThree, Linked;
    var d, next := Step(hash, c, e).value, Next(t, r, Abort).value;
    forall j | 0 <= j < 3 ensures BegunAgrees(t, next, d, j) && ConcludedAgrees(t, next, d, j) {
      assert BegunAgrees(t, r, c, j) && ConcludedAgrees(t, r, c, j);
    }
  }

  /** One emission of the runner: the log accepts it unless it decides for nobody. */
  lemma EmissionFollows(hash: string -> string, t: Tournament, r: Runner, log: seq<Event>, a: Action, d: Draft)
    requires Proper(t) && Accepted(hash, log) && log != [] && Follows(t, r, Verify(hash, log).value)
    requires Next(t, r, a).Some? && Carries(t, a, d)
    ensures var all := log + [Stamped(hash, log, d)];
      && (Accepted(hash, all) <==> !Rejected(a))
      && (!Rejected(a) ==> Follows(t, Next(t, r, a).value, Verify(hash, all).value))
      && (Rejected(a) ==> Next(t, r, a).value == r)
  {
    hide KindOf, CandidateOf, SandboxOf, CommandOf, WinnerOf, EligibleOf, DeclaresThree, Linked, Verify, Step,
         BegunAgrees, ConcludedAgrees, Stamped;
    var c, e := Verify(hash, log).value, Stamped(hash, log, d);
    StampedReads(hash, log, d);
    StampedIsLinked(hash, log, d);
    VerifyExtend(hash, log, e);
    match a
    case Begin(i) => BeginFollows(hash, t, r, c, i, e);
    case Command(i) => CommandFollows(hash, t, r, c, i, e);
    case Conclude(i, eligible) => ConcludeFollows(hash, t, r, c, i, eligible, e);
    case Decide(winner) => DecideFollows(hash, t, r, c, winner, e);
    case Abort => AbortFollows(hash, t, r, c, e);
  }

  /** Whatever the interleaving, the log of a run is accepted, and the verifier's state
      is the runner's. */
  lemma {:induction false} RunIsAccepted(hash: string -> string, t: Tournament, start: Draft, emissions: seq<Emission>)
    requires Proper(t) && Opens(t, start) && AllCarry(t, emissions) && RunnerAfter(t, emissions).Some?
    ensures var log := LogAfter(hash, start, emissions);
      log != [] && Accepted(hash, log) && Follows(t, RunnerAfter(t, emissions).value, Verify(hash, log).value)
  {
    hide Verify, Follows, Carries, Opens, Stamped, Next;
    if emissions == [] {
      FirstStep(hash, t, start);
    } else {
      var prior, last := emissions[..|emissions| - 1], emissions[|emissions| - 1];
      RunIsAccepted(hash, t, start, prior);
      EmissionFollows(hash, t, RunnerAfter(t, prior).value, LogAfter(hash, start, prior), last.action, last.draft);
    }
  }

  /** Every prefix of the log is accepted too, and a run that is over has logged exactly
      one terminal event, its last one. */
  lemma RunEndsOnce(hash: string -> string, t: Tournament, start: Draft, emissions: seq<Emission>)
    requires Proper(t) && Opens(t, start) && AllCarry(t, emissions) && RunnerAfter(t, emissions).Some?
    ensures var log, r := LogAfter(hash, start, emissions), RunnerAfter(t, emissions).value;
      && (forall n :: 0 <= n <= |log| ==> Accepted(hash, log[..n]))
      && (forall i :: 0 <= i < |log| ==> (IsTerminal(log[i]) <==> r.over && i == |log| - 1))
  {
    hide Verify, KindOf, RunnerAfter, LogAfter, Opens, SoundMaps;
    RunIsAccepted(hash, t, start, emissions);
    var log := LogAfter(hash, start, emissions);
    AcceptedShape(hash, log);
    AcceptedIsSound(hash, log);
    forall i | 0 <= i < |log| ensures IsTerminal(log[i]) <==> RunnerAfter(t, emissions).value.over && i == |log| - 1 {
      assert i < |log| - 1 ==> KindOf(log[i].eventType) !in {TournamentCompleted, TournamentFailed};
    }
  }

  predicate IsTerminal(e: Event) {
    KindOf(e.eventType) == TournamentCompleted || KindOf(e.eventType) == TournamentFailed
  }

  /** A run that is not over can always be closed by logging the failure, also after a
      rejected decision. */
  lemma AbortIsAccepted(hash: string -> string, t: Tournament, start: Draft, emissions: seq<Emission>, failure: Draft)
    requires Proper(t) && Opens(t, start) && AllCarry(t, emissions) && RunnerAfter(t, emissions).Some?
    requires !RunnerAfter(t, emissions).value.over && Carries(t, Abort, failure)
    ensures Accepted(hash,
                     LogAfter(hash, start, emissions) + [Stamped(hash, LogAfter(hash, start, emissions), failure)])
  {
    hide Verify, RunnerAfter, LogAfter, Opens, Follows, Carries, Stamped;
    RunIsAccepted(hash, t, start, emissions);
    EmissionFollows(hash, t, RunnerAfter(t, emissions).value, LogAfter(hash, start, emissions), Abort, failure);
  }

  /** Runs the tournament's appends against a store in the order in which the queue
      serves them; `refused` counts the rejected ones. */
  method RunLocalTournament(store: JsonlEventStore, t: Tournament, start: Draft, emissions: seq<Emission>)
    returns (refused: nat)
    requires store.Valid() && store.log == []
    requires Proper(t) && Opens(t, start) && AllCarry(t, emissions) && RunnerAfter(t, emissions).Some?
    requires store.checks.isTime(start.occurredAt)
    requires forall i :: 0 <= i < |emissions| ==> store.checks.isTime(emissions[i].draft.occurredAt)
    modifies store
    ensures store.Valid() && store.log == LogAfter(store.checks.hash, start, emissions)
    ensures AllReadable(store.checks, store.log)
    ensures refused == CountRejected(emissions)
  {
    hide AllCarry, RunnerAfter, Carries, Opens, Verify, Stamped, Readable, Next, Follows, FileText;
    FirstAccepted(store.checks.hash, t, start);
    var first := store.Append(start);
    refused := 0;
    assert emissions[..0] == [];
    for i := 0 to |emissions|
      invariant store.Valid() && store.log == LogAfter(store.checks.hash, start, emissions[..i])
      invariant AllReadable(store.checks, store.log)
      invariant refused == CountRejected(emissions[..i])
    {
      assert emissions[..i + 1][..i] == emissions[..i] && emissions[..i + 1][i] == emissions[i];
      NextEmission(store.checks.hash, t, start, emissions, i);
      var event := store.Append(emissions[i].draft);
      if event.None? { refused := refused + 1; }
    }
    assert emissions[..|emissions|] == emissions;
  }

  function CountRejected(emissions: seq<Emission>): nat {
    if emissions == [] then 0
    else CountRejected(emissions[..|emissions| - 1]) + if Rejected(emissions[|emissions| - 1].action) then 1 else 0
  }

  lemma FirstAccepted(hash: string -> string, t: Tournament, start: Draft)
    requires Proper(t) && Opens(t, start)
    ensures Accepted(hash, [] + [Stamped(hash, [], start)])
  {
    hide Verify, Opens, Follows, Stamped;
    FirstStep(hash, t, start);
    assert [] + [Stamped(hash, [], start)] == [Stamped(hash, [], start)];
  }

  lemma {:induction false} RunnerPrefix(t: Tournament, emissions: seq<Emission>, i: nat)
    requires i <= |emissions| && RunnerAfter(t, emissions).Some?
    ensures RunnerAfter(t, emissions[..i]).Some?
    decreases |emissions|
  {
    hide Next;
    if i == |emissions| {
      assert emissions[..i] == emissions;
    } else {
      RunnerPrefix(t, emissions[..|emissions| - 1], i);
      assert emissions[..|emissions| - 1][..i] == emissions[..i];
    }
  }

  lemma NextEmission(hash: string -> string, t: Tournament, start: Draft, emissions: seq<Emission>, i: nat)
    requires i < |emissions| && Proper(t) && Opens(t, start) && AllCarry(t, emissions)
    requires RunnerAfter(t, emissions).Some?
    ensures var log := LogAfter(hash, start, emissions[..i]);
      Accepted(hash, log + [Stamped(hash, log, emissions[i].draft)]) <==> !Rejected(emissions[i].action)
  {
    hide Verify, Opens, Follows, Stamped, Carries, Next, LogAfter;
    RunnerPrefix(t, emissions, i);
    RunnerPrefix(t, emissions, i + 1);
    var prior := emissions[..i];
    assert emissions[..i + 1][..i] == prior && emissions[..i + 1][i] == emissions[i];
    assert AllCarry(t, prior);
    RunIsAccepted(hash, t, start, prior);
    EmissionFollows(hash, t, RunnerAfter(t, prior).value, LogAfter(hash, start, prior), emissions[i].action,
                    emissions[i].draft);
  }

  /** A run that begins, runs and concludes all three candidates in turn is one the runner
      takes, whatever the verdicts. */
  lemma FullRun(t: Tournament, emissions: seq<Emission>, flags: seq<bool>)
    requires Proper(t) && |flags| == 3 && |emissions| == 9
    requires t.sandboxes[0] != t.sandboxes[1] && t.sandboxes[1] != t.sandboxes[2] && t.sandboxes[0] != t.sandboxes[2]
    requires emissions[0].action == Begin(0) && emissions[1].action == Begin(1) && emissions[2].action == Begin(2)
    requires emissions[3].action == Command(0) && emissions[4].action == Command(1) && emissions[5].action == Command(2)
    requires emissions[6].action == Conclude(0, flags[0]) && emissions[7].action == Conclude(1, flags[1])
    requires emissions[8].action == Conclude(2, flags[2])
    ensures RunnerAfter(t, emissions) ==
            Some(Runner({0, 1, 2}, map[0 := flags[0], 1 := flags[1], 2 := flags[2]], false))
  {
    AllBegun(t, emissions);
    hide RunnerAfter;
    assert emissions[..9] == emissions;
    RunnerExtends(t, emissions, 3);
    RunnerExtends(t, emissions, 4);
    RunnerExtends(t, emissions, 5);
    RunnerExtends(t, emissions, 6);
    RunnerExtends(t, emissions, 7);
    RunnerExtends(t, emissions, 8);
  }

  lemma AllBegun(t: Tournament, emissions: seq<Emission>)
    requires Proper(t) && |emissions| >= 3
    requires t.sandboxes[0] != t.sandboxes[1] && t.sandboxes[1] != t.sandboxes[2] && t.sandboxes[0] != t.sandboxes[2]
    requires emissions[0].action == Begin(0) && emissions[1].action == Begin(1) && emissions[2].action == Begin(2)
    ensures RunnerAfter(t, emissions[..3]) == Some(Runner({0, 1, 2}, map[], false))
  {
    hide RunnerAfter;
    RunnerExtends(t, emissions, 0);
    RunnerExtends(t, emissions, 1);
    RunnerExtends(t, emissions, 2);
    var none: map<nat, bool> := map[];
    assert {} + {0} == {0} && {0} + {1} == {0, 1} && {0, 1} + {2} == {0, 1, 2};
    assert RunnerAfter(t, emissions[..1]) == Some(Runner({0}, none, false));
    assert RunnerAfter(t, emissions[..2]) == Some(Runner({0, 1}, none, false));
  }

  lemma RunnerExtends(t: Tournament, emissions: seq<Emission>, i: nat)
    requires i < |emissions|
    ensures RunnerAfter(t, emissions[..0]) == Some(AT_START)
    ensures RunnerAfter(t, emissions[..i + 1]) ==
            match RunnerAfter(t, emissions[..i])
            case None => None
            case Some(r) => Next(t, r, emissions[i].action)
  {
    hide Next;
    assert emissions[..i + 1][..i] == emissions[..i];
  }

  /** Once all have concluded the runner decides for each eligible candidate, for nobody
      exactly when none is, and begins, runs and concludes nothing more; it may always give
      up, and does nothing once it is over. */
  lemma DecidesExactly(t: Tournament, r: Runner, w: nat, flag: bool)
    requires r.begun == {0, 1, 2} && r.concluded.Keys == {0, 1, 2} && !r.over
    ensures Next(t, r, Decide(Some(w))) == if w in r.concluded && r.concluded[w] then Some(r.(over := true)) else None
    ensures Next(t, r, Decide(None)).Some? <==> !r.concluded[0] && !r.concluded[1] && !r.concluded[2]
    ensures Next(t, r, Begin(w)).None? && Next(t, r, Command(w)).None? && Next(t, r, Conclude(w, flag)).None?
    ensures Next(t, r, Abort) == Some(r.(over := true))
    ensures forall a :: Next(t, r.(over := true), a).None?
  {}

  // ----- a start whose date does not parse

  /** Whatever the tournament, a start that opens it is stored without a look at its own
      date; when that does not parse, the store is shut from then on. */
  lemma UndatedStartShutsTheLog(k: Checks, t: Tournament, start: Draft, later: seq<Draft>)
    requires Proper(t) && Opens(t, start) && !k.isTime(start.occurredAt)
    ensures Appendable(k, [], start)
    ensures var log := AfterAppend(k, [], start);
      |log| == 1 && !AllReadable(k, log) && AfterAppends(k, log, later) == log
  {
    FirstAccepted(k.hash, t, start);
    hide Accepted, Stamped, Opens;
    UndatedEventShutsTheLog(k, [], start, later);
  }

  function SomeTournament(): Tournament { Tournament("s", ["a", "b", "c"], ["d", "e", "f"]) }

  lemma CountIsPayload()
    ensures Normal(Obj([Member("candidateCount", Num("3"))]))
  {
    assert IsNumeral("3");
    assert Keys([Member("candidateCount", Num("3"))]) == ["candidateCount"];
  }

  function UndatedStart(): Draft {
    CountIsPayload();
    Draft("s", "TOURNAMENT_STARTED", "no date", [Member("candidateCount", Num("3"))], None)
  }

  /** Such a start exists, whatever the hash. */
  lemma UndatedStartIsStored(hash: string -> string, isHash: string -> bool)
    ensures var k := Checks(hash, isHash, text => text != "no date");
      && Proper(SomeTournament()) && Opens(SomeTournament(), UndatedStart())
      && Appendable(k, [], UndatedStart()) && !AllReadable(k, AfterAppend(k, [], UndatedStart()))
  {
    var k := Checks(hash, isHash, text => text != "no date");
    CountIsPayload();
    assert ["a", "b", "c"][0] != ["a", "b", "c"][1];
    assert Opens(SomeTournament(), UndatedStart());
    UndatedStartShutsTheLog(k, SomeTournament(), UndatedStart(), []);
  }
}
