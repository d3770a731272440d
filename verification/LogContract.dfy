/** The accepted log written out: event types, payload members and provenance by their
    own names, what the hash of an event covers, and what a replay carries over. */
module LogContract {
  import opened Options
  import opened Order
  import opened JsonText
  import opened Decimal
  import opened EventChain
  import opened LogMeaning

  // ----- what an event says

  predicate Carries(e: Event, key: string, value: Json) { Member(key, value) in e.payload }

  /** The code points that `trim` removes. */
  const TRIMMED: set<int> :=
    {0x9, 0xA, 0xB, 0xC, 0xD, 0x20, 0xA0, 0x1680, 0x2000, 0x2001, 0x2002, 0x2003, 0x2004, 0x2005, 0x2006, 0x2007,
     0x2008, 0x2009, 0x200A, 0x2028, 0x2029, 0x202F, 0x205F, 0x3000, 0xFEFF}

  /** The payload member is a string that trimming does not empty. */
  predicate Names(e: Event, key: string, text: string) {
    Carries(e, key, Str(text)) && exists i :: 0 <= i < |text| && text[i] as int !in TRIMMED
  }

  predicate Opens(e: Event) { e.eventType == "TOURNAMENT_STARTED" && Carries(e, "candidateCount", Num("3")) }

  predicate Starts(e: Event, candidate: string, sandbox: string) {
    e.eventType == "CANDIDATE_VALIDATION_STARTED" && Names(e, "candidateId", candidate)
    && Names(e, "sandboxId", sandbox)
  }

  ghost predicate Commands(e: Event, candidate: string, sandbox: string) {
    e.eventType == "COMMAND_COMPLETED" && Names(e, "candidateId", candidate) && Names(e, "sandboxId", sandbox)
    && exists command :: Names(e, "commandId", command)
  }

  predicate Completes(e: Event, candidate: string, eligible: bool) {
    e.eventType == "CANDIDATE_VALIDATION_COMPLETED" && Names(e, "candidateId", candidate)
    && Carries(e, "eligible", Bool(eligible))
  }

  predicate Crowns(e: Event, winner: string) {
    e.eventType == "TOURNAMENT_COMPLETED" && Names(e, "winnerCandidateId", winner)
  }

  predicate Ends(e: Event) { e.eventType == "TOURNAMENT_COMPLETED" || e.eventType == "TOURNAMENT_FAILED" }

  // ----- which event may come next

  ghost predicate WasStarted(events: seq<Event>, candidate: string, sandbox: string) {
    exists j :: 0 <= j < |events| && Starts(events[j], candidate, sandbox)
  }

  ghost predicate WasCompleted(events: seq<Event>, candidate: string, eligible: bool) {
    exists j :: 0 <= j < |events| && Completes(events[j], candidate, eligible)
  }

  /** The places in the log of the events of one type. */
  function Places(events: seq<Event>, eventType: string): set<int> {
    set j | 0 <= j < |events| && events[j].eventType == eventType
  }

  ghost predicate MayStart(before: seq<Event>, candidate: string, sandbox: string) {
    && |Places(before, "CANDIDATE_VALIDATION_STARTED")| < 3
    && (forall s :: !WasStarted(before, candidate, s)) && (forall c :: !WasStarted(before, c, sandbox))
  }

  ghost predicate MayComplete(before: seq<Event>, e: Event, candidate: string) {
    && (exists s :: Names(e, "sandboxId", s) && WasStarted(before, candidate, s))
    && (forall flag :: !WasCompleted(before, candidate, flag))
  }

  ghost predicate MayCrown(before: seq<Event>, winner: string) {
    && |Places(before, "CANDIDATE_VALIDATION_STARTED")| == 3
    && |Places(before, "CANDIDATE_VALIDATION_COMPLETED")| == 3
    && WasCompleted(before, winner, true)
  }

  ghost predicate Continues(before: seq<Event>, e: Event) {
    || (exists c, s :: Starts(e, c, s) && MayStart(before, c, s))
    || (exists c, s :: Commands(e, c, s) && WasStarted(before, c, s))
    || (exists c, flag :: Completes(e, c, flag) && MayComplete(before, e, c))
    || (exists w :: Crowns(e, w) && MayCrown(before, w))
    || e.eventType == "TOURNAMENT_FAILED"
  }

  /** The event says it comes from a local run, not from a provider. */
  predicate FromLocalRun(e: Event) {
    e.provenance.mode == "mock" && e.provenance.kind == "local-test" && e.provenance.provider == "local-process"
  }

  ghost predicate Admissible(hash: string -> string, before: seq<Event>, e: Event) {
    && e.schemaVersion == 1 && e.sequence == |before| + 1 && FromLocalRun(e)
    && (before == [] ==> e.previousEventHash == None)
    && (before != [] ==>
          e.sessionId == before[0].sessionId && e.previousEventHash == Some(before[|before| - 1].eventHash))
    && e.eventHash == hash(UnsignedText(e))
    && (forall j :: 0 <= j < |before| ==> !Ends(before[j]))
    && (if before == [] then Opens(e) else Continues(before, e))
  }

  // ----- the verifier's readings mean the same

  lemma {:induction false} FieldIsMember(payload: seq<Member>, key: string, value: Json)
    requires forall i, j :: 0 <= i < j < |payload| ==> payload[i].key != payload[j].key
    ensures Field(payload, key) == Some(value) <==> Member(key, value) in payload
  {
    if payload != [] {
      var rest := payload[1..];
      FieldIsMember(rest, key, value);
      assert payload == [payload[0]] + rest;
      assert forall i :: 0 <= i < |rest| ==> rest[i] == payload[i + 1];
    }
  }

  lemma CarriedField(e: Event, key: string, value: Json)
    ensures Field(e.payload, key) == Some(value) <==> Carries(e, key, value)
  {
    var p := e.payload;
    assert Normal(Obj(p));
    hide Normal, Field, Less;
    forall i, j | 0 <= i < j < |p| ensures p[i].key != p[j].key {
      assert Less(Keys(p)[i], Keys(p)[j]) by { KeysOfPayloadAscend(e); }
      LessTrichotomy(p[i].key, p[j].key);
    }
    FieldIsMember(p, key, value);
  }

  lemma KeysOfPayloadAscend(e: Event)
    ensures Ascending(Keys(e.payload))
  {
    assert Normal(Obj(e.payload));
  }

  lemma NamedField(e: Event, key: string, text: string)
    ensures RequiredText(e.payload, key) == Some(text) <==> Names(e, key, text)
  {
    hide Field, Carries;
    CarriedField(e, key, Str(text));
    assert forall i :: 0 <= i < |text| ==> (IsBlank(text[i]) <==> text[i] as int in TRIMMED);
  }

  lemma KindsSpelled(e: Event)
    ensures KindOf(e.eventType) == TournamentStarted <==> e.eventType == "TOURNAMENT_STARTED"
    ensures KindOf(e.eventType) == ValidationStarted <==> e.eventType == "CANDIDATE_VALIDATION_STARTED"
    ensures KindOf(e.eventType) == CommandCompleted <==> e.eventType == "COMMAND_COMPLETED"
    ensures KindOf(e.eventType) == ValidationCompleted <==> e.eventType == "CANDIDATE_VALIDATION_COMPLETED"
    ensures KindOf(e.eventType) == TournamentCompleted <==> e.eventType == "TOURNAMENT_COMPLETED"
    ensures KindOf(e.eventType) == TournamentFailed <==> e.eventType == "TOURNAMENT_FAILED"
  {}

  /** Every reading of an event, by the names of the members it reads. */
  lemma ReadingsSpelled(e: Event, text: string, flag: bool)
    ensures CandidateOf(e) == Some(text) <==> Names(e, "candidateId", text)
    ensures SandboxOf(e) == Some(text) <==> Names(e, "sandboxId", text)
    ensures CommandOf(e) == Some(text) <==> Names(e, "commandId", text)
    ensures WinnerOf(e) == Some(text) <==> Names(e, "winnerCandidateId", text)
    ensures EligibleOf(e) == Some(flag) <==> Carries(e, "eligible", Bool(flag))
    ensures DeclaresThree(e) <==> Carries(e, "candidateCount", Num("3"))
    ensures LocalTest(e.provenance) <==> FromLocalRun(e)
  {
    hide Names, Carries, RequiredText, Field;
    NamedField(e, "candidateId", text);
    NamedField(e, "sandboxId", text);
    NamedField(e, "commandId", text);
    NamedField(e, "winnerCandidateId", text);
    CarriedField(e, "eligible", Bool(flag));
    CarriedField(e, "candidateCount", Num("3"));
  }

  lemma StartsSpelled(e: Event, c: string, s: string, flag: bool)
    ensures StartsCandidate(e, c, s) <==> Starts(e, c, s)
    ensures CompletesCandidate(e, c, flag) <==> Completes(e, c, flag)
  {
    hide KindOf, CandidateOf, SandboxOf, EligibleOf, Names, Carries;
    KindsSpelled(e);
    ReadingsSpelled(e, c, flag);
    ReadingsSpelled(e, s, flag);
  }

  lemma WasStartedSpelled(events: seq<Event>, c: string, s: string)
    ensures StartedIn(events, c, s) <==> WasStarted(events, c, s)
  {
    hide StartsCandidate, Starts;
    forall j | 0 <= j < |events| ensures StartsCandidate(events[j], c, s) <==> Starts(events[j], c, s) {
      StartsSpelled(events[j], c, s, true);
    }
  }

  lemma WasCompletedSpelled(events: seq<Event>, c: string, flag: bool)
    ensures CompletedAs(events, c, flag) <==> WasCompleted(events, c, flag)
  {
    hide CompletesCandidate, Completes;
    forall j | 0 <= j < |events| ensures CompletesCandidate(events[j], c, flag) <==> Completes(events[j], c, flag) {
      StartsSpelled(events[j], c, "", flag);
    }
  }

  lemma PlacesExtend(events: seq<Event>, e: Event, eventType: string)
    ensures |Places(events + [e], eventType)| == |Places(events, eventType)| + if e.eventType == eventType then 1 else 0
  {
    var here := if e.eventType == eventType then {|events|} else {};
    assert Places(events + [e], eventType) == Places(events, eventType) + here;
  }

  predicate SameType(e: Event, kind: Kind, eventType: string) {
    KindOf(e.eventType) == kind <==> e.eventType == eventType
  }

  lemma {:induction false} CountIsPlaces(events: seq<Event>, kind: Kind, eventType: string)
    requires forall j :: 0 <= j < |events| ==> SameType(events[j], kind, eventType)
    ensures CountKind(events, kind) == |Places(events, eventType)|
  {
    hide KindOf, Places, SameType;
    if events == [] {
      NoPlaces(eventType);
    } else {
      var n := |events| - 1;
      var prior := events[..n];
      CountIsPlaces(prior, kind, eventType);
      PlacesExtend(prior, events[n], eventType);
      assert events == prior + [events[n]] && SameType(events[n], kind, eventType);
      TypeOf(events[n], kind, eventType);
    }
  }

  lemma NoPlaces(eventType: string)
    ensures Places([], eventType) == {}
  {}

  lemma TypeOf(e: Event, kind: Kind, eventType: string)
    requires SameType(e, kind, eventType)
    ensures KindOf(e.eventType) == kind <==> e.eventType == eventType
  {}

  lemma StartsCounted(events: seq<Event>)
    ensures CountKind(events, ValidationStarted) == |Places(events, "CANDIDATE_VALIDATION_STARTED")|
  {
    hide KindOf, CountKind, Places;
    forall j | 0 <= j < |events| ensures SameType(events[j], ValidationStarted, "CANDIDATE_VALIDATION_STARTED") {
      KindsSpelled(events[j]);
    }
    hide SameType;
    CountIsPlaces(events, ValidationStarted, "CANDIDATE_VALIDATION_STARTED");
  }

  lemma CompletionsCounted(events: seq<Event>)
    ensures CountKind(events, ValidationCompleted) == |Places(events, "CANDIDATE_VALIDATION_COMPLETED")|
  {
    hide KindOf, CountKind, Places;
    forall j | 0 <= j < |events| ensures SameType(events[j], ValidationCompleted, "CANDIDATE_VALIDATION_COMPLETED") {
      KindsSpelled(events[j]);
    }
    hide SameType;
    CountIsPlaces(events, ValidationCompleted, "CANDIDATE_VALIDATION_COMPLETED");
  }

  lemma NoneEnds(events: seq<Event>)
    ensures CountKind(events, TournamentCompleted) == 0 && CountKind(events, TournamentFailed) == 0 <==>
            forall j :: 0 <= j < |events| ==> !Ends(events[j])
  {
    hide KindOf, CountKind;
    CountsNone(events, TournamentCompleted);
    CountsNone(events, TournamentFailed);
    forall j | 0 <= j < |events|
      ensures Ends(events[j]) <==> KindOf(events[j].eventType) in {TournamentCompleted, TournamentFailed}
    {
      KindsSpelled(events[j]);
    }
  }

  predicate NoneOf(events: seq<Event>, kind: Kind) {
    forall j :: 0 <= j < |events| ==> KindOf(events[j].eventType) != kind
  }

  lemma NoneExtends(events: seq<Event>, e: Event, kind: Kind)
    ensures NoneOf(events + [e], kind) <==> NoneOf(events, kind) && KindOf(e.eventType) != kind
  {
    hide KindOf;
    var all := events + [e];
    assert all[|events|] == e && forall j :: 0 <= j < |events| ==> all[j] == events[j];
  }

  lemma NoneAtFirst(kind: Kind)
    ensures NoneOf([], kind) && CountKind([], kind) == 0
  {}

  lemma {:induction false} CountsNone(events: seq<Event>, kind: Kind)
    ensures CountKind(events, kind) == 0 <==> NoneOf(events, kind)
  {
    hide *;
    if events == [] {
      NoneAtFirst(kind);
    } else {
      var prior, e := events[..|events| - 1], events[|events| - 1];
      CountsNone(prior, kind);
      NoneExtends(prior, e, kind);
      CountExtends(prior, e, kind);
      assert events == prior + [e];
    }
  }

  // ----- the theorem

  lemma StartFits(before: seq<Event>, e: Event)
    requires before != [] && KindOf(e.eventType) == ValidationStarted
    ensures Fits(before, e) <==> exists c, s :: Starts(e, c, s) && MayStart(before, c, s)
  {
    hide KindOf, CandidateOf, SandboxOf, CommandOf, WinnerOf, EligibleOf, Starts, StartedIn, WasStarted, Places,
         CountKind;
    StartsCounted(before);
    forall c, s ensures StartedIn(before, c, s) <==> WasStarted(before, c, s) { WasStartedSpelled(before, c, s); }
    forall c, s ensures StartsCandidate(e, c, s) <==> Starts(e, c, s) { StartsSpelled(e, c, s, true); }
    if CandidateOf(e).Some? && SandboxOf(e).Some? {
      assert StartsCandidate(e, CandidateOf(e).value, SandboxOf(e).value);
    }
  }

  lemma CommandFits(before: seq<Event>, e: Event)
    requires before != [] && KindOf(e.eventType) == CommandCompleted
    ensures Fits(before, e) <==> exists c, s :: Commands(e, c, s) && WasStarted(before, c, s)
  {
    hide KindOf, CandidateOf, SandboxOf, CommandOf, WinnerOf, EligibleOf, Names, StartedIn, WasStarted;
    KindsSpelled(e);
    forall t ensures ReadAs(e, t) { ReadingsSpelled(e, t, true); }
    forall c, s ensures StartedIn(before, c, s) <==> WasStarted(before, c, s) { WasStartedSpelled(before, c, s); }
    if CandidateOf(e).Some? && SandboxOf(e).Some? && CommandOf(e).Some? {
      assert ReadAs(e, CandidateOf(e).value) && ReadAs(e, SandboxOf(e).value) && ReadAs(e, CommandOf(e).value);
      assert Commands(e, CandidateOf(e).value, SandboxOf(e).value);
    }
    if c, s :| Commands(e, c, s) && WasStarted(before, c, s) {
      var command :| Names(e, "commandId", command);
      assert ReadAs(e, c) && ReadAs(e, s) && ReadAs(e, command);
    }
  }

  predicate ReadAs(e: Event, text: string) {
    && (CandidateOf(e) == Some(text) <==> Names(e, "candidateId", text))
    && (SandboxOf(e) == Some(text) <==> Names(e, "sandboxId", text))
    && (CommandOf(e) == Some(text) <==> Names(e, "commandId", text))
    && (WinnerOf(e) == Some(text) <==> Names(e, "winnerCandidateId", text))
  }

  lemma CompletionFits(before: seq<Event>, e: Event)
    requires before != [] && KindOf(e.eventType) == ValidationCompleted
    ensures Fits(before, e) <==> exists c, flag :: Completes(e, c, flag) && MayComplete(before, e, c)
  {
    hide KindOf, CandidateOf, SandboxOf, CommandOf, WinnerOf, EligibleOf, Names, Completes, StartedIn, WasStarted,
         CompletedAs, WasCompleted;
    forall t ensures ReadAs(e, t) { ReadingsSpelled(e, t, true); }
    forall c, s ensures StartedIn(before, c, s) <==> WasStarted(before, c, s) { WasStartedSpelled(before, c, s); }
    forall c, flag ensures CompletedAs(before, c, flag) <==> WasCompleted(before, c, flag) {
      WasCompletedSpelled(before, c, flag);
    }
    forall c, flag ensures CompletesCandidate(e, c, flag) <==> Completes(e, c, flag) {
      StartsSpelled(e, c, "", flag);
    }
    if CandidateOf(e).Some? && EligibleOf(e).Some? {
      assert CompletesCandidate(e, CandidateOf(e).value, EligibleOf(e).value);
    }
    if SandboxOf(e).Some? { assert ReadAs(e, SandboxOf(e).value); }
    if c, flag :| Completes(e, c, flag) && MayComplete(before, e, c) {
      var s :| Names(e, "sandboxId", s) && WasStarted(before, c, s);
      assert ReadAs(e, s) && CompletesCandidate(e, c, flag);
    }
  }

  lemma CrownFits(before: seq<Event>, e: Event)
    requires before != [] && KindOf(e.eventType) == TournamentCompleted
    ensures Fits(before, e) <==> exists w :: Crowns(e, w) && MayCrown(before, w)
  {
    hide KindOf, CandidateOf, SandboxOf, CommandOf, WinnerOf, EligibleOf, Names, CompletedAs, WasCompleted, Places,
         CountKind;
    KindsSpelled(e);
    StartsCounted(before);
    CompletionsCounted(before);
    if WinnerOf(e).Some? {
      ReadingsSpelled(e, WinnerOf(e).value, true);
      WasCompletedSpelled(before, WinnerOf(e).value, true);
      assert Crowns(e, WinnerOf(e).value);
    }
    if w :| Crowns(e, w) && MayCrown(before, w) {
      ReadingsSpelled(e, w, true);
      WasCompletedSpelled(before, w, true);
    }
  }

  lemma ContinuesMeans(before: seq<Event>, e: Event)
    requires before != []
    ensures Fits(before, e) <==> Continues(before, e)
  {
    hide KindOf, CandidateOf, SandboxOf, CommandOf, WinnerOf, EligibleOf, Names, Carries, MayStart, MayComplete,
         MayCrown, WasStarted, StartedIn, CompletedAs, CountKind;
    KindsSpelled(e);
    match KindOf(e.eventType)
    case ValidationStarted => StartFits(before, e);
    case CommandCompleted => CommandFits(before, e);
    case ValidationCompleted => CompletionFits(before, e);
    case TournamentCompleted => CrownFits(before, e);
    case _ =>
  }

  lemma AdmissibleMeans(hash: string -> string, before: seq<Event>, e: Event)
    ensures MayFollow(hash, before, e) <==> Admissible(hash, before, e)
  {
    hide KindOf, CandidateOf, SandboxOf, CommandOf, WinnerOf, EligibleOf, DeclaresThree, LocalTest, FromLocalRun,
         Carries, Ends, Continues, CountKind, UnsignedText;
    ReadingsSpelled(e, "", true);
    NoneEnds(before);
    if before == [] { OpeningMeans(e); } else { ContinuesMeans(before, e); }
    hide Fits, Opens;
  }

  lemma OpeningMeans(e: Event)
    ensures Fits([], e) <==> Opens(e)
  {
    hide KindOf, CandidateOf, SandboxOf, CommandOf, WinnerOf, EligibleOf, DeclaresThree, Carries;
    KindsSpelled(e);
    ReadingsSpelled(e, "", true);
  }

  /** A log is accepted exactly when each event, read by the names of its members, may
      come next after the events before it. */
  lemma AcceptedExactly(hash: string -> string, events: seq<Event>)
    ensures Accepted(hash, events) <==>
            forall i :: 0 <= i < |events| ==> Admissible(hash, events[..i], events[i])
  {
    hide MayFollow, Admissible;
    AcceptedMeans(hash, events);
    forall i | 0 <= i < |events|
      ensures FollowsAt(hash, events, i) <==> Admissible(hash, events[..i], events[i])
    {
      AdmissibleMeans(hash, events[..i], events[i]);
    }
  }

  // ----- what a hash covers, and what a replay carries over

  /** The text an event hash is taken of reads back as an object with these members and no
      other; the written line has the hash as one more. */
  lemma HashedTextReads(e: Event)
    ensures Parse(UnsignedText(e)) == Parsed(Obj(UnsignedMembers(e)), "")
    ensures Parse(Print(EventJson(e))) == Parsed(Obj([Member("eventHash", Str(e.eventHash))] + UnsignedMembers(e)), "")
    ensures Covers(e, UnsignedMembers(e))
  {
    EventJsonNormal(e);
    RoundTrip(EventJson(e));
    RoundTrip(UnsignedJson(e));
    hide Normal, Digits, Covers, UnsignedMembers, Parse, Print;
    MembersCover(e);
  }

  predicate Covers(e: Event, ms: seq<Member>) {
    && |ms| == 8
    && Member("eventType", Str(e.eventType)) in ms && Member("occurredAt", Str(e.occurredAt)) in ms
    && Member("payload", Obj(e.payload)) in ms && Member("sessionId", Str(e.sessionId)) in ms
    && Member("previousEventHash", if e.previousEventHash == None then Null else Str(e.previousEventHash.value)) in ms
    && Member("schemaVersion", Num(Digits(e.schemaVersion))) in ms
    && Member("sequence", Num(Digits(e.sequence))) in ms
    && Member("provenance", Obj([ Member("kind", Str(e.provenance.kind)), Member("mode", Str(e.provenance.mode)),
                                  Member("notice", Str(e.provenance.notice)),
                                  Member("provider", Str(e.provenance.provider)) ])) in ms
  }

  lemma MembersCover(e: Event)
    ensures Covers(e, UnsignedMembers(e))
  {
    hide Digits;
    MembersByName(e);
    assert |UnsignedMembers(e)| == 8;
    hide UnsignedMembers;
  }

  lemma MembersByName(e: Event)
    ensures var ms := UnsignedMembers(e);
      && Member("eventType", Str(e.eventType)) in ms && Member("occurredAt", Str(e.occurredAt)) in ms
      && Member("payload", Obj(e.payload)) in ms && Member("sessionId", Str(e.sessionId)) in ms
      && Member("previousEventHash", HashJson(e.previousEventHash)) in ms
      && Member("schemaVersion", Num(Digits(e.schemaVersion))) in ms
      && Member("sequence", Num(Digits(e.sequence))) in ms
      && Member("provenance", ProvenanceJson(e.provenance)) in ms
  {
    hide Digits, ProvenanceJson, HashJson;
    var ms := UnsignedMembers(e);
    assert ms[0] in ms && ms[1] in ms && ms[2] in ms && ms[3] in ms && ms[4] in ms && ms[5] in ms && ms[6] in ms
      && ms[7] in ms;
  }

  lemma ReduceCarries(r: Replay, e: Event)
    ensures Reduce(r, e).session == if KindOf(e.eventType) == TournamentStarted then Some(e.sessionId) else r.session
    ensures Reduce(r, e).provenance ==
            if KindOf(e.eventType) == TournamentStarted then Some(e.provenance) else r.provenance
    ensures Reduce(r, e).winner ==
            if KindOf(e.eventType) == TournamentCompleted then ReplayedWinner(e.payload) else r.winner
  {
    hide KindOf, CandidateKey, ReplayedFrom, ReplayedWinner;
  }

  /** A started replay has the session and the provenance of the first event. */
  lemma {:induction false} ReplayCarries(hash: string -> string, events: seq<Event>)
    requires Accepted(hash, events) && events != []
    ensures ReplayAll(events).session == Some(events[0].sessionId)
    ensures ReplayAll(events).provenance == Some(events[0].provenance)
  {
    hide KindOf, Verify, Reduce;
    var n := |events| - 1;
    AcceptedShape(hash, events);
    ReduceCarries(ReplayAll(events[..n]), events[n]);
    if n > 0 { ReplayCarries(hash, events[..n]); }
  }

  /** A completed replay has the winner the last event names. */
  lemma ReplayedWinnerIsNamed(hash: string -> string, events: seq<Event>)
    requires Accepted(hash, events) && ReplayAll(events).status == Completed
    ensures events != [] && ReplayAll(events).winner.Some?
    ensures Carries(events[|events| - 1], "winnerCandidateId", Str(ReplayAll(events).winner.value))
  {
    hide KindOf, Verify, Reduce, AgreesOnCandidates, Field;
    ReplayAgrees(hash, events);
    var e := events[|events| - 1];
    ReduceCarries(ReplayAll(events[..|events| - 1]), e);
    CarriedField(e, "winnerCandidateId", Str(ReplayAll(events).winner.value));
  }
}
