/** The hash-chained tournament log: the automaton that accepts a chain, the reducer
    that replays it, and what a last hash commits to. */
module EventChain {
  import opened Options
  import opened Order
  import opened JsonText
  import opened Decimal

  type Payload = members: seq<Member> | Normal(Obj(members)) witness []

  datatype Provenance = Provenance(kind: string, mode: string, notice: string, provider: string)

  datatype Event = Event(
    schemaVersion: nat,
    sequence: nat,
    sessionId: string,
    eventType: string,
    occurredAt: string,
    payload: Payload,
    provenance: Provenance,
    previousEventHash: Option<string>,
    eventHash: string)

  // ----- event content as JSON

  function ProvenanceJson(p: Provenance): Json {
    Obj([Member("kind", Str(p.kind)), Member("mode", Str(p.mode)), Member("notice", Str(p.notice)),
         Member("provider", Str(p.provider))])
  }

  function HashJson(hash: Option<string>): Json {
    match hash
    case None => Null
    case Some(h) => Str(h)
  }

  /** The members the hash covers, in canonical key order. */
  function UnsignedMembers(e: Event): seq<Member> {
    [ Member("eventType", Str(e.eventType)),
      Member("occurredAt", Str(e.occurredAt)),
      Member("payload", Obj(e.payload)),
      Member("previousEventHash", HashJson(e.previousEventHash)),
      Member("provenance", ProvenanceJson(e.provenance)),
      Member("schemaVersion", Num(Digits(e.schemaVersion))),
      Member("sequence", Num(Digits(e.sequence))),
      Member("sessionId", Str(e.sessionId)) ]
  }

  function UnsignedJson(e: Event): Json { Obj(UnsignedMembers(e)) }

  function EventJson(e: Event): Json { Obj([Member("eventHash", Str(e.eventHash))] + UnsignedMembers(e)) }

  lemma {:induction false} ReadAppend(state: NumeralState, s: string, c: char)
    ensures ReadNumeral(state, s + [c]) == NextNumeral(ReadNumeral(state, s), c)
    decreases |s|
  {
    if s == "" {
      assert s + [c] == [c] && [c][1..] == "";
      assert ReadNumeral(NextNumeral(state, c), "") == NextNumeral(state, c);
    } else {
      assert (s + [c])[1..] == s[1..] + [c];
      ReadAppend(NextNumeral(state, s[0]), s[1..], c);
    }
  }

  lemma {:induction false} DigitsAreNumeral(n: nat)
    ensures ReadNumeral(Start, Digits(n)) == if n == 0 then Zero else Whole
  {
    if n >= 10 {
      DigitsAreNumeral(n / 10);
      ReadAppend(Start, Digits(n / 10), '0' + (n % 10) as char);
    } else {
      ReadAppend(Start, "", '0' + n as char);
      assert "" + ['0' + n as char] == Digits(n);
    }
  }

  /** Two strings compare by the first character in which they differ. */
  lemma {:induction false} LessAt(a: string, b: string, n: nat)
    requires n < |a| && n < |b| && a[n] < b[n] && forall i :: 0 <= i < n ==> a[i] == b[i]
    ensures Less(a, b)
  {
    if n > 0 { LessAt(a[1..], b[1..], n - 1); }
  }

  predicate StepsUp(keys: seq<string>, i: nat)
    requires i + 1 < |keys|
  {
    Less(keys[i], keys[i + 1])
  }

  lemma {:induction false} AdjacentAscending(keys: seq<string>)
    requires forall i :: 0 <= i < |keys| - 1 ==> StepsUp(keys, i)
    ensures Ascending(keys)
  {
    if |keys| > 1 {
      var tail := keys[1..];
      forall i | 0 <= i < |tail| - 1 ensures StepsUp(tail, i) { assert StepsUp(keys, i + 1); }
      AdjacentAscending(tail);
      forall i, j | 0 <= i < j < |keys| ensures Less(keys[i], keys[j]) {
        assert StepsUp(keys, 0);
        if i > 0 {
          assert Less(tail[i - 1], tail[j - 1]);
        } else if j > 1 {
          assert Less(tail[0], tail[j - 1]);
          LessTransitive(keys[0], keys[1], keys[j]);
        }
      }
    }
  }

  const EVENT_KEYS :=
    ["eventHash", "eventType", "occurredAt", "payload", "previousEventHash", "provenance", "schemaVersion",
     "sequence", "sessionId"]
  const PROVENANCE_KEYS := ["kind", "mode", "notice", "provider"]

  lemma EventKeysAscend()
    ensures Ascending(EVENT_KEYS)
  {
    EventKeysAscendHead();
    EventKeysAscendTail();
    hide Less;
    forall i | 0 <= i < |EVENT_KEYS| - 1 ensures StepsUp(EVENT_KEYS, i) {
      assert i in {0, 1, 2, 3, 4, 5, 6, 7};
    }
    AdjacentAscending(EVENT_KEYS);
  }

  lemma EventKeysAscendHead()
    ensures Less("eventHash", "eventType") && Less("eventType", "occurredAt")
    ensures Less("occurredAt", "payload") && Less("payload", "previousEventHash")
  {
    LessAt("eventHash", "eventType", 5);
    LessAt("eventType", "occurredAt", 0);
    LessAt("occurredAt", "payload", 0);
    LessAt("payload", "previousEventHash", 1);
  }

  lemma EventKeysAscendTail()
    ensures Less("previousEventHash", "provenance") && Less("provenance", "schemaVersion")
    ensures Less("schemaVersion", "sequence") && Less("sequence", "sessionId")
  {
    LessAt("previousEventHash", "provenance", 2);
    LessAt("provenance", "schemaVersion", 0);
    LessAt("schemaVersion", "sequence", 1);
    LessAt("sequence", "sessionId", 2);
  }

  lemma ProvenanceKeysAscend()
    ensures Ascending(PROVENANCE_KEYS)
  {
    LessAt("kind", "mode", 0);
    LessAt("mode", "notice", 0);
    LessAt("notice", "provider", 0);
    forall i | 0 <= i < |PROVENANCE_KEYS| - 1 ensures StepsUp(PROVENANCE_KEYS, i) {
      assert i in {0, 1, 2};
    }
    AdjacentAscending(PROVENANCE_KEYS);
  }

  lemma UnsignedValuesNormal(e: Event)
    ensures forall i :: 0 <= i < 8 ==> Normal(UnsignedMembers(e)[i].value)
  {
    DigitsAreNumeral(e.schemaVersion);
    DigitsAreNumeral(e.sequence);
    ProvenanceNormal(e.provenance);
    assert Normal(Obj(e.payload)) && Normal(HashJson(e.previousEventHash));
    hide Normal, ProvenanceJson, HashJson, Digits;
    assert Normal(Str(e.eventType)) && Normal(Str(e.occurredAt)) && Normal(Str(e.sessionId)) by {
      StringNormal(e.eventType);
      StringNormal(e.occurredAt);
      StringNormal(e.sessionId);
    }
    assert Normal(Num(Digits(e.schemaVersion))) && Normal(Num(Digits(e.sequence))) by {
      NumeralNormal(e.schemaVersion);
      NumeralNormal(e.sequence);
    }
  }

  lemma StringNormal(s: string)
    ensures Normal(Str(s))
  {}

  lemma NumeralNormal(n: nat)
    ensures Normal(Num(Digits(n)))
  {
    DigitsAreNumeral(n);
  }

  lemma EventJsonNormal(e: Event)
    ensures Normal(EventJson(e)) && Normal(UnsignedJson(e))
    ensures Keys(EventJson(e).members) == EVENT_KEYS
  {
    EventKeysAscend();
    UnsignedValuesNormal(e);
    KeysOfEvent(e);
    var all, unsigned := EventJson(e).members, UnsignedMembers(e);
    assert forall i :: 1 <= i < |all| ==> all[i] == unsigned[i - 1];
    assert forall i :: 0 <= i < |unsigned| ==> Keys(unsigned)[i] == Keys(all)[i + 1];
  }

  lemma KeysOfEvent(e: Event)
    ensures Keys(EventJson(e).members) == EVENT_KEYS
  {}

  lemma ProvenanceNormal(p: Provenance)
    ensures Normal(ProvenanceJson(p))
  {
    ProvenanceKeysAscend();
    assert Keys(ProvenanceJson(p).members) == PROVENANCE_KEYS;
  }

  /** Equal unsigned content means equal events up to the stored hash. */
  lemma UnsignedDetermines(a: Event, b: Event)
    requires UnsignedJson(a) == UnsignedJson(b)
    ensures a.(eventHash := b.eventHash) == b
  {
    var ma, mb := UnsignedMembers(a), UnsignedMembers(b);
    assert ma == mb;
    assert ma[0] == mb[0] && ma[1] == mb[1] && ma[2] == mb[2] && ma[3] == mb[3];
    assert ma[4] == mb[4] && ma[5] == mb[5] && ma[6] == mb[6] && ma[7] == mb[7];
    var pa, pb := ProvenanceJson(a.provenance).members, ProvenanceJson(b.provenance).members;
    assert pa[0] == pb[0] && pa[1] == pb[1] && pa[2] == pb[2] && pa[3] == pb[3];
    ValueOfDigits(a.sequence);
    ValueOfDigits(b.sequence);
    ValueOfDigits(a.schemaVersion);
    ValueOfDigits(b.schemaVersion);
  }

  // ----- the accepting automaton

  datatype Kind =
    | TournamentStarted
    | ValidationStarted
    | CommandCompleted
    | ValidationCompleted
    | TournamentCompleted
    | TournamentFailed
    | Unsupported

  function KindOf(eventType: string): Kind {
    if eventType == "TOURNAMENT_STARTED" then TournamentStarted
    else if eventType == "CANDIDATE_VALIDATION_STARTED" then ValidationStarted
    else if eventType == "COMMAND_COMPLETED" then CommandCompleted
    else if eventType == "CANDIDATE_VALIDATION_COMPLETED" then ValidationCompleted
    else if eventType == "TOURNAMENT_COMPLETED" then TournamentCompleted
    else if eventType == "TOURNAMENT_FAILED" then TournamentFailed
    else Unsupported
  }

  function Field(payload: seq<Member>, key: string): Option<Json> {
    if payload == [] then None
    else if payload[0].key == key then Some(payload[0].value)
    else Field(payload[1..], key)
  }

  /** White space that `trim` removes. */
  predicate IsBlank(c: char) {
    || c == ' ' || 9 <= c as int <= 13 || c as int == 0xA0 || c as int == 0x1680 || 0x2000 <= c as int <= 0x200A
    || c as int in {0x2028, 0x2029, 0x202F, 0x205F, 0x3000, 0xFEFF}
  }

  predicate Filled(s: string) { exists i :: 0 <= i < |s| && !IsBlank(s[i]) }

  /** A non-blank string field of the payload. */
  function RequiredText(payload: seq<Member>, key: string): Option<string> {
    match Field(payload, key)
    case Some(Str(text)) => if Filled(text) then Some(text) else None
    case _ => None
  }

  // The payload fields the verifier reads.

  function CandidateOf(e: Event): Option<string> { RequiredText(e.payload, "candidateId") }

  function SandboxOf(e: Event): Option<string> { RequiredText(e.payload, "sandboxId") }

  function CommandOf(e: Event): Option<string> { RequiredText(e.payload, "commandId") }

  function WinnerOf(e: Event): Option<string> { RequiredText(e.payload, "winnerCandidateId") }

  predicate DeclaresThree(e: Event) { Field(e.payload, "candidateCount") == Some(Num("3")) }

  predicate LocalTest(p: Provenance) { p.mode == "mock" && p.kind == "local-test" && p.provider == "local-process" }

  /** The boolean `eligible` field. */
  function EligibleOf(e: Event): Option<bool> {
    match Field(e.payload, "eligible")
    case Some(Bool(flag)) => Some(flag)
    case _ => None
  }

  /** What the verifier remembers after a prefix of the log. */
  datatype Chain = Chain(
    count: nat,
    last: Option<string>,
    session: Option<string>,
    declared: bool,
    terminal: bool,
    started: map<string, string>,
    sandboxes: set<string>,
    completed: map<string, bool>)

  const EMPTY_CHAIN := Chain(0, None, None, false, false, map[], {}, map[])

  /** What the hash of an event is taken of. */
  function UnsignedText(e: Event): string { Print(UnsignedJson(e)) }

  function Digest(hash: string -> string, e: Event): string { hash(UnsignedText(e)) }

  /** The checks every event passes whatever its type. */
  predicate Linked(hash: string -> string, c: Chain, e: Event) {
    && e.schemaVersion == 1 && e.sequence == c.count + 1
    && (c.session.None? || c.session.value == e.sessionId)
    && LocalTest(e.provenance)
    && e.previousEventHash == c.last
    && e.eventHash == Digest(hash, e)
    && !c.terminal
  }

  function Step(hash: string -> string, before: Chain, e: Event): Option<Chain> {
    if !Linked(hash, before, e) then None
    else
      var c := before.(count := before.count + 1, last := Some(e.eventHash), session := Some(e.sessionId));
      var candidate, sandbox := CandidateOf(e), SandboxOf(e);
      match KindOf(e.eventType)
      case TournamentStarted =>
        if before.count == 0 && !c.declared && DeclaresThree(e) then Some(c.(declared := true)) else None
      case ValidationStarted =>
        if c.declared && candidate.Some? && sandbox.Some? && candidate.value !in c.started
          && sandbox.value !in c.sandboxes && |c.started| < 3
        then Some(c.(started := c.started[candidate.value := sandbox.value],
                     sandboxes := c.sandboxes + {sandbox.value}))
        else None
      case CommandCompleted =>
        if candidate.Some? && sandbox.Some? && CommandOf(e).Some? && Bound(c, candidate.value, sandbox.value)
          then Some(c) else None
      case ValidationCompleted =>
        if candidate.Some? && sandbox.Some? && Bound(c, candidate.value, sandbox.value)
          && candidate.value !in c.completed && EligibleOf(e).Some?
        then Some(c.(completed := c.completed[candidate.value := EligibleOf(e).value]))
        else None
      case TournamentCompleted =>
        var winner := WinnerOf(e);
        if winner.Some? && c.declared && |c.started| == 3 && |c.completed| == 3 && winner.value in c.completed
          && c.completed[winner.value]
        then Some(c.(terminal := true))
        else None
      case TournamentFailed => if c.declared then Some(c.(terminal := true)) else None
      case Unsupported => None
  }

  predicate Bound(c: Chain, candidate: string, sandbox: string) {
    candidate in c.started && c.started[candidate] == sandbox
  }

  /** The verifier's state after the whole log, or None when it rejects. */
  function Verify(hash: string -> string, events: seq<Event>): Option<Chain> {
    if events == [] then Some(EMPTY_CHAIN)
    else
      match Verify(hash, events[..|events| - 1])
      case None => None
      case Some(c) => Step(hash, c, events[|events| - 1])
  }

  predicate Accepted(hash: string -> string, events: seq<Event>) { Verify(hash, events).Some? }

  lemma VerifyExtend(hash: string -> string, events: seq<Event>, e: Event)
    ensures Verify(hash, events + [e]) ==
            match Verify(hash, events)
            case None => None
            case Some(c) => Step(hash, c, e)
  {
    assert (events + [e])[..|events|] == events;
  }

  /** The loop over mutable maps, sets and flags decides exactly the automaton. */
  method VerifyEventChain(hash: string -> string, events: seq<Event>) returns (ok: bool)
    ensures ok <==> Accepted(hash, events)
  {
    hide KindOf, CandidateOf, SandboxOf, CommandOf, WinnerOf, EligibleOf, DeclaresThree, LocalTest, Digest;
    var previousEventHash: Option<string> := None;
    var sessionId: Option<string> := None;
    var declaredCandidateCount: Option<nat> := None;
    var terminal := false;
    var startedCandidates: map<string, string> := map[];
    var startedSandboxes: set<string> := {};
    var completedCandidates: map<string, bool> := map[];
    assert events[..0] == [];
    for index := 0 to |events|
      invariant declaredCandidateCount.None? || declaredCandidateCount.value == 3
      invariant Verify(hash, events[..index]) ==
                Some(Chain(index, previousEventHash, sessionId, declaredCandidateCount.Some?, terminal,
                           startedCandidates, startedSandboxes, completedCandidates))
    {
      var event := events[index];
      RejectedPrefix(hash, events, index + 1);
      assert events[..index + 1][..index] == events[..index];
      if event.schemaVersion != 1 || event.sequence != index + 1 { return false; }
      if sessionId.None? { sessionId := Some(event.sessionId); }
      if event.sessionId != sessionId.value { return false; }
      if !LocalTest(event.provenance) { return false; }
      if event.previousEventHash != previousEventHash { return false; }
      if event.eventHash != Digest(hash, event) { return false; }
      previousEventHash := Some(event.eventHash);
      if terminal { return false; }
      var candidateId, sandboxId := CandidateOf(event), SandboxOf(event);
      match KindOf(event.eventType)
      case TournamentStarted =>
        if index != 0 || declaredCandidateCount.Some? { return false; }
        if !DeclaresThree(event) { return false; }
        declaredCandidateCount := Some(3);
      case ValidationStarted =>
        if declaredCandidateCount.None? || candidateId.None? || sandboxId.None? { return false; }
        if candidateId.value in startedCandidates || sandboxId.value in startedSandboxes
          || |startedCandidates| >= declaredCandidateCount.value
        {
          return false;
        }
        startedCandidates := startedCandidates[candidateId.value := sandboxId.value];
        startedSandboxes := startedSandboxes + {sandboxId.value};
      case CommandCompleted =>
        if candidateId.None? || sandboxId.None? || CommandOf(event).None? { return false; }
        if candidateId.value !in startedCandidates || startedCandidates[candidateId.value] != sandboxId.value {
          return false;
        }
      case ValidationCompleted =>
        var eligible := EligibleOf(event);
        if candidateId.None? || sandboxId.None? { return false; }
        if candidateId.value !in startedCandidates || startedCandidates[candidateId.value] != sandboxId.value {
          return false;
        }
        if candidateId.value in completedCandidates || eligible.None? { return false; }
        completedCandidates := completedCandidates[candidateId.value := eligible.value];
      case TournamentCompleted =>
        var winner := WinnerOf(event);
        if winner.None? || declaredCandidateCount.None? { return false; }
        if |startedCandidates| != declaredCandidateCount.value
          || |completedCandidates| != declaredCandidateCount.value
        {
          return false;
        }
        if winner.value !in completedCandidates || !completedCandidates[winner.value] { return false; }
        terminal := true;
      case TournamentFailed =>
        if declaredCandidateCount.None? { return false; }
        terminal := true;
      case Unsupported => return false;
    }
    assert events[..|events|] == events;
    ok := true;
  }

  // ----- prefixes

  lemma {:induction false} PrefixAccepted(hash: string -> string, events: seq<Event>, n: nat)
    requires n <= |events| && Accepted(hash, events)
    ensures Accepted(hash, events[..n])
    decreases |events|
  {
    if n == |events| {
      assert events[..n] == events;
    } else {
      PrefixAccepted(hash, events[..|events| - 1], n);
      assert events[..|events| - 1][..n] == events[..n];
    }
  }

  lemma RejectedPrefix(hash: string -> string, events: seq<Event>, n: nat)
    requires n <= |events|
    ensures Verify(hash, events[..n]).None? ==> !Accepted(hash, events)
  {
    if Accepted(hash, events) { PrefixAccepted(hash, events, n); }
  }

  /** What acceptance says about the events themselves. */
  ghost predicate SoundLog(c: Chain, events: seq<Event>) {
    && c.count == |events|
    && (c.declared <==> events != [])
    && (events != [] ==>
          && KindOf(events[0].eventType) == TournamentStarted
          && c.last == Some(events[|events| - 1].eventHash)
          && c.session == Some(events[0].sessionId)
          && (c.terminal <==> KindOf(events[|events| - 1].eventType) in {TournamentCompleted, TournamentFailed}))
    && (forall i :: 0 <= i < |events| - 1 ==> KindOf(events[i].eventType) !in {TournamentCompleted, TournamentFailed})
    && (forall i :: 1 <= i < |events| ==> KindOf(events[i].eventType) != TournamentStarted)
    && (forall i :: 0 <= i < |events| ==> events[i].sequence == i + 1 && Some(events[i].sessionId) == c.session)
    && (forall i :: 1 <= i < |events| ==> LinksBack(events, i))
  }

  /** The event names the hash of the one before it. */
  predicate LinksBack(events: seq<Event>, i: nat)
    requires 1 <= i < |events|
  {
    events[i].previousEventHash == Some(events[i - 1].eventHash)
  }

  /** What the verifier's maps satisfy. */
  ghost predicate SoundMaps(c: Chain) {
    && c.completed.Keys <= c.started.Keys
    && c.sandboxes == c.started.Values
    && |c.started| <= 3
    && (forall a, b :: a in c.started && b in c.started && a != b ==> c.started[a] != c.started[b])
  }

  lemma EmptyIsSound()
    ensures SoundLog(EMPTY_CHAIN, []) && SoundMaps(EMPTY_CHAIN)
  {}

  lemma {:induction false} AcceptedIsSound(hash: string -> string, events: seq<Event>)
    requires Accepted(hash, events)
    ensures SoundLog(Verify(hash, events).value, events) && SoundMaps(Verify(hash, events).value)
    ensures events == [] ==> Verify(hash, events).value == EMPTY_CHAIN
  {
    hide Step, SoundLog, SoundMaps;
    if events == [] {
      EmptyIsSound();
    } else {
      var prior, e := events[..|events| - 1], events[|events| - 1];
      AcceptedIsSound(hash, prior);
      assert events == prior + [e];
      StepKeepsLog(hash, Verify(hash, prior).value, prior, e);
      StepKeepsMaps(hash, Verify(hash, prior).value, e);
    }
  }

  /** What one accepted step says of the event and of the next state. */
  lemma StepFacts(hash: string -> string, c: Chain, e: Event)
    requires Step(hash, c, e).Some?
    ensures var after := Step(hash, c, e).value;
      && Linked(hash, c, e)
      && after.count == c.count + 1 && after.last == Some(e.eventHash) && after.session == Some(e.sessionId)
      && after.declared == (c.declared || KindOf(e.eventType) == TournamentStarted)
      && (after.terminal <==> KindOf(e.eventType) in {TournamentCompleted, TournamentFailed})
      && (KindOf(e.eventType) == TournamentStarted ==> c.count == 0)
      && (KindOf(e.eventType) != TournamentStarted ==> c.declared || c.started != map[])
  {
    hide KindOf, CandidateOf, SandboxOf, CommandOf, WinnerOf, EligibleOf, DeclaresThree, LocalTest, Digest;
  }

  lemma StepKeepsLog(hash: string -> string, c: Chain, events: seq<Event>, e: Event)
    requires SoundLog(c, events) && (events == [] ==> c == EMPTY_CHAIN) && Step(hash, c, e).Some?
    ensures SoundLog(Step(hash, c, e).value, events + [e])
  {
    hide Step, KindOf, LocalTest, Digest, UnsignedText;
    StepFacts(hash, c, e);
    var all := events + [e];
    assert all[|events|] == e && forall i :: 0 <= i < |events| ==> all[i] == events[i];
    forall i | 1 <= i < |all| ensures LinksBack(all, i) {
      if i < |events| { assert LinksBack(events, i); }
    }
  }

  lemma StepKeepsMaps(hash: string -> string, c: Chain, e: Event)
    requires SoundMaps(c) && Step(hash, c, e).Some?
    ensures SoundMaps(Step(hash, c, e).value)
  {
    hide KindOf, CandidateOf, SandboxOf, CommandOf, WinnerOf, EligibleOf, DeclaresThree, LocalTest, Digest;
    if KindOf(e.eventType) == ValidationStarted {
      ValuesGrow(c.started, CandidateOf(e).value, SandboxOf(e).value);
    }
  }

  lemma ValuesGrow(m: map<string, string>, key: string, value: string)
    requires key !in m
    ensures m[key := value].Values == m.Values + {value} && |m[key := value]| == |m| + 1
    ensures forall k :: k in m ==> m[k] in m.Values
  {
    var n := m[key := value];
    forall v | v in m.Values + {value} ensures v in n.Values {
      if v != value {
        var k :| k in m && m[k] == v;
        assert n[k] == v;
      } else {
        assert n[key] == v;
      }
    }
  }

  /** Acceptance is prefix-closed, and an accepted log that is not empty opens with
      the start of the tournament, which occurs nowhere else. */
  lemma AcceptedShape(hash: string -> string, events: seq<Event>)
    requires Accepted(hash, events)
    ensures forall n :: 0 <= n <= |events| ==> Accepted(hash, events[..n])
    ensures forall i :: 0 <= i < |events| ==> (KindOf(events[i].eventType) == TournamentStarted <==> i == 0)
  {
    forall n | 0 <= n <= |events| ensures Accepted(hash, events[..n]) { PrefixAccepted(hash, events, n); }
    AcceptedIsSound(hash, events);
  }

  // ----- tamper evidence

  /** Two texts that differ and hash alike. */
  predicate Clash(hash: string -> string, x: string, y: string) { x != y && hash(x) == hash(y) }

  /** An event hash identifies the event, unless the two hashed texts clash. */
  lemma HashCommits(hash: string -> string, x: Event, y: Event)
    requires x.eventHash == Digest(hash, x) && y.eventHash == Digest(hash, y) && x.eventHash == y.eventHash
    ensures x == y || Clash(hash, UnsignedText(x), UnsignedText(y))
  {
    EventJsonNormal(x);
    EventJsonNormal(y);
    if UnsignedJson(x) == UnsignedJson(y) {
      UnsignedDetermines(x, y);
    } else if Print(UnsignedJson(x)) == Print(UnsignedJson(y)) {
      PrintInjective(UnsignedJson(x), UnsignedJson(y));
    }
  }

  /** Some event of one log and some event of the other were hashed from texts that clash. */
  ghost predicate LogsClash(hash: string -> string, a: seq<Event>, b: seq<Event>) {
    exists i, j :: 0 <= i < |a| && 0 <= j < |b| && Clash(hash, UnsignedText(a[i]), UnsignedText(b[j]))
  }

  /** The last hash commits to the whole log: two accepted logs that end in the same
      hash are the same log, unless two of their events clash. */
  lemma {:induction false} LastHashCommits(hash: string -> string, a: seq<Event>, b: seq<Event>)
    requires Accepted(hash, a) && Accepted(hash, b) && a != [] && b != []
    requires a[|a| - 1].eventHash == b[|b| - 1].eventHash
    ensures a == b || LogsClash(hash, a, b)
    decreases |a|
  {
    hide Step, Digest, KindOf, Clash, UnsignedText;
    var x, y := a[|a| - 1], b[|b| - 1];
    LastStep(hash, a);
    LastStep(hash, b);
    HashCommits(hash, x, y);
    if !Clash(hash, UnsignedText(x), UnsignedText(y)) {
      SequenceIsLength(hash, a);
      SequenceIsLength(hash, b);
      if |a| > 1 {
        LastHashCommits(hash, a[..|a| - 1], b[..|b| - 1]);
        if LogsClash(hash, a[..|a| - 1], b[..|b| - 1]) { PrefixesClash(hash, a, b); }
      }
      assert a == a[..|a| - 1] + [x] && b == b[..|b| - 1] + [y];
    }
  }

  lemma PrefixesClash(hash: string -> string, a: seq<Event>, b: seq<Event>)
    requires a != [] && b != [] && LogsClash(hash, a[..|a| - 1], b[..|b| - 1])
    ensures LogsClash(hash, a, b)
  {
    hide Clash, UnsignedText;
    var i, j :| 0 <= i < |a| - 1 && 0 <= j < |b| - 1
      && Clash(hash, UnsignedText(a[..|a| - 1][i]), UnsignedText(b[..|b| - 1][j]));
    assert Clash(hash, UnsignedText(a[i]), UnsignedText(b[j]));
  }

  lemma LastStep(hash: string -> string, events: seq<Event>)
    requires Accepted(hash, events) && events != []
    ensures Accepted(hash, events[..|events| - 1])
    ensures events[|events| - 1].eventHash == Digest(hash, events[|events| - 1])
  {}

  lemma SequenceIsLength(hash: string -> string, events: seq<Event>)
    requires Accepted(hash, events) && events != []
    ensures events[|events| - 1].sequence == |events|
    ensures |events| > 1 ==> events[|events| - 1].previousEventHash == Some(events[|events| - 2].eventHash)
  {
    AcceptedIsSound(hash, events);
    if |events| > 1 { assert LinksBack(events, |events| - 1); }
  }

  // ----- replay

  datatype Status = Idle | Running | Completed | Failed

  /** A replayed candidate: payload fields as found, None where one is missing. */
  datatype Replayed = Replayed(
    sandboxId: Option<Json>, buildPassed: Option<Json>, unitTestsPassed: Option<Json>, safetyTestsPassed: Option<Json>,
    eligible: Option<Json>, weightedScore: Option<Json>)

  datatype Replay = Replay(
    session: Option<string>, provenance: Option<Provenance>, status: Status, candidates: map<string, Replayed>,
    winner: Option<string>)

  const EMPTY_REPLAY := Replay(None, None, Idle, map[], None)

  function TextField(payload: seq<Member>, key: string): Option<string> {
    match Field(payload, key)
    case Some(Str(text)) => Some(text)
    case _ => None
  }

  /** The property name a candidate field becomes; a field that is no string never
      occurs in an accepted chain. */
  function CandidateKey(payload: seq<Member>): string {
    match TextField(payload, "candidateId")
    case Some(text) => text
    case None => "undefined"
  }

  function ReplayedFrom(payload: seq<Member>): Replayed {
    Replayed(
      Field(payload, "sandboxId"), Field(payload, "buildPassed"), Field(payload, "unitTestsPassed"),
      Field(payload, "safetyTestsPassed"), Field(payload, "eligible"), Field(payload, "weightedScore"))
  }

  function ReplayedWinner(payload: seq<Member>): Option<string> { TextField(payload, "winnerCandidateId") }

  /** On events the verifier accepts, the reducer's unchecked reads find what the
      verifier's checked reads found. */
  lemma ReadsAgree(e: Event)
    ensures CandidateOf(e).Some? ==> CandidateKey(e.payload) == CandidateOf(e).value
    ensures SandboxOf(e).Some? ==> ReplayedFrom(e.payload).sandboxId == Some(Str(SandboxOf(e).value))
    ensures EligibleOf(e).Some? ==> ReplayedFrom(e.payload).eligible == Some(Bool(EligibleOf(e).value))
    ensures WinnerOf(e).Some? ==> ReplayedWinner(e.payload) == WinnerOf(e)
  {}

  function Reduce(state: Replay, e: Event): Replay {
    match KindOf(e.eventType)
    case TournamentStarted => state.(session := Some(e.sessionId), provenance := Some(e.provenance), status := Running)
    case ValidationCompleted =>
      state.(candidates := state.candidates[CandidateKey(e.payload) := ReplayedFrom(e.payload)])
    case TournamentCompleted => state.(status := Completed, winner := ReplayedWinner(e.payload))
    case TournamentFailed => state.(status := Failed)
    case _ => state
  }

  function ReplayAll(events: seq<Event>): Replay {
    if events == [] then EMPTY_REPLAY
    else Reduce(ReplayAll(events[..|events| - 1]), events[|events| - 1])
  }

  /** The replayed status, session and winner agree with the verifier's state. */
  ghost predicate AgreesOnOutcome(r: Replay, c: Chain, events: seq<Event>) {
    && r.session == c.session
    && (r.status == Idle <==> events == [])
    && (r.status == Completed <==> events != [] && KindOf(events[|events| - 1].eventType) == TournamentCompleted)
    && (r.status == Failed <==> events != [] && KindOf(events[|events| - 1].eventType) == TournamentFailed)
    && (r.winner.Some? <==> r.status == Completed)
    && (r.winner.Some? ==>
         |c.started| == 3 && |c.completed| == 3 && r.winner.value in c.completed && c.completed[r.winner.value])
  }

  /** Exactly the completed candidates are replayed, each with its started sandbox and
      its recorded eligibility. */
  ghost predicate AgreesOnCandidates(r: Replay, c: Chain) {
    && r.candidates.Keys == c.completed.Keys
    && c.completed.Keys <= c.started.Keys
    && forall k :: k in r.candidates ==>
         r.candidates[k].sandboxId == Some(Str(c.started[k])) && r.candidates[k].eligible == Some(Bool(c.completed[k]))
  }

  lemma EmptyAgrees()
    ensures AgreesOnOutcome(EMPTY_REPLAY, EMPTY_CHAIN, []) && AgreesOnCandidates(EMPTY_REPLAY, EMPTY_CHAIN)
  {}

  lemma {:induction false} ReplayAgrees(hash: string -> string, events: seq<Event>)
    requires Accepted(hash, events)
    ensures AgreesOnOutcome(ReplayAll(events), Verify(hash, events).value, events)
    ensures AgreesOnCandidates(ReplayAll(events), Verify(hash, events).value)
  {
    hide Step, Reduce, KindOf, AgreesOnCandidates, AgreesOnOutcome, SoundLog, SoundMaps;
    if events == [] {
      EmptyAgrees();
    } else {
      var prior, e := events[..|events| - 1], events[|events| - 1];
      ReplayAgrees(hash, prior);
      AcceptedIsSound(hash, prior);
      assert events == prior + [e];
      StepAgreesOnOutcome(hash, ReplayAll(prior), Verify(hash, prior).value, prior, e);
      StepAgreesOnCandidates(hash, ReplayAll(prior), Verify(hash, prior).value, e);
    }
  }

  lemma StepAgreesOnOutcome(hash: string -> string, r: Replay, c: Chain, events: seq<Event>, e: Event)
    requires AgreesOnOutcome(r, c, events) && SoundLog(c, events) && (events == [] ==> c == EMPTY_CHAIN)
    requires Step(hash, c, e).Some?
    ensures AgreesOnOutcome(Reduce(r, e), Step(hash, c, e).value, events + [e])
  {
    hide KindOf, CandidateOf, SandboxOf, CommandOf, WinnerOf, EligibleOf, DeclaresThree, LocalTest, Digest,
         ReplayedFrom, ReplayedWinner, CandidateKey;
    ReadsAgree(e);
    var s := Step(hash, c, e).value;
    assert (events + [e])[|events|] == e;
    assert r.status != Completed && r.status != Failed;
    assert s.session == Some(e.sessionId);
  }

  lemma StepAgreesOnCandidates(hash: string -> string, r: Replay, c: Chain, e: Event)
    requires AgreesOnCandidates(r, c) && Step(hash, c, e).Some?
    ensures AgreesOnCandidates(Reduce(r, e), Step(hash, c, e).value)
  {
    hide Step, Reduce, KindOf, CandidateOf, SandboxOf, EligibleOf, ReplayedFrom, CandidateKey, Linked;
    StepCandidates(hash, c, e);
    ReduceCandidates(r, e);
    ReadsAgree(e);
    var after, s := Reduce(r, e), Step(hash, c, e).value;
    if KindOf(e.eventType) == ValidationCompleted {
      var key := CandidateOf(e).value;
      assert after.candidates.Keys == r.candidates.Keys + {key} && s.completed.Keys == c.completed.Keys + {key};
    }
  }

  lemma ReduceCandidates(r: Replay, e: Event)
    ensures Reduce(r, e).candidates ==
            if KindOf(e.eventType) == ValidationCompleted
              then r.candidates[CandidateKey(e.payload) := ReplayedFrom(e.payload)]
            else r.candidates
  {
    hide KindOf, ReplayedFrom, CandidateKey;
  }

  /** How one accepted step changes the verifier's candidate maps. */
  lemma StepCandidates(hash: string -> string, c: Chain, e: Event)
    requires Step(hash, c, e).Some?
    ensures var s := Step(hash, c, e).value;
      && (forall k :: k in c.started ==> k in s.started && s.started[k] == c.started[k])
      && (KindOf(e.eventType) != ValidationCompleted ==> s.completed == c.completed)
      && (KindOf(e.eventType) == ValidationCompleted ==>
            && CandidateOf(e).Some? && SandboxOf(e).Some? && EligibleOf(e).Some?
            && s.started == c.started && CandidateOf(e).value in c.started
            && c.started[CandidateOf(e).value] == SandboxOf(e).value
            && s.completed == c.completed[CandidateOf(e).value := EligibleOf(e).value])
  {
    hide KindOf, CandidateOf, SandboxOf, CommandOf, WinnerOf, EligibleOf, DeclaresThree, LocalTest, Digest;
  }

  lemma SameSize(a: set<string>, b: set<string>)
    requires a <= b && |a| == |b|
    ensures a == b
  {
    assert |b - a| == |b| - |a|;
    assert b == a + (b - a);
  }

  /** A log that ends in completion replays to exactly the three started candidates,
      in their own and distinct sandboxes, with an eligible winner among them. */
  lemma CompletedReplay(hash: string -> string, events: seq<Event>)
    requires Accepted(hash, events)
    ensures var r, c := ReplayAll(events), Verify(hash, events).value;
            r.status == Completed ==>
              && |r.candidates| == 3 && r.candidates.Keys == c.started.Keys
              && (forall a, b :: a in r.candidates && b in r.candidates && a != b ==>
                   r.candidates[a].sandboxId != r.candidates[b].sandboxId)
              && r.winner.Some? && r.winner.value in r.candidates
              && r.candidates[r.winner.value].eligible == Some(Bool(true))
  {
    ReplayAgrees(hash, events);
    AcceptedIsSound(hash, events);
    var r, c := ReplayAll(events), Verify(hash, events).value;
    assert c.completed.Keys <= c.started.Keys;
    if r.status == Completed {
      assert |r.candidates.Keys| == |c.completed.Keys| == |c.completed| == 3;
      SameSize(c.completed.Keys, c.started.Keys);
    }
  }

  /** No replayed candidate is ever overwritten. */
  lemma ReplayNeverOverwrites(hash: string -> string, events: seq<Event>, i: nat)
    requires Accepted(hash, events) && i < |events| && KindOf(events[i].eventType) == ValidationCompleted
    ensures CandidateKey(events[i].payload) !in ReplayAll(events[..i]).candidates
  {
    hide KindOf, CandidateOf, SandboxOf, CommandOf, WinnerOf, EligibleOf, DeclaresThree, LocalTest, Digest,
         CandidateKey;
    ReadsAgree(events[i]);
    PrefixAccepted(hash, events, i + 1);
    PrefixAccepted(hash, events, i);
    assert events[..i + 1][..i] == events[..i] && events[..i + 1][i] == events[i];
    ReplayAgrees(hash, events[..i]);
  }

  /** `c` is what the completion event `e` of candidate `k` reports. */
  predicate ReportedBy(c: Replayed, k: string, e: Event) {
    && KindOf(e.eventType) == ValidationCompleted && CandidateOf(e) == Some(k)
    && c.sandboxId == Field(e.payload, "sandboxId") && c.eligible == Field(e.payload, "eligible")
    && c.buildPassed == Field(e.payload, "buildPassed") && c.weightedScore == Field(e.payload, "weightedScore")
    && c.unitTestsPassed == Field(e.payload, "unitTestsPassed")
    && c.safetyTestsPassed == Field(e.payload, "safetyTestsPassed")
  }

  lemma JustReported(hash: string -> string, c: Chain, e: Event)
    requires Step(hash, c, e).Some? && KindOf(e.eventType) == ValidationCompleted
    ensures ReportedBy(ReplayedFrom(e.payload), CandidateKey(e.payload), e)
  {
    hide Step, KindOf, Field;
    StepCandidates(hash, c, e);
    ReadsAgree(e);
  }

  /** Every replayed candidate is, field by field, what its completion event reports. */
  lemma {:induction false} ReplayedIsReported(hash: string -> string, events: seq<Event>, k: string)
    requires Accepted(hash, events) && k in ReplayAll(events).candidates
    ensures exists j :: 0 <= j < |events| && ReportedBy(ReplayAll(events).candidates[k], k, events[j])
  {
    hide Step, Reduce, KindOf, ReportedBy, ReplayedFrom, CandidateKey;
    if events != [] {
      var n := |events| - 1;
      var prior, e := events[..n], events[n];
      ReduceCandidates(ReplayAll(prior), e);
      if KindOf(e.eventType) == ValidationCompleted && k == CandidateKey(e.payload) {
        JustReported(hash, Verify(hash, prior).value, e);
      } else {
        ReplayedIsReported(hash, prior, k);
        var j :| 0 <= j < n && ReportedBy(ReplayAll(prior).candidates[k], k, prior[j]);
        assert prior[j] == events[j];
      }
    }
  }
}
