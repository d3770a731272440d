/** The database session service: decisions on a selected plan, and revalidations that
    make earlier decisions stale. */
module DatabaseSessions {
  import opened Options
  import opened JsonText
  import opened Decimal
  import opened DatabaseApprovals
  import EventChain

  datatype State = AwaitingHumanApproval | Blocked | SafeToCommit

  datatype Candidate = Candidate(candidateId: string, eligible: bool, planDigest: string, evidenceDigest: string)

  datatype AuditEvent = AuditEvent(sequence: nat, eventType: string, occurredAt: string,
                                   previousEventHash: Option<string>, eventHash: string)

  datatype ApprovalView = ApprovalView(approvalId: string, decision: Decision, approverId: string, actedAt: string,
                                       bindingDigest: string, invalidatedAt: Option<string>)

  datatype View = View(
    sessionId: string, updatedAt: string, provenance: string, state: State, sourceCommitSha: string,
    snapshotDigest: string, schemaFingerprint: string, intentContractDigest: string, currentEvidenceDigest: string,
    policyVersion: string, candidates: seq<Candidate>, winner: Option<string>, approval: Option<ApprovalView>,
    audit: seq<AuditEvent>)

  datatype Record = Record(view: View, approval: Option<Approval>, revision: nat)

  /** What a tournament and its profile contribute to a new session. */
  datatype Opening = Opening(
    provenance: string, candidates: seq<Candidate>, winner: Option<string>, tournamentDigest: string,
    snapshotDigest: string, schemaFingerprint: string, intentContractDigest: string, policyVersion: string)

  datatype Refusal = NotFound | InvalidState

  datatype Outcome = Done(view: View) | Refused(reason: Refusal)

  // ----- audit events

  function AuditJson(
      sequence: nat, eventType: string, occurredAt: string, previous: Option<string>, payload: Json): Json
  {
    Obj([ Member("eventType", Str(eventType)), Member("occurredAt", Str(occurredAt)), Member("payload", payload),
          Member("previousEventHash", EventChain.HashJson(previous)), Member("sequence", Num(Digits(sequence))) ])
  }

  function AuditHash(
      hash: string -> string, sequence: nat, eventType: string, occurredAt: string, previous: Option<string>,
      payload: Json): string
  {
    hash(Print(AuditJson(sequence, eventType, occurredAt, previous, payload)))
  }

  function NextAudit(
      hash: string -> string, events: seq<AuditEvent>, eventType: string, occurredAt: string, payload: Json): AuditEvent
  {
    var sequence := (if events == [] then 0 else events[|events| - 1].sequence) + 1;
    var previous := if events == [] then None else Some(events[|events| - 1].eventHash);
    AuditEvent(sequence, eventType, occurredAt, previous,
               AuditHash(hash, sequence, eventType, occurredAt, previous, payload))
  }

  /** Numbered from one, each linked to the one before, each hashed with its payload. */
  ghost predicate Linked(hash: string -> string, events: seq<AuditEvent>, payloads: seq<Json>) {
    |events| == |payloads| && forall i :: 0 <= i < |events| ==> LinkedAt(hash, events, payloads, i)
  }

  ghost predicate LinkedAt(hash: string -> string, events: seq<AuditEvent>, payloads: seq<Json>, i: nat)
    requires i < |events| == |payloads|
  {
    && events[i].sequence == i + 1
    && events[i].previousEventHash == (if i == 0 then None else Some(events[i - 1].eventHash))
    && events[i].eventHash ==
         AuditHash(hash, i + 1, events[i].eventType, events[i].occurredAt, events[i].previousEventHash, payloads[i])
  }

  lemma AuditGrows(
      hash: string -> string, events: seq<AuditEvent>, payloads: seq<Json>, eventType: string, at: string,
      payload: Json)
    requires Linked(hash, events, payloads)
    ensures Linked(hash, events + [NextAudit(hash, events, eventType, at, payload)], payloads + [payload])
  {
    hide AuditHash;
    var all, ps := events + [NextAudit(hash, events, eventType, at, payload)], payloads + [payload];
    forall i | 0 <= i < |all| ensures LinkedAt(hash, all, ps, i) {
      assert events != [] ==> LinkedAt(hash, events, payloads, |events| - 1);
      assert i < |events| ==> LinkedAt(hash, events, payloads, i);
    }
  }

  // ----- the operations on one record

  /** `candidates.find`. */
  function FindCandidate(candidates: seq<Candidate>, id: Option<string>): Option<Candidate> {
    if candidates == [] then None
    else if Some(candidates[0].candidateId) == id then Some(candidates[0])
    else FindCandidate(candidates[1..], id)
  }

  function Winner(v: View): Option<Candidate> { FindCandidate(v.candidates, v.winner) }

  predicate HasEligibleWinner(v: View) { Winner(v).Some? && Winner(v).value.eligible }

  function BindingOf(v: View, winner: Candidate, approverId: string, at: string): Binding {
    Binding(winner.candidateId, winner.planDigest, v.intentContractDigest, v.currentEvidenceDigest, v.snapshotDigest,
            v.schemaFingerprint,
            v.policyVersion, v.sourceCommitSha, approverId, at)
  }

  function ViewOf(a: Approval): ApprovalView {
    ApprovalView(a.approvalId, a.decision, a.binding.approverId, a.binding.timestamp, a.bindingDigest, a.invalidatedAt)
  }

  function CandidateDigests(candidates: seq<Candidate>): seq<string> {
    seq(|candidates|, i requires 0 <= i < |candidates| => candidates[i].evidenceDigest)
  }

  function Opened(
      hash: string -> string, sessionId: string, source: string, o: Opening, eventType: string, payload: Json,
      at: string): Record
  {
    Record(
      View(sessionId, at, o.provenance, if o.winner.None? then Blocked else AwaitingHumanApproval, source,
           o.snapshotDigest, o.schemaFingerprint, o.intentContractDigest,
           FirstEvidence(hash, o.tournamentDigest, CandidateDigests(o.candidates)),
           o.policyVersion, o.candidates, o.winner, None,
           [NextAudit(hash, [], eventType, at, payload)]),
      None, 1)
  }

  function Decided(
      hash: string -> string, r: Record, a: Approval, eventType: string, payload: Json, at: string): Record
  {
    r.(approval := Some(a),
       view := r.view.(updatedAt := at, state := if a.decision == Approved then SafeToCommit else Blocked,
                       approval := Some(ViewOf(a)),
                       audit := r.view.audit + [NextAudit(hash, r.view.audit, eventType, at, payload)]))
  }

  function Stale(hash: string -> string, r: Record, evidence: string, at: string): Option<Approval> {
    if r.approval.None? then None
    else InvalidateDatabaseApproval(hash, r.approval, r.approval.value.binding.(evidenceDigest := evidence), at)
  }

  function Revalidated(hash: string -> string, r: Record, eventType: string, payload: Json, at: string): Record {
    var evidence := NextEvidence(hash, r.view.currentEvidenceDigest, r.revision + 1, r.view.provenance);
    var approval := Stale(hash, r, evidence, at);
    Record(
      r.view.(updatedAt := at, state := AwaitingHumanApproval, currentEvidenceDigest := evidence,
              approval := if approval.None? then None else Some(ViewOf(approval.value)),
              audit := r.view.audit + [NextAudit(hash, r.view.audit, eventType, at, payload)]),
      approval, r.revision + 1)
  }

  // ----- what holds of every record

  /** Everything a record went through: the evidence digests it had and the texts they
      are hashes of, oldest first, the approvals recorded in it, the payloads of its audit
      events, and the texts of all bindings an approval was made for or held against. */
  datatype Past = Past(
    evidence: seq<string>, evidenceTexts: seq<string>, approvals: seq<Approval>, payloads: seq<Json>,
    bindingTexts: set<string>)

  function HashedTexts(past: Past): set<string> { (set t | t in past.evidenceTexts) + past.bindingTexts }

  /** No two texts the session hashed for its evidence and approvals clash. */
  ghost predicate NoClash(hash: string -> string, past: Past) {
    forall x, y :: x in HashedTexts(past) && y in HashedTexts(past) ==> !EventChain.Clash(hash, x, y)
  }

  ghost predicate EvidenceKept(hash: string -> string, r: Record, past: Past) {
    && |past.evidence| == |past.evidenceTexts| == r.revision >= 1
    && past.evidence[r.revision - 1] == r.view.currentEvidenceDigest
    && (exists t, ds :: past.evidenceTexts[0] == FirstText(t, ds))
    && (forall k :: 0 <= k < r.revision ==> EvidenceAt(hash, r.view.provenance, past, k))
  }

  /** Each digest is that of its text, and the text of a revision holds the digest before. */
  ghost predicate EvidenceAt(hash: string -> string, provenance: string, past: Past, k: nat)
    requires k < |past.evidence| == |past.evidenceTexts|
  {
    && past.evidence[k] == hash(past.evidenceTexts[k])
    && (k > 0 ==> past.evidenceTexts[k] == NextText(past.evidence[k - 1], k + 1, provenance))
  }

  ghost predicate ApprovalKept(hash: string -> string, a: Approval, past: Past) {
    && a.invalidatedAt.None? && a.bindingDigest == BindingDigest(hash, a.binding)
    && a.binding.evidenceDigest in past.evidence && BindingText(a.binding) in past.bindingTexts
  }

  ghost predicate ApprovalsKept(hash: string -> string, r: Record, past: Past) {
    && (r.approval.None? <==> past.approvals == [])
    && (r.approval.Some? ==> r.approval.value.(invalidatedAt := None) == past.approvals[|past.approvals| - 1])
    && (forall i :: 0 <= i < |past.approvals| ==> ApprovalKept(hash, past.approvals[i], past))
    && r.view.approval == (if r.approval.None? then None else Some(ViewOf(r.approval.value)))
  }

  /** An approval is current in a decided session, and stale or absent in a waiting one. */
  ghost predicate StateKept(hash: string -> string, r: Record, past: Past) {
    && (r.view.state == SafeToCommit ==>
          && HasEligibleWinner(r.view) && r.approval.Some?
          && r.approval.value.binding == BindingOf(r.view, Winner(r.view).value, r.approval.value.binding.approverId,
                                                   r.approval.value.binding.timestamp)
          && IsDatabaseApprovalValid(hash, r.approval, r.approval.value.binding))
    && (r.view.state == AwaitingHumanApproval && r.approval.Some? && NoClash(hash, past) ==>
          r.approval.value.invalidatedAt.Some?)
  }

  ghost predicate RecordKept(hash: string -> string, r: Record, past: Past) {
    && EvidenceKept(hash, r, past) && ApprovalsKept(hash, r, past) && StateKept(hash, r, past)
    && Linked(hash, r.view.audit, past.payloads)
  }

  /** All evidence digests a session ever had are hashes of different texts. */
  lemma EvidenceTextsDiffer(hash: string -> string, r: Record, past: Past, i: nat, j: nat)
    requires EvidenceKept(hash, r, past) && i < j < |past.evidence|
    ensures past.evidenceTexts[i] != past.evidenceTexts[j]
  {
    hide FirstText, NextText;
    assert EvidenceAt(hash, r.view.provenance, past, i) && EvidenceAt(hash, r.view.provenance, past, j);
    var e, p := past.evidence, r.view.provenance;
    if i == 0 {
      var t, ds :| past.evidenceTexts[0] == FirstText(t, ds);
      FirstDiffers(t, ds, e[j - 1], j + 1, p);
    } else {
      RevisionsDiffer(e[i - 1], i + 1, e[j - 1], j + 1, p);
    }
  }

  /** The digests are pairwise distinct exactly when no two of those texts clash. */
  lemma EvidenceNeverRepeats(hash: string -> string, r: Record, past: Past)
    requires EvidenceKept(hash, r, past)
    ensures (forall i, j :: 0 <= i < j < |past.evidence| ==> past.evidence[i] != past.evidence[j]) <==>
            (forall i, j :: 0 <= i < j < |past.evidence| ==>
               !EventChain.Clash(hash, past.evidenceTexts[i], past.evidenceTexts[j]))
  {
    hide FirstText, NextText;
    forall i, j | 0 <= i < j < |past.evidence|
      ensures past.evidence[i] == past.evidence[j] <==>
              EventChain.Clash(hash, past.evidenceTexts[i], past.evidenceTexts[j])
    {
      EvidenceTextsDiffer(hash, r, past, i, j);
      assert EvidenceAt(hash, r.view.provenance, past, i) && EvidenceAt(hash, r.view.provenance, past, j);
    }
  }

  function PastOf(o: Opening, r: Record, payload: Json): Past {
    Past([r.view.currentEvidenceDigest], [FirstText(o.tournamentDigest, CandidateDigests(o.candidates))], [],
         [payload], {})
  }

  lemma OpenedKept(
      hash: string -> string, sessionId: string, source: string, o: Opening, eventType: string, payload: Json,
      at: string)
    ensures var r := Opened(hash, sessionId, source, o, eventType, payload, at);
      RecordKept(hash, r, PastOf(o, r, payload))
  {
    hide FirstText, AuditHash, NoClash;
  }

  function PastDecided(past: Past, a: Approval, payload: Json): Past {
    past.(approvals := past.approvals + [a], payloads := past.payloads + [payload],
          bindingTexts := past.bindingTexts + {BindingText(a.binding)})
  }

  lemma DecidedKept(
    hash: string -> string, r: Record, past: Past, approvalId: string, decision: Decision, approverId: string,
    eventType: string, payload: Json, at: string)
    requires RecordKept(hash, r, past) && r.view.state == AwaitingHumanApproval && HasEligibleWinner(r.view)
    ensures
      var bound := BindingOf(r.view, Winner(r.view).value, approverId, at);
      var a := CreateDatabaseApproval(hash, approvalId, decision, bound);
      RecordKept(hash, Decided(hash, r, a, eventType, payload, at), PastDecided(past, a, payload))
  {
    hide FirstText, NextText, AuditHash, NextAudit, Linked, BindingText, FindCandidate, NoClash, ApprovalsKept;
    AuditGrows(hash, r.view.audit, past.payloads, eventType, at, payload);
    assert r.view.currentEvidenceDigest in past.evidence;
    var a := CreateDatabaseApproval(hash, approvalId, decision,
                                    BindingOf(r.view, Winner(r.view).value, approverId, at));
    DecidedApprovals(hash, r, past, Decided(hash, r, a, eventType, payload, at), a, payload);
    forall k | 0 <= k < r.revision ensures EvidenceAt(hash, r.view.provenance, PastDecided(past, a, payload), k) {
      assert EvidenceAt(hash, r.view.provenance, past, k);
    }
  }

  lemma DecidedApprovals(hash: string -> string, r: Record, past: Past, next: Record, a: Approval, payload: Json)
    requires ApprovalsKept(hash, r, past) && next.approval == Some(a) && next.view.approval == Some(ViewOf(a))
    requires a.invalidatedAt.None? && a.bindingDigest == BindingDigest(hash, a.binding)
    requires a.binding.evidenceDigest in past.evidence
    ensures ApprovalsKept(hash, next, PastDecided(past, a, payload))
  {
    hide BindingText;
    forall i | 0 <= i < |past.approvals| ensures ApprovalKept(hash, past.approvals[i], PastDecided(past, a, payload)) {
      assert ApprovalKept(hash, past.approvals[i], past);
    }
  }

  /** The past with one more revision: its evidence, and the binding an approval on record
      is then held against. */
  function PastRevalidated(r: Record, past: Past, next: Record, payload: Json): Past {
    past.(
      evidence := past.evidence + [next.view.currentEvidenceDigest],
      evidenceTexts := past.evidenceTexts + [NextText(r.view.currentEvidenceDigest, r.revision + 1, r.view.provenance)],
      payloads := past.payloads + [payload],
      bindingTexts := past.bindingTexts + StaleTexts(r, next.view.currentEvidenceDigest))
  }

  function StaleTexts(r: Record, evidence: string): set<string> {
    if r.approval.None? then {} else {BindingText(r.approval.value.binding.(evidenceDigest := evidence))}
  }

  /** Revalidation ends whatever approval is on record: its digest covers the evidence
      digest, and the new one differs from every earlier one, unless texts clash. */
  lemma RevalidatedKept(hash: string -> string, r: Record, past: Past, eventType: string, payload: Json, at: string)
    requires RecordKept(hash, r, past)
    ensures var next := Revalidated(hash, r, eventType, payload, at);
      && RecordKept(hash, next, PastRevalidated(r, past, next, payload))
      && (NoClash(hash, PastRevalidated(r, past, next, payload)) ==> next.view.currentEvidenceDigest !in past.evidence)
  {
    hide FirstText, NextText, AuditHash, NextAudit, Linked, BindingText, FindCandidate, StateKept, NoClash,
         ApprovalKept;
    AuditGrows(hash, r.view.audit, past.payloads, eventType, at, payload);
    RevalidatedEvidence(hash, r, past, eventType, payload, at);
    RevalidatedApprovals(hash, r, past, eventType, payload, at);
    RevalidatedState(hash, r, past, eventType, payload, at);
  }

  lemma EvidenceGrows(hash: string -> string, r: Record, past: Past, next: Record, payload: Json)
    requires EvidenceKept(hash, r, past) && next.revision == r.revision + 1 && next.view.provenance == r.view.provenance
    requires next.view.currentEvidenceDigest ==
             NextEvidence(hash, r.view.currentEvidenceDigest, r.revision + 1, r.view.provenance)
    ensures EvidenceKept(hash, next, PastRevalidated(r, past, next, payload))
  {
    hide FirstText, NextText, StaleTexts;
    var after := PastRevalidated(r, past, next, payload);
    assert after.evidenceTexts[0] == past.evidenceTexts[0];
    forall k | 0 <= k < next.revision ensures EvidenceAt(hash, next.view.provenance, after, k) {
      if k < r.revision { assert EvidenceAt(hash, r.view.provenance, past, k); }
    }
  }

  /** The last evidence differs from all before it unless texts clash. */
  lemma LastEvidenceIsNew(hash: string -> string, r: Record, past: Past, i: nat)
    requires EvidenceKept(hash, r, past) && NoClash(hash, past) && i < |past.evidence| - 1
    ensures past.evidence[i] != r.view.currentEvidenceDigest
  {
    hide FirstText, NextText;
    var n := |past.evidence| - 1;
    EvidenceTextsDiffer(hash, r, past, i, n);
    assert EvidenceAt(hash, r.view.provenance, past, i) && EvidenceAt(hash, r.view.provenance, past, n);
    assert past.evidenceTexts[i] in HashedTexts(past) && past.evidenceTexts[n] in HashedTexts(past);
  }

  lemma RevalidatedEvidence(hash: string -> string, r: Record, past: Past, eventType: string, payload: Json, at: string)
    requires EvidenceKept(hash, r, past)
    ensures var next := Revalidated(hash, r, eventType, payload, at);
      && EvidenceKept(hash, next, PastRevalidated(r, past, next, payload))
      && (NoClash(hash, PastRevalidated(r, past, next, payload)) ==> next.view.currentEvidenceDigest !in past.evidence)
  {
    hide NextText, NextAudit, Stale, StaleTexts, NoClash;
    var next := Revalidated(hash, r, eventType, payload, at);
    var after := PastRevalidated(r, past, next, payload);
    assert |past.evidence| == r.revision;
    hide EvidenceKept;
    EvidenceGrows(hash, r, past, next, payload);
    forall i | 0 <= i < r.revision && NoClash(hash, after) ensures past.evidence[i] != next.view.currentEvidenceDigest {
      LastEvidenceIsNew(hash, next, after, i);
      assert after.evidence[i] == past.evidence[i];
    }
  }

  lemma RevalidatedApprovals(
      hash: string -> string, r: Record, past: Past, eventType: string, payload: Json, at: string)
    requires ApprovalsKept(hash, r, past)
    ensures var next := Revalidated(hash, r, eventType, payload, at);
      ApprovalsKept(hash, next, PastRevalidated(r, past, next, payload))
  {
    hide NextText, NextAudit, BindingText, FindCandidate, StaleTexts;
  }

  lemma RevalidatedState(hash: string -> string, r: Record, past: Past, eventType: string, payload: Json, at: string)
    requires ApprovalsKept(hash, r, past) && EvidenceKept(hash, r, past)
    ensures var next := Revalidated(hash, r, eventType, payload, at);
      StateKept(hash, next, PastRevalidated(r, past, next, payload))
  {
    hide NextText, FirstText, NextAudit, BindingText, FindCandidate, EvidenceKept, NoClash;
    var next := Revalidated(hash, r, eventType, payload, at);
    var after := PastRevalidated(r, past, next, payload);
    if r.approval.Some? && NoClash(hash, after) {
      RevalidatedEvidence(hash, r, past, eventType, payload, at);
      var a, last := r.approval.value, past.approvals[|past.approvals| - 1];
      assert ApprovalKept(hash, last, past) && a.binding == last.binding;
      var current := a.binding.(evidenceDigest := next.view.currentEvidenceDigest);
      assert BindingText(current) in after.bindingTexts && BindingText(a.binding) in after.bindingTexts;
      BindingsApart(hash, after, current, a.binding);
    }
  }

  /** The digests of different bindings whose texts the session hashed differ. */
  lemma BindingsApart(hash: string -> string, past: Past, a: Binding, b: Binding)
    requires NoClash(hash, past) && BindingText(a) in past.bindingTexts && BindingText(b) in past.bindingTexts && a != b
    ensures BindingDigest(hash, a) != BindingDigest(hash, b)
  {
    hide BindingText;
    BindingTextsDiffer(a, b);
    assert BindingText(a) in HashedTexts(past) && BindingText(b) in HashedTexts(past);
  }

  // ----- what the invariant means

  /** A session is safe to commit only on a standing approval of its current evidence and
      of the plan of an eligible winner. */
  lemma SafeToCommitIsApproved(hash: string -> string, r: Record, past: Past)
    requires RecordKept(hash, r, past) && r.view.state == SafeToCommit
    ensures HasEligibleWinner(r.view) && r.approval.Some?
    ensures var a, w := r.approval.value, Winner(r.view).value;
      && a.decision == Approved && a.invalidatedAt.None? && a.binding.evidenceDigest == r.view.currentEvidenceDigest
      && a.binding.candidateId == w.candidateId && a.binding.planDigest == w.planDigest
      && a.binding.snapshotDigest == r.view.snapshotDigest
      && a.binding.intentContractDigest == r.view.intentContractDigest
      && a.binding.schemaFingerprint == r.view.schemaFingerprint
      && a.binding.policyVersion == r.view.policyVersion
      && a.binding.sourceCommitSha == r.view.sourceCommitSha && a.bindingDigest == BindingDigest(hash, a.binding)
  {
    hide EvidenceKept, ApprovalsKept, Linked, BindingDigest, FindCandidate;
  }

  /** An approval given for an older revision is valid for a binding to the current
      evidence exactly when it approves and the texts of the two bindings clash. */
  lemma OldApprovalNeverValid(hash: string -> string, r: Record, past: Past, i: nat, current: Binding)
    requires RecordKept(hash, r, past) && i < |past.approvals|
    requires past.approvals[i].binding.evidenceDigest != r.view.currentEvidenceDigest
    requires current.evidenceDigest == r.view.currentEvidenceDigest
    ensures IsDatabaseApprovalValid(hash, Some(past.approvals[i]), current) <==>
            && past.approvals[i].decision == Approved
            && EventChain.Clash(hash, BindingText(past.approvals[i].binding), BindingText(current))
  {
    hide EvidenceKept, Linked, StateKept, BindingText;
    assert ApprovalKept(hash, past.approvals[i], past);
    BindingTextsDiffer(past.approvals[i].binding, current);
  }

  // ----- the service

  function OpeningPayload(o: Opening): Json {
    Obj([ Member("provenance", Str(o.provenance)), Member("tournamentDigest", Str(o.tournamentDigest)),
          Member("winnerCandidateId", if o.winner.None? then Null else Str(o.winner.value)) ])
  }

  function DecisionText(d: Decision): string {
    match d
    case Approved => "approved"
    case Rejected => "rejected"
    case ChangesRequested => "changes_requested"
  }

  function DecisionPayload(a: Approval): Json {
    Obj([ Member("bindingDigest", Str(a.bindingDigest)), Member("candidateId", Str(a.binding.candidateId)),
          Member("decision", Str(DecisionText(a.decision))) ])
  }

  function RevisionPayload(revision: nat, evidence: string): Json {
    Obj([Member("evidenceDigest", Str(evidence)), Member("evidenceRevision", Num(Digits(revision)))])
  }

  function OpeningType(): string { "DATABASE_TOURNAMENT_COMPLETED" }
  function DecisionType(): string { "DATABASE_APPROVAL_RECORDED" }
  function RevisionType(): string { "DATABASE_EVIDENCE_REVALIDATED" }

  function AfterCreate(hash: string -> string, source: string, id: string, o: Opening, at: string): Record {
    Opened(hash, id, source, o, OpeningType(), OpeningPayload(o), at)
  }

  function ApprovalMade(
      hash: string -> string, v: View, winner: Candidate, approvalId: string, decision: Decision, approverId: string,
      at: string): Approval
  {
    CreateDatabaseApproval(hash, approvalId, decision, BindingOf(v, winner, approverId, at))
  }

  /** The record a decision leads to, or None where it is refused. */
  function AfterDecide(
      hash: string -> string, r: Record, approvalId: string, decision: Decision, approverId: string, at: string)
    : Option<Record>
  {
    if r.view.state != AwaitingHumanApproval || Winner(r.view).None? || !Winner(r.view).value.eligible then None
    else
      var a := ApprovalMade(hash, r.view, Winner(r.view).value, approvalId, decision, approverId, at);
      Some(Decided(hash, r, a, DecisionType(), DecisionPayload(a), at))
  }

  /** The record a revalidation leads to, or None where it is refused. */
  function AfterRevalidate(hash: string -> string, r: Record, at: string): Option<Record> {
    if !HasEligibleWinner(r.view) then None
    else
      var evidence := NextEvidence(hash, r.view.currentEvidenceDigest, r.revision + 1, r.view.provenance);
      Some(Revalidated(hash, r, RevisionType(), RevisionPayload(r.revision + 1, evidence), at))
  }

  // ----- the operations written out

  /** Candidate `i` is the first that the recorded winner names. */
  ghost predicate WinnerAt(v: View, i: int) { FirstAt(v.candidates, v.winner, i) }

  ghost predicate FirstAt(candidates: seq<Candidate>, id: Option<string>, i: int) {
    && 0 <= i < |candidates| && id == Some(candidates[i].candidateId)
    && forall j :: 0 <= j < i ==> id != Some(candidates[j].candidateId)
  }

  ghost predicate EligibleWinner(v: View) { exists i :: WinnerAt(v, i) && v.candidates[i].eligible }

  lemma {:induction false} FoundFirst(candidates: seq<Candidate>, id: Option<string>, i: int)
    requires FirstAt(candidates, id, i)
    ensures FindCandidate(candidates, id) == Some(candidates[i])
  {
    if i > 0 { FoundFirst(candidates[1..], id, i - 1); }
  }

  lemma {:induction false} FoundSome(candidates: seq<Candidate>, id: Option<string>)
    ensures FindCandidate(candidates, id).Some? ==> exists i :: FirstAt(candidates, id, i)
  {
    if candidates != [] {
      FoundSome(candidates[1..], id);
      if Some(candidates[0].candidateId) == id {
        assert FirstAt(candidates, id, 0);
      } else if i :| FirstAt(candidates[1..], id, i) {
        assert FirstAt(candidates, id, i + 1);
      }
    }
  }

  lemma WinnerSpelled(v: View, i: int)
    ensures WinnerAt(v, i) ==> Winner(v) == Some(v.candidates[i])
    ensures HasEligibleWinner(v) <==> EligibleWinner(v)
  {
    hide FindCandidate;
    if WinnerAt(v, i) { FoundFirst(v.candidates, v.winner, i); }
    if j :| WinnerAt(v, j) && v.candidates[j].eligible { FoundFirst(v.candidates, v.winner, j); }
    FoundSome(v.candidates, v.winner);
    if HasEligibleWinner(v) {
      var j :| FirstAt(v.candidates, v.winner, j);
      FoundFirst(v.candidates, v.winner, j);
      assert WinnerAt(v, j);
    }
  }

  /** One event is added, numbered and linked after the last, and its hash covers what it
      says and what it is linked to. */
  ghost predicate Appends(
      hash: string -> string, before: seq<AuditEvent>, after: seq<AuditEvent>, eventType: string, at: string,
      payload: Json)
  {
    && |after| == |before| + 1 && after[..|before|] == before
    && var last, e := if before == [] then None else Some(before[|before| - 1]), after[|before|];
    && e.sequence == (if last.None? then 1 else last.value.sequence + 1) && e.eventType == eventType
    && e.occurredAt == at && e.previousEventHash == (if last.None? then None else Some(last.value.eventHash))
    && e.eventHash == hash(Print(Obj(
                             [ Member("eventType", Str(eventType)), Member("occurredAt", Str(at)),
                               Member("payload", payload),
                               Member("previousEventHash", if last.None? then Null else Str(last.value.eventHash)),
                               Member("sequence", Num(Digits(e.sequence))) ])))
  }

  lemma NextAuditAppends(
      hash: string -> string, events: seq<AuditEvent>, eventType: string, at: string, payload: Json)
    ensures Appends(hash, events, events + [NextAudit(hash, events, eventType, at, payload)], eventType, at, payload)
  {
    hide Digits, Print;
  }

  /** The record a new session starts as. */
  ghost predicate CreatedAs(hash: string -> string, source: string, id: string, o: Opening, at: string, r: Record) {
    && r.approval == None && r.revision == 1
    && var v := r.view;
    && v == View(id, at, o.provenance, if o.winner == None then Blocked else AwaitingHumanApproval, source,
                 o.snapshotDigest, o.schemaFingerprint, o.intentContractDigest, v.currentEvidenceDigest,
                 o.policyVersion, o.candidates, o.winner, None, v.audit)
    && (exists ds: seq<string> ::
          && |ds| == |o.candidates| && (forall i :: 0 <= i < |ds| ==> ds[i] == o.candidates[i].evidenceDigest)
          && v.currentEvidenceDigest == hash(FirstText(o.tournamentDigest, ds)))
    && Appends(hash, [], v.audit, "DATABASE_TOURNAMENT_COMPLETED", at,
               Obj([ Member("provenance", Str(o.provenance)), Member("tournamentDigest", Str(o.tournamentDigest)),
                     Member("winnerCandidateId", if o.winner == None then Null else Str(o.winner.value)) ]))
  }

  lemma CreatedExactly(hash: string -> string, source: string, id: string, o: Opening, at: string)
    ensures var r := AfterCreate(hash, source, id, o, at);
      CreatedAs(hash, source, id, o, at, r) && (r.view.state == Blocked <==> o.winner == None)
  {
    hide Appends, NextAudit, FirstText;
    NextAuditAppends(hash, [], OpeningType(), at, OpeningPayload(o));
    var ds := CandidateDigests(o.candidates);
    assert |ds| == |o.candidates| && forall i :: 0 <= i < |ds| ==> ds[i] == o.candidates[i].evidenceDigest;
    assert [] + [NextAudit(hash, [], OpeningType(), at, OpeningPayload(o))] ==
           [NextAudit(hash, [], OpeningType(), at, OpeningPayload(o))];
  }

  /** What a decision on candidate `w` binds. */
  function Bound(v: View, w: Candidate, approverId: string, at: string): Binding {
    Binding(candidateId := w.candidateId, planDigest := w.planDigest, intentContractDigest := v.intentContractDigest,
            evidenceDigest := v.currentEvidenceDigest, snapshotDigest := v.snapshotDigest,
            schemaFingerprint := v.schemaFingerprint, policyVersion := v.policyVersion,
            sourceCommitSha := v.sourceCommitSha, approverId := approverId, timestamp := at)
  }

  /** The record after a decision on candidate `w`: safe exactly when it approves. */
  ghost predicate DecidedOn(
      hash: string -> string, r: Record, w: Candidate, approvalId: string, decision: Decision, approverId: string,
      at: string, next: Record)
  {
    && var digest := hash(BindingText(Bound(r.view, w, approverId, at)));
    && next.approval ==
         Some(Approval(approvalId, decision, Bound(r.view, w, approverId, at), digest, None))
    && next.revision == r.revision
    && next.view == r.view.(
         updatedAt := at, state := if decision == Approved then SafeToCommit else Blocked,
         approval := Some(ApprovalView(approvalId, decision, approverId, at, digest, None)), audit := next.view.audit)
    && Appends(hash, r.view.audit, next.view.audit, "DATABASE_APPROVAL_RECORDED", at,
               Obj([ Member("bindingDigest", Str(digest)), Member("candidateId", Str(w.candidateId)),
                     Member("decision", Str(
                              match decision
                              case Approved => "approved"
                              case Rejected => "rejected"
                              case ChangesRequested => "changes_requested")) ]))
  }

  /** A decision is taken exactly in a waiting session whose named winner is eligible, and
      is a decision on that winner. */
  lemma DecidedExactly(
      hash: string -> string, r: Record, approvalId: string, decision: Decision, approverId: string, at: string)
    ensures var next := AfterDecide(hash, r, approvalId, decision, approverId, at);
      && (next.Some? <==> r.view.state == AwaitingHumanApproval && EligibleWinner(r.view))
      && (next.Some? ==> forall i :: WinnerAt(r.view, i) ==>
                           DecidedOn(hash, r, r.view.candidates[i], approvalId, decision, approverId, at, next.value))
  {
    hide Appends, NextAudit, BindingText, FindCandidate, EligibleWinner;
    var next := AfterDecide(hash, r, approvalId, decision, approverId, at);
    WinnerSpelled(r.view, 0);
    forall i | WinnerAt(r.view, i) && next.Some?
      ensures DecidedOn(hash, r, r.view.candidates[i], approvalId, decision, approverId, at, next.value)
    {
      WinnerSpelled(r.view, i);
      var a := ApprovalMade(hash, r.view, Winner(r.view).value, approvalId, decision, approverId, at);
      NextAuditAppends(hash, r.view.audit, DecisionType(), at, DecisionPayload(a));
    }
  }

  /** The record after a revalidation: it waits for a decision on new evidence, and an
      approval ends unless it ended before or is bound to the new evidence. */
  ghost predicate RevalidatedAs(hash: string -> string, r: Record, at: string, next: Record) {
    && var evidence := hash(NextText(r.view.currentEvidenceDigest, r.revision + 1, r.view.provenance));
    && next.revision == r.revision + 1
    && next.view == r.view.(updatedAt := at, state := AwaitingHumanApproval, currentEvidenceDigest := evidence,
                            approval := next.view.approval, audit := next.view.audit)
    && (r.approval == None ==> next.approval == None && next.view.approval == None)
    && (r.approval.Some? ==>
          && var a := r.approval.value;
          && next.approval == Some(a.(invalidatedAt :=
               if || a.invalidatedAt.Some?
                  || (&& a.decision == Approved
                      && a.bindingDigest == hash(BindingText(a.binding.(evidenceDigest := evidence))))
               then a.invalidatedAt else Some(at)))
          && next.view.approval == Some(ApprovalView(a.approvalId, a.decision, a.binding.approverId,
                                                     a.binding.timestamp, a.bindingDigest,
                                                     next.approval.value.invalidatedAt)))
    && Appends(hash, r.view.audit, next.view.audit, "DATABASE_EVIDENCE_REVALIDATED", at,
               Obj([ Member("evidenceDigest", Str(evidence)),
                     Member("evidenceRevision", Num(Digits(r.revision + 1))) ]))
  }

  lemma RevalidatedExactly(hash: string -> string, r: Record, at: string)
    ensures var next := AfterRevalidate(hash, r, at);
      && (next.Some? <==> EligibleWinner(r.view))
      && (next.Some? ==> RevalidatedAs(hash, r, at, next.value))
  {
    hide Appends, NextAudit, BindingText, NextText, WinnerAt, FindCandidate, EligibleWinner, HasEligibleWinner, Digits;
    WinnerSpelled(r.view, 0);
    var evidence := NextEvidence(hash, r.view.currentEvidenceDigest, r.revision + 1, r.view.provenance);
    NextAuditAppends(hash, r.view.audit, RevisionType(), at, RevisionPayload(r.revision + 1, evidence));
  }

  /** The answer to a request, and the records after it. */
  function Answer(known: bool, next: Option<Record>): Outcome {
    if !known then Refused(NotFound) else if next.None? then Refused(InvalidState) else Done(next.value.view)
  }

  function Updated(records: map<string, Record>, id: string, next: Option<Record>): map<string, Record> {
    if next.None? then records else records[id := next.value]
  }

  /** A decision is taken exactly in a known waiting session with an eligible winner; it
      makes the session safe exactly when it approves, and blocks it otherwise. */
  ghost predicate DecisionAnswered(
      hash: string -> string, before: map<string, Record>, id: string, approvalId: string, decision: Decision,
      approverId: string, at: string, out: Outcome, after: map<string, Record>)
  {
    if id !in before then out == Refused(NotFound) && after == before
    else if before[id].view.state == AwaitingHumanApproval && EligibleWinner(before[id].view) then
      && id in after && after == before[id := after[id]] && out == Done(after[id].view)
      && out.view.state == (if decision == Approved then SafeToCommit else Blocked)
      && forall i :: WinnerAt(before[id].view, i) ==>
           DecidedOn(hash, before[id], before[id].view.candidates[i], approvalId, decision, approverId, at, after[id])
    else out == Refused(InvalidState) && after == before
  }

  lemma DecisionAnswers(
      hash: string -> string, records: map<string, Record>, id: string, approvalId: string, decision: Decision,
      approverId: string, at: string)
    ensures
      var next := if id in records then AfterDecide(hash, records[id], approvalId, decision, approverId, at) else None;
      DecisionAnswered(hash, records, id, approvalId, decision, approverId, at, Answer(id in records, next),
                       Updated(records, id, next))
  {
    if id in records {
      DecidedExactly(hash, records[id], approvalId, decision, approverId, at);
      hide EligibleWinner, DecidedOn, NextAudit, Winner, ApprovalMade, DecisionPayload, DecisionType;
      var next := AfterDecide(hash, records[id], approvalId, decision, approverId, at);
      assert next.Some? ==> records[id := next.value][id] == next.value;
    }
  }

  /** A revalidation is done exactly in a known session with an eligible winner; the
      session then waits for a decision on its new evidence. */
  ghost predicate RevalidationAnswered(
      hash: string -> string, before: map<string, Record>, id: string, at: string, out: Outcome,
      after: map<string, Record>)
  {
    if id !in before then out == Refused(NotFound) && after == before
    else if EligibleWinner(before[id].view) then
      && id in after && after == before[id := after[id]] && out == Done(after[id].view)
      && out.view.state == AwaitingHumanApproval && RevalidatedAs(hash, before[id], at, after[id])
    else out == Refused(InvalidState) && after == before
  }

  lemma RevalidationAnswers(hash: string -> string, records: map<string, Record>, id: string, at: string)
    ensures var next := if id in records then AfterRevalidate(hash, records[id], at) else None;
      RevalidationAnswered(hash, records, id, at, Answer(id in records, next), Updated(records, id, next))
  {
    if id in records {
      RevalidatedExactly(hash, records[id], at);
      hide EligibleWinner, RevalidatedAs, NextAudit, Winner, RevisionPayload, RevisionType, NextEvidence, Stale;
      var next := AfterRevalidate(hash, records[id], at);
      assert next.Some? ==> records[id := next.value][id] == next.value;
    }
  }

  ghost predicate AllKept(hash: string -> string, records: map<string, Record>, past: map<string, Past>) {
    records.Keys == past.Keys && forall id :: id in records ==> RecordKept(hash, records[id], past[id])
  }

  class DatabaseSessionService {
    const hash: string -> string
    const sourceCommitSha: string
    const approverId: string
    var records: map<string, Record>
    ghost var past: map<string, Past>

    ghost predicate Valid()
      reads this
    {
      AllKept(hash, records, past)
    }

    constructor (hash: string -> string, sourceCommitSha: string, approverId: string)
      ensures Valid() && records == map[] && this.hash == hash && this.sourceCommitSha == sourceCommitSha
      ensures this.approverId == approverId
    {
      this.hash, this.sourceCommitSha, this.approverId := hash, sourceCommitSha, approverId;
      records, past := map[], map[];
    }

    method Create(id: string, o: Opening, at: string) returns (view: View)
      requires Valid()
      modifies this
      ensures Valid() && records == old(records)[id := AfterCreate(hash, sourceCommitSha, id, o, at)]
      ensures view == records[id].view && CreatedAs(hash, sourceCommitSha, id, o, at, records[id])
      ensures view.state == Blocked <==> o.winner == None
    {
      CreatedExactly(hash, sourceCommitSha, id, o, at);
      hide CreatedAs;
      hide RecordKept, Opened, OpeningType, OpeningPayload;
      OpenedKept(hash, id, sourceCommitSha, o, OpeningType(), OpeningPayload(o), at);
      var r := Opened(hash, id, sourceCommitSha, o, OpeningType(), OpeningPayload(o), at);
      past := past[id := PastOf(o, r, OpeningPayload(o))];
      records := records[id := r];
      view := r.view;
    }

    /** Decides on the selected plan of a waiting session. */
    method Decide(id: string, approvalId: string, decision: Decision, at: string) returns (out: Outcome)
      requires Valid()
      modifies this
      ensures Valid()
      ensures var next := if id in old(records)
              then AfterDecide(hash, old(records)[id], approvalId, decision, approverId, at) else None;
              out == Answer(id in old(records), next) && records == Updated(old(records), id, next)
      ensures DecisionAnswered(hash, old(records), id, approvalId, decision, approverId, at, out, records)
    {
      DecisionAnswers(hash, records, id, approvalId, decision, approverId, at);
      hide DecisionAnswered, RecordKept, Decided, DecisionType, DecisionPayload, FindCandidate, BindingDigest;
      if id !in records { return Refused(NotFound); }
      var r := records[id];
      if r.view.state != AwaitingHumanApproval { return Refused(InvalidState); }
      var winner := Winner(r.view);
      if winner.None? || !winner.value.eligible { return Refused(InvalidState); }
      var approval := ApprovalMade(hash, r.view, winner.value, approvalId, decision, approverId, at);
      KnownIsKept(hash, records, past, id);
      DecidedKept(hash, r, past[id], approvalId, decision, approverId, DecisionType(), DecisionPayload(approval), at);
      past := past[id := PastDecided(past[id], approval, DecisionPayload(approval))];
      records := records[id := Decided(hash, r, approval, DecisionType(), DecisionPayload(approval), at)];
      out := Done(records[id].view);
    }

    /** Revalidates: the evidence moves on and the session waits for a new decision. */
    method Revalidate(id: string, at: string) returns (out: Outcome)
      requires Valid()
      modifies this
      ensures Valid()
      ensures var next := if id in old(records) then AfterRevalidate(hash, old(records)[id], at) else None;
              out == Answer(id in old(records), next) && records == Updated(old(records), id, next)
      ensures RevalidationAnswered(hash, old(records), id, at, out, records)
    {
      RevalidationAnswers(hash, records, id, at);
      hide RevalidationAnswered, RecordKept, Revalidated, RevisionType, RevisionPayload, FindCandidate, NextEvidence;
      if id !in records { return Refused(NotFound); }
      var r := records[id];
      var winner := Winner(r.view);
      if winner.None? || !winner.value.eligible { return Refused(InvalidState); }
      var evidence := NextEvidence(hash, r.view.currentEvidenceDigest, r.revision + 1, r.view.provenance);
      var payload := RevisionPayload(r.revision + 1, evidence);
      KnownIsKept(hash, records, past, id);
      RevalidatedKept(hash, r, past[id], RevisionType(), payload, at);
      var next := Revalidated(hash, r, RevisionType(), payload, at);
      past := past[id := PastRevalidated(r, past[id], next, payload)];
      records := records[id := next];
      out := Done(next.view);
    }
  }

  lemma KnownIsKept(hash: string -> string, records: map<string, Record>, past: map<string, Past>, id: string)
    requires AllKept(hash, records, past) && id in records
    ensures id in past && RecordKept(hash, records[id], past[id])
  {}
}
