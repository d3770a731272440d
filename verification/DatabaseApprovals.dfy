/** Approvals of database plans, and the digests a database session is built from. */
module DatabaseApprovals {
  import opened Options
  import opened Order
  import opened JsonText
  import opened Decimal
  import opened EventChain

  datatype Decision = Approved | Rejected | ChangesRequested

  datatype Binding = Binding(
    candidateId: string, planDigest: string, intentContractDigest: string, evidenceDigest: string,
    snapshotDigest: string, schemaFingerprint: string, policyVersion: string, sourceCommitSha: string,
    approverId: string, timestamp: string)

  datatype Approval = Approval(
    approvalId: string, decision: Decision, binding: Binding, bindingDigest: string, invalidatedAt: Option<string>)

  function BindingMembers(b: Binding): seq<Member> {
    [ Member("approverId", Str(b.approverId)), Member("candidateId", Str(b.candidateId)),
      Member("evidenceDigest", Str(b.evidenceDigest)),
      Member("intentContractDigest", Str(b.intentContractDigest)), Member("planDigest", Str(b.planDigest)),
      Member("policyVersion", Str(b.policyVersion)), Member("schemaFingerprint", Str(b.schemaFingerprint)),
      Member("snapshotDigest", Str(b.snapshotDigest)), Member("sourceCommitSha", Str(b.sourceCommitSha)),
      Member("timestamp", Str(b.timestamp)) ]
  }

  function BindingText(b: Binding): string { Print(Obj(BindingMembers(b))) }

  function BindingDigest(hash: string -> string, b: Binding): string { hash(BindingText(b)) }

  function CreateDatabaseApproval(
      hash: string -> string, approvalId: string, decision: Decision, b: Binding): Approval
  {
    Approval(approvalId, decision, b, BindingDigest(hash, b), None)
  }

  predicate IsDatabaseApprovalValid(hash: string -> string, a: Option<Approval>, current: Binding) {
    a.Some? && a.value.decision == Approved && a.value.invalidatedAt.None?
      && a.value.bindingDigest == BindingDigest(hash, current)
  }

  function InvalidateDatabaseApproval(
      hash: string -> string, a: Option<Approval>, current: Binding, at: string): Option<Approval>
  {
    if a.None? || a.value.invalidatedAt.Some? || IsDatabaseApprovalValid(hash, a, current) then a
    else Some(a.value.(invalidatedAt := Some(at)))
  }

  // ----- what the digest of a binding identifies

  const BINDING_KEYS :=
    ["approverId", "candidateId", "evidenceDigest", "intentContractDigest", "planDigest", "policyVersion",
                         "schemaFingerprint", "snapshotDigest", "sourceCommitSha", "timestamp"]

  lemma BindingKeysAscend()
    ensures Ascending(BINDING_KEYS)
  {
    BindingKeysAscendHead();
    BindingKeysAscendTail();
    hide Less;
    forall i | 0 <= i < |BINDING_KEYS| - 1 ensures StepsUp(BINDING_KEYS, i) {
      assert i in {0, 1, 2, 3, 4, 5, 6, 7, 8};
    }
    AdjacentAscending(BINDING_KEYS);
  }

  lemma BindingKeysAscendHead()
    ensures Less("approverId", "candidateId") && Less("candidateId", "evidenceDigest")
    ensures Less("evidenceDigest", "intentContractDigest") && Less("intentContractDigest", "planDigest")
    ensures Less("planDigest", "policyVersion")
  {
    LessAt("approverId", "candidateId", 0);
    LessAt("candidateId", "evidenceDigest", 0);
    LessAt("evidenceDigest", "intentContractDigest", 0);
    LessAt("intentContractDigest", "planDigest", 0);
    LessAt("planDigest", "policyVersion", 1);
  }

  lemma BindingKeysAscendTail()
    ensures Less("policyVersion", "schemaFingerprint") && Less("schemaFingerprint", "snapshotDigest")
    ensures Less("snapshotDigest", "sourceCommitSha") && Less("sourceCommitSha", "timestamp")
  {
    LessAt("policyVersion", "schemaFingerprint", 0);
    LessAt("schemaFingerprint", "snapshotDigest", 1);
    LessAt("snapshotDigest", "sourceCommitSha", 1);
    LessAt("sourceCommitSha", "timestamp", 0);
  }

  lemma BindingKeysOf(b: Binding)
    ensures Keys(BindingMembers(b)) == BINDING_KEYS
  {}

  lemma BindingNormal(b: Binding)
    ensures Normal(Obj(BindingMembers(b)))
  {
    BindingKeysAscend();
    BindingKeysOf(b);
    forall i | 0 <= i < 10 ensures Normal(BindingMembers(b)[i].value) { AllStrings(b, i); }
  }

  lemma AllStrings(b: Binding, i: nat)
    requires i < 10
    ensures BindingMembers(b)[i].value.Str? && Normal(BindingMembers(b)[i].value)
  {}

  /** The digested text reads back as an object that holds each bound field under its own
      name, and nothing else. */
  lemma BindingTextReads(b: Binding)
    ensures Parse(BindingText(b)) == Parsed(Obj(BindingMembers(b)), "") && |BindingMembers(b)| == 10
    ensures var ms := BindingMembers(b);
      && Member("candidateId", Str(b.candidateId)) in ms && Member("planDigest", Str(b.planDigest)) in ms
      && Member("intentContractDigest", Str(b.intentContractDigest)) in ms
      && Member("evidenceDigest", Str(b.evidenceDigest)) in ms && Member("snapshotDigest", Str(b.snapshotDigest)) in ms
      && Member("schemaFingerprint", Str(b.schemaFingerprint)) in ms
      && Member("policyVersion", Str(b.policyVersion)) in ms
      && Member("sourceCommitSha", Str(b.sourceCommitSha)) in ms && Member("approverId", Str(b.approverId)) in ms
      && Member("timestamp", Str(b.timestamp)) in ms
  {
    BindingNormal(b);
    hide Normal, Parse, Print;
    RoundTrip(Obj(BindingMembers(b)));
    var ms := BindingMembers(b);
    assert ms[0] in ms && ms[1] in ms && ms[2] in ms && ms[3] in ms && ms[4] in ms;
    assert ms[5] in ms && ms[6] in ms && ms[7] in ms && ms[8] in ms && ms[9] in ms;
  }

  lemma BindingOfMembers(a: Binding, b: Binding)
    requires BindingMembers(a) == BindingMembers(b)
    ensures a == b
  {
    var x, y := BindingMembers(a), BindingMembers(b);
    assert x[0] == y[0] && x[1] == y[1] && x[2] == y[2] && x[3] == y[3] && x[4] == y[4];
    assert x[5] == y[5] && x[6] == y[6] && x[7] == y[7] && x[8] == y[8] && x[9] == y[9];
  }

  /** Different bindings have different texts. */
  lemma BindingTextsDiffer(a: Binding, b: Binding)
    requires a != b
    ensures BindingText(a) != BindingText(b)
  {
    hide BindingMembers, Normal, Print;
    BindingNormal(a);
    BindingNormal(b);
    if BindingText(a) == BindingText(b) {
      PrintInjective(Obj(BindingMembers(a)), Obj(BindingMembers(b)));
      BindingOfMembers(a, b);
    }
  }

  /** A binding digest identifies the binding, unless the two digested texts clash. */
  lemma BindingDigestCommits(hash: string -> string, a: Binding, b: Binding)
    requires BindingDigest(hash, a) == BindingDigest(hash, b)
    ensures a == b || Clash(hash, BindingText(a), BindingText(b))
  {
    hide BindingText;
    if a != b { BindingTextsDiffer(a, b); }
  }

  /** An approval is valid for its own binding only: a change of any bound field, the
      evidence digest among them, is enough to end it, unless the texts of the two
      bindings clash. */
  lemma ValidForOwnBinding(hash: string -> string, id: string, decision: Decision, b: Binding, current: Binding)
    ensures IsDatabaseApprovalValid(hash, Some(CreateDatabaseApproval(hash, id, decision, b)), current) <==>
            decision == Approved && (current == b || Clash(hash, BindingText(b), BindingText(current)))
  {
    hide BindingMembers, BindingText;
    if BindingDigest(hash, b) == BindingDigest(hash, current) { BindingDigestCommits(hash, b, current); }
  }

  // ----- evidence digests

  function Strings(xs: seq<string>): (r: seq<Json>)
    ensures |r| == |xs| && forall i :: 0 <= i < |xs| ==> r[i] == Str(xs[i])
  {
    seq(|xs|, i requires 0 <= i < |xs| => Str(xs[i]))
  }

  function FirstEvidenceJson(tournamentDigest: string, candidateDigests: seq<string>): Json {
    Obj([Member("candidates", Arr(Strings(candidateDigests))), Member("tournamentDigest", Str(tournamentDigest))])
  }

  function NextEvidenceJson(prior: string, revision: nat, provenance: string): Json {
    Obj([Member("priorEvidenceDigest", Str(prior)), Member("provenance", Str(provenance)),
         Member("revision", Num(Digits(revision)))])
  }

  function FirstText(tournamentDigest: string, candidateDigests: seq<string>): string {
    Print(FirstEvidenceJson(tournamentDigest, candidateDigests))
  }

  function NextText(prior: string, revision: nat, provenance: string): string {
    Print(NextEvidenceJson(prior, revision, provenance))
  }

  function FirstEvidence(hash: string -> string, tournamentDigest: string, candidateDigests: seq<string>): string {
    hash(FirstText(tournamentDigest, candidateDigests))
  }

  function NextEvidence(hash: string -> string, prior: string, revision: nat, provenance: string): string {
    hash(NextText(prior, revision, provenance))
  }

  lemma FirstEvidenceNormal(tournamentDigest: string, candidateDigests: seq<string>)
    ensures Normal(FirstEvidenceJson(tournamentDigest, candidateDigests))
  {
    LessAt("candidates", "tournamentDigest", 0);
    var j := FirstEvidenceJson(tournamentDigest, candidateDigests);
    assert Keys(j.members) == ["candidates", "tournamentDigest"];
    assert Normal(j.members[0].value) && Normal(j.members[1].value);
  }

  const NEXT_KEYS := ["priorEvidenceDigest", "provenance", "revision"]

  lemma NextKeysAscend()
    ensures Ascending(NEXT_KEYS)
  {
    LessAt("priorEvidenceDigest", "provenance", 2);
    LessAt("provenance", "revision", 0);
    forall i | 0 <= i < |NEXT_KEYS| - 1 ensures StepsUp(NEXT_KEYS, i) { assert i in {0, 1}; }
    AdjacentAscending(NEXT_KEYS);
  }

  lemma NextEvidenceNormal(prior: string, revision: nat, provenance: string)
    ensures Normal(NextEvidenceJson(prior, revision, provenance))
  {
    NextKeysAscend();
    NumeralNormal(revision);
    NextKeysOf(prior, revision, provenance);
    hide Less, Ascending, Digits, IsNumeral;
    var j := NextEvidenceJson(prior, revision, provenance);
    assert Normal(j.members[0].value) && Normal(j.members[1].value) && Normal(j.members[2].value);
  }

  lemma NextKeysOf(prior: string, revision: nat, provenance: string)
    ensures Keys(NextEvidenceJson(prior, revision, provenance).members) == NEXT_KEYS
  {}

  /** What the evidence of the start and of each revision is hashed from, by its names. */
  lemma EvidenceTextsRead(tournamentDigest: string, candidates: seq<string>, prior: string, revision: nat, p: string)
    ensures Parse(FirstText(tournamentDigest, candidates)) ==
            Parsed(Obj([ Member("candidates", Arr(Strings(candidates))),
                         Member("tournamentDigest", Str(tournamentDigest)) ]), "")
    ensures Parse(NextText(prior, revision, p)) ==
            Parsed(Obj([ Member("priorEvidenceDigest", Str(prior)), Member("provenance", Str(p)),
                         Member("revision", Num(Digits(revision))) ]), "")
  {
    FirstEvidenceNormal(tournamentDigest, candidates);
    NextEvidenceNormal(prior, revision, p);
    hide Normal, Parse, Print, Digits, Strings;
    RoundTrip(FirstEvidenceJson(tournamentDigest, candidates));
    RoundTrip(NextEvidenceJson(prior, revision, p));
  }

  /** The evidence of two revisions is hashed from different texts, whatever else they
      hold, because the revision is part of it. */
  lemma RevisionsDiffer(p: string, m: nat, q: string, n: nat, provenance: string)
    requires m != n
    ensures NextText(p, m, provenance) != NextText(q, n, provenance)
  {
    var x, y := NextEvidenceJson(p, m, provenance), NextEvidenceJson(q, n, provenance);
    NextEvidenceNormal(p, m, provenance);
    NextEvidenceNormal(q, n, provenance);
    ValueOfDigits(m);
    ValueOfDigits(n);
    assert x.members[2] != y.members[2];
    hide Normal, Print, NextEvidenceJson;
    if Print(x) == Print(y) { PrintInjective(x, y); }
  }

  /** No revision's evidence is hashed from the text of the session's start. */
  lemma FirstDiffers(tournamentDigest: string, candidateDigests: seq<string>, p: string, n: nat, provenance: string)
    ensures FirstText(tournamentDigest, candidateDigests) != NextText(p, n, provenance)
  {
    var x, y := FirstEvidenceJson(tournamentDigest, candidateDigests), NextEvidenceJson(p, n, provenance);
    FirstEvidenceNormal(tournamentDigest, candidateDigests);
    NextEvidenceNormal(p, n, provenance);
    assert |x.members| == 2 && |y.members| == 3;
    hide Normal, Print, NextEvidenceJson, FirstEvidenceJson;
    if Print(x) == Print(y) { PrintInjective(x, y); }
  }
}
