/** Human approvals: a decision bound to one candidate, patch, evidence, policy, commit
    and pull-request target. */
module Approvals {
  import opened Options
  import opened Order
  import opened JsonText
  import opened EventChain

  datatype Target = Target(owner: string, repository: string, baseBranch: string)

  datatype Binding = Binding(
    candidateId: string,
    patchDigest: string,
    evidenceDigest: string,
    policyVersion: string,
    commitSha: string,
    target: Option<Target>)

  datatype Decision = Approved | Rejected | ChangesRequested

  datatype Approval = Approval(
    sessionId: string,
    approverId: string,
    decision: Decision,
    actedAt: string,
    updatedAt: string,
    bound: Binding,
    bindingDigest: string,
    invalidatedAt: Option<string>)

  // ----- digests

  function TargetMembers(t: Target): seq<Member> {
    [Member("baseBranch", Str(t.baseBranch)), Member("owner", Str(t.owner)), Member("provider", Str("github")),
     Member("repository", Str(t.repository))]
  }

  /** The digested target; a missing one is digested as null. */
  function TargetJson(target: Option<Target>): Json {
    match target
    case None => Null
    case Some(t) => Obj(TargetMembers(t))
  }

  function TargetText(target: Option<Target>): string { Print(TargetJson(target)) }

  function TargetDigest(hash: string -> string, target: Option<Target>): string { hash(TargetText(target)) }

  /** The digested binding; a missing target is no member at all. */
  function BindingJson(b: Binding): Json {
    Obj([ Member("candidateId", Str(b.candidateId)),
          Member("commitSha", Str(b.commitSha)),
          Member("evidenceDigest", Str(b.evidenceDigest)),
          Member("patchDigest", Str(b.patchDigest)),
          Member("policyVersion", Str(b.policyVersion)) ] +
        (if b.target.None? then [] else [Member("pullRequestTarget", TargetJson(b.target))]))
  }

  function BindingText(b: Binding): string { Print(BindingJson(b)) }

  function BindingDigest(hash: string -> string, b: Binding): string { hash(BindingText(b)) }

  /** The digests approvals are compared by. */
  datatype Digests = Digests(binding: Binding -> string, target: Option<Target> -> string)

  /** The digests the program uses: a hash of the canonical text. */
  function TextDigests(hash: string -> string): Digests {
    Digests(b => BindingDigest(hash, b), t => TargetDigest(hash, t))
  }

  const TARGET_KEYS := ["baseBranch", "owner", "provider", "repository"]

  lemma TargetKeysAscend()
    ensures Ascending(TARGET_KEYS)
  {
    LessAt("baseBranch", "owner", 0);
    LessAt("owner", "provider", 0);
    LessAt("provider", "repository", 0);
    forall i | 0 <= i < |TARGET_KEYS| - 1 ensures StepsUp(TARGET_KEYS, i) {
      assert i in {0, 1, 2};
    }
    AdjacentAscending(TARGET_KEYS);
  }

  lemma TargetNormal(target: Option<Target>)
    ensures Normal(TargetJson(target))
  {
    if target.Some? {
      TargetKeysAscend();
      assert Keys(TargetMembers(target.value)) == TARGET_KEYS;
    }
  }

  /** The target digest identifies the target, unless the two digested texts clash. */
  lemma TargetDigestCommits(hash: string -> string, a: Option<Target>, b: Option<Target>)
    requires TargetDigest(hash, a) == TargetDigest(hash, b)
    ensures a == b || Clash(hash, TargetText(a), TargetText(b))
  {
    TargetNormal(a);
    TargetNormal(b);
    hide Normal, Print, TargetJson;
    if a != b {
      TargetJsonsDiffer(a, b);
      if TargetText(a) == TargetText(b) { PrintInjective(TargetJson(a), TargetJson(b)); }
    }
  }

  const BINDING_KEYS :=
    ["candidateId", "commitSha", "evidenceDigest", "patchDigest", "policyVersion", "pullRequestTarget"]

  lemma BindingKeysAscend()
    ensures Ascending(BINDING_KEYS) && Ascending(BINDING_KEYS[..5])
  {
    LessAt("candidateId", "commitSha", 1);
    LessAt("commitSha", "evidenceDigest", 0);
    LessAt("evidenceDigest", "patchDigest", 0);
    LessAt("patchDigest", "policyVersion", 1);
    LessAt("policyVersion", "pullRequestTarget", 1);
    forall i | 0 <= i < |BINDING_KEYS| - 1 ensures StepsUp(BINDING_KEYS, i) {
      assert i in {0, 1, 2, 3, 4};
    }
    AdjacentAscending(BINDING_KEYS);
  }

  lemma BindingKeysOf(b: Binding)
    ensures Keys(BindingJson(b).members) == if b.target.None? then BINDING_KEYS[..5] else BINDING_KEYS
  {}

  lemma BindingNormal(b: Binding)
    ensures Normal(BindingJson(b))
  {
    BindingKeysAscend();
    BindingKeysOf(b);
    TargetNormal(b.target);
    hide Ascending, TargetJson, Keys;
    forall i | 0 <= i < |BindingJson(b).members| ensures Normal(BindingJson(b).members[i].value) {
      if i == 5 { assert BindingJson(b).members[5].value == TargetJson(b.target); }
    }
  }

  /** The digested texts read back as objects that hold each field under its own name; a
      missing target is null on its own and no member of a binding. */
  lemma TextsRead(b: Binding)
    ensures Parse(BindingText(b)) == Parsed(BindingJson(b), "")
    ensures Parse(TargetText(b.target)) == Parsed(TargetJson(b.target), "")
    ensures b.target.None? ==> TargetJson(b.target) == Null
    ensures b.target.Some? ==>
              TargetJson(b.target) == Obj([ Member("baseBranch", Str(b.target.value.baseBranch)),
                                            Member("owner", Str(b.target.value.owner)),
                                            Member("provider", Str("github")),
                                            Member("repository", Str(b.target.value.repository)) ])
    ensures var ms := BindingJson(b).members;
      && |ms| == (if b.target.Some? then 6 else 5)
      && Member("candidateId", Str(b.candidateId)) in ms && Member("patchDigest", Str(b.patchDigest)) in ms
      && Member("evidenceDigest", Str(b.evidenceDigest)) in ms && Member("policyVersion", Str(b.policyVersion)) in ms
      && Member("commitSha", Str(b.commitSha)) in ms
      && (b.target.Some? ==> Member("pullRequestTarget", TargetJson(b.target)) in ms)
  {
    BindingNormal(b);
    TargetNormal(b.target);
    RoundTrip(BindingJson(b));
    RoundTrip(TargetJson(b.target));
    hide Normal, Print, Parse;
    TargetSpelled(b.target);
    hide TargetJson;
    var ms := BindingJson(b).members;
    assert ms[0] in ms && ms[1] in ms && ms[2] in ms && ms[3] in ms && ms[4] in ms;
    assert b.target.Some? ==> ms[5] in ms;
  }

  lemma TargetSpelled(target: Option<Target>)
    ensures target.None? ==> TargetJson(target) == Null
    ensures target.Some? ==>
              TargetJson(target) == Obj([ Member("baseBranch", Str(target.value.baseBranch)),
                                          Member("owner", Str(target.value.owner)), Member("provider", Str("github")),
                                          Member("repository", Str(target.value.repository)) ])
  {}

  /** Bindings to different targets have different texts. */
  lemma BindingTextsDiffer(a: Binding, b: Binding)
    requires a.target != b.target
    ensures BindingText(a) != BindingText(b)
  {
    BindingNormal(a);
    BindingNormal(b);
    BindingJsonsDiffer(a, b);
    hide Normal, Print, BindingJson;
    if BindingText(a) == BindingText(b) { PrintInjective(BindingJson(a), BindingJson(b)); }
  }

  lemma BindingJsonsDiffer(a: Binding, b: Binding)
    requires a.target != b.target
    ensures BindingJson(a) != BindingJson(b)
  {
    var x, y := BindingJson(a).members, BindingJson(b).members;
    if a.target.Some? && b.target.Some? {
      hide TargetJson;
      assert x[5] == Member("pullRequestTarget", TargetJson(a.target))
        && y[5] == Member("pullRequestTarget", TargetJson(b.target));
      TargetJsonsDiffer(a.target, b.target);
    } else {
      hide TargetJson;
      assert |x| != |y|;
    }
  }

  lemma TargetJsonsDiffer(a: Option<Target>, b: Option<Target>)
    requires a != b
    ensures TargetJson(a) != TargetJson(b)
  {
    if a.Some? && b.Some? {
      var ma, mb := TargetMembers(a.value), TargetMembers(b.value);
      assert ma[0] != mb[0] || ma[1] != mb[1] || ma[3] != mb[3];
    }
  }

  // ----- the operations

  function CreateHumanApproval(
    d: Digests, sessionId: string, approverId: string, decision: Decision, actedAt: string, bound: Binding): Approval
  {
    Approval(sessionId, approverId, decision, actedAt, actedAt, bound, d.binding(bound), None)
  }

  predicate IsApprovalValid(d: Digests, approval: Option<Approval>, current: Binding) {
    && approval.Some?
    && approval.value.decision == Approved
    && approval.value.invalidatedAt.None?
    && approval.value.bindingDigest == d.binding(current)
    && approval.value.bound.candidateId == current.candidateId
    && approval.value.bound.patchDigest == current.patchDigest
    && approval.value.bound.evidenceDigest == current.evidenceDigest
    && approval.value.bound.policyVersion == current.policyVersion
    && approval.value.bound.commitSha == current.commitSha
    && d.target(approval.value.bound.target) == d.target(current.target)
  }

  function InvalidateWhenEvidenceChanges(
    d: Digests, approval: Option<Approval>, current: Binding, at: string): Option<Approval>
  {
    if approval.None? || IsApprovalValid(d, approval, current) then approval
    else if approval.value.invalidatedAt.Some? then approval
    else Some(approval.value.(updatedAt := at, invalidatedAt := Some(at)))
  }

  /** A new approval is valid exactly for the binding it was made for, unless another
      target gives a target text and a binding text that both clash. */
  lemma CreatedApprovalBinds(
    hash: string -> string, sessionId: string, approverId: string, decision: Decision, actedAt: string, bound: Binding,
    current: Binding)
    ensures
      var approval := Some(CreateHumanApproval(TextDigests(hash), sessionId, approverId, decision, actedAt, bound));
      IsApprovalValid(TextDigests(hash), approval, current) <==>
        && decision == Approved && current == bound.(target := current.target)
        && (|| current.target == bound.target
            || (&& Clash(hash, TargetText(bound.target), TargetText(current.target))
                && Clash(hash, BindingText(bound), BindingText(current))))
  {
    hide BindingText, TargetText;
    if bound.target != current.target { BindingTextsDiffer(bound, current); }
    if TargetDigest(hash, bound.target) == TargetDigest(hash, current.target) {
      TargetDigestCommits(hash, bound.target, current.target);
    }
  }

  /** An approval is valid for at most one binding, unless the texts of two targets clash. */
  lemma ValidForOneBinding(hash: string -> string, approval: Option<Approval>, a: Binding, b: Binding)
    requires IsApprovalValid(TextDigests(hash), approval, a) && IsApprovalValid(TextDigests(hash), approval, b)
    ensures a == b || Clash(hash, TargetText(a.target), TargetText(b.target))
  {
    hide BindingDigest, TargetText;
    TargetDigestCommits(hash, a.target, b.target);
  }

  /** Invalidation keeps an approval exactly when it is valid for the current binding;
      otherwise nothing makes it valid again, and the first invalidation time stays. */
  lemma InvalidationIsFinal(
      d: Digests, approval: Option<Approval>, current: Binding, at: string, later: Binding, laterAt: string)
    ensures var after := InvalidateWhenEvidenceChanges(d, approval, current, at);
      && (IsApprovalValid(d, after, current) <==> IsApprovalValid(d, approval, current))
      && (!IsApprovalValid(d, approval, current) ==>
            && !IsApprovalValid(d, after, later)
            && InvalidateWhenEvidenceChanges(d, after, later, laterAt) == after)
      && (approval.Some? && approval.value.invalidatedAt.Some? ==> after == approval)
      && (approval.Some? <==> after.Some?)
      && (approval.Some? ==>
           after.value.bound == approval.value.bound && after.value.decision == approval.value.decision)
  {
  }
}
