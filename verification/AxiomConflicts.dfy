/** How long a conflict stays on record: which calls move a CONFLICTED claim, over every call and every run. */
module AxiomConflicts {
  import opened Collections
  import opened AxiomWorld

  ghost predicate InConflict(k: Kernel, id: string) { id in k.claims.at && k.claims.at[id].state == Conflicted }

  /** A live claim of the same tenant, subject and relation gives another value; the one stored under the same id
      counts. */
  ghost predicate HasRival(k: Kernel, p: Proposal) {
    exists id | id in k.claims.at ::
      !Inactive(k.claims.at[id].state) && Rivals(k.claims.at[id], p.tenantId, p.subject, p.relation, p.value)
  }

  lemma RivalListed(k: Kernel, p: Proposal)
    requires k.claims.Valid()
    ensures ClaimConflicts(k, p) != [] <==> HasRival(k, p)
  {
    if ClaimConflicts(k, p) != [] {
      var id := ClaimConflicts(k, p)[0];
      assert id in ClaimConflicts(k, p);
      FilterMember(k.claims.keys, ConflictsWith(k.claims.at, p), id);
      ConflictsListed(k, p, id);
    }
    if HasRival(k, p) {
      var id :| id in k.claims.at && !Inactive(k.claims.at[id].state)
                && Rivals(k.claims.at[id], p.tenantId, p.subject, p.relation, p.value);
      ConflictsListed(k, p, id);
    }
  }

  /** The proposal is stored in another state than CONFLICTED: as a simulation, for want of evidence, or admitted
      without a rival. */
  ghost predicate Unconflicted(k: Kernel, p: Proposal, admission: Admission) {
    && p.subject in k.symbols.at
    && (p.simulated || p.evidence == [] || (admission.accepted && !HasRival(k, p)))
  }

  /** The calls that take a claim out of conflict: proposing it again, where the new record is not in conflict
      itself. */
  ghost predicate Resettles(k: Kernel, op: Op, id: string) {
    op.Propose? && op.proposal.claimId == id && Unconflicted(k, op.proposal, op.claimAdmission)
  }

  lemma ProposedAgainIff(k: Kernel, p: Proposal, a: Admission, b: Admission)
    requires Inv(k) && InConflict(k, p.claimId)
    ensures InConflict(ProposeStep(k, p, a, b), p.claimId) <==> !Unconflicted(k, p, a)
  {
    RivalListed(k, p);
  }

  lemma ProposingAnother(k: Kernel, p: Proposal, a: Admission, b: Admission, id: string)
    requires InConflict(k, id) && id != p.claimId
    ensures InConflict(ProposeStep(k, p, a, b), id)
  {
  }

  lemma ValidatingKeeps(k: Kernel, target: string, evidence: seq<string>, a: Admission, id: string)
    requires Inv(k) && InConflict(k, id)
    ensures InConflict(ValidateStep(k, target, evidence, a), id)
  {
    if Advances(k, target, evidence, a) {
      AdvancingStores(k, target, evidence, a);
    } else {
      RefusingOnlyLogs(k, target, evidence, a);
    }
  }

  /** A CONFLICTED claim stays so through a call exactly when the call does not propose it again into another state:
      no validation and no observation ever settles a conflict. */
  lemma StepKeepsConflictIff(k: Kernel, op: Op, id: string)
    requires Inv(k) && InConflict(k, id)
    ensures InConflict(Step(k, op), id) <==> !Resettles(k, op, id)
  {
    match op
    case Observe(event, admission) =>
    case Propose(p, a, b) =>
      if p.claimId == id { ProposedAgainIff(k, p, a, b); } else { ProposingAnother(k, p, a, b, id); }
    case Validate(target, evidence, admission) => ValidatingKeeps(k, target, evidence, admission, id);
    case Project(tenantId, scope) =>
  }

  // ----- Whole runs -------------------------------------------------------------------

  /** Before each call of a run, and after the last: is the claim in conflict? */
  ghost function ConflictAlong(ops: seq<Op>, id: string): (r: seq<bool>)
    ensures |r| == |ops| + 1 && forall i | 0 <= i <= |ops| :: r[i] == InConflict(Run(ops[..i]), id)
  {
    seq(|ops| + 1, i requires 0 <= i <= |ops| => InConflict(Run(ops[..i]), id))
  }

  /** Which calls leave it there. */
  ghost function LeavesAlong(ops: seq<Op>, id: string): (r: seq<bool>)
    ensures |r| == |ops| && forall i | 0 <= i < |ops| :: r[i] == !Resettles(Run(ops[..i]), ops[i], id)
  {
    seq(|ops|, i requires 0 <= i < |ops| => !Resettles(Run(ops[..i]), ops[i], id))
  }

  lemma NextConflictIff(ops: seq<Op>, id: string, i: nat)
    requires i < |ops| && ConflictAlong(ops, id)[i]
    ensures ConflictAlong(ops, id)[i + 1] == LeavesAlong(ops, id)[i]
  {
    PrefixNext(ops, i);
    RunMore(ops[..i], ops[i]);
    RealityHolds(ops[..i]);
    StepKeepsConflictIff(Run(ops[..i]), ops[i], id);
  }

  /** A claim in conflict after `start` calls is in conflict throughout the rest of a run exactly when no later call
      proposes it again into another state. */
  lemma ConflictThroughoutIff(ops: seq<Op>, id: string, start: nat)
    requires start <= |ops| && ConflictAlong(ops, id)[start]
    ensures (forall i | start <= i <= |ops| :: ConflictAlong(ops, id)[i])
            <==> (forall i | start <= i < |ops| :: LeavesAlong(ops, id)[i])
  {
    forall i | start <= i < |ops| && ConflictAlong(ops, id)[i]
      ensures ConflictAlong(ops, id)[i + 1] == LeavesAlong(ops, id)[i]
    {
      NextConflictIff(ops, id, i);
    }
    ThroughoutIff(ConflictAlong(ops, id), LeavesAlong(ops, id), start);
  }

  // ----- It happens -------------------------------------------------------------------

  lemma FirstSupported(k: Kernel, p: Proposal, ok: Admission)
    requires Inv(k) && k.claims == EMPTY.claims && p.subject in k.symbols.at && ok.accepted
    requires !p.simulated && p.evidence != []
    ensures var after := Step(k, Propose(p, ok, ok));
            && Inv(after) && after.symbols == k.symbols
            && after.claims.at == map[p.claimId := RecordOf(p, Supported, true)]
  {
    StepKeepsInv(k, Propose(p, ok, ok));
    assert ClaimConflicts(k, p) == [];
  }

  lemma SecondConflicts(k: Kernel, p: Proposal, q: Proposal, ok: Admission)
    requires Inv(k) && q.subject in k.symbols.at && Contradict(p, q) && ok.accepted && !q.simulated && q.evidence != []
    requires k.claims.at == map[p.claimId := RecordOf(p, Supported, true)]
    ensures var after := Step(k, Propose(q, ok, ok));
            after.symbols == k.symbols && InConflict(after, p.claimId) && InConflict(after, q.claimId)
  {
    ConflictsListed(k, q, p.claimId);
    ConflictPreserved(k, q, ok, ok, p.claimId, [], ok);
    ConflictPreserved(k, q, ok, ok, q.claimId, [], ok);
  }

  /** Two rival claims in conflict, and the second proposed once more as a mere simulation: it alone is out of it. */
  lemma SimulatedAgain(e: Observation, p: Proposal, q: Proposal, ok: Admission)
    requires ok.accepted && p.subject == e.entityId && Contradict(p, q)
    requires !p.simulated && p.evidence != [] && !q.simulated && q.evidence != []
    ensures var three := [Observe(e, ok)] + [Propose(p, ok, ok)] + [Propose(q, ok, ok)];
            var after := Run(three + [Propose(q.(simulated := true), ok, ok)]);
            && InConflict(Run(three), p.claimId) && InConflict(Run(three), q.claimId)
            && InConflict(after, p.claimId) && !InConflict(after, q.claimId)
  {
    var one := [Observe(e, ok)];
    var two := one + [Propose(p, ok, ok)];
    var three := two + [Propose(q, ok, ok)];
    ObservedFirst(e, ok);
    RealityHolds(one);
    RunMore(one, Propose(p, ok, ok));
    RunMore(two, Propose(q, ok, ok));
    RunMore(three, Propose(q.(simulated := true), ok, ok));
    FirstSupported(Run(one), p, ok);
    SecondConflicts(Run(two), p, q, ok);
    RealityHolds(three);
    StepKeepsConflictIff(Run(three), Propose(q.(simulated := true), ok, ok), p.claimId);
    StepKeepsConflictIff(Run(three), Propose(q.(simulated := true), ok, ok), q.claimId);
  }
}
