/** What the kernel answers to each call, told in the fields of the call and of what is on record. */
module AxiomReceipts {
  import opened Collections
  import opened AxiomWorld
  import opened AxiomProposals

  /** The receipt a call leaves, which is one more than there were. */
  ghost function Answer(k: Kernel, op: Op): Receipt {
    var after := Step(k, op).receipts;
    if |after| > |k.receipts| then after[|k.receipts|] else Receipt(Reject, ClaimNotFound, "", [], [])
  }

  lemma OneReceipt(k: Kernel, op: Op)
    ensures Step(k, op).receipts == k.receipts + [Answer(k, op)]
  {
  }

  ghost predicate Says(r: Receipt, decision: Decision, reason: Reason, objectId: string, evidence: seq<string>,
                       conflicts: seq<string>) {
    && r.decision == decision && r.reason == reason && r.objectId == objectId && r.evidenceUsed == evidence
    && r.conflicts == conflicts
  }

  /** The store's refusal is passed on in the store's words. */
  ghost predicate PassesOn(r: Receipt, a: Admission, evidence: seq<string>) {
    Says(r, Reject, AdmissionRefused(a.reason), a.objectId, evidence, [])
  }

  /** An observation is quarantined when another entity with a name carries its fingerprint, and names that entity;
      else it is admitted if the store admits it. */
  lemma ObservationAnswered(k: Kernel, e: Observation, a: Admission)
    ensures var r := Answer(k, Observe(e, a));
            if e.fingerprint in k.fingerprints && k.fingerprints[e.fingerprint] !in {"", e.entityId}
            then Says(r, Quarantine, IdentityConflictDetected, e.entityId, e.evidence,
                      ["possible_same_as:" + k.fingerprints[e.fingerprint]])
            else if a.accepted then Says(r, Accept, ObservationAdmitted, e.entityId, e.evidence, [])
            else PassesOn(r, a, e.evidence)
  {
  }

  /** A proposal that does not reach the search for conflicts: about nothing observed, as a simulation, without
      evidence, or refused by the store. */
  lemma UnadmittedAnswered(k: Kernel, p: Proposal, a: Admission, b: Admission)
    requires !Admitted(k, p, a)
    ensures var r := Answer(k, Propose(p, a, b));
            if p.subject !in k.symbols.at then Says(r, Reject, SubjectNotObserved, p.claimId, p.evidence, [])
            else if p.simulated then Says(r, SimulateOnly, SimulationRecorded, p.claimId, p.evidence, [])
            else if p.evidence == [] then Says(r, RequireEvidence, ClaimNeedsEvidence, p.claimId, [], [])
            else PassesOn(r, a, p.evidence)
  {
  }

  /** One that does: accepted where no claim disputes it; quarantined where some do, and then naming just those,
      unless the store refuses the contradiction. */
  lemma AdmittedAnswered(k: Kernel, p: Proposal, a: Admission, b: Admission)
    requires k.claims.Valid() && Admitted(k, p, a)
    ensures var r := Answer(k, Propose(p, a, b));
            if !Disputed(k.claims.at, p) then Says(r, Accept, ClaimSupported, p.claimId, p.evidence, [])
            else if !b.accepted then PassesOn(r, b, p.evidence)
            else
              && Says(r, Quarantine, ConflictKept, p.claimId, p.evidence, r.conflicts) && Distinct(r.conflicts)
              && forall id :: id in r.conflicts <==> id in k.claims.at && Disputes(k.claims.at[id], p)
  {
    NoneConflictMeans(k, p);
    FilterDistinct(k.claims.keys, ConflictsWith(k.claims.at, p));
    forall id ensures id in ClaimConflicts(k, p) <==> id in k.claims.at && Disputes(k.claims.at[id], p) {
      FilterMember(k.claims.keys, ConflictsWith(k.claims.at, p), id);
      if id in k.claims.at { ConflictMeans(k, p, id); }
    }
  }

  /** A validation: of nothing on record, of a conflict to be settled first, of a simulation or hypothesis without new
      evidence, refused by the store, or moving the claim up and then saying to where. */
  lemma ValidationAnswered(k: Kernel, id: string, evidence: seq<string>, a: Admission)
    requires Inv(k)
    ensures var r := Answer(k, Validate(id, evidence, a));
            if id !in k.claims.at then Says(r, Reject, ClaimNotFound, id, evidence, [])
            else
              var c := k.claims.at[id];
              match c.state
              case Conflicted => Says(r, Quarantine, NeedsReconciliation, id, c.evidence + evidence, [id])
              case Supported => Says(r, Accept, TransitionValidated, id, c.evidence + evidence, [])
              case Validated => Says(r, Reject, IllegalTransition, id, c.evidence + evidence, [])
              case _ =>
                if evidence == [] then
                  Says(r, RequireEvidence, if c.state == Simulated then SimulationNeedsEvidence
                                           else HypothesisNeedsEvidence, id, [], [])
                else if a.accepted then Says(r, Accept, TransitionSupported, id, c.evidence + evidence, [])
                else PassesOn(r, a, evidence)
  {
    if id in k.claims.at { assert RealClaim(k.symbols.at, id, k.claims.at[id]); }
  }

  lemma ProjectionAnswered(k: Kernel, tenantId: string, scope: Scope)
    ensures var r := Answer(k, Project(tenantId, scope));
            && Says(r, Accept, ProjectionEmitted, r.objectId, [], [])
            && r.objectId == "projection:" + tenantId + ":" + match scope
                                                              case Public => "public"
                                                              case Internal => "internal"
                                                              case Private => "private"
                                                              case Simulation => "simulation"
  {
  }

  // ----- Truth states -------------------------------------------------------------------------

  /** The states from which each state may be reached. */
  ghost predicate MayBecome(from: TruthState, to: TruthState) {
    match to
    case Proposed => from == Unobserved
    case Hypothesis => from == Unobserved || from == Proposed
    case Supported => from == Proposed || from == Hypothesis || from == Conflicted || from == Simulated
    case Validated => from == Supported
    case Canonical => from == Validated
    case Conflicted => from == Hypothesis || from == Supported || from == Validated || from == Canonical
    case Deprecated => from == Supported || from == Validated || from == Conflicted
    case Revoked =>
      from == Hypothesis || from == Supported || from == Validated || from == Conflicted || from == Simulated
    case Superseded => from == Validated || from == Canonical
    case Simulated => from == Proposed
    case Unobserved => false
  }

  lemma TransitionsTold(from: TruthState, to: TruthState)
    ensures to in AllowedTransitions(from) <==> MayBecome(from, to)
  {
  }
}
