/** The kernel object: symbols, claims, fingerprints and receipts updated in place. */
module AxiomKernelObject {
  import opened Collections
  import opened AxiomWorld
  import P = AxiomProjection

  class AxiomWorldKernel {
    var symbols: Dict<string, Symbol>
    var claims: Dict<string, Claim>
    var fingerprints: map<Fingerprint, string>
    var receipts: seq<Receipt>
    ghost var calls: seq<Op>

    ghost function View(): Kernel
      reads this
    {
      Kernel(symbols, claims, fingerprints, receipts)
    }

    /** The kernel is what the calls made so far leave behind, so whatever is proved of every run holds of it. */
    ghost predicate Valid()
      reads this
    {
      View() == Run(calls)
    }

    ghost method Log(op: Op)
      requires Valid()
      modifies this`calls
      ensures calls == old(calls) + [op] && Inv(View()) && Run(calls) == Step(View(), op)
    {
      RealityHolds(calls);
      RunMore(calls, op);
      calls := calls + [op];
    }

    constructor ()
      ensures Valid() && calls == [] && View() == EMPTY
    {
      calls := [];
      symbols, claims, fingerprints, receipts := Dict([], map[]), Dict([], map[]), map[], [];
    }

    method Record(decision: Decision, reason: Reason, objectId: string, evidence: seq<string>, conflicts: seq<string>)
      returns (r: Receipt)
      modifies this`receipts
      ensures r == Receipt(decision, reason, objectId, evidence, conflicts) && receipts == old(receipts) + [r]
    {
      r := Receipt(decision, reason, objectId, evidence, conflicts);
      receipts := receipts + [r];
    }

    method ObserveEvent(e: Observation, admission: Admission) returns (r: Receipt)
      requires Valid()
      modifies this
      ensures Valid() && calls == old(calls) + [Observe(e, admission)]
      ensures View() == Step(old(View()), Observe(e, admission))
      ensures receipts == old(receipts) + [r]
    {
      Log(Observe(e, admission));
      if e.fingerprint in fingerprints && fingerprints[e.fingerprint] != ""
         && fingerprints[e.fingerprint] != e.entityId {
        r := Record(Quarantine, IdentityConflictDetected, e.entityId, e.evidence,
                    ["possible_same_as:" + fingerprints[e.fingerprint]]);
        return;
      }
      if !admission.accepted {
        r := Record(Reject, AdmissionRefused(admission.reason), admission.objectId, e.evidence, []);
        return;
      }
      symbols := symbols.Put(e.entityId, SymbolOf(e));
      fingerprints := fingerprints[e.fingerprint := e.entityId];
      r := Record(Accept, ObservationAdmitted, e.entityId, e.evidence, []);
    }

    /** The scan over all stored claims for live rivals of a proposal. */
    method FindConflicts(p: Proposal) returns (conflicts: seq<string>)
      requires claims.Valid()
      ensures conflicts == ClaimConflicts(View(), p)
    {
      conflicts := [];
      var i := 0;
      while i < |claims.keys|
        invariant 0 <= i <= |claims.keys|
        invariant conflicts == Filter(claims.keys[..i], ConflictsWith(claims.at, p))
      {
        var id := claims.keys[i];
        assert id in claims.keys;
        FilterNext(claims.keys, i, ConflictsWith(claims.at, p));
        var existing := claims.at[id];
        if existing.tenantId == p.tenantId && !Inactive(existing.state) && existing.subject == p.subject
           && existing.relation == p.relation && existing.value != p.value
        {
          conflicts := conflicts + [id];
        }
        i := i + 1;
      }
      assert claims.keys[..|claims.keys|] == claims.keys;
    }

    /** Marks the conflicting claims one by one; an id listed twice is marked twice to the same effect. */
    method MarkConflicts(conflicts: seq<string>)
      requires forall id | id in conflicts :: id in claims.at
      modifies this`claims
      ensures claims == MarkAll(old(claims), conflicts)
    {
      var i := 0;
      while i < |conflicts|
        invariant 0 <= i <= |conflicts|
        invariant claims == MarkAll(old(claims), conflicts[..i])
      {
        var id := conflicts[i];
        assert id in conflicts && conflicts[..i + 1] == conflicts[..i] + [id];
        claims := claims.Put(id, MarkedConflicted(claims.at[id]));
        i := i + 1;
      }
      assert conflicts[..|conflicts|] == conflicts;
    }

    method ProposeClaim(p: Proposal, admission: Admission, contradictionAdmission: Admission) returns (r: Receipt)
      requires Valid()
      modifies this
      ensures Valid() && calls == old(calls) + [Propose(p, admission, contradictionAdmission)]
      ensures View() == Step(old(View()), Propose(p, admission, contradictionAdmission))
      ensures receipts == old(receipts) + [r]
    {
      Log(Propose(p, admission, contradictionAdmission));
      if p.subject !in symbols.at {
        r := Record(Reject, SubjectNotObserved, p.claimId, p.evidence, []);
        return;
      }
      if p.simulated {
        claims := claims.Put(p.claimId, RecordOf(p, Simulated, false));
        r := Record(SimulateOnly, SimulationRecorded, p.claimId, p.evidence, []);
        return;
      }
      if p.evidence == [] {
        claims := claims.Put(p.claimId, RecordOf(p, Hypothesis, false));
        r := Record(RequireEvidence, ClaimNeedsEvidence, p.claimId, [], []);
        return;
      }
      r := ProposeEvidenced(p, admission, contradictionAdmission);
    }

    method ProposeEvidenced(p: Proposal, admission: Admission, contradictionAdmission: Admission) returns (r: Receipt)
      requires Inv(View()) && p.subject in symbols.at && !p.simulated && p.evidence != []
      modifies this
      ensures calls == old(calls) && View() == ProposeStep(old(View()), p, admission, contradictionAdmission)
      ensures receipts == old(receipts) + [r]
    {
      var conflicts := FindConflicts(p);
      if !admission.accepted {
        r := Record(Reject, AdmissionRefused(admission.reason), admission.objectId, p.evidence, []);
        return;
      }
      if conflicts == [] {
        claims := claims.Put(p.claimId, RecordOf(p, Supported, true));
        r := Record(Accept, ClaimSupported, p.claimId, p.evidence, []);
        return;
      }
      forall id | id in conflicts ensures id in claims.at { ConflictsListedHere(View(), p, id); }
      claims := claims.Put(p.claimId, RecordOf(p, Conflicted, true));
      MarkConflicts(conflicts);
      if !contradictionAdmission.accepted {
        r := Record(Reject, AdmissionRefused(contradictionAdmission.reason), contradictionAdmission.objectId,
                    p.evidence, []);
        return;
      }
      r := Record(Quarantine, ConflictKept, p.claimId, p.evidence, conflicts);
    }

    method ValidateClaim(id: string, evidence: seq<string>, admission: Admission) returns (r: Receipt)
      requires Valid()
      modifies this
      ensures Valid() && calls == old(calls) + [Validate(id, evidence, admission)]
      ensures View() == Step(old(View()), Validate(id, evidence, admission))
      ensures receipts == old(receipts) + [r]
    {
      Log(Validate(id, evidence, admission));
      if id !in claims.at {
        r := Record(Reject, ClaimNotFound, id, evidence, []);
        return;
      }
      var c := claims.at[id];
      if c.state == Conflicted {
        r := Record(Quarantine, NeedsReconciliation, id, c.evidence + evidence, [id]);
        return;
      }
      if c.state == Simulated && evidence == [] {
        r := Record(RequireEvidence, SimulationNeedsEvidence, id, [], []);
        return;
      }
      if c.state == Hypothesis && evidence == [] {
        r := Record(RequireEvidence, HypothesisNeedsEvidence, id, [], []);
        return;
      }
      r := AdvanceClaim(id, evidence, admission);
    }

    method AdvanceClaim(id: string, evidence: seq<string>, admission: Admission) returns (r: Receipt)
      requires id in claims.at && claims.at[id].state != Conflicted
      requires evidence == [] ==> claims.at[id].state != Simulated && claims.at[id].state != Hypothesis
      modifies this
      ensures calls == old(calls) && View() == ValidateStep(old(View()), id, evidence, admission)
      ensures receipts == old(receipts) + [r]
    {
      var c := claims.at[id];
      var target := NextValidationState(c.state, evidence != []);
      if target !in AllowedTransitions(c.state) {
        r := Record(Reject, IllegalTransition, id, c.evidence + evidence, []);
        return;
      }
      var admitted := c.admitted;
      if !admitted && target == Supported {
        if !admission.accepted {
          r := Record(Reject, AdmissionRefused(admission.reason), admission.objectId, evidence, []);
          return;
        }
        admitted := true;
      }
      var advanced := c.(state := target, evidence := c.evidence + evidence, admitted := admitted,
                         simulated := if target == Supported then false else c.simulated);
      assert advanced == Validation(c, evidence);
      claims := claims.Put(id, advanced);
      r := Record(Accept, if target == Supported then TransitionSupported else TransitionValidated,
                  id, c.evidence + evidence, []);
    }

    method Project(tenantId: string, scope: Scope) returns (p: P.Projection)
      requires Valid()
      modifies this
      ensures Valid() && calls == old(calls) + [AxiomWorld.Project(tenantId, scope)]
      ensures View() == Step(old(View()), AxiomWorld.Project(tenantId, scope))
      ensures Inv(old(View())) && p == P.ProjectionOf(old(View()), tenantId, scope)
    {
      Log(AxiomWorld.Project(tenantId, scope));
      var symbolViews, visible, symbolRedactions := P.ProjectSymbols(P.SortedValues(symbols), tenantId, scope);
      var claimViews, claimRedactions := P.ProjectClaims(P.SortedValues(claims), visible, tenantId, scope);
      p := P.Projection(tenantId, scope, symbolViews, claimViews, symbolRedactions + claimRedactions);
      var r := Record(Accept, ProjectionEmitted, ProjectionId(tenantId, scope), [], []);
    }
  }

  lemma ConflictsListedHere(k: Kernel, p: Proposal, id: string)
    requires Inv(k) && id in ClaimConflicts(k, p)
    ensures id in k.claims.at
  {
    FilterMember(k.claims.keys, ConflictsWith(k.claims.at, p), id);
  }
}
