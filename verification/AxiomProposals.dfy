/** What a proposal does, told in the fields of the claims: which claims conflict, which are marked, and that no other
    tenant's, subject's or relation's claim is touched, in one call and over whole runs. */
module AxiomProposals {
  import opened Collections
  import opened AxiomWorld
  import opened AxiomConflicts

  /** The claim and the proposal speak of one relation of one subject of one tenant. */
  ghost predicate SameMatter(c: Claim, p: Proposal) {
    c.tenantId == p.tenantId && c.subject == p.subject && c.relation == p.relation
  }

  /** A live claim about the same matter says something else. */
  ghost predicate Disputes(c: Claim, p: Proposal) {
    && c.tenantId == p.tenantId && c.subject == p.subject && c.relation == p.relation && c.value != p.value
    && c.state !in {Revoked, Deprecated, Superseded}
  }

  ghost predicate Disputed(claims: map<string, Claim>, p: Proposal) {
    exists id | id in claims :: Disputes(claims[id], p)
  }

  /** Past every check that comes before the search for conflicts. */
  ghost predicate Admitted(k: Kernel, p: Proposal, a: Admission) {
    p.subject in k.symbols.at && !p.simulated && p.evidence != [] && a.accepted
  }

  lemma ConflictMeans(k: Kernel, p: Proposal, id: string)
    requires k.claims.Valid() && id in k.claims.at
    ensures id in ClaimConflicts(k, p) <==> Disputes(k.claims.at[id], p)
  {
    ConflictsListed(k, p, id);
  }

  lemma NoneConflictMeans(k: Kernel, p: Proposal)
    requires k.claims.Valid()
    ensures ClaimConflicts(k, p) != [] <==> Disputed(k.claims.at, p)
  {
    RivalListed(k, p);
    forall id | id in k.claims.at
      ensures Disputes(k.claims.at[id], p)
              <==> !Inactive(k.claims.at[id].state)
                   && Rivals(k.claims.at[id], p.tenantId, p.subject, p.relation, p.value)
    {
      ConflictMeans(k, p, id);
      ConflictsListed(k, p, id);
    }
  }

  /** The record holds what was proposed. */
  ghost predicate Records(c: Claim, p: Proposal) {
    && c.claimId == p.claimId && c.tenantId == p.tenantId && c.subject == p.subject && c.relation == p.relation
    && c.value == p.value && c.evidence == p.evidence && c.scope == p.scope && c.simulated == p.simulated
    && c.confidence.(counterevidencePressure := p.confidence.counterevidencePressure) == p.confidence
  }

  /** An admitted proposal is stored as proposed, CONFLICTED exactly when a live stored claim of the same tenant,
      subject and relation has another value, and SUPPORTED otherwise. */
  lemma AdmittedIsStored(k: Kernel, p: Proposal, a: Admission, b: Admission)
    requires k.claims.Valid() && Admitted(k, p, a)
    ensures var after := ProposeStep(k, p, a, b).claims.at;
            && p.claimId in after && Records(after[p.claimId], p) && after[p.claimId].admitted
            && after[p.claimId].state == if Disputed(k.claims.at, p) then Conflicted else Supported
  {
    NoneConflictMeans(k, p);
  }

  /** Of the other stored claims exactly those are marked, with their confidence put under pressure; all else stays. */
  lemma ExactlyDisputedMarked(k: Kernel, p: Proposal, a: Admission, b: Admission, id: string)
    requires k.claims.Valid() && Admitted(k, p, a) && id in k.claims.at && id != p.claimId
    ensures var was, after := k.claims.at[id], ProposeStep(k, p, a, b).claims.at;
            && id in after
            && after[id] == if Disputes(was, p)
                            then was.(state := Conflicted,
                                      confidence := was.confidence.(counterevidencePressure := 0.3))
                            else was
  {
    ConflictMeans(k, p, id);
    NoneConflictMeans(k, p);
  }

  /** Proposals that get no further: what they store, if anything. */
  lemma UnadmittedIsStored(k: Kernel, p: Proposal, a: Admission, b: Admission)
    requires k.claims.Valid() && !Admitted(k, p, a)
    ensures var was, after := k.claims.at, ProposeStep(k, p, a, b).claims.at;
            if p.subject in k.symbols.at && (p.simulated || p.evidence == [])
            then && after == was[p.claimId := RecordOf(p, if p.simulated then Simulated else Hypothesis, false)]
                 && Records(after[p.claimId], p) && !after[p.claimId].admitted
                 && after[p.claimId].state == if p.simulated then Simulated else Hypothesis
            else after == was
  {
  }

  /** Isolation: a proposal changes no claim of another tenant, subject or relation, its own id apart, and adds none but
      its own. */
  lemma ProposalIsolated(k: Kernel, p: Proposal, a: Admission, b: Admission, id: string)
    requires k.claims.Valid() && id != p.claimId
    ensures var after := ProposeStep(k, p, a, b).claims.at;
            && (id in after <==> id in k.claims.at)
            && (id in after && !SameMatter(k.claims.at[id], p) ==> after[id] == k.claims.at[id])
  {
    if Admitted(k, p, a) {
      NoneConflictMeans(k, p);
      if id in k.claims.at { ExactlyDisputedMarked(k, p, a, b, id); }
    } else {
      UnadmittedIsStored(k, p, a, b);
    }
  }

  // ----- What the caller is told ------------------------------------------------------

  /** Quarantine names exactly the disputed claims, in the order they are stored; acceptance names none. */
  lemma ReceiptNamesDisputed(k: Kernel, p: Proposal, a: Admission, b: Admission)
    requires k.claims.Valid() && Admitted(k, p, a) && b.accepted
    ensures var r := ProposeStep(k, p, a, b).receipts;
            && |r| == |k.receipts| + 1 && r[..|k.receipts|] == k.receipts
            && var last := r[|k.receipts|];
               && last.decision == (if Disputed(k.claims.at, p) then Quarantine else Accept)
               && last.objectId == p.claimId && last.evidenceUsed == p.evidence
               && (forall id | id in last.conflicts :: id in k.claims.at && Disputes(k.claims.at[id], p))
               && (forall id | id in k.claims.at && Disputes(k.claims.at[id], p) :: id in last.conflicts)
  {
    NoneConflictMeans(k, p);
    forall id ensures id in ClaimConflicts(k, p) <==> id in k.claims.at && Disputes(k.claims.at[id], p) {
      FilterMember(k.claims.keys, ConflictsWith(k.claims.at, p), id);
      if id in k.claims.at { ConflictMeans(k, p, id); }
    }
  }

  // ----- Whole runs -------------------------------------------------------------------

  /** The call puts the claim into conflict: it is an admitted proposal about the claim's own tenant, subject and
      relation, with another value, or the claim's own proposal against a stored claim with another value. */
  ghost predicate PutsInConflict(k: Kernel, op: Op, id: string, c: Claim) {
    && op.Propose? && Admitted(k, op.proposal, op.claimAdmission) && SameMatter(c, op.proposal)
    && if id == op.proposal.claimId then c.value == op.proposal.value && Disputed(k.claims.at, op.proposal)
       else id in k.claims.at && c.value != op.proposal.value
  }

  ghost predicate SaysTheSame(c: Claim, d: Claim) {
    c.tenantId == d.tenantId && c.subject == d.subject && c.relation == d.relation && c.value == d.value
  }

  lemma ProposingConflicts(k: Kernel, p: Proposal, a: Admission, b: Admission, id: string)
    requires Inv(k) && InConflict(ProposeStep(k, p, a, b), id)
    ensures var c := ProposeStep(k, p, a, b).claims.at[id];
            PutsInConflict(k, Propose(p, a, b), id, c) || (InConflict(k, id) && SaysTheSame(k.claims.at[id], c))
  {
    if !Admitted(k, p, a) {
      UnadmittedIsStored(k, p, a, b);
    } else if id == p.claimId {
      AdmittedIsStored(k, p, a, b);
    } else {
      ProposalIsolated(k, p, a, b, id);
      ExactlyDisputedMarked(k, p, a, b, id);
    }
  }

  lemma ValidatingConflicts(k: Kernel, target: string, evidence: seq<string>, a: Admission, id: string)
    requires Inv(k) && InConflict(ValidateStep(k, target, evidence, a), id)
    ensures InConflict(k, id) && ValidateStep(k, target, evidence, a).claims.at[id] == k.claims.at[id]
  {
    if Advances(k, target, evidence, a) {
      AdvancingStores(k, target, evidence, a);
    } else {
      RefusingOnlyLogs(k, target, evidence, a);
    }
  }

  lemma ConflictComesFromStep(k: Kernel, op: Op, id: string)
    requires Inv(k) && InConflict(Step(k, op), id)
    ensures var c := Step(k, op).claims.at[id];
            PutsInConflict(k, op, id, c) || (InConflict(k, id) && SaysTheSame(k.claims.at[id], c))
  {
    match op
    case Observe(event, admission) =>
    case Propose(p, a, b) => ProposingConflicts(k, p, a, b, id);
    case Validate(target, evidence, admission) => ValidatingConflicts(k, target, evidence, admission, id);
    case Project(tenantId, scope) =>
  }

  ghost predicate PutAt(ops: seq<Op>, i: nat, id: string, c: Claim) {
    i < |ops| && PutsInConflict(Run(ops[..i]), ops[i], id, c)
  }

  /** In every run, a claim is CONFLICTED only through an admitted proposal about its own tenant, subject and relation:
      somebody's with another value, or its own against somebody else's. */
  lemma {:induction false} ConflictComesFromOwnMatter(ops: seq<Op>, id: string)
    requires InConflict(Run(ops), id)
    ensures exists i: nat :: PutAt(ops, i, id, Run(ops).claims.at[id])
  {
    assert ops != [];
    var front, last := ops[..|ops| - 1], |ops| - 1;
    var k, c := Run(front), Run(ops).claims.at[id];
    RealityHolds(front);
    ConflictComesFromStep(k, ops[last], id);
    if PutsInConflict(k, ops[last], id, c) {
      assert PutAt(ops, last, id, c);
    } else {
      ConflictComesFromOwnMatter(front, id);
      var i: nat :| PutAt(front, i, id, k.claims.at[id]);
      assert front[..i] == ops[..i];
      assert PutAt(ops, i, id, c);
    }
  }

  // ----- Validation ---------------------------------------------------------------------

  /** A validation moves one claim one step up: a hypothesis or simulation with new evidence, which the store admits
      unless it holds the claim already, becomes SUPPORTED, and a SUPPORTED one VALIDATED. */
  ghost predicate MovesUp(k: Kernel, id: string, evidence: seq<string>, a: Admission) {
    && id in k.claims.at
    && var c := k.claims.at[id];
       || c.state == Supported
       || (c.state in {Hypothesis, Simulated} && evidence != [] && (c.admitted || a.accepted))
  }

  /** And it does nothing else to any claim. */
  lemma ValidationExact(k: Kernel, id: string, evidence: seq<string>, a: Admission)
    requires Inv(k)
    ensures var was, after := k.claims.at, ValidateStep(k, id, evidence, a).claims.at;
            if MovesUp(k, id, evidence, a) then
              && after.Keys == was.Keys && (forall x | x in was && x != id :: after[x] == was[x])
              && var c, d := was[id], after[id];
                 && d.state == (if c.state == Supported then Validated else Supported)
                 && d.evidence == c.evidence + evidence
                 && (c.state != Supported ==> d.admitted && !d.simulated)
                 && d.(state := c.state, evidence := c.evidence, admitted := c.admitted, simulated := c.simulated) == c
            else after == was
  {
    if Advances(k, id, evidence, a) {
      AdvancingStores(k, id, evidence, a);
    } else {
      RefusingOnlyLogs(k, id, evidence, a);
    }
  }

  // ----- Coherence --------------------------------------------------------------------

  /** What coherence says: two supported or validated claims about one matter agree on the value. */
  lemma CoherentMeans(claims: map<string, Claim>)
    ensures Coherent(claims) <==>
            forall x, y | x in claims && y in claims
                          && claims[x].state in {Supported, Validated} && claims[y].state in {Supported, Validated}
                          && claims[x].tenantId == claims[y].tenantId && claims[x].subject == claims[y].subject
                          && claims[x].relation == claims[y].relation ::
              claims[x].value == claims[y].value
  {
    if Coherent(claims) {
      forall x, y | x in claims && y in claims
                    && claims[x].state in {Supported, Validated} && claims[y].state in {Supported, Validated}
                    && claims[x].tenantId == claims[y].tenantId && claims[x].subject == claims[y].subject
                    && claims[x].relation == claims[y].relation
        ensures claims[x].value == claims[y].value
      {
        assert CoherentPair(claims[x], claims[y]);
      }
    }
  }

  /** What an unchecked promotion is. */
  lemma PromotionMeans(k: Kernel, op: Op)
    ensures PromotesAgainstRival(k, op) <==>
            && op.Validate? && op.claimId in k.claims.at && op.evidence != [] && op.validationAdmission.accepted
            && k.claims.at[op.claimId].state in {Hypothesis, Simulated}
            && exists d | d in k.claims.at ::
                 var c, r := k.claims.at[op.claimId], k.claims.at[d];
                 r.state in {Supported, Validated} && r.tenantId == c.tenantId && r.subject == c.subject
                 && r.relation == c.relation && r.value != c.value
  {
    if op.Validate? && op.claimId in k.claims.at {
      var c := k.claims.at[op.claimId];
      forall d | d in k.claims.at
        ensures SupportedRival(k.claims.at, d, c) <==>
                var r := k.claims.at[d];
                r.state in {Supported, Validated} && r.tenantId == c.tenantId && r.subject == c.subject
                && r.relation == c.relation && r.value != c.value
      {
      }
    }
  }

  // ----- It happens -------------------------------------------------------------------

  /** Two tenants say different things about what they call by the same name: both are supported. */
  lemma TenantsDoNotConflict(k: Kernel, p: Proposal, q: Proposal, ok: Admission)
    requires Inv(k) && k.claims == EMPTY.claims && p.subject in k.symbols.at && ok.accepted
    requires !p.simulated && p.evidence != [] && !q.simulated && q.evidence != []
    requires p.claimId != q.claimId && p.tenantId != q.tenantId && p.subject == q.subject && p.relation == q.relation
    ensures var after := Step(Step(k, Propose(p, ok, ok)), Propose(q, ok, ok)).claims.at;
            && p.claimId in after && after[p.claimId].state == Supported
            && q.claimId in after && after[q.claimId].state == Supported
  {
    FirstSupported(k, p, ok);
    var k1 := Step(k, Propose(p, ok, ok));
    AdmittedIsStored(k1, q, ok, ok);
    ProposalIsolated(k1, q, ok, ok, p.claimId);
  }
}
