/** What an agent may do, told in the fields of its identity and of the request; and what an outcome does to its
    reputation. */
module AgentRights {
  import opened Collections
  import opened Ordering
  import opened AgentIdentity

  // ----- Admission ------------------------------------------------------------------------

  ghost predicate Granting(q: Request) { q.operation == "grant_approval" || q.capability == "approval.grant" }

  /** The request stays within the agent's capabilities, budget, memory, approval and delegation scopes, given what the
      agent has used of the day. */
  ghost predicate MayDo(a: Identity, q: Request, used: Usage) {
    && a.status == Active && q.tenantId == a.tenantId
    && q.capability in a.allowed && q.capability !in a.forbidden
    && q.cost <= a.budget.perActionCostLimit
    && used.actions < a.budget.dailyActionLimit && used.cost + q.cost <= a.budget.dailyCostLimit
    && MayRemember(a.memory, q)
    && (q.operation == "request_approval" ==> a.approval.canRequest)
    && (Granting(q) ==> a.approval.canGrant && q.approvalTarget != q.agentId && q.cost <= a.approval.limit)
    && (q.operation == "delegate" ==> MayDelegate(a.delegation, q))
    && (q.risk == High || q.risk == Critical ==> q.evidenceRefs != [])
  }

  ghost predicate MayRemember(m: MemoryScope, q: Request) {
    q.memoryClass != "" ==>
      && q.memoryUse != NoUse && q.memoryClass !in m.forbidden
      && (q.memoryUse == Planning ==> q.memoryClass in m.planning)
      && (q.memoryUse == Execution ==> q.memoryClass in m.execution)
  }

  ghost predicate MayDelegate(d: DelegationScope, q: Request) {
    && d.canDelegate && q.delegationDepth <= d.maxDepth
    && q.workerCapability != "" && q.workerCapability in d.workerCapabilities
  }

  /** The agent is registered and may do what it asks, by what is counted against it that day. */
  ghost predicate Permitted(r: Registry, q: Request) {
    q.agentId in r.agents
    && MayDo(r.agents[q.agentId], q,
             if (q.agentId, q.day) in r.usage then r.usage[(q.agentId, q.day)] else Usage(0, 0.0))
  }

  lemma AllowedIff(r: Registry, q: Request)
    ensures Decide(r, q).allowed <==> Permitted(r, q)
    ensures Decide(r, q).request == q && (Decide(r, q).allowed <==> Decide(r, q).denial == NoDenial)
  {
    if q.agentId in r.agents { ScopesIff(r.agents[q.agentId], q); }
  }

  lemma ScopesIff(a: Identity, q: Request)
    ensures MemoryDenial(a, q) == NoDenial <==> MayRemember(a.memory, q)
    ensures ApprovalDenial(a, q) == NoDenial <==>
            (q.operation == "request_approval" ==> a.approval.canRequest)
            && (Granting(q) ==> a.approval.canGrant && q.approvalTarget != q.agentId && q.cost <= a.approval.limit)
    ensures DelegationDenial(a, q) == NoDenial <==> (q.operation == "delegate" ==> MayDelegate(a.delegation, q))
  {
  }

  /** What a reason given for refusing a registered agent says of the two. */
  ghost predicate Holds(why: Denial, a: Identity, q: Request, used: Usage) {
    match why
    case StatusNotActive => a.status != Active
    case TenantMismatch => q.tenantId != a.tenantId
    case CapabilityForbidden => q.capability in a.forbidden
    case CapabilityNotAllowed => q.capability !in a.allowed
    case ActionCostExceeded => q.cost > a.budget.perActionCostLimit
    case DailyActionsExhausted => used.actions >= a.budget.dailyActionLimit
    case DailyCostExhausted => used.cost + q.cost > a.budget.dailyCostLimit
    case MemoryUseRequired => q.memoryClass != "" && q.memoryUse == NoUse
    case MemoryClassForbidden => q.memoryClass != "" && q.memoryClass in a.memory.forbidden
    case MemoryNotForPlanning => q.memoryClass != "" && q.memoryUse == Planning && q.memoryClass !in a.memory.planning
    case MemoryNotForExecution =>
      q.memoryClass != "" && q.memoryUse == Execution && q.memoryClass !in a.memory.execution
    case ApprovalRequestNotAllowed => q.operation == "request_approval" && !a.approval.canRequest
    case ApprovalGrantNotAllowed => Granting(q) && !a.approval.canGrant
    case SelfApprovalForbidden => Granting(q) && q.approvalTarget == q.agentId
    case ApprovalLimitExceeded => Granting(q) && q.cost > a.approval.limit
    case DelegationNotAllowed => q.operation == "delegate" && !a.delegation.canDelegate
    case DelegationTooDeep => q.operation == "delegate" && q.delegationDepth > a.delegation.maxDepth
    case WorkerCapabilityRequired => q.operation == "delegate" && q.workerCapability == ""
    case WorkerCapabilityNotAllowed =>
      q.operation == "delegate" && q.workerCapability !in a.delegation.workerCapabilities
    case HighRiskEvidenceRequired => (q.risk == High || q.risk == Critical) && q.evidenceRefs == []
    case _ => false
  }

  /** The order in which the reasons are looked for. */
  ghost function Place(why: Denial): nat {
    match why
    case StatusNotActive => 1 case TenantMismatch => 2 case CapabilityForbidden => 3 case CapabilityNotAllowed => 4
    case ActionCostExceeded => 5 case DailyActionsExhausted => 6 case DailyCostExhausted => 7
    case MemoryUseRequired => 8 case MemoryClassForbidden => 9 case MemoryNotForPlanning => 10
    case MemoryNotForExecution => 11 case ApprovalRequestNotAllowed => 12 case ApprovalGrantNotAllowed => 13
    case SelfApprovalForbidden => 14 case ApprovalLimitExceeded => 15 case DelegationNotAllowed => 16
    case DelegationTooDeep => 17 case WorkerCapabilityRequired => 18 case WorkerCapabilityNotAllowed => 19
    case HighRiskEvidenceRequired => 20
    case _ => 0
  }

  /** A refusal gives the first reason that holds: it is true, and no other that comes before it is. */
  lemma ReasonTrue(r: Registry, q: Request, other: Denial)
    requires !Decide(r, q).allowed
    ensures var why := Decide(r, q).denial;
            && (why == IdentityNotFound <==> q.agentId !in r.agents)
            && (q.agentId in r.agents ==>
                  Holds(why, r.agents[q.agentId], q, Used(r, (q.agentId, q.day)))
                  && (Holds(other, r.agents[q.agentId], q, Used(r, (q.agentId, q.day))) ==> Place(why) <= Place(other)))
  {
    if q.agentId in r.agents { FirstReason(r.agents[q.agentId], q, Used(r, (q.agentId, q.day)), other); }
  }

  lemma FirstReason(a: Identity, q: Request, used: Usage, other: Denial)
    requires AdmissionDenial(Some(a), q, used) != NoDenial
    ensures var why := AdmissionDenial(Some(a), q, used);
            Holds(why, a, q, used) && (Holds(other, a, q, used) ==> Place(why) <= Place(other))
  {
    FirstInScope(a, q, used, other);
  }

  /** The same within each scope, where a check that passes leaves none of its reasons. */
  lemma FirstInScope(a: Identity, q: Request, used: Usage, other: Denial)
    ensures var why := MemoryDenial(a, q);
            if why == NoDenial then 8 <= Place(other) <= 11 ==> !Holds(other, a, q, used)
            else Holds(why, a, q, used) && 8 <= Place(why) <= 11
                 && (8 <= Place(other) && Holds(other, a, q, used) ==> Place(why) <= Place(other))
    ensures var why := ApprovalDenial(a, q);
            if why == NoDenial then 12 <= Place(other) <= 15 ==> !Holds(other, a, q, used)
            else Holds(why, a, q, used) && 12 <= Place(why) <= 15
                 && (12 <= Place(other) && Holds(other, a, q, used) ==> Place(why) <= Place(other))
    ensures var why := DelegationDenial(a, q);
            if why == NoDenial then 16 <= Place(other) <= 19 ==> !Holds(other, a, q, used)
            else Holds(why, a, q, used) && 16 <= Place(why) <= 19
                 && (16 <= Place(other) && Holds(other, a, q, used) ==> Place(why) <= Place(other))
  {
  }

  // ----- Whole runs -----------------------------------------------------------------------

  /** The `i`-th call asked for it, of a registry in which the agent was permitted to. */
  ghost predicate AskedAndPermitted(round: real -> real, ops: seq<Op>, i: nat, q: Request) {
    i < |ops| && ops[i] == Evaluate(q) && Permitted(Run(round, ops[..i]), q)
  }

  /** In every run, whatever was allowed was permitted when it was asked. */
  lemma {:induction false} AllowedWasPermitted(round: real -> real, ops: seq<Op>, d: Decision)
    requires d in Run(round, ops).decisions && d.allowed
    ensures exists i: nat :: AskedAndPermitted(round, ops, i, d.request)
  {
    var front, op := ops[..|ops| - 1], ops[|ops| - 1];
    var r := Run(round, front);
    if d in r.decisions {
      AllowedWasPermitted(round, front, d);
      var i: nat :| AskedAndPermitted(round, front, i, d.request);
      assert ops[..i] == front[..i];
      assert AskedAndPermitted(round, ops, i, d.request);
    } else {
      assert op.Evaluate? && d == Decide(r, op.request);
      AllowedIff(r, op.request);
      assert AskedAndPermitted(round, ops, |front|, d.request);
    }
  }

  /** What an evaluation leaves: one more decision, one more action and its cost against the agent's day if it was
      allowed, and nothing else. */
  lemma EvaluationCounts(round: real -> real, r: Registry, q: Request, agent: string, day: int)
    ensures var after := Step(round, r, Evaluate(q));
            var before := Used(r, (agent, day));
            && after.agents == r.agents && after.decisions == r.decisions + [Decide(r, q)]
            && Used(after, (agent, day)) == if Permitted(r, q) && agent == q.agentId && day == q.day
                                            then Usage(before.actions + 1, before.cost + q.cost) else before
  {
    AllowedIff(r, q);
  }

  // ----- Registration -----------------------------------------------------------------------

  /** The value is stripped of one of the texts. */
  ghost predicate Lists(values: seq<string>, v: string) {
    v != "" && exists i :: 0 <= i < |values| && Strip(values[i]) == v
  }

  ghost predicate Forbidden(raw: Identity, v: string) {
    Lists(raw.forbidden, v) || v == "authority_rules.modify" || v == "policy.modify" || v == "policy.promote"
  }

  lemma ListsBoth(a: seq<string>, b: seq<string>, v: string)
    ensures Lists(a + b, v) <==> Lists(a, v) || Lists(b, v)
  {
    if Lists(a, v) {
      var i :| 0 <= i < |a| && Strip(a[i]) == v;
      assert (a + b)[i] == a[i];
    }
    if Lists(b, v) {
      var i :| 0 <= i < |b| && Strip(b[i]) == v;
      assert (a + b)[|a| + i] == b[i];
    }
  }

  lemma PolicyListed(v: string)
    ensures Lists(POLICY_MUTATION_CAPABILITIES, v) <==> v in POLICY_MUTATION_CAPABILITIES
  {
    PolicyWordsStand();
    if v in POLICY_MUTATION_CAPABILITIES {
      var i :| 0 <= i < |POLICY_MUTATION_CAPABILITIES| && POLICY_MUTATION_CAPABILITIES[i] == v;
    }
  }

  lemma PolicyWords(v: string)
    ensures v in POLICY_MUTATION_CAPABILITIES <==>
            v == "authority_rules.modify" || v == "policy.modify" || v == "policy.promote"
  {
  }

  lemma ForbiddenMeans(raw: Identity, v: string)
    ensures v in Normalized(raw.forbidden + POLICY_MUTATION_CAPABILITIES) <==> Forbidden(raw, v)
    ensures v in POLICY_MUTATION_CAPABILITIES ==> Forbidden(raw, v)
  {
    NormalizedMember(raw.forbidden + POLICY_MUTATION_CAPABILITIES, v);
    ListsBoth(raw.forbidden, POLICY_MUTATION_CAPABILITIES, v);
    PolicyListed(v);
    PolicyWords(v);
  }

  /** An identity is registered exactly when its names are given, it may act at all, nothing it may do is also
      forbidden to it or changes policy, and its reputation is within bounds. */
  lemma RegisteredIff(raw: Identity)
    ensures MakeIdentity(raw).Ok? <==>
            && !Blank(raw.agentId) && !Blank(raw.ownerId) && !Blank(raw.tenantId) && !Blank(raw.role)
            && raw.budget.dailyActionLimit > 0 && 0.0 <= raw.reputation <= 1.0
            && (exists v :: Lists(raw.allowed, v)) && (forall v | Lists(raw.allowed, v) :: !Forbidden(raw, v))
  {
    forall v ensures v in Normalized(raw.allowed) <==> Lists(raw.allowed, v) { NormalizedMember(raw.allowed, v); }
    forall v
      ensures v in Normalized(raw.forbidden + POLICY_MUTATION_CAPABILITIES) <==> Forbidden(raw, v)
      ensures v in POLICY_MUTATION_CAPABILITIES ==> Forbidden(raw, v)
    {
      ForbiddenMeans(raw, v);
    }
    if Normalized(raw.allowed) != [] { assert Lists(raw.allowed, Normalized(raw.allowed)[0]); }
  }

  /** The stored identity differs from the one given only in its two capability lists, which are stripped, and in the
      three policy capabilities every agent is forbidden. */
  lemma RegisteredAs(raw: Identity, v: string)
    requires MakeIdentity(raw).Ok?
    ensures var a := MakeIdentity(raw).value;
            && a == raw.(allowed := a.allowed, forbidden := a.forbidden)
            && (v in a.allowed <==> Lists(raw.allowed, v)) && (v in a.forbidden <==> Forbidden(raw, v))
            && Distinct(a.allowed) && Distinct(a.forbidden)
  {
    NormalizedMember(raw.allowed, v);
    ForbiddenMeans(raw, v);
  }

  // ----- Reputation -------------------------------------------------------------------------

  /** An outcome is taken up exactly when the agent is registered for that tenant, and then changes its reputation and
      its evidence, and nothing else of it or of any other. */
  lemma OutcomeTouches(round: real -> real, r: Registry, o: AgentOutcome, other: string)
    ensures OutcomeOf(round, r, o).Ok? <==> o.agentId in r.agents && r.agents[o.agentId].tenantId == o.tenantId
    ensures OutcomeOf(round, r, o).Ok? ==>
              var after, a := OutcomeOf(round, r, o).value, r.agents[o.agentId];
              after == a.(evidence := after.evidence, reputation := after.reputation)
    ensures OutcomeOf(round, r, o).Ok? && other in r.agents && r.agents[o.agentId].agentId == o.agentId ==>
              var then_ := Step(round, r, RecordOutcome(o));
              && then_.usage == r.usage && then_.decisions == r.decisions && then_.agents.Keys == r.agents.Keys
              && then_.agents[other] == if other == o.agentId then OutcomeOf(round, r, o).value else r.agents[other]
    ensures OutcomeOf(round, r, o).Err? ==> Step(round, r, RecordOutcome(o)) == r
  {
  }

  /** By how much an outcome moves the score before rounding. */
  function Shift(status: OutcomeStatus, risk: RiskTier): real {
    match (status, risk)
    case (Succeeded, Low) => 0.01 case (Succeeded, Medium) => 0.02
    case (Succeeded, High) => 0.025 case (Succeeded, Critical) => 0.03
    case (Failed, Low) => -0.05 case (Failed, Medium) => -0.1
    case (Failed, High) => -0.125 case (Failed, Critical) => -0.15
    case (Compensated, Low) => -0.025 case (Compensated, Medium) => -0.05
    case (Compensated, High) => -0.0625 case (Compensated, Critical) => -0.075
    case (RequiresReview, Low) => -0.015 case (RequiresReview, Medium) => -0.03
    case (RequiresReview, High) => -0.0375 case (RequiresReview, Critical) => -0.045
  }

  /** The new score is the old one moved that much and rounded, but never leaves [0, 1]. */
  lemma ReputationExact(round: real -> real, r: Registry, o: AgentOutcome)
    requires OutcomeOf(round, r, o).Ok?
    ensures var after := OutcomeOf(round, r, o).value.reputation;
            var moved := round(r.agents[o.agentId].reputation + Shift(o.status, o.risk));
            after == if moved < 0.0 then 0.0 else if moved > 1.0 then 1.0 else moved
  {
  }

  ghost predicate Monotone(round: real -> real) { forall x, y :: x <= y ==> round(x) <= round(y) }

  /** Success never lowers a rounded score and nothing else ever raises it; a graver outcome never leaves it higher,
      nor a higher risk nearer. */
  lemma ReputationMoves(round: real -> real, r: Registry, o: AgentOutcome, graver: AgentOutcome, riskier: AgentOutcome)
    requires Monotone(round) && OutcomeOf(round, r, o).Ok?
    requires var score := r.agents[o.agentId].reputation; 0.0 <= score <= 1.0 && round(score) == score
    requires graver == o.(status := graver.status) && Gravity(o.status) <= Gravity(graver.status)
    requires riskier == o.(risk := riskier.risk) && Height(o.risk) <= Height(riskier.risk)
    ensures var score, after := r.agents[o.agentId].reputation, OutcomeOf(round, r, o).value.reputation;
            && OutcomeOf(round, r, graver).Ok? && OutcomeOf(round, r, riskier).Ok?
            && (if o.status == Succeeded then score <= after else after <= score)
            && OutcomeOf(round, r, graver).value.reputation <= after
            && (if o.status == Succeeded then after <= OutcomeOf(round, r, riskier).value.reputation
                else OutcomeOf(round, r, riskier).value.reputation <= after)
  {
    var score := r.agents[o.agentId].reputation;
    ShiftMoves(o.status, o.risk, graver.status, riskier.risk);
    ReputationExact(round, r, o);
    ReputationExact(round, r, graver);
    ReputationExact(round, r, riskier);
    if o.status == Succeeded {
      assert round(score) <= round(score + Shift(o.status, o.risk)) <= round(score + Shift(o.status, riskier.risk));
    } else {
      assert round(score + Shift(o.status, riskier.risk)) <= round(score + Shift(o.status, o.risk)) <= round(score);
    }
    assert round(score + Shift(graver.status, o.risk)) <= round(score + Shift(o.status, o.risk));
  }

  ghost function Gravity(status: OutcomeStatus): nat {
    match status case Succeeded => 0 case RequiresReview => 1 case Compensated => 2 case Failed => 3
  }

  ghost function Height(risk: RiskTier): nat {
    match risk case Low => 0 case Medium => 1 case High => 2 case Critical => 3
  }

  lemma ShiftMoves(status: OutcomeStatus, risk: RiskTier, graver: OutcomeStatus, higher: RiskTier)
    requires Gravity(status) <= Gravity(graver) && Height(risk) <= Height(higher)
    ensures Shift(graver, risk) <= Shift(status, risk)
    ensures if status == Succeeded then 0.0 < Shift(status, risk) <= Shift(status, higher)
            else Shift(status, higher) <= Shift(status, risk) < 0.0
  {
  }
}
