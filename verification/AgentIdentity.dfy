/** The identity registry: daily budgets per agent, admission checks and bounded reputation.
    Costs and scores are exact reals; a day is an integer. */
module AgentIdentity {
  import opened Collections
  import opened Ordering

  const POLICY_MUTATION_CAPABILITIES: seq<string> := ["authority_rules.modify", "policy.modify", "policy.promote"]
  const MAX_EVIDENCE: nat := 50

  /** Why a call raised. */
  datatype Refusal =
    | TextRequired | ActionLimitNotPositive | AllowedRequired | PolicyMutationForbidden | ScopeConflict
    | ReputationOutOfRange
    | AgentNotFound | OutcomeTenantMismatch

  /** Why a request was not admitted. */
  datatype Denial =
    | NoDenial
    | IdentityNotFound | StatusNotActive | TenantMismatch | CapabilityForbidden | CapabilityNotAllowed
    | ActionCostExceeded | DailyActionsExhausted | DailyCostExhausted
    | MemoryUseRequired | MemoryClassForbidden | MemoryNotForPlanning | MemoryNotForExecution
    | ApprovalRequestNotAllowed | ApprovalGrantNotAllowed | SelfApprovalForbidden | ApprovalLimitExceeded
    | DelegationNotAllowed | DelegationTooDeep | WorkerCapabilityRequired | WorkerCapabilityNotAllowed
    | HighRiskEvidenceRequired

  type Cost = x: real | 0.0 <= x
  datatype AgentStatus = Active | Suspended | Revoked
  datatype RiskTier = Low | Medium | High | Critical
  datatype OutcomeStatus = Succeeded | Failed | Compensated | RequiresReview
  datatype MemoryUse = NoUse | Planning | Execution

  datatype Budget = Budget(dailyActionLimit: int, dailyCostLimit: Cost, perActionCostLimit: Cost)
  datatype MemoryScope = MemoryScope(planning: seq<string>, execution: seq<string>, forbidden: seq<string>)
  datatype ApprovalScope = ApprovalScope(canRequest: bool, canGrant: bool, limit: Cost)
  datatype DelegationScope = DelegationScope(canDelegate: bool, workerCapabilities: seq<string>, maxDepth: nat)
  datatype Evidence = Evidence(evidenceRef: string, status: OutcomeStatus, observedAt: int, commandId: string)

  datatype Identity = Identity(
    agentId: string, ownerId: string, tenantId: string, role: string, status: AgentStatus,
    allowed: seq<string>, forbidden: seq<string>, budget: Budget, memory: MemoryScope, approval: ApprovalScope,
    delegation: DelegationScope, evidence: seq<Evidence>, reputation: real)

  datatype Request = Request(
    requestId: string, agentId: string, tenantId: string, capability: string, operation: string, risk: RiskTier,
    cost: Cost, memoryClass: string, memoryUse: MemoryUse, approvalTarget: string, workerCapability: string,
    delegationDepth: nat, day: int, evidenceRefs: seq<string>)

  datatype AgentOutcome = AgentOutcome(
    agentId: string, tenantId: string, commandId: string, status: OutcomeStatus, risk: RiskTier,
    observedAt: int, evidenceRef: string)

  datatype Usage = Usage(actions: nat, cost: real)
  const UNUSED := Usage(0, 0.0)

  datatype Decision = Decision(request: Request, allowed: bool, denial: Denial)

  /** `decisions` is the history of every decision, which the registry itself does not keep. */
  datatype Registry = Registry(agents: map<string, Identity>, usage: map<(string, int), Usage>,
                               decisions: seq<Decision>)

  const EMPTY := Registry(map[], map[], [])

  datatype Op =
    | Register(raw: Identity)
    | Evaluate(request: Request)
    | RecordOutcome(outcome: AgentOutcome)

  predicate Disjoint(a: seq<string>, b: seq<string>) { forall x | x in a :: x !in b }

  /** The checks AgentIdentity makes on construction. */
  function MakeIdentity(raw: Identity): Result<Identity, Refusal> {
    var allowed := Normalized(raw.allowed);
    var forbidden := Normalized(raw.forbidden + POLICY_MUTATION_CAPABILITIES);
    if Blank(raw.agentId) || Blank(raw.ownerId) || Blank(raw.tenantId) || Blank(raw.role) then Err(TextRequired)
    else if raw.budget.dailyActionLimit <= 0 then Err(ActionLimitNotPositive)
    else if allowed == [] then Err(AllowedRequired)
    else if !Disjoint(allowed, POLICY_MUTATION_CAPABILITIES) then Err(PolicyMutationForbidden)
    else if !Disjoint(allowed, forbidden) then Err(ScopeConflict)
    else if !(0.0 <= raw.reputation <= 1.0) then Err(ReputationOutOfRange)
    else Ok(raw.(allowed := allowed, forbidden := forbidden))
  }

  // ----- Admission ------------------------------------------------------------------

  function MemoryDenial(a: Identity, q: Request): Denial {
    if q.memoryClass == "" then NoDenial
    else if q.memoryUse == NoUse then MemoryUseRequired
    else if q.memoryClass in a.memory.forbidden then MemoryClassForbidden
    else if q.memoryUse == Planning && q.memoryClass !in a.memory.planning then MemoryNotForPlanning
    else if q.memoryUse == Execution && q.memoryClass !in a.memory.execution then MemoryNotForExecution
    else NoDenial
  }

  function ApprovalDenial(a: Identity, q: Request): Denial {
    if q.operation == "request_approval" && !a.approval.canRequest then ApprovalRequestNotAllowed
    else if q.operation == "grant_approval" || q.capability == "approval.grant" then
      if !a.approval.canGrant then ApprovalGrantNotAllowed
      else if q.approvalTarget == q.agentId then SelfApprovalForbidden
      else if q.cost > a.approval.limit then ApprovalLimitExceeded
      else NoDenial
    else NoDenial
  }

  function DelegationDenial(a: Identity, q: Request): Denial {
    if q.operation != "delegate" then NoDenial
    else if !a.delegation.canDelegate then DelegationNotAllowed
    else if q.delegationDepth > a.delegation.maxDepth then DelegationTooDeep
    else if q.workerCapability == "" then WorkerCapabilityRequired
    else if q.workerCapability !in a.delegation.workerCapabilities then WorkerCapabilityNotAllowed
    else NoDenial
  }

  function AdmissionDenial(agent: Option<Identity>, q: Request, used: Usage): Denial {
    if agent.None? then IdentityNotFound
    else
      var a := agent.value;
      if a.status != Active then StatusNotActive
      else if q.tenantId != a.tenantId then TenantMismatch
      else if q.capability in a.forbidden then CapabilityForbidden
      else if q.capability !in a.allowed then CapabilityNotAllowed
      else if q.cost > a.budget.perActionCostLimit then ActionCostExceeded
      else if used.actions >= a.budget.dailyActionLimit then DailyActionsExhausted
      else if used.cost + q.cost > a.budget.dailyCostLimit then DailyCostExhausted
      else if MemoryDenial(a, q) != NoDenial then MemoryDenial(a, q)
      else if ApprovalDenial(a, q) != NoDenial then ApprovalDenial(a, q)
      else if DelegationDenial(a, q) != NoDenial then DelegationDenial(a, q)
      else if (q.risk == High || q.risk == Critical) && q.evidenceRefs == [] then HighRiskEvidenceRequired
      else NoDenial
  }

  function Agent(r: Registry, id: string): Option<Identity> {
    if id in r.agents then Some(r.agents[id]) else None
  }

  function Used(r: Registry, key: (string, int)): Usage { if key in r.usage then r.usage[key] else UNUSED }

  function Decide(r: Registry, q: Request): Decision {
    var denial := AdmissionDenial(Agent(r, q.agentId), q, Used(r, (q.agentId, q.day)));
    Decision(q, denial == NoDenial, denial)
  }

  function EvaluateStep(r: Registry, q: Request): Registry {
    var key := (q.agentId, q.day);
    var used := Used(r, key);
    var d := Decide(r, q);
    r.(usage := r.usage[key := if d.allowed then Usage(used.actions + 1, used.cost + q.cost) else used],
       decisions := r.decisions + [d])
  }

  // ----- Reputation -----------------------------------------------------------------

  function Delta(status: OutcomeStatus): real {
    match status case Succeeded => 0.02 case Failed => -0.10 case Compensated => -0.05 case RequiresReview => -0.03
  }

  function Weight(risk: RiskTier): real {
    match risk case Low => 0.5 case Medium => 1.0 case High => 1.25 case Critical => 1.5
  }

  function Clip(x: real): (r: real)
    ensures 0.0 <= r <= 1.0 && (0.0 <= x <= 1.0 ==> r == x)
  {
    if x < 0.0 then 0.0 else if x > 1.0 then 1.0 else x
  }

  function UpdatedReputation(round: real -> real, score: real, o: AgentOutcome): real {
    Clip(round(score + Delta(o.status) * Weight(o.risk)))
  }

  function OutcomeOf(round: real -> real, r: Registry, o: AgentOutcome): Result<Identity, Refusal> {
    if o.agentId !in r.agents then Err(AgentNotFound)
    else if r.agents[o.agentId].tenantId != o.tenantId then Err(OutcomeTenantMismatch)
    else
      var a := r.agents[o.agentId];
      Ok(a.(evidence := Last(a.evidence + [Evidence(o.evidenceRef, o.status, o.observedAt, o.commandId)], MAX_EVIDENCE),
            reputation := UpdatedReputation(round, a.reputation, o)))
  }

  function Step(round: real -> real, r: Registry, op: Op): Registry {
    match op
    case Register(raw) =>
      (match MakeIdentity(raw) case Ok(a) => r.(agents := r.agents[a.agentId := a]) case Err(_) => r)
    case Evaluate(q) => EvaluateStep(r, q)
    case RecordOutcome(o) =>
      (match OutcomeOf(round, r, o) case Ok(a) => r.(agents := r.agents[a.agentId := a]) case Err(_) => r)
  }

  ghost function Run(round: real -> real, ops: seq<Op>): Registry {
    if ops == [] then EMPTY else Step(round, Run(round, ops[..|ops| - 1]), ops[|ops| - 1])
  }

  lemma RunMore(round: real -> real, ops: seq<Op>, op: Op)
    ensures Run(round, ops + [op]) == Step(round, Run(round, ops), op)
  {
    assert (ops + [op])[..|ops|] == ops;
  }

  // ----- Budget conservation --------------------------------------------------------

  /** Count and cost of the allowed decisions of one agent on one day. */
  ghost function Tally(decisions: seq<Decision>, key: (string, int)): Usage {
    if decisions == [] then UNUSED
    else
      var before, d := Tally(decisions[..|decisions| - 1], key), decisions[|decisions| - 1];
      if d.allowed && (d.request.agentId, d.request.day) == key
      then Usage(before.actions + 1, before.cost + d.request.cost) else before
  }

  ghost predicate UsageIsTally(r: Registry) {
    forall agent, day :: Used(r, (agent, day)) == Tally(r.decisions, (agent, day))
  }

  lemma StepKeepsTally(round: real -> real, r: Registry, op: Op)
    requires UsageIsTally(r)
    ensures UsageIsTally(Step(round, r, op))
  {
    if op.Evaluate? {
      var after := EvaluateStep(r, op.request);
      assert after.decisions[..|r.decisions|] == r.decisions;
      forall agent, day ensures Used(after, (agent, day)) == Tally(after.decisions, (agent, day)) {
        assert Used(r, (agent, day)) == Tally(r.decisions, (agent, day));
      }
    }
  }

  /** In every run, the usage of an agent on a day is the count and cost sum of that day's
      allowed decisions, whatever was registered in between. */
  lemma {:induction false} BudgetConservation(round: real -> real, ops: seq<Op>)
    ensures UsageIsTally(Run(round, ops))
  {
    if ops != [] {
      BudgetConservation(round, ops[..|ops| - 1]);
      StepKeepsTally(round, Run(round, ops[..|ops| - 1]), ops[|ops| - 1]);
    }
  }

  ghost predicate Covers(b: Budget, u: Usage) {
    u.actions <= b.dailyActionLimit && u.cost <= b.dailyCostLimit
  }

  ghost predicate WithinBudget(r: Registry) {
    && (forall id, day | id in r.agents :: Covers(r.agents[id].budget, Used(r, (id, day))))
    && (forall id, day | id !in r.agents :: Used(r, (id, day)) == UNUSED)
    && (forall id | id in r.agents :: r.agents[id].agentId == id)
  }

  /** A registration that lowers no limit of the identity it replaces. */
  ghost predicate NeverLowers(r: Registry, op: Op) {
    op.Register? && op.raw.agentId in r.agents ==>
      var old_, new_ := r.agents[op.raw.agentId].budget, op.raw.budget;
      old_.dailyActionLimit <= new_.dailyActionLimit && old_.dailyCostLimit <= new_.dailyCostLimit
  }

  lemma StepWithinBudget(round: real -> real, r: Registry, op: Op)
    requires WithinBudget(r) && NeverLowers(r, op)
    ensures WithinBudget(Step(round, r, op))
  {
    var after := Step(round, r, op);
    forall id, day | id in after.agents ensures Covers(after.agents[id].budget, Used(after, (id, day))) {
      if id in r.agents { assert Covers(r.agents[id].budget, Used(r, (id, day))); }
      else { assert Used(r, (id, day)) == UNUSED; }
    }
  }

  ghost predicate NeverLoweringRun(round: real -> real, ops: seq<Op>) {
    forall i | 0 <= i < |ops| :: NeverLowers(Run(round, ops[..i]), ops[i])
  }

  /** Daily limits hold at every moment of a run that never lowers a registered budget. */
  lemma {:induction false} DailyLimitsHold(round: real -> real, ops: seq<Op>)
    requires NeverLoweringRun(round, ops)
    ensures WithinBudget(Run(round, ops))
  {
    if ops != [] {
      var front := ops[..|ops| - 1];
      forall i | 0 <= i < |front| ensures NeverLowers(Run(round, front[..i]), front[i]) {
        assert front[..i] == ops[..i] && front[i] == ops[i];
      }
      DailyLimitsHold(round, front);
      StepWithinBudget(round, Run(round, front), ops[|ops| - 1]);
    }
  }

  /** Exactly when a registration breaks the limits: some day already used more than they allow. */
  lemma RegisterKeepsLimitsIff(round: real -> real, r: Registry, raw: Identity)
    requires WithinBudget(r) && MakeIdentity(raw).Ok?
    ensures WithinBudget(Step(round, r, Register(raw))) <==>
            forall day :: Covers(raw.budget, Used(r, (raw.agentId, day)))
  {
    var after := Step(round, r, Register(raw));
    if forall day :: Covers(raw.budget, Used(r, (raw.agentId, day))) {
      forall id, day | id in after.agents ensures Covers(after.agents[id].budget, Used(after, (id, day))) {
        if id != raw.agentId { assert Covers(r.agents[id].budget, Used(r, (id, day))); }
        else { assert Used(after, (id, day)) == Used(r, (id, day)); }
      }
    } else {
      var day :| !Covers(raw.budget, Used(r, (raw.agentId, day)));
      assert raw.agentId in after.agents && !Covers(after.agents[raw.agentId].budget, Used(after, (raw.agentId, day)));
    }
  }

  /** If the call registers an agent, its new limits cover what was used on every day so far. */
  ghost predicate CoversUse(r: Registry, op: Op) {
    op.Register? && MakeIdentity(op.raw).Ok? ==> forall day :: Covers(op.raw.budget, Used(r, (op.raw.agentId, day)))
  }

  lemma StepKeepsLimitsIff(round: real -> real, r: Registry, op: Op)
    requires WithinBudget(r)
    ensures WithinBudget(Step(round, r, op)) <==> CoversUse(r, op)
  {
    if op.Register? && MakeIdentity(op.raw).Ok? {
      RegisterKeepsLimitsIff(round, r, op.raw);
    } else if op.Register? {
      assert Step(round, r, op) == r;
    } else {
      StepWithinBudget(round, r, op);
    }
  }

  ghost function LimitsAlong(round: real -> real, ops: seq<Op>): (r: seq<bool>)
    ensures |r| == |ops| + 1 && forall i | 0 <= i <= |ops| :: r[i] == WithinBudget(Run(round, ops[..i]))
  {
    seq(|ops| + 1, i requires 0 <= i <= |ops| => WithinBudget(Run(round, ops[..i])))
  }

  ghost function CoversAlong(round: real -> real, ops: seq<Op>): (r: seq<bool>)
    ensures |r| == |ops| && forall i | 0 <= i < |ops| :: r[i] == CoversUse(Run(round, ops[..i]), ops[i])
  {
    seq(|ops|, i requires 0 <= i < |ops| => CoversUse(Run(round, ops[..i]), ops[i]))
  }

  lemma NextLimitsIff(round: real -> real, ops: seq<Op>, i: nat)
    requires i < |ops| && WithinBudget(Run(round, ops[..i]))
    ensures WithinBudget(Run(round, ops[..i + 1])) <==> CoversUse(Run(round, ops[..i]), ops[i])
  {
    PrefixNext(ops, i);
    RunMore(round, ops[..i], ops[i]);
    StepKeepsLimitsIff(round, Run(round, ops[..i]), ops[i]);
  }

  lemma LimitsAtStart(round: real -> real, ops: seq<Op>)
    ensures WithinBudget(Run(round, ops[..0]))
  {
    assert Run(round, ops[..0]) == EMPTY;
  }

  /** Usage stays within the daily limits throughout a run exactly when every registration covers what was used so
      far. */
  lemma LimitsThroughoutIff(round: real -> real, ops: seq<Op>)
    ensures (forall i | 0 <= i <= |ops| :: LimitsAlong(round, ops)[i])
            <==> (forall i | 0 <= i < |ops| :: CoversAlong(round, ops)[i])
  {
    LimitsAtStart(round, ops);
    forall i | 0 <= i < |ops| && LimitsAlong(round, ops)[i]
      ensures LimitsAlong(round, ops)[i + 1] == CoversAlong(round, ops)[i] {
      NextLimitsIff(round, ops, i);
    }
    ThroughoutIff(LimitsAlong(round, ops), CoversAlong(round, ops), 0);
  }

  /** Texts as their constructors leave them: stripped, none empty or repeated. */
  predicate Tidy(values: seq<string>) { Normalized(values) == values }

  /** The checks AgentBudget, AgentMemoryScope and AgentDelegationScope make on construction, before an identity is
      built of them. */
  predicate ScopesConstructible(a: Identity) {
    && a.budget.dailyActionLimit > 0
    && Tidy(a.memory.planning) && Tidy(a.memory.execution) && Tidy(a.memory.forbidden)
    && a.memory.planning != [] && a.memory.execution != []
    && Disjoint(a.memory.forbidden, a.memory.planning) && Disjoint(a.memory.forbidden, a.memory.execution)
    && Tidy(a.delegation.workerCapabilities) && (a.delegation.canDelegate ==> a.delegation.workerCapabilities != [])
    && forall e | e in a.evidence :: !Blank(e.evidenceRef)
  }

  /** The checks AgentActionRequest makes on construction. */
  predicate RequestConstructible(q: Request) {
    && !Blank(q.requestId) && !Blank(q.agentId) && !Blank(q.tenantId) && !Blank(q.capability) && !Blank(q.operation)
    && Tidy(q.evidenceRefs)
  }

  /** An agent saying `w` wherever a text is asked for, with so many actions a day. */
  function Clerk(w: string, limit: int): Identity {
    Identity(w, w, w, w, Active, [w], [], Budget(limit, 0.0, 0.0), MemoryScope([w], [w], []),
             ApprovalScope(false, false, 0.0), DelegationScope(false, [], 0), [], 0.0)
  }

  function Ask(w: string): Request { Request(w, w, w, w, w, Low, 0.0, "", NoUse, "", "", 0, 0, []) }

  lemma ClerkConstructible(w: string, limit: int)
    requires Harmless(w) && limit > 0
    ensures ScopesConstructible(Clerk(w, limit)) && RequestConstructible(Ask(w))
  {
    NormalizedNothing();
  }

  ghost predicate Harmless(w: string) {
    !Blank(w) && Normalized([w]) == [w] && w !in Normalized(POLICY_MUTATION_CAPABILITIES)
    && w !in POLICY_MUTATION_CAPABILITIES
    && w != "grant_approval" && w != "approval.grant" && w != "request_approval" && w != "delegate"
  }

  lemma LetterNoPolicy(c: char)
    ensures [c] !in POLICY_MUTATION_CAPABILITIES && [c] !in Normalized(POLICY_MUTATION_CAPABILITIES)
  {
    PolicyWordsStand();
    NormalizedMember(POLICY_MUTATION_CAPABILITIES, [c]);
  }

  lemma PolicyWordsStand()
    ensures forall p | p in POLICY_MUTATION_CAPABILITIES :: |p| > 1
    ensures forall i | 0 <= i < |POLICY_MUTATION_CAPABILITIES| ::
              POLICY_MUTATION_CAPABILITIES[i] in POLICY_MUTATION_CAPABILITIES
              && Strip(POLICY_MUTATION_CAPABILITIES[i]) == POLICY_MUTATION_CAPABILITIES[i]
  {
    StripsNothing("authority_rules.modify");
    StripsNothing("policy.modify");
    StripsNothing("policy.promote");
  }

  lemma LetterHarmless(c: char)
    requires !IsSpace(c)
    ensures Harmless([c])
  {
    NormalizedLetter(c);
    LetterNoPolicy(c);
  }

  lemma ClerkRegisters(w: string, limit: int)
    requires Harmless(w) && limit > 0
    ensures MakeIdentity(Clerk(w, limit)) == Ok(Clerk(w, limit).(forbidden := Normalized(POLICY_MUTATION_CAPABILITIES)))
  {
    assert [] + POLICY_MUTATION_CAPABILITIES == POLICY_MUTATION_CAPABILITIES;
  }

  lemma ClerkActs(r: Registry, w: string, limit: int, n: nat)
    requires Harmless(w) && n < limit && Used(r, (w, 0)) == Usage(n, 0.0)
    requires w in r.agents && r.agents[w] == Clerk(w, limit).(forbidden := Normalized(POLICY_MUTATION_CAPABILITIES))
    ensures var after := EvaluateStep(r, Ask(w)); after.agents == r.agents && Used(after, (w, 0)) == Usage(n + 1, 0.0)
  {
  }

  /** Lowering a budget in mid-day: two actions under a limit of two, then the limit becomes one. */
  lemma LoweredBelowUse(round: real -> real, w: string)
    requires Harmless(w)
    ensures var two := Step(round, Step(round, Step(round, EMPTY, Register(Clerk(w, 2))), Evaluate(Ask(w))),
                            Evaluate(Ask(w)));
            Used(two, (w, 0)).actions == 2 && !WithinBudget(Step(round, two, Register(Clerk(w, 1))))
    ensures ScopesConstructible(Clerk(w, 2)) && ScopesConstructible(Clerk(w, 1)) && RequestConstructible(Ask(w))
  {
    ClerkConstructible(w, 2);
    ClerkConstructible(w, 1);
    ClerkRegisters(w, 2);
    ClerkRegisters(w, 1);
    var none := Step(round, EMPTY, Register(Clerk(w, 2)));
    ClerkActs(none, w, 2, 0);
    var one := EvaluateStep(none, Ask(w));
    ClerkActs(one, w, 2, 1);
    var after := Step(round, EvaluateStep(one, Ask(w)), Register(Clerk(w, 1)));
    assert !Covers(after.agents[w].budget, Used(after, (w, 0)));
  }

  // ----- What is never allowed ------------------------------------------------------

  ghost predicate WellFormed(a: Identity) {
    && Disjoint(a.allowed, POLICY_MUTATION_CAPABILITIES)
    && Disjoint(a.allowed, a.forbidden)
    && 0.0 <= a.reputation <= 1.0
    && a.budget.dailyActionLimit > 0
  }

  /** No allowed request mutates policy or lets an agent approve itself. */
  ghost predicate SoundDecision(d: Decision) {
    d.allowed ==>
      && d.request.capability !in POLICY_MUTATION_CAPABILITIES
      && ((d.request.operation == "grant_approval" || d.request.capability == "approval.grant") ==>
            d.request.approvalTarget != d.request.agentId)
      && ((d.request.risk == High || d.request.risk == Critical) ==> d.request.evidenceRefs != [])
  }

  ghost predicate Accountable(r: Registry) {
    && (forall id | id in r.agents :: WellFormed(r.agents[id]))
    && (forall d | d in r.decisions :: SoundDecision(d))
  }

  lemma StepAccountable(round: real -> real, r: Registry, op: Op)
    requires Accountable(r)
    ensures Accountable(Step(round, r, op))
  {
    if op.Evaluate? {
      var d := Decide(r, op.request);
      if d.allowed { assert WellFormed(r.agents[op.request.agentId]); }
      assert SoundDecision(d);
    }
  }

  /** Over every run: identities stay well formed with reputation in [0, 1], and no decision
      ever allowed was a policy mutation, a self-approval or unevidenced high risk. */
  lemma {:induction false} NoSelfApprovalNoPolicyMutation(round: real -> real, ops: seq<Op>)
    ensures Accountable(Run(round, ops))
  {
    if ops != [] {
      NoSelfApprovalNoPolicyMutation(round, ops[..|ops| - 1]);
      StepAccountable(round, Run(round, ops[..|ops| - 1]), ops[|ops| - 1]);
    }
  }

  /** After any recorded outcome the evidence history holds the newest record and at most fifty. */
  lemma OutcomeBoundsEvidence(round: real -> real, r: Registry, o: AgentOutcome)
    requires OutcomeOf(round, r, o).Ok?
    ensures var before, after := r.agents[o.agentId].evidence, OutcomeOf(round, r, o).value.evidence;
            && 0 < |after| <= MAX_EVIDENCE
            && after[|after| - 1] == Evidence(o.evidenceRef, o.status, o.observedAt, o.commandId)
            && after[..|after| - 1] == Last(before, |after| - 1)
            && (|before| < MAX_EVIDENCE ==> |after| == |before| + 1)
  {
  }

  // ----- The registry object --------------------------------------------------------

  class AgentIdentityRegistry {
    const round: real -> real
    var agents: map<string, Identity>
    var usage: map<(string, int), Usage>
    ghost var decisions: seq<Decision>
    ghost var calls: seq<Op>

    ghost function View(): Registry
      reads this
    {
      Registry(agents, usage, decisions)
    }

    /** The registry is what the calls made so far leave behind, so whatever is proved of every run holds of it. */
    ghost predicate Valid()
      reads this
    {
      View() == Run(round, calls)
    }

    ghost method Log(op: Op)
      requires Valid()
      modifies this`calls
      ensures calls == old(calls) + [op] && Run(round, calls) == Step(round, View(), op)
    {
      RunMore(round, calls, op);
      calls := calls + [op];
    }

    constructor (round: real -> real)
      ensures Valid() && calls == [] && View() == EMPTY && this.round == round
    {
      this.round := round;
      agents, usage, decisions, calls := map[], map[], [], [];
    }

    method Register(raw: Identity) returns (r: Result<Identity, Refusal>)
      requires Valid()
      modifies this
      ensures Valid() && calls == old(calls) + [Op.Register(raw)]
      ensures View() == Step(round, old(View()), Op.Register(raw))
      ensures r == MakeIdentity(raw)
    {
      Log(Op.Register(raw));
      r := MakeIdentity(raw);
      if r.Ok? { agents := agents[r.value.agentId := r.value]; }
    }

    method Evaluate(q: Request) returns (d: Decision)
      requires Valid()
      modifies this
      ensures Valid() && calls == old(calls) + [Op.Evaluate(q)]
      ensures View() == EvaluateStep(old(View()), q)
      ensures d == Decide(old(View()), q)
    {
      Log(Op.Evaluate(q));
      var key := (q.agentId, q.day);
      if key !in usage { usage := usage[key := UNUSED]; }
      var agent := if q.agentId in agents then Some(agents[q.agentId]) else None;
      var denial := AdmissionDenial(agent, q, usage[key]);
      d := Decision(q, denial == NoDenial, denial);
      if d.allowed {
        usage := usage[key := Usage(usage[key].actions + 1, usage[key].cost + q.cost)];
      }
      decisions := decisions + [d];
    }

    method RecordOutcome(o: AgentOutcome) returns (r: Result<Identity, Refusal>)
      requires Valid()
      modifies this
      ensures Valid() && calls == old(calls) + [Op.RecordOutcome(o)]
      ensures View() == Step(round, old(View()), Op.RecordOutcome(o))
      ensures r == OutcomeOf(round, old(View()), o)
    {
      Log(Op.RecordOutcome(o));
      if o.agentId !in agents { return Err(AgentNotFound); }
      var agent := agents[o.agentId];
      if agent.tenantId != o.tenantId { return Err(OutcomeTenantMismatch); }
      var record := Evidence(o.evidenceRef, o.status, o.observedAt, o.commandId);
      var updated := agent.(evidence := Last(agent.evidence + [record], MAX_EVIDENCE),
                            reputation := UpdatedReputation(round, agent.reputation, o));
      agents := agents[updated.agentId := updated];
      r := Ok(updated);
    }
  }
}
