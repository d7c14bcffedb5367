/** The agent runtime coordinator: authority inherited at spawn, tasks inside scope, and
    handoffs that never close a cycle. */
module AgentRuntime {
  import opened Collections
  import opened Ordering

  const FORBIDDEN_AUTHORITY_CAPABILITIES: set<string> :=
    {"policy.modify", "policy.promote", "authority.grant", "authority.modify"}
  const RISK_TIERS: set<string> := {"low", "medium", "high", "critical"}
  const MAX_HANDOFF_CHAIN_DEPTH: nat := 4

  /** Why a call raised. */
  datatype Refusal =
    | TextRequired | CapabilityScopeRequired | GovernanceCapabilityForbidden | BudgetScopeNegative
    | MemoryScopeRequired | RootHasParent
    | LeaseTimeRequired | EvidenceRefsRequired | RiskTierInvalid | BudgetNegative | PartiesSame | ContextRefsRequired

  /** Why a request was turned down; the runtime records it and goes on. */
  datatype Denial =
    | NoDenial
    | ParentUnknown | ParentNotActive | TenantBoundary | ChildCapabilityExceeds | ChildMemoryExceeds
    | ChildBudgetExceeds
    | AgentUnknown | AgentNotActive | CapabilityOutOfScope | TaskBudgetExceeds | HighRiskEvidenceRequired
    | FromUnknown | ToUnknown | ExceedsSender | ExceedsReceiver | HandoffBudgetExceeds | ContextMissing
    | ChainTooDeep | CycleDetected

  datatype AgentStatus = Active | Suspended | Revoked
  datatype TaskStatus = Accepted | Rejected

  datatype Identity = Identity(
    agentId: string, tenantId: string, role: string, status: AgentStatus, capabilityScope: seq<string>,
    memoryScope: seq<string>, budgetCents: int, parentAgentId: string, leaseExpiresAt: string,
    evidenceRefs: seq<string>)

  datatype Lease = Lease(leaseId: string, agentId: string, tenantId: string, issuedBy: string,
                         capabilityScope: seq<string>, budgetCents: int, issuedAt: string, expiresAt: string)

  datatype Task = Task(taskId: string, agentId: string, tenantId: string, capability: string, goalId: string,
                       riskTier: string, budgetCents: int, status: TaskStatus, assignedAt: string,
                       evidenceRefs: seq<string>, admission: Denial)

  datatype Handoff = Handoff(handoffId: string, fromAgentId: string, toAgentId: string, tenantId: string,
                             goalId: string, taskId: string, capabilityScope: seq<string>, budgetCents: int,
                             contextRefs: seq<string>, handedOffAt: string)

  datatype Runtime = Runtime(agents: map<string, Identity>, leases: map<string, Lease>,
                             tasks: map<string, Task>, handoffs: map<string, Handoff>)

  const EMPTY := Runtime(map[], map[], map[], map[])

  predicate Subset(a: seq<string>, b: seq<string>) { forall x | x in a :: x in b }

  /** The checks AgentRuntimeIdentity makes on construction; scopes come out normalized. */
  function MakeIdentity(raw: Identity): Result<Identity, Refusal> {
    var capabilities, memory := Normalized(raw.capabilityScope), Normalized(raw.memoryScope);
    if Blank(raw.agentId) || Blank(raw.tenantId) || Blank(raw.role) then Err(TextRequired)
    else if capabilities == [] then Err(CapabilityScopeRequired)
    else if exists c | c in capabilities :: c in FORBIDDEN_AUTHORITY_CAPABILITIES
    then Err(GovernanceCapabilityForbidden)
    else if raw.budgetCents < 0 then Err(BudgetScopeNegative)
    else if memory == [] then Err(MemoryScopeRequired)
    else Ok(raw.(capabilityScope := capabilities, memoryScope := memory, evidenceRefs := Normalized(raw.evidenceRefs)))
  }

  datatype SpawnRequest = SpawnRequest(
    parentAgentId: string, childAgentId: string, tenantId: string, role: string, capabilityScope: seq<string>,
    memoryScope: seq<string>, budgetCents: int, issuedAt: string, expiresAt: string, evidenceRefs: seq<string>)

  datatype TaskRequest = TaskRequest(
    taskId: string, agentId: string, tenantId: string, capability: string, goalId: string, riskTier: string,
    budgetCents: int, evidenceRefs: seq<string>, assignedAt: string)

  datatype Op =
    | RegisterRoot(raw: Identity)
    | Spawn(spawn: SpawnRequest, leaseId: string)
    | Assign(task: TaskRequest, now: string)
    | Handover(handoff: Handoff, now: string)

  function Agent(r: Runtime, id: string): Option<Identity> {
    if id in r.agents then Some(r.agents[id]) else None
  }

  function ChildSpawnDenial(parent: Option<Identity>, tenantId: string, capabilities: seq<string>,
                            memory: seq<string>, budgetCents: int): Denial {
    if parent.None? then ParentUnknown
    else if parent.value.status != Active then ParentNotActive
    else if parent.value.tenantId != tenantId then TenantBoundary
    else if !Subset(capabilities, parent.value.capabilityScope) then ChildCapabilityExceeds
    else if !Subset(memory, parent.value.memoryScope) then ChildMemoryExceeds
    else if budgetCents > parent.value.budgetCents then ChildBudgetExceeds
    else NoDenial
  }

  function TaskDenial(agent: Option<Identity>, t: TaskRequest): Denial {
    if agent.None? then AgentUnknown
    else if agent.value.status != Active then AgentNotActive
    else if agent.value.tenantId != t.tenantId then TenantBoundary
    else if t.capability !in agent.value.capabilityScope then CapabilityOutOfScope
    else if t.budgetCents > agent.value.budgetCents then TaskBudgetExceeds
    else if t.riskTier in {"high", "critical"} && t.evidenceRefs == [] then HighRiskEvidenceRequired
    else NoDenial
  }

  function HandoffDenial(from: Option<Identity>, to: Option<Identity>, h: Handoff): Denial {
    if from.None? then FromUnknown
    else if to.None? then ToUnknown
    else if from.value.tenantId != h.tenantId || to.value.tenantId != h.tenantId then TenantBoundary
    else if from.value.status != Active || to.value.status != Active then AgentNotActive
    else if !Subset(h.capabilityScope, from.value.capabilityScope) then ExceedsSender
    else if !Subset(h.capabilityScope, to.value.capabilityScope) then ExceedsReceiver
    else if h.budgetCents > from.value.budgetCents || h.budgetCents > to.value.budgetCents then HandoffBudgetExceeds
    else if h.contextRefs == [] then ContextMissing
    else NoDenial
  }

  /** The stored handoffs of one task. */
  function Chain(handoffs: map<string, Handoff>, taskId: string): set<string> {
    set k | k in handoffs && handoffs[k].taskId == taskId
  }

  function HandoffChainDenial(handoffs: map<string, Handoff>, taskId: string, toAgentId: string): Denial {
    if |Chain(handoffs, taskId)| >= MAX_HANDOFF_CHAIN_DEPTH then ChainTooDeep
    else if exists k | k in handoffs :: handoffs[k].taskId == taskId && handoffs[k].fromAgentId == toAgentId
    then CycleDetected
    else NoDenial
  }

  // ----- Steps ----------------------------------------------------------------------

  function RegisterStep(r: Runtime, raw: Identity): Result<Runtime, Refusal> {
    match MakeIdentity(raw)
    case Err(e) => Err(e)
    case Ok(identity) =>
      if identity.parentAgentId != "" then Err(RootHasParent)
      else Ok(r.(agents := r.agents[identity.agentId := identity]))
  }

  /** Ok(None) is a recorded denial, Err a raised ValueError; neither changes the runtime. */
  function SpawnChild(r: Runtime, s: SpawnRequest, leaseId: string): Result<Option<(Identity, Lease)>, Refusal> {
    var capabilities, memory := Normalized(s.capabilityScope), Normalized(s.memoryScope);
    if capabilities == [] then Err(CapabilityScopeRequired)
    else if memory == [] then Err(MemoryScopeRequired)
    else if ChildSpawnDenial(Agent(r, s.parentAgentId), s.tenantId, capabilities, memory, s.budgetCents) != NoDenial
    then Ok(None)
    else
      match MakeIdentity(Identity(s.childAgentId, s.tenantId, s.role, Active, capabilities, memory, s.budgetCents,
                                  s.parentAgentId, s.expiresAt, s.evidenceRefs))
      case Err(e) => Err(e)
      case Ok(child) =>
        if Blank(s.issuedAt) || Blank(s.expiresAt) then Err(LeaseTimeRequired)
        else if Normalized(s.evidenceRefs) == [] then Err(EvidenceRefsRequired)
        else Ok(Some((child, Lease(leaseId, s.childAgentId, s.tenantId, s.parentAgentId, capabilities,
                                   s.budgetCents, s.issuedAt, s.expiresAt))))
  }

  /** `given or self._clock()`. */
  function TimeOr(given: string, now: string): string { if given == "" then now else given }

  function MakeTask(r: Runtime, t: TaskRequest, now: string): Result<Task, Refusal> {
    var at := TimeOr(t.assignedAt, now);
    var denial := TaskDenial(Agent(r, t.agentId), t);
    if Blank(t.taskId) || Blank(t.agentId) || Blank(t.tenantId) || Blank(t.capability) || Blank(t.goalId)
      || Blank(at)
    then Err(TextRequired)
    else if t.riskTier !in RISK_TIERS then Err(RiskTierInvalid)
    else if t.budgetCents < 0 then Err(BudgetNegative)
    else Ok(Task(t.taskId, t.agentId, t.tenantId, t.capability, t.goalId, t.riskTier, t.budgetCents,
                 if denial == NoDenial then Accepted else Rejected, at, Normalized(t.evidenceRefs), denial))
  }

  /** The first reason to turn a handoff down: the two agents, then the task's chain. */
  function HandoffRefusal(r: Runtime, h: Handoff): Denial {
    var denial := HandoffDenial(Agent(r, h.fromAgentId), Agent(r, h.toAgentId), h);
    if denial != NoDenial then denial else HandoffChainDenial(r.handoffs, h.taskId, h.toAgentId)
  }

  function AskedHandoff(raw: Handoff, now: string): Handoff {
    raw.(capabilityScope := Normalized(raw.capabilityScope), handedOffAt := TimeOr(raw.handedOffAt, now))
  }

  function MakeHandoff(r: Runtime, raw: Handoff, now: string): Result<Option<Handoff>, Refusal> {
    var h := AskedHandoff(raw, now);
    if h.capabilityScope == [] then Err(CapabilityScopeRequired)
    else if HandoffRefusal(r, h) != NoDenial then Ok(None)
    else if Blank(h.handoffId) || Blank(h.tenantId) || Blank(h.goalId) || Blank(h.taskId) || Blank(h.handedOffAt)
    then Err(TextRequired)
    else if h.fromAgentId == h.toAgentId then Err(PartiesSame)
    else if h.budgetCents < 0 then Err(BudgetNegative)
    else if Normalized(h.contextRefs) == [] then Err(ContextRefsRequired)
    else Ok(Some(h.(contextRefs := Normalized(h.contextRefs))))
  }

  function Step(r: Runtime, op: Op): Runtime {
    match op
    case RegisterRoot(raw) =>
      (match RegisterStep(r, raw) case Ok(after) => after case Err(_) => r)
    case Spawn(s, leaseId) =>
      (match SpawnChild(r, s, leaseId)
       case Ok(Some((child, lease))) =>
         r.(agents := r.agents[child.agentId := child], leases := r.leases[lease.leaseId := lease])
       case Ok(None) => r
       case Err(_) => r)
    case Assign(t, now) =>
      (match MakeTask(r, t, now) case Ok(task) => r.(tasks := r.tasks[task.taskId := task]) case Err(_) => r)
    case Handover(raw, now) =>
      (match MakeHandoff(r, raw, now)
       case Ok(Some(h)) => r.(handoffs := r.handoffs[h.handoffId := h])
       case Ok(None) => r
       case Err(_) => r)
  }

  ghost function Run(ops: seq<Op>): Runtime {
    if ops == [] then EMPTY else Step(Run(ops[..|ops| - 1]), ops[|ops| - 1])
  }

  lemma RunMore(ops: seq<Op>, op: Op)
    ensures Run(ops + [op]) == Step(Run(ops), op)
  {
    assert (ops + [op])[..|ops|] == ops;
  }

  // ----- Handoff graphs are acyclic -------------------------------------------------

  type Edges = set<(string, string)>

  ghost function EdgesOf(handoffs: map<string, Handoff>, taskId: string): Edges {
    set k | k in Chain(handoffs, taskId) :: (handoffs[k].fromAgentId, handoffs[k].toAgentId)
  }

  ghost predicate IsPath(edges: Edges, p: seq<string>) {
    |p| >= 2 && forall i | 0 <= i < |p| - 1 :: Walks(edges, p, i)
  }

  ghost predicate Walks(edges: Edges, p: seq<string>, i: nat)
    requires i + 1 < |p|
  {
    (p[i], p[i + 1]) in edges
  }

  lemma NoEdgesAcyclic()
    ensures Acyclic({})
  {
    forall p: seq<string> ensures !IsPath({}, p) {
      assert |p| >= 2 ==> !Walks({}, p, 0);
    }
  }

  ghost predicate Acyclic(edges: Edges) {
    forall p | IsPath(edges, p) :: p[0] != p[|p| - 1]
  }

  lemma SubrelationAcyclic(sub: Edges, edges: Edges)
    requires Acyclic(edges) && sub <= edges
    ensures Acyclic(sub)
  {
    forall p | IsPath(sub, p) ensures p[0] != p[|p| - 1] {
      forall i | 0 <= i < |p| - 1 ensures Walks(edges, p, i) { assert Walks(sub, p, i); }
      assert IsPath(edges, p);
    }
  }

  /** Pointing a new edge at a node without outgoing edges closes no cycle. */
  lemma EdgeToSinkAcyclic(edges: Edges, from: string, to: string)
    requires Acyclic(edges) && from != to
    requires forall e | e in edges :: e.0 != to
    ensures Acyclic(edges + {(from, to)})
  {
    var grown := edges + {(from, to)};
    forall p | IsPath(grown, p) ensures p[0] != p[|p| - 1] {
      forall k | 0 <= k < |p| - 1 ensures p[k] != to { assert Walks(grown, p, k); }
      if !IsPath(edges, p) {
        // the new edge is walked, so the walk has arrived at `to`, where it can only stop
        var i :| 0 <= i < |p| - 1 && !Walks(edges, p, i);
        assert Walks(grown, p, i);
        assert i + 1 == |p| - 1;
      }
    }
  }

  ghost predicate TaskHandoffsSafe(handoffs: map<string, Handoff>, t: string) {
    Acyclic(EdgesOf(handoffs, t)) && |Chain(handoffs, t)| <= MAX_HANDOFF_CHAIN_DEPTH
  }

  ghost predicate HandoffsSafe(r: Runtime) { forall t :: TaskHandoffsSafe(r.handoffs, t) }

  /** The edges of one task once an edge of that task is stored under its id. */
  lemma EdgesAfter(handoffs: map<string, Handoff>, h: Handoff)
    ensures EdgesOf(handoffs[h.handoffId := h], h.taskId)
            == EdgesOf(handoffs - {h.handoffId}, h.taskId) + {(h.fromAgentId, h.toAgentId)}
  {
    var rest, after := handoffs - {h.handoffId}, handoffs[h.handoffId := h];
    assert Chain(after, h.taskId) == Chain(rest, h.taskId) + {h.handoffId};
    forall k | k in Chain(rest, h.taskId) ensures after[k] == rest[k] {}
    assert after[h.handoffId] == h;
  }

  lemma HandoverKeepsAcyclic(handoffs: map<string, Handoff>, h: Handoff, t: string)
    requires TaskHandoffsSafe(handoffs, t)
    requires HandoffChainDenial(handoffs, h.taskId, h.toAgentId) == NoDenial && h.fromAgentId != h.toAgentId
    ensures TaskHandoffsSafe(handoffs[h.handoffId := h], t)
  {
    var rest, after := handoffs - {h.handoffId}, handoffs[h.handoffId := h];
    RestSafe(handoffs, h.handoffId, t);
    if h.taskId == t {
      EdgesAfter(handoffs, h);
      NoExit(handoffs, h);
      EdgeToSinkAcyclic(EdgesOf(rest, t), h.fromAgentId, h.toAgentId);
      assert Chain(after, t) == Chain(handoffs, t) + {h.handoffId};
    } else {
      assert Chain(after, t) == Chain(rest, t);
      assert EdgesOf(after, t) == EdgesOf(rest, t);
    }
  }

  /** Dropping the edge about to be replaced leaves a sub-relation. */
  lemma RestSafe(handoffs: map<string, Handoff>, id: string, t: string)
    requires TaskHandoffsSafe(handoffs, t)
    ensures TaskHandoffsSafe(handoffs - {id}, t)
  {
    assert Chain(handoffs - {id}, t) == Chain(handoffs, t) - {id};
    SubrelationAcyclic(EdgesOf(handoffs - {id}, t), EdgesOf(handoffs, t));
  }

  lemma NoExit(handoffs: map<string, Handoff>, h: Handoff)
    requires HandoffChainDenial(handoffs, h.taskId, h.toAgentId) == NoDenial
    ensures forall e | e in EdgesOf(handoffs - {h.handoffId}, h.taskId) :: e.0 != h.toAgentId
  {
  }

  /** The handoff an operation stores, if it stores one. */
  ghost function NewHandoff(r: Runtime, op: Op): Option<Handoff> {
    if op.Handover? && MakeHandoff(r, op.handoff, op.now).Ok? then MakeHandoff(r, op.handoff, op.now).value else None
  }

  lemma NewHandoffShape(r: Runtime, op: Op)
    ensures Step(r, op).handoffs == match NewHandoff(r, op) case Some(h) => r.handoffs[h.handoffId := h]
            case None => r.handoffs
    ensures NewHandoff(r, op).Some? ==> var h := NewHandoff(r, op).value;
              h.fromAgentId != h.toAgentId && HandoffChainDenial(r.handoffs, h.taskId, h.toAgentId) == NoDenial
  {
  }

  lemma StepHandoffsSafe(r: Runtime, op: Op)
    requires HandoffsSafe(r)
    ensures HandoffsSafe(Step(r, op))
  {
    NewHandoffShape(r, op);
    if NewHandoff(r, op).Some? {
      var after := Step(r, op).handoffs;
      forall t ensures TaskHandoffsSafe(after, t) { HandoverKeepsAcyclic(r.handoffs, NewHandoff(r, op).value, t); }
    }
  }

  /** In every run, every task's stored handoffs are at most four edges without a cycle,
      including when a handoff id is reused and an older edge replaced. */
  lemma {:induction false} HandoffGraphsAcyclic(ops: seq<Op>)
    ensures HandoffsSafe(Run(ops))
  {
    if ops == [] {
      forall t ensures TaskHandoffsSafe(EMPTY.handoffs, t) {
        assert Chain(EMPTY.handoffs, t) == {} && EdgesOf(EMPTY.handoffs, t) == {};
        NoEdgesAcyclic();
      }
    } else {
      HandoffGraphsAcyclic(ops[..|ops| - 1]);
      StepHandoffsSafe(Run(ops[..|ops| - 1]), ops[|ops| - 1]);
    }
  }

  // ----- Authority attenuation ------------------------------------------------------

  /** `child` holds no more than `parent`. */
  ghost predicate Within(child: Identity, parent: Identity) {
    && Subset(child.capabilityScope, parent.capabilityScope)
    && Subset(child.memoryScope, parent.memoryScope)
    && child.budgetCents <= parent.budgetCents
    && child.tenantId == parent.tenantId
  }

  ghost predicate ParentBound(agents: map<string, Identity>, id: string)
    requires id in agents
  {
    var a := agents[id];
    a.parentAgentId == "" || (a.parentAgentId in agents && Within(a, agents[a.parentAgentId]))
  }

  ghost predicate Attenuated(agents: map<string, Identity>) { forall id | id in agents :: ParentBound(agents, id) }

  /** `rank` strictly falls from child to parent: following parents always ends at a root. */
  ghost predicate WellFounded(agents: map<string, Identity>, rank: map<string, nat>) {
    && (forall id | id in agents :: id in rank)
    && (forall id | id in agents && agents[id].parentAgentId != "" ::
          agents[id].parentAgentId in rank && rank[agents[id].parentAgentId] < rank[id])
  }

  /** The agent id an operation stores, if it stores one. */
  ghost function NewAgent(r: Runtime, op: Op): Option<Identity> {
    match op
    case RegisterRoot(raw) => if RegisterStep(r, raw).Ok? then Some(MakeIdentity(raw).value) else None
    case Spawn(s, leaseId) =>
      if SpawnChild(r, s, leaseId).Ok? && SpawnChild(r, s, leaseId).value.Some?
      then Some(SpawnChild(r, s, leaseId).value.value.0) else None
    case _ => None
  }

  lemma NormalizedTwice(values: seq<string>)
    ensures forall x | x in Normalized(Normalized(values)) :: x in Normalized(values)
  {
    forall x | x in Normalized(Normalized(values)) ensures x in Normalized(values) {
      NormalizedMember(Normalized(values), x);
      var i :| 0 <= i < |Normalized(values)| && Strip(Normalized(values)[i]) == x;
      NormalizedMember(values, Normalized(values)[i]);
      var j :| 0 <= j < |values| && Strip(values[j]) == Normalized(values)[i];
      StripTwice(values[j]);
    }
  }

  /** What a step does to the agents: nothing, or store one agent bounded by its parent. */
  lemma NewAgentShape(r: Runtime, op: Op)
    ensures NewAgent(r, op).None? ==> Step(r, op).agents == r.agents
    ensures NewAgent(r, op).Some? ==>
              var a := NewAgent(r, op).value;
              && Step(r, op).agents == r.agents[a.agentId := a]
              && !Blank(a.agentId)
              && (forall c | c in a.capabilityScope :: c !in FORBIDDEN_AUTHORITY_CAPABILITIES)
              && (a.parentAgentId == "" || (a.parentAgentId in r.agents && Within(a, r.agents[a.parentAgentId])))
  {
    if op.Spawn? && NewAgent(r, op).Some? { SpawnedWithin(r, op.spawn, op.leaseId); }
  }

  /** A spawned child holds no more than its parent. */
  lemma SpawnedWithin(r: Runtime, s: SpawnRequest, leaseId: string)
    requires SpawnChild(r, s, leaseId).Ok? && SpawnChild(r, s, leaseId).value.Some?
    ensures var a := SpawnChild(r, s, leaseId).value.value.0;
            && !Blank(a.agentId) && a.parentAgentId in r.agents && Within(a, r.agents[a.parentAgentId])
            && (forall c | c in a.capabilityScope :: c !in FORBIDDEN_AUTHORITY_CAPABILITIES)
  {
    NormalizedTwice(s.capabilityScope);
    NormalizedTwice(s.memoryScope);
  }

  ghost predicate Fresh(r: Runtime, op: Op) {
    NewAgent(r, op).Some? ==> NewAgent(r, op).value.agentId !in r.agents
  }

  ghost predicate FreshRun(ops: seq<Op>) {
    forall i | 0 <= i < |ops| :: Fresh(Run(ops[..i]), ops[i])
  }

  /** Storing an agent under a new id, ranked above everyone, keeps authority inherited. */
  lemma StoreAttenuates(agents: map<string, Identity>, a: Identity, rank: map<string, nat>, n: nat)
    requires Attenuated(agents) && WellFounded(agents, rank) && a.agentId !in agents
    requires forall id | id in rank :: rank[id] < n
    requires a.parentAgentId == "" || (a.parentAgentId in agents && Within(a, agents[a.parentAgentId]))
    ensures Attenuated(agents[a.agentId := a]) && WellFounded(agents[a.agentId := a], rank[a.agentId := n])
  {
    var after := agents[a.agentId := a];
    forall id | id in after ensures ParentBound(after, id) {
      if id != a.agentId { assert ParentBound(agents, id); }
    }
  }

  /** Registering agents one after another ranks them: a parent always comes first. */
  lemma {:induction false} FreshRunAttenuates(ops: seq<Op>) returns (rank: map<string, nat>)
    requires FreshRun(ops)
    ensures Attenuated(Run(ops).agents) && WellFounded(Run(ops).agents, rank)
    ensures forall id | id in rank :: rank[id] < |ops|
  {
    if ops == [] { return map[]; }
    var r, op := Run(ops[..|ops| - 1]), ops[|ops| - 1];
    FreshFront(ops);
    rank := FreshRunAttenuates(ops[..|ops| - 1]);
    NewAgentShape(r, op);
    if NewAgent(r, op).Some? {
      StoreAttenuates(r.agents, NewAgent(r, op).value, rank, |ops| - 1);
      rank := rank[NewAgent(r, op).value.agentId := |ops| - 1];
    }
  }

  lemma FreshFront(ops: seq<Op>)
    requires FreshRun(ops) && ops != []
    ensures FreshRun(ops[..|ops| - 1]) && Fresh(Run(ops[..|ops| - 1]), ops[|ops| - 1])
  {
    var front := ops[..|ops| - 1];
    forall i | 0 <= i < |front| ensures Fresh(Run(front[..i]), front[i]) {
      assert front[..i] == ops[..i] && front[i] == ops[i];
    }
  }

  /** The `n`-th ancestor of an agent, following parents. */
  ghost function Ancestor(r: Runtime, id: string, n: nat): (a: Option<string>)
    ensures a.Some? ==> a.value in r.agents
  {
    Above(r.agents, id, n)
  }

  ghost function Above(agents: map<string, Identity>, id: string, n: nat): (a: Option<string>)
    ensures a.Some? ==> a.value in agents
    decreases n
  {
    if id !in agents then None
    else if n == 0 then Some(id)
    else if agents[id].parentAgentId == "" then None
    else Above(agents, agents[id].parentAgentId, n - 1)
  }

  lemma {:induction false} WithinAncestor(r: Runtime, id: string, n: nat)
    requires Attenuated(r.agents) && id in r.agents && Ancestor(r, id, n).Some?
    ensures Ancestor(r, id, n).value in r.agents && Within(r.agents[id], r.agents[Ancestor(r, id, n).value])
    decreases n
  {
    if n > 0 {
      assert ParentBound(r.agents, id);
      WithinAncestor(r, r.agents[id].parentAgentId, n - 1);
    }
  }

  lemma {:induction false} ReachesRoot(r: Runtime, rank: map<string, nat>, id: string) returns (n: nat)
    requires Attenuated(r.agents) && WellFounded(r.agents, rank) && id in r.agents
    ensures n <= rank[id] && Ancestor(r, id, n).Some?
    ensures r.agents[Ancestor(r, id, n).value].parentAgentId == ""
    ensures Ancestor(r, id, n + 1) == None
    decreases rank[id]
  {
    if r.agents[id].parentAgentId == "" { return 0; }
    assert ParentBound(r.agents, id);
    n := ReachesRoot(r, rank, r.agents[id].parentAgentId);
    n := n + 1;
  }

  /** Authority attenuation: with fresh agent ids, everything an agent holds lies inside every
      ancestor's scope, the ancestry ends at a root, and all of it stays in one tenant. */
  lemma AuthorityAttenuates(ops: seq<Op>, id: string)
    requires FreshRun(ops) && id in Run(ops).agents
    ensures forall n: nat | Ancestor(Run(ops), id, n).Some? ::
              Ancestor(Run(ops), id, n).value in Run(ops).agents
              && Within(Run(ops).agents[id], Run(ops).agents[Ancestor(Run(ops), id, n).value])
    ensures exists n: nat :: n < |ops| && Ancestor(Run(ops), id, n).Some? && Ancestor(Run(ops), id, n + 1) == None
  {
    var rank := FreshRunAttenuates(ops);
    WithinEveryAncestor(Run(ops), id);
    EndsAtRoot(Run(ops), rank, id, |ops|);
  }

  lemma EndsAtRoot(r: Runtime, rank: map<string, nat>, id: string, bound: nat)
    requires Attenuated(r.agents) && WellFounded(r.agents, rank) && id in r.agents && rank[id] < bound
    ensures exists n: nat :: n < bound && Ancestor(r, id, n).Some? && Ancestor(r, id, n + 1) == None
  {
    var n := ReachesRoot(r, rank, id);
  }

  lemma WithinEveryAncestor(r: Runtime, id: string)
    requires Attenuated(r.agents) && id in r.agents
    ensures forall n: nat | Ancestor(r, id, n).Some? ::
              Ancestor(r, id, n).value in r.agents && Within(r.agents[id], r.agents[Ancestor(r, id, n).value])
  {
    forall n: nat | Ancestor(r, id, n).Some?
      ensures Ancestor(r, id, n).value in r.agents && Within(r.agents[id], r.agents[Ancestor(r, id, n).value])
    {
      WithinAncestor(r, id, n);
    }
  }

  ghost predicate TasksInScope(r: Runtime) {
    forall t | t in r.tasks && r.tasks[t].status == Accepted ::
      r.tasks[t].agentId in r.agents
      && r.tasks[t].capability in r.agents[r.tasks[t].agentId].capabilityScope
      && r.tasks[t].budgetCents <= r.agents[r.tasks[t].agentId].budgetCents
      && r.tasks[t].tenantId == r.agents[r.tasks[t].agentId].tenantId
  }

  lemma StepTasksInScope(r: Runtime, op: Op)
    requires TasksInScope(r) && Fresh(r, op)
    ensures TasksInScope(Step(r, op))
  {
    NewAgentShape(r, op);
  }

  lemma {:induction false} RunTasksInScope(ops: seq<Op>)
    requires FreshRun(ops)
    ensures TasksInScope(Run(ops))
  {
    if ops != [] {
      var front := ops[..|ops| - 1];
      FreshFront(ops);
      RunTasksInScope(front);
      StepTasksInScope(Run(front), ops[|ops| - 1]);
    }
  }

  /** Every accepted task lies inside the scope of its agent and of all that agent's ancestors. */
  lemma AcceptedTasksInAncestorScope(ops: seq<Op>, t: string, n: nat)
    requires FreshRun(ops) && t in Run(ops).tasks && Run(ops).tasks[t].status == Accepted
    requires Ancestor(Run(ops), Run(ops).tasks[t].agentId, n).Some?
    ensures var task := Run(ops).tasks[t]; var above := Ancestor(Run(ops), task.agentId, n).value;
            && above in Run(ops).agents
            && task.capability in Run(ops).agents[above].capabilityScope
            && task.budgetCents <= Run(ops).agents[above].budgetCents
            && task.tenantId == Run(ops).agents[above].tenantId
  {
    RunTasksInScope(ops);
    AuthorityAttenuates(ops, Run(ops).tasks[t].agentId);
  }

  /** No run, fresh ids or not, stores an agent holding a governance-mutation capability. */
  lemma {:induction false} NoForbiddenAuthority(ops: seq<Op>)
    ensures forall id, c | id in Run(ops).agents && c in Run(ops).agents[id].capabilityScope ::
              c !in FORBIDDEN_AUTHORITY_CAPABILITIES
  {
    if ops != [] {
      var r, op := Run(ops[..|ops| - 1]), ops[|ops| - 1];
      NoForbiddenAuthority(ops[..|ops| - 1]);
      NewAgentShape(r, op);
    }
  }
}
