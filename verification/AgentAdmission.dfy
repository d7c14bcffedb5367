/** What is admitted, told in the fields of the request and of the agents on record: handoffs, tasks and spawned agents,
    in one call and over whole runs. */
module AgentAdmission {
  import opened Collections
  import opened Ordering
  import opened AgentRuntime

  ghost predicate ActiveIn(agents: map<string, Identity>, id: string, tenantId: string) {
    id in agents && agents[id].status == Active && agents[id].tenantId == tenantId
  }

  ghost predicate Holds(a: Identity, capabilities: seq<string>) {
    forall c | c in capabilities :: c in a.capabilityScope
  }

  // ----- Handoffs -----------------------------------------------------------------------

  /** Both agents are on record, active and of the handoff's tenant; every capability handed over is in both scopes, its
      budget within both, and it carries some context. */
  ghost predicate WithinBoth(agents: map<string, Identity>, h: Handoff) {
    && ActiveIn(agents, h.fromAgentId, h.tenantId) && ActiveIn(agents, h.toAgentId, h.tenantId)
    && Holds(agents[h.fromAgentId], h.capabilityScope) && Holds(agents[h.toAgentId], h.capabilityScope)
    && h.budgetCents <= agents[h.fromAgentId].budgetCents && h.budgetCents <= agents[h.toAgentId].budgetCents
    && h.contextRefs != []
  }

  /** The task has fewer than four handoffs, and the receiver has handed none of them over. */
  ghost predicate ChainOpen(handoffs: map<string, Handoff>, taskId: string, toAgentId: string) {
    && |set k | k in handoffs && handoffs[k].taskId == taskId| < 4
    && forall k | k in handoffs && handoffs[k].taskId == taskId :: handoffs[k].fromAgentId != toAgentId
  }

  /** The handoff as it is put on record: texts normalized, the time filled in. */
  function Recorded(raw: Handoff, now: string): Handoff {
    raw.(capabilityScope := Normalized(raw.capabilityScope), contextRefs := Normalized(raw.contextRefs),
         handedOffAt := if raw.handedOffAt == "" then now else raw.handedOffAt)
  }

  ghost predicate WellPut(h: Handoff) {
    && !Blank(h.handoffId) && !Blank(h.tenantId) && !Blank(h.goalId) && !Blank(h.taskId) && !Blank(h.handedOffAt)
    && h.fromAgentId != h.toAgentId && h.budgetCents >= 0 && h.capabilityScope != []
  }

  lemma NormalizedSome(values: seq<string>)
    requires Normalized(values) != []
    ensures values != []
  {
    if values == [] { NormalizedNothing(); }
  }

  lemma RefusalMeans(r: Runtime, h: Handoff)
    ensures HandoffRefusal(r, h) == NoDenial
            <==> WithinBoth(r.agents, h) && ChainOpen(r.handoffs, h.taskId, h.toAgentId)
  {
    assert Chain(r.handoffs, h.taskId) == set k | k in r.handoffs && r.handoffs[k].taskId == h.taskId;
  }

  lemma RefusalIgnoresRefs(r: Runtime, raw: Handoff, now: string)
    requires Normalized(raw.contextRefs) != []
    ensures HandoffRefusal(r, AskedHandoff(raw, now)) == NoDenial <==> HandoffRefusal(r, Recorded(raw, now)) == NoDenial
  {
    NormalizedSome(raw.contextRefs);
  }

  /** A handoff is put on record exactly when it is well put, both agents are within their authority and the task's
      chain is open to it; otherwise nothing changes. */
  lemma HandoffAdmittedIff(r: Runtime, raw: Handoff, now: string)
    ensures var h := Recorded(raw, now);
            Step(r, Handover(raw, now))
            == if WellPut(h) && WithinBoth(r.agents, h) && ChainOpen(r.handoffs, h.taskId, h.toAgentId)
               then r.(handoffs := r.handoffs[h.handoffId := h]) else r
  {
    var h := Recorded(raw, now);
    RefusalMeans(r, h);
    if Normalized(raw.contextRefs) != [] { RefusalIgnoresRefs(r, raw, now); }
  }

  ghost predicate RecordedAt(ops: seq<Op>, i: nat, id: string, h: Handoff) {
    && i < |ops| && ops[i].Handover? && ops[i].handoff.handoffId == id && h == Recorded(ops[i].handoff, ops[i].now)
    && WellPut(h) && WithinBoth(Run(ops[..i]).agents, h) && ChainOpen(Run(ops[..i]).handoffs, h.taskId, h.toAgentId)
  }

  lemma StepHandoffs(r: Runtime, op: Op, id: string)
    ensures id in Step(r, op).handoffs ==>
              var h := Step(r, op).handoffs[id];
              || (id in r.handoffs && r.handoffs[id] == h)
              || (op.Handover? && op.handoff.handoffId == id && h == Recorded(op.handoff, op.now) && WellPut(h)
                  && WithinBoth(r.agents, h) && ChainOpen(r.handoffs, h.taskId, h.toAgentId))
  {
    if op.Handover? { HandoffAdmittedIff(r, op.handoff, op.now); } else { NewHandoffShape(r, op); }
  }

  /** In every run, each handoff on record was put there by a call made while both its agents were within their
      authority. */
  lemma {:induction false} HandoffsWereWithinBoth(ops: seq<Op>, id: string)
    requires id in Run(ops).handoffs
    ensures exists i: nat :: RecordedAt(ops, i, id, Run(ops).handoffs[id])
  {
    assert ops != [];
    var front, last, h := ops[..|ops| - 1], |ops| - 1, Run(ops).handoffs[id];
    StepHandoffs(Run(front), ops[last], id);
    if id in Run(front).handoffs && Run(front).handoffs[id] == h {
      HandoffsWereWithinBoth(front, id);
      var i: nat :| RecordedAt(front, i, id, h);
      assert front[..i] == ops[..i];
      assert RecordedAt(ops, i, id, h);
    } else {
      assert ops[..last] == front;
      assert RecordedAt(ops, last, id, h);
    }
  }

  /** With fresh ids an agent on record stays as it is. */
  lemma {:induction false} AgentsPersist(ops: seq<Op>, i: nat, id: string)
    requires FreshRun(ops) && i <= |ops| && id in Run(ops[..i]).agents
    ensures id in Run(ops).agents && Run(ops).agents[id] == Run(ops[..i]).agents[id]
  {
    if i < |ops| {
      var front := ops[..|ops| - 1];
      FreshFront(ops);
      assert front[..i] == ops[..i];
      AgentsPersist(front, i, id);
      NewAgentShape(Run(front), ops[|ops| - 1]);
    } else {
      assert ops[..i] == ops;
    }
  }

  /** With fresh ids, every handoff on record is within the authority of both agents as they stand now, and every
      capability handed over lies in the scope of every ancestor of both. */
  lemma HandoffsWithinAncestors(ops: seq<Op>, id: string, n: nat)
    requires FreshRun(ops) && id in Run(ops).handoffs
    ensures var r, h := Run(ops), Run(ops).handoffs[id];
            && WithinBoth(r.agents, h)
            && (Ancestor(r, h.fromAgentId, n).Some?
                ==> Holds(r.agents[Ancestor(r, h.fromAgentId, n).value], h.capabilityScope))
            && (Ancestor(r, h.toAgentId, n).Some?
                ==> Holds(r.agents[Ancestor(r, h.toAgentId, n).value], h.capabilityScope))
  {
    var h := Run(ops).handoffs[id];
    HandoffsWereWithinBoth(ops, id);
    var i: nat :| RecordedAt(ops, i, id, h);
    AgentsPersist(ops, i, h.fromAgentId);
    AgentsPersist(ops, i, h.toAgentId);
    HeldAbove(ops, h.fromAgentId, h.capabilityScope, n);
    HeldAbove(ops, h.toAgentId, h.capabilityScope, n);
  }

  lemma HeldAbove(ops: seq<Op>, id: string, capabilities: seq<string>, n: nat)
    requires FreshRun(ops) && id in Run(ops).agents && Holds(Run(ops).agents[id], capabilities)
    ensures Ancestor(Run(ops), id, n).Some? ==>
              Holds(Run(ops).agents[Ancestor(Run(ops), id, n).value], capabilities)
  {
    AuthorityAttenuates(ops, id);
  }

  // ----- Tasks --------------------------------------------------------------------------

  /** The agent is on record, active and of the task's tenant, the capability in its scope, the budget within its own,
      and a task of high or critical risk brings evidence. */
  ghost predicate MayTake(agents: map<string, Identity>, t: TaskRequest) {
    && ActiveIn(agents, t.agentId, t.tenantId) && t.capability in agents[t.agentId].capabilityScope
    && t.budgetCents <= agents[t.agentId].budgetCents
    && (t.riskTier in {"high", "critical"} ==> t.evidenceRefs != [])
  }

  ghost predicate WellAsked(t: TaskRequest, at: string) {
    && !Blank(t.taskId) && !Blank(t.agentId) && !Blank(t.tenantId) && !Blank(t.capability) && !Blank(t.goalId)
    && !Blank(at) && t.riskTier in {"low", "medium", "high", "critical"} && t.budgetCents >= 0
  }

  /** A well-asked task is put on record as asked, ACCEPTED exactly when the agent may take it; any other changes
      nothing. */
  lemma TaskAdmittedIff(r: Runtime, t: TaskRequest, now: string)
    ensures var at, after := if t.assignedAt == "" then now else t.assignedAt, Step(r, Assign(t, now));
            if WellAsked(t, at) then
              && after == r.(tasks := after.tasks) && after.tasks.Keys == r.tasks.Keys + {t.taskId}
              && (forall id | id in r.tasks && id != t.taskId :: after.tasks[id] == r.tasks[id])
              && var task := after.tasks[t.taskId];
                 && task.status == (if MayTake(r.agents, t) then Accepted else Rejected)
                 && task.taskId == t.taskId && task.agentId == t.agentId && task.tenantId == t.tenantId
                 && task.capability == t.capability && task.goalId == t.goalId && task.riskTier == t.riskTier
                 && task.budgetCents == t.budgetCents && task.assignedAt == at
                 && task.evidenceRefs == Normalized(t.evidenceRefs)
            else after == r
  {
  }

  // ----- Spawned and registered agents ----------------------------------------------------

  /** An identity that can be built: no text is blank, something may be done and remembered, nothing on the list of
      forbidden capabilities, and no negative budget. */
  ghost predicate Buildable(a: Identity) {
    && !Blank(a.agentId) && !Blank(a.tenantId) && !Blank(a.role)
    && Normalized(a.capabilityScope) != [] && Normalized(a.memoryScope) != [] && a.budgetCents >= 0
    && forall c | c in Normalized(a.capabilityScope) ::
         c != "policy.modify" && c != "policy.promote" && c != "authority.grant" && c != "authority.modify"
  }

  function Built(a: Identity): Identity {
    a.(capabilityScope := Normalized(a.capabilityScope), memoryScope := Normalized(a.memoryScope),
       evidenceRefs := Normalized(a.evidenceRefs))
  }

  lemma IdentityMeans(raw: Identity)
    ensures MakeIdentity(raw).Ok? <==> Buildable(raw)
    ensures MakeIdentity(raw).Ok? ==> MakeIdentity(raw).value == Built(raw)
  {
  }

  /** A root agent is registered exactly when it can be built and names no parent; otherwise nothing changes. */
  lemma RootAdmittedIff(r: Runtime, raw: Identity)
    ensures Step(r, RegisterRoot(raw))
            == if Buildable(raw) && raw.parentAgentId == ""
               then r.(agents := r.agents[raw.agentId := Built(raw)]) else r
  {
    IdentityMeans(raw);
  }

  /** The parent is on record, active and of the child's tenant, and holds every capability and memory class and all the
      budget asked for. */
  ghost predicate MayBear(agents: map<string, Identity>, s: SpawnRequest) {
    && ActiveIn(agents, s.parentAgentId, s.tenantId)
    && Holds(agents[s.parentAgentId], Normalized(s.capabilityScope))
    && (forall x | x in Normalized(s.memoryScope) :: x in agents[s.parentAgentId].memoryScope)
    && s.budgetCents <= agents[s.parentAgentId].budgetCents
  }

  function Asked(s: SpawnRequest): Identity {
    Identity(s.childAgentId, s.tenantId, s.role, Active, Normalized(s.capabilityScope), Normalized(s.memoryScope),
             s.budgetCents, s.parentAgentId, s.expiresAt, s.evidenceRefs)
  }

  lemma ParentMeans(r: Runtime, s: SpawnRequest)
    ensures ChildSpawnDenial(Agent(r, s.parentAgentId), s.tenantId, Normalized(s.capabilityScope),
                             Normalized(s.memoryScope), s.budgetCents) == NoDenial
            <==> MayBear(r.agents, s)
  {
  }

  /** The whole of what a spawn asks: scopes named, a parent that may bear it, a child that can be built, and a lease
      with times and evidence. */
  ghost predicate SpawnAdmissible(r: Runtime, s: SpawnRequest) {
    && Normalized(s.capabilityScope) != [] && Normalized(s.memoryScope) != [] && MayBear(r.agents, s)
    && Buildable(Asked(s)) && !Blank(s.issuedAt) && !Blank(s.expiresAt) && Normalized(s.evidenceRefs) != []
  }

  lemma SpawnMeans(r: Runtime, s: SpawnRequest, leaseId: string)
    ensures SpawnChild(r, s, leaseId).Ok? && SpawnChild(r, s, leaseId).value.Some? <==> SpawnAdmissible(r, s)
    ensures SpawnAdmissible(r, s) ==>
              SpawnChild(r, s, leaseId).value.value
              == (Built(Asked(s)), Lease(leaseId, s.childAgentId, s.tenantId, s.parentAgentId,
                                         Normalized(s.capabilityScope), s.budgetCents, s.issuedAt, s.expiresAt))
  {
    ParentMeans(r, s);
    IdentityMeans(Asked(s));
  }

  /** A spawn that names its scopes is denied exactly when the parent may not bear the child; one that names none is an
      error, whoever the parent is. */
  lemma SpawnDeniedIff(r: Runtime, s: SpawnRequest, leaseId: string)
    ensures SpawnChild(r, s, leaseId) == Ok(None) <==>
            Normalized(s.capabilityScope) != [] && Normalized(s.memoryScope) != [] && !MayBear(r.agents, s)
    ensures Normalized(s.capabilityScope) == [] ==> SpawnChild(r, s, leaseId) == Err(CapabilityScopeRequired)
  {
    ParentMeans(r, s);
  }

  /** A child is spawned, with its lease, exactly then, and otherwise nothing changes. */
  lemma SpawnAdmittedIff(r: Runtime, s: SpawnRequest, leaseId: string)
    ensures Step(r, Spawn(s, leaseId))
            == if SpawnAdmissible(r, s)
               then r.(agents := r.agents[s.childAgentId := Built(Asked(s))],
                       leases := r.leases[leaseId := Lease(leaseId, s.childAgentId, s.tenantId, s.parentAgentId,
                                                           Normalized(s.capabilityScope), s.budgetCents, s.issuedAt,
                                                           s.expiresAt)])
               else r
  {
    SpawnMeans(r, s, leaseId);
  }

  // ----- Why something was turned down ------------------------------------------------------

  /** The reason given for turning a handoff down is a true one. */
  lemma HandoffReasonTrue(r: Runtime, h: Handoff)
    ensures match HandoffRefusal(r, h)
            case FromUnknown => h.fromAgentId !in r.agents
            case ToUnknown => h.toAgentId !in r.agents
            case TenantBoundary =>
              && h.fromAgentId in r.agents && h.toAgentId in r.agents
              && (r.agents[h.fromAgentId].tenantId != h.tenantId || r.agents[h.toAgentId].tenantId != h.tenantId)
            case AgentNotActive =>
              && h.fromAgentId in r.agents && h.toAgentId in r.agents
              && (r.agents[h.fromAgentId].status != Active || r.agents[h.toAgentId].status != Active)
            case ExceedsSender => h.fromAgentId in r.agents && !Holds(r.agents[h.fromAgentId], h.capabilityScope)
            case ExceedsReceiver => h.toAgentId in r.agents && !Holds(r.agents[h.toAgentId], h.capabilityScope)
            case HandoffBudgetExceeds =>
              && h.fromAgentId in r.agents && h.toAgentId in r.agents
              && (h.budgetCents > r.agents[h.fromAgentId].budgetCents
                  || h.budgetCents > r.agents[h.toAgentId].budgetCents)
            case ContextMissing => h.contextRefs == []
            case ChainTooDeep => |set k | k in r.handoffs && r.handoffs[k].taskId == h.taskId| >= 4
            case CycleDetected =>
              exists k :: k in r.handoffs && r.handoffs[k].taskId == h.taskId
                          && r.handoffs[k].fromAgentId == h.toAgentId
            case NoDenial => true
            case _ => false
  {
    assert Chain(r.handoffs, h.taskId) == set k | k in r.handoffs && r.handoffs[k].taskId == h.taskId;
  }

  /** So is the reason recorded with a rejected task, and given for a refused spawn. */
  lemma TaskReasonTrue(r: Runtime, t: TaskRequest)
    ensures match TaskDenial(Agent(r, t.agentId), t)
            case AgentUnknown => t.agentId !in r.agents
            case AgentNotActive => t.agentId in r.agents && r.agents[t.agentId].status != Active
            case TenantBoundary => t.agentId in r.agents && r.agents[t.agentId].tenantId != t.tenantId
            case CapabilityOutOfScope => t.agentId in r.agents && t.capability !in r.agents[t.agentId].capabilityScope
            case TaskBudgetExceeds => t.agentId in r.agents && t.budgetCents > r.agents[t.agentId].budgetCents
            case HighRiskEvidenceRequired => t.riskTier in {"high", "critical"} && t.evidenceRefs == []
            case NoDenial => true
            case _ => false
  {
  }

  lemma SpawnReasonTrue(r: Runtime, s: SpawnRequest)
    ensures match ChildSpawnDenial(Agent(r, s.parentAgentId), s.tenantId, Normalized(s.capabilityScope),
                                   Normalized(s.memoryScope), s.budgetCents)
            case ParentUnknown => s.parentAgentId !in r.agents
            case ParentNotActive => s.parentAgentId in r.agents && r.agents[s.parentAgentId].status != Active
            case TenantBoundary => s.parentAgentId in r.agents && r.agents[s.parentAgentId].tenantId != s.tenantId
            case ChildCapabilityExceeds =>
              s.parentAgentId in r.agents && !Holds(r.agents[s.parentAgentId], Normalized(s.capabilityScope))
            case ChildMemoryExceeds =>
              && s.parentAgentId in r.agents
              && exists x :: x in Normalized(s.memoryScope) && x !in r.agents[s.parentAgentId].memoryScope
            case ChildBudgetExceeds =>
              s.parentAgentId in r.agents && s.budgetCents > r.agents[s.parentAgentId].budgetCents
            case NoDenial => true
            case _ => false
  {
  }

  // ----- It happens -----------------------------------------------------------------------

  /** However much else is in order, agents of two tenants hand nothing over, and nobody hands over what he does not
      hold. */
  lemma NoHandoffAcrossTenants(r: Runtime, raw: Handoff, now: string)
    requires raw.fromAgentId in r.agents && raw.toAgentId in r.agents
    requires r.agents[raw.fromAgentId].tenantId != r.agents[raw.toAgentId].tenantId
    ensures Step(r, Handover(raw, now)) == r
  {
    HandoffAdmittedIff(r, raw, now);
  }

  lemma NoHandoffOfWhatIsNotHeld(r: Runtime, raw: Handoff, now: string, c: string)
    requires c in Normalized(raw.capabilityScope) && raw.fromAgentId in r.agents && raw.toAgentId in r.agents
    requires c !in r.agents[raw.fromAgentId].capabilityScope || c !in r.agents[raw.toAgentId].capabilityScope
    ensures Step(r, Handover(raw, now)) == r
  {
    HandoffAdmittedIff(r, raw, now);
  }
}
