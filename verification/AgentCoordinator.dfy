/** The coordinator object: four dictionaries and a receipt log, updated in place. */
module AgentCoordinator {
  import opened Collections
  import opened Ordering
  import opened AgentRuntime

  datatype ReceiptKind = RegisterReceipt | SpawnReceipt | TaskReceipt | HandoffReceipt
  datatype Reason = RootRegistered | LeaseIssued | TaskAccepted | HandoffRecorded | Denied(why: Denial)
  datatype ReceiptStatus = ReceiptAccepted | ReceiptRejected | ReceiptRecorded

  datatype Receipt = Receipt(kind: ReceiptKind, status: ReceiptStatus, actorAgentId: string, tenantId: string,
                             reason: Reason, subjectRef: string, evidenceRefs: seq<string>)

  /** AgentReceipt refuses blank actors and tenants. */
  function MakeReceipt(kind: ReceiptKind, status: ReceiptStatus, actor: string, tenantId: string, reason: Reason,
                       subject: string, refs: seq<string>): Result<Receipt, Refusal> {
    if (actor != "" && Blank(actor)) || Blank(tenantId) then Err(TextRequired)
    else Ok(Receipt(kind, status,
                    if actor == "" then "unknown" else actor, tenantId, reason, subject, Normalized(refs)))
  }

  /** The receipt is about this call: who made it and for which tenant, how it went and why, and what it was about. */
  ghost predicate Tells(r: Receipt, kind: ReceiptKind, status: ReceiptStatus, actor: string, tenantId: string,
                        reason: Reason, subject: string) {
    && r.kind == kind && r.status == status && r.actorAgentId == (if actor == "" then "unknown" else actor)
    && r.tenantId == tenantId && r.reason == reason && r.subjectRef == subject
  }

  /** A receipt is made exactly when its tenant is named and its actor is, or is empty and then unknown. */
  lemma ReceiptMade(kind: ReceiptKind, status: ReceiptStatus, actor: string, tenantId: string, reason: Reason,
                    subject: string, refs: seq<string>)
    ensures MakeReceipt(kind, status, actor, tenantId, reason, subject, refs).Ok?
            <==> (actor == "" || !Blank(actor)) && !Blank(tenantId)
    ensures MakeReceipt(kind, status, actor, tenantId, reason, subject, refs).Ok? ==>
              var r := MakeReceipt(kind, status, actor, tenantId, reason, subject, refs).value;
              Tells(r, kind, status, actor, tenantId, reason, subject) && r.evidenceRefs == Normalized(refs)
  {
  }

  ghost predicate Named(r: Runtime) { forall id | id in r.agents :: !Blank(id) }

  lemma {:induction false} RunNamed(ops: seq<Op>)
    ensures Named(Run(ops))
  {
    if ops != [] {
      RunNamed(ops[..|ops| - 1]);
      NewAgentShape(Run(ops[..|ops| - 1]), ops[|ops| - 1]);
    }
  }

  /** An issued lease stores one named child and itself; its receipt cannot be malformed. */
  lemma SpawnIssues(r: Runtime, s: SpawnRequest, leaseId: string)
    requires Named(r) && SpawnChild(r, s, leaseId).Ok? && SpawnChild(r, s, leaseId).value.Some?
    ensures var (child, lease) := SpawnChild(r, s, leaseId).value.value;
            && Step(r, Spawn(s, leaseId)) == r.(agents := r.agents[child.agentId := child],
                                                leases := r.leases[leaseId := lease])
            && !Blank(child.agentId) && !Blank(s.parentAgentId) && !Blank(s.tenantId)
            && child.agentId == s.childAgentId && lease.issuedBy == s.parentAgentId && lease.tenantId == s.tenantId
  {
  }

  lemma SpawnTurnedDown(r: Runtime, s: SpawnRequest, leaseId: string)
    requires Normalized(s.capabilityScope) != [] && Normalized(s.memoryScope) != []
    requires ChildSpawnDenial(Agent(r, s.parentAgentId), s.tenantId, Normalized(s.capabilityScope),
                              Normalized(s.memoryScope), s.budgetCents) != NoDenial
    ensures SpawnChild(r, s, leaseId) == Ok(None) && Step(r, Spawn(s, leaseId)) == r
  {
  }

  lemma HandoffStores(r: Runtime, raw: Handoff, now: string)
    requires Named(r) && MakeHandoff(r, raw, now).Ok? && MakeHandoff(r, raw, now).value.Some?
    ensures var h := MakeHandoff(r, raw, now).value.value;
            && Step(r, Handover(raw, now)) == r.(handoffs := r.handoffs[h.handoffId := h])
            && !Blank(h.fromAgentId) && !Blank(h.tenantId)
  {
  }

  lemma HandoffTurnedDown(r: Runtime, raw: Handoff, now: string)
    requires AskedHandoff(raw, now).capabilityScope != [] && HandoffRefusal(r, AskedHandoff(raw, now)) != NoDenial
    ensures MakeHandoff(r, raw, now) == Ok(None) && Step(r, Handover(raw, now)) == r
  {
  }

  class AgentRuntimeCoordinator {
    var agents: map<string, Identity>
    var leases: map<string, Lease>
    var tasks: map<string, Task>
    var handoffs: map<string, Handoff>
    var receipts: seq<Receipt>
    ghost var calls: seq<Op>

    ghost function View(): Runtime
      reads this
    {
      Runtime(agents, leases, tasks, handoffs)
    }

    /** The coordinator is what the calls made so far leave behind, so whatever is proved of every run holds of it. */
    ghost predicate Valid()
      reads this
    {
      View() == Run(calls)
    }

    ghost method Log(op: Op)
      requires Valid()
      modifies this`calls
      ensures calls == old(calls) + [op] && Named(View()) && Run(calls) == Step(View(), op)
    {
      RunNamed(calls);
      RunMore(calls, op);
      calls := calls + [op];
    }

    constructor ()
      ensures Valid() && calls == [] && View() == EMPTY && receipts == []
    {
      calls := [];
      agents, leases, tasks, handoffs, receipts := map[], map[], map[], map[], [];
    }

    /** Every call that does not raise leaves one receipt, unless the receipt itself is malformed. */
    method RecordReceipt(kind: ReceiptKind, status: ReceiptStatus, actor: string, tenantId: string, reason: Reason,
                         subject: string, refs: seq<string>)
      returns (receipt: Result<Receipt, Refusal>)
      modifies this`receipts
      ensures receipt == MakeReceipt(kind, status, actor, tenantId, reason, subject, refs)
      ensures receipts == old(receipts) + if receipt.Ok? then [receipt.value] else []
      ensures receipt.Ok? ==> Tells(receipt.value, kind, status, actor, tenantId, reason, subject)
    {
      receipt := MakeReceipt(kind, status, actor, tenantId, reason, subject, refs);
      if receipt.Ok? { receipts := receipts + [receipt.value]; }
    }

    method RegisterRootAgent(raw: Identity) returns (r: Result<Identity, Refusal>)
      requires Valid()
      modifies this
      ensures Valid() && calls == old(calls) + [RegisterRoot(raw)]
      ensures View() == Step(old(View()), RegisterRoot(raw))
      ensures r.Ok? <==> RegisterStep(old(View()), raw).Ok?
      ensures r.Ok? ==> Some(r.value) == NewAgent(old(View()), RegisterRoot(raw))
      ensures |receipts| == |old(receipts)| + if r.Ok? then 1 else 0
      ensures old(receipts) <= receipts
      ensures r.Ok? ==> Tells(receipts[|old(receipts)|], RegisterReceipt, ReceiptRecorded, r.value.agentId,
                              r.value.tenantId, RootRegistered, r.value.agentId)
    {
      Log(RegisterRoot(raw));
      NewAgentShape(View(), RegisterRoot(raw));
      r := MakeIdentity(raw);
      if r.Err? { return; }
      var identity := r.value;
      if identity.parentAgentId != "" { return Err(RootHasParent); }
      agents := agents[identity.agentId := identity];
      var receipt := RecordReceipt(RegisterReceipt, ReceiptRecorded, identity.agentId, identity.tenantId,
                                 RootRegistered, identity.agentId, identity.evidenceRefs);
    }

    /** A denial is recorded with its reason; a raised error leaves everything as it was. */
    method SpawnChildAgent(s: SpawnRequest, leaseId: string)
      returns (r: Result<(Option<(Identity, Lease)>, Receipt), Refusal>)
      requires Valid()
      modifies this
      ensures Valid() && calls == old(calls) + [Spawn(s, leaseId)]
      ensures View() == Step(old(View()), Spawn(s, leaseId))
      ensures r.Ok? ==> SpawnChild(old(View()), s, leaseId) == Ok(r.value.0) && receipts == old(receipts) + [r.value.1]
      ensures r.Ok? ==> if r.value.0.Some?
                        then Tells(r.value.1, SpawnReceipt, ReceiptAccepted, s.parentAgentId, s.tenantId, LeaseIssued,
                                   s.childAgentId)
                        else Tells(r.value.1, SpawnReceipt, ReceiptRejected, s.parentAgentId, s.tenantId,
                                   Denied(ChildSpawnDenial(Agent(old(View()), s.parentAgentId), s.tenantId,
                                                           Normalized(s.capabilityScope), Normalized(s.memoryScope),
                                                           s.budgetCents)), s.childAgentId)
      ensures r.Err? ==> View() == old(View()) && receipts == old(receipts)
    {
      Log(Spawn(s, leaseId));
      var capabilities, memory := Normalized(s.capabilityScope), Normalized(s.memoryScope);
      if capabilities == [] { return Err(CapabilityScopeRequired); }
      if memory == [] { return Err(MemoryScopeRequired); }
      var parent := if s.parentAgentId in agents then Some(agents[s.parentAgentId]) else None;
      var denial := ChildSpawnDenial(parent, s.tenantId, capabilities, memory, s.budgetCents);
      if denial != NoDenial {
        SpawnTurnedDown(View(), s, leaseId);
        var refusal := RecordReceipt(SpawnReceipt, ReceiptRejected, s.parentAgentId, s.tenantId, Denied(denial),
                                     s.childAgentId, s.evidenceRefs);
        if refusal.Err? { return Err(refusal.error); }
        return Ok((None, refusal.value));
      }
      var issued := IssueChild(s, leaseId, capabilities, memory);
      if issued.Err? { return Err(issued.error); }
      SpawnIssues(View(), s, leaseId);
      var receipt := StoreChild(issued.value.0, issued.value.1, s.evidenceRefs);
      r := Ok((Some(issued.value), receipt));
    }

    /** The child and the lease of a spawn that is not denied, unless one of them is malformed. */
    method IssueChild(s: SpawnRequest, leaseId: string, capabilities: seq<string>, memory: seq<string>)
      returns (r: Result<(Identity, Lease), Refusal>)
      requires capabilities == Normalized(s.capabilityScope) != [] && memory == Normalized(s.memoryScope) != []
      requires ChildSpawnDenial(Agent(View(), s.parentAgentId), s.tenantId, capabilities, memory, s.budgetCents)
               == NoDenial
      ensures SpawnChild(View(), s, leaseId) == if r.Ok? then Ok(Some(r.value)) else Err(r.error)
    {
      var made := MakeIdentity(Identity(s.childAgentId, s.tenantId, s.role, Active, capabilities, memory, s.budgetCents,
                                        s.parentAgentId, s.expiresAt, s.evidenceRefs));
      if made.Err? { return Err(made.error); }
      if Blank(s.issuedAt) || Blank(s.expiresAt) { return Err(LeaseTimeRequired); }
      if Normalized(s.evidenceRefs) == [] { return Err(EvidenceRefsRequired); }
      r := Ok((made.value, Lease(leaseId, s.childAgentId, s.tenantId, s.parentAgentId, capabilities, s.budgetCents,
                                 s.issuedAt, s.expiresAt)));
    }

    method StoreChild(child: Identity, lease: Lease, refs: seq<string>) returns (receipt: Receipt)
      requires !Blank(lease.issuedBy) && !Blank(lease.tenantId)
      modifies this
      ensures View() == old(View()).(agents := old(agents)[child.agentId := child],
                                     leases := old(leases)[lease.leaseId := lease])
      ensures calls == old(calls) && receipts == old(receipts) + [receipt]
      ensures Tells(receipt, SpawnReceipt, ReceiptAccepted, lease.issuedBy, lease.tenantId, LeaseIssued, child.agentId)
    {
      ReceiptMade(SpawnReceipt, ReceiptAccepted, lease.issuedBy, lease.tenantId, LeaseIssued, child.agentId, refs);
      agents := agents[child.agentId := child];
      leases := leases[lease.leaseId := lease];
      var made := RecordReceipt(SpawnReceipt, ReceiptAccepted, lease.issuedBy, lease.tenantId, LeaseIssued,
                                child.agentId, refs);
      receipt := made.value;
    }

    method AssignTask(t: TaskRequest, now: string) returns (r: Result<(Task, Receipt), Refusal>)
      requires Valid()
      modifies this
      ensures Valid() && calls == old(calls) + [Assign(t, now)]
      ensures View() == Step(old(View()), Assign(t, now))
      ensures r.Ok? <==> MakeTask(old(View()), t, now).Ok?
      ensures r.Ok? ==> MakeTask(old(View()), t, now) == Ok(r.value.0) && receipts == old(receipts) + [r.value.1]
                        && (r.value.1.status == ReceiptAccepted <==> r.value.0.status == Accepted)
      ensures r.Ok? ==> if r.value.0.status == Accepted
                        then Tells(r.value.1, TaskReceipt, ReceiptAccepted, t.agentId, t.tenantId, TaskAccepted,
                                   t.taskId)
                        else Tells(r.value.1, TaskReceipt, ReceiptRejected, t.agentId, t.tenantId,
                                   Denied(r.value.0.admission), t.taskId)
      ensures r.Err? ==> receipts == old(receipts)
    {
      Log(Assign(t, now));
      var agent := if t.agentId in agents then Some(agents[t.agentId]) else None;
      var denial := TaskDenial(agent, t);
      var made := MakeTask(Runtime(agents, leases, tasks, handoffs), t, now);
      if made.Err? { return Err(made.error); }
      tasks := tasks[t.taskId := made.value];
      var receipt := RecordReceipt(TaskReceipt,
                                   if denial == NoDenial then ReceiptAccepted
                                   else ReceiptRejected, t.agentId, t.tenantId,
                                 if denial == NoDenial then TaskAccepted else Denied(denial), t.taskId, t.evidenceRefs);
      r := Ok((made.value, receipt.value));
    }

    method JudgeHandoff(h: Handoff) returns (denial: Denial)
      ensures denial == HandoffRefusal(View(), h)
    {
      var from := if h.fromAgentId in agents then Some(agents[h.fromAgentId]) else None;
      var to := if h.toAgentId in agents then Some(agents[h.toAgentId]) else None;
      denial := HandoffDenial(from, to, h);
      if denial == NoDenial { denial := HandoffChainDenial(handoffs, h.taskId, h.toAgentId); }
    }

    method RecordHandoff(raw: Handoff, now: string) returns (r: Result<(Option<Handoff>, Receipt), Refusal>)
      requires Valid()
      modifies this
      ensures Valid() && calls == old(calls) + [Handover(raw, now)]
      ensures View() == Step(old(View()), Handover(raw, now))
      ensures r.Ok? ==> MakeHandoff(old(View()), raw, now) == Ok(r.value.0) && receipts == old(receipts) + [r.value.1]
      ensures r.Ok? ==> if r.value.0.Some?
                        then Tells(r.value.1, HandoffReceipt, ReceiptRecorded, raw.fromAgentId, raw.tenantId,
                                   HandoffRecorded, raw.handoffId)
                        else Tells(r.value.1, HandoffReceipt, ReceiptRejected, raw.fromAgentId, raw.tenantId,
                                   Denied(HandoffRefusal(old(View()), AskedHandoff(raw, now))), raw.handoffId)
      ensures r.Err? ==> View() == old(View()) && receipts == old(receipts)
    {
      Log(Handover(raw, now));
      var h := AskedHandoff(raw, now);
      if h.capabilityScope == [] { return Err(CapabilityScopeRequired); }
      var denial := JudgeHandoff(h);
      if denial != NoDenial {
        HandoffTurnedDown(View(), raw, now);
        var refusal := RecordReceipt(HandoffReceipt, ReceiptRejected, h.fromAgentId, h.tenantId, Denied(denial),
                                     h.handoffId, h.contextRefs);
        if refusal.Err? { return Err(refusal.error); }
        return Ok((None, refusal.value));
      }
      var made := MakeHandoff(Runtime(agents, leases, tasks, handoffs), raw, now);
      if made.Err? { return Err(made.error); }
      h := made.value.value;
      HandoffStores(View(), raw, now);
      var receipt := StoreHandoff(h);
      r := Ok((Some(h), receipt));
    }

    method StoreHandoff(h: Handoff) returns (receipt: Receipt)
      requires !Blank(h.fromAgentId) && !Blank(h.tenantId)
      modifies this
      ensures View() == old(View()).(handoffs := old(handoffs)[h.handoffId := h])
      ensures calls == old(calls) && receipts == old(receipts) + [receipt]
      ensures Tells(receipt, HandoffReceipt, ReceiptRecorded, h.fromAgentId, h.tenantId, HandoffRecorded, h.handoffId)
    {
      ReceiptMade(HandoffReceipt, ReceiptRecorded, h.fromAgentId, h.tenantId, HandoffRecorded, h.handoffId,
                  h.contextRefs);
      handoffs := handoffs[h.handoffId := h];
      var made := RecordReceipt(HandoffReceipt, ReceiptRecorded, h.fromAgentId, h.tenantId, HandoffRecorded,
                                h.handoffId, h.contextRefs);
      receipt := made.value;
    }
  }
}
