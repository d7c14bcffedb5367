/** The in-memory store's dictionaries and the mesh's methods over them, updated in place. */
module AuthorityMeshObject {
  import opened Collections
  import opened AuthorityMesh
  import opened AuthorityRuns
  import opened AuthorityObligations

  class InMemoryStore {
    var ownership: map<(string, string), Ownership>
    var policies: Table<(string, string, string), Policy>
    var escalations: Table<(string, string), EscalationPolicy>
    var chains: Table<string, Chain>
    var commandChain: map<string, string>
    var obligations: Table<string, Obligation>
    var commandObligations: map<string, seq<string>>
    var events: seq<Event>
    var unowned: set<string>

    ghost function View(): Mesh
      reads this
    {
      Mesh(ownership, policies, escalations, chains, commandChain, obligations, commandObligations, events, unowned)
    }

    constructor ()
      ensures View() == EMPTY
    {
      ownership, policies, escalations := map[], Dict([], map[]), Dict([], map[]);
      chains, commandChain, obligations, commandObligations := Dict([], map[]), map[], Dict([], map[]), map[];
      events, unowned := [], {};
    }

    /** The command then shows this chain, and any other command what it showed before, unless it pointed at the same
        id. */
    method SaveApprovalChain(c: Chain)
      modifies this
      ensures ChainFor(View(), c.commandId) == Some(c)
      ensures forall k | k != c.commandId && !(k in old(commandChain) && old(commandChain)[k] == c.chainId) ::
                ChainFor(View(), k) == ChainFor(old(View()), k)
      ensures View() == SaveChain(old(View()), c)
    {
      SavedChainShows(View(), c);
      chains := chains.Put(c.chainId, c);
      commandChain := commandChain[c.commandId := c.chainId];
    }

    /** Readers then find the obligation in its command's list, last or in its old place, and every other list
        unchanged. */
    method SaveTheObligation(o: Obligation)
      modifies this
      ensures old(Savable(View(), o)) ==> ListedAfter(old(View()), View(), o)
      ensures View() == SaveObligation(old(View()), o)
    {
      if Savable(View(), o) { SavedObligationListed(View(), o); }
      obligations := obligations.Put(o.obligationId, o);
      var existing := if o.commandId in commandObligations then commandObligations[o.commandId] else [];
      if o.obligationId !in existing {
        commandObligations := commandObligations[o.commandId := existing + [o.obligationId]];
      }
    }

    method LoadApprovalChainForCommand(command: string) returns (c: Option<Chain>)
      ensures c == ChainFor(View(), command)
    {
      if command !in commandChain { return None; }
      var id := commandChain[command];
      c := if id in chains.at then Some(chains.at[id]) else None;
    }

    method ListTheObligations(command: string) returns (r: seq<Obligation>)
      requires IndexStored(View())
      ensures IndexMatches(View()) && command != "" ==> r == Filter(obligations.Values(), OfCommand(command))
      ensures r == ListObligations(View(), command)
    {
      if IndexMatches(View()) && command != "" { ListedIsFilter(View(), command); }
      if command == "" { return obligations.Values(); }
      var ids := if command in commandObligations then commandObligations[command] else [];
      var at := obligations.at;
      assert forall id | id in ids :: id in at by { assert IndexStored(View()); }
      r := seq(|ids|, i requires 0 <= i < |ids| => assert ids[i] in ids; at[ids[i]]);
    }

    method AppendEscalationEvent(e: Event)
      modifies this`events
      ensures View() == old(View()).(events := old(events) + [e])
    {
      events := events + [e];
    }
  }

  class AuthorityObligationMesh {
    const world: World
    const store: InMemoryStore
    ghost var calls: seq<Op>

    /** The store holds what the calls made so far leave behind, so whatever is proved of every run holds of it. */
    ghost predicate Valid()
      reads this, store
    {
      store.View() == Run(world, calls)
    }

    constructor (world: World, store: InMemoryStore)
      ensures this.world == world && this.store == store && calls == []
      ensures store.View() == EMPTY ==> Valid()
    {
      this.world, this.store, calls := world, store, [];
    }

    /** A binding without a team or a primary owner is refused. */
    method RegisterOwnership(o: Ownership) returns (ok: bool)
      modifies this`calls, store
      ensures calls == old(calls) + [Op.RegisterOwnership(o)] && (old(Valid()) ==> Valid())
      ensures ok == AcceptsOwnership(o)
      ensures store.View() == Step(world, old(store.View()), Op.RegisterOwnership(o))
    {
      Log(Op.RegisterOwnership(o));
      ok := o.ownerTeam != "" && o.primaryOwnerId != "";
      if ok { store.ownership := store.ownership[(o.tenantId, o.resourceRef) := o]; }
    }

    /** Negative timings, or a missing fallback owner or team, are refused. */
    method RegisterEscalationPolicy(e: EscalationPolicy) returns (ok: bool)
      modifies this`calls, store
      ensures calls == old(calls) + [RegisterEscalation(e)] && (old(Valid()) ==> Valid())
      ensures ok == AcceptsEscalation(e)
      ensures store.View() == Step(world, old(store.View()), RegisterEscalation(e))
    {
      Log(RegisterEscalation(e));
      ok := e.notifyAfter >= 0 && e.escalateAfter >= 0 && e.incidentAfter >= 0 && e.fallbackOwnerId != ""
            && e.escalationTeam != "";
      if ok { store.escalations := store.escalations.Put((e.tenantId, e.policyId), e); }
    }

    ghost method Log(op: Op)
      modifies this`calls
      ensures calls == old(calls) + [op] && Run(world, calls) == Step(world, Run(world, old(calls)), op)
    {
      RunMore(world, calls, op);
      calls := calls + [op];
    }

    /** A chain in order; where chain ids have not collided, one of this very command. */
    method ApprovalChainFor(command: string) returns (c: Option<Chain>)
      ensures c == ChainFor(store.View(), command)
      ensures Valid() && c.Some? ==> ChainOk(world, c.value)
      ensures Valid() && c.Some? && CollisionFree(world.chainId, ChainKeys(world, calls))
              ==> c.value.commandId == command
    {
      if Valid() {
        RunKeepsInv(world, calls);
        if CollisionFree(world.chainId, ChainKeys(world, calls)) { RunTold(world, calls, ChainKeys(world, calls)); }
      }
      c := store.LoadApprovalChainForCommand(command);
    }

    /** Where obligation ids have not collided, exactly the stored obligations of the command, in storing order. */
    method ObligationsFor(command: string) returns (r: seq<Obligation>)
      requires Valid()
      ensures command == "" ==> r == store.obligations.Values()
      ensures command != "" && CollisionFree(world.obligationId, ObligationKeys(world, calls)) ==>
                r == Filter(store.obligations.Values(), OfCommand(command))
    {
      RunKeepsInv(world, calls);
      if CollisionFree(world.obligationId, ObligationKeys(world, calls)) {
        RunKeepsIndex(world, calls, ObligationKeys(world, calls));
      }
      r := store.ListTheObligations(command);
    }

    /** A negative approver count or a non-positive timeout is refused. */
    method RegisterApprovalPolicy(p: Policy) returns (ok: bool)
      modifies this`calls, store
      ensures calls == old(calls) + [RegisterPolicy(p)] && (old(Valid()) ==> Valid())
      ensures ok == AcceptsPolicy(p)
      ensures store.View() == Step(world, old(store.View()), RegisterPolicy(p))
    {
      Log(RegisterPolicy(p));
      ok := p.requiredCount >= 0 && p.timeout > 0;
      if ok { store.policies := store.policies.Put((p.tenantId, p.capability, p.riskTier), p); }
    }

    method ResolveTheOwnership(tenant: string, resource: string, requester: string, tier: string)
      returns (r: Result<Ownership, Refusal>)
      modifies store
      ensures (store.View(), r) == ResolveOwnership(world, old(store.View()), tenant, resource, requester, tier)
    {
      if (tenant, resource) in store.ownership { return Ok(store.ownership[(tenant, resource)]); }
      if tier == "high" {
        store.unowned := store.unowned + {resource};
        if world.strictOwnership { return Err(OwnershipRequired); }
      }
      r := Ok(Ownership(tenant, resource, "tenant_operations", requester, requester, "tenant_operations"));
    }

    method PrepareTheAuthority(command: string, now: int) returns (r: Result<Chain, Refusal>)
      modifies this`calls, store
      ensures calls == old(calls) + [PrepareAuthority(command, now)] && (old(Valid()) ==> Valid())
      ensures (store.View(), r) == Prepare(world, old(store.View()), command, now)
    {
      Log(PrepareAuthority(command, now));
      if command !in world.commands { return Err(UnknownCommand); }
      if command !in world.actions { return Err(MissingAction); }
      var c, a := world.commands[command], world.actions[command];
      var owner := ResolveTheOwnership(c.tenantId, a.capability, c.actorId, a.riskTier);
      if owner.Err? { return Err(owner.error); }
      var policy := ResolveThePolicy(c.tenantId, a);
      var chain := CreateChain(command, policy, now);
      r := Ok(chain);
    }

    /** The registered policy, or one that is made up here and never stored. */
    method ResolveThePolicy(tenant: string, a: Action) returns (p: Policy)
      ensures p == ResolvePolicy(world, store.View(), tenant, a)
    {
      var key := (tenant, a.capability, a.riskTier);
      if key in store.policies.at { return store.policies.at[key]; }
      p := Policy(world.defaultPolicyId(PolicyKey(tenant, a.capability, a.riskTier, a.authorityRequired)), tenant,
                  a.capability, a.riskTier, a.authorityRequired, if a.riskTier == "low" then 0 else 1,
                  a.riskTier == "high", 300, "default");
    }

    method CreateChain(command: string, p: Policy, now: int) returns (chain: Chain)
      modifies store
      ensures chain == NewChain(world, command, p, now) && store.View() == SaveChain(old(store.View()), chain)
    {
      var due := now + p.timeout;
      chain := Chain(world.chainId(ChainKey(command, p.policyId, due)), command, p.tenantId, p.policyId,
                     p.requiredRoles,
                     p.requiredCount, [], if p.requiredCount == 0 then NotRequired else Pending, due);
      store.SaveApprovalChain(chain);
    }

    /** Does the chain's policy, or the strict fallback, forbid approving one's own command? */
    method SeparationDemanded(policyId: string) returns (r: bool)
      ensures r == SeparationFor(store.View(), policyId)
    {
      var policies := store.policies.Values();
      var i := 0;
      while i < |policies|
        invariant 0 <= i <= |policies|
        invariant FirstWithId(policies, policyId) == FirstWithId(policies[i..], policyId)
      {
        if policies[i].policyId == policyId { return policies[i].separationOfDuty; }
        i := i + 1;
      }
      r := true;
    }

    method DecideChain(chain: Chain, command: string, approver: string, roles: seq<string>, approved: bool)
      returns (updated: Chain)
      requires approved ==> command in world.commands
      ensures updated == Decide(world, store.View(), chain, command, approver, roles, approved)
    {
      if !approved { return chain.(status := Denied); }
      var separated := SeparationDemanded(chain.policyId);
      if (separated && approver == world.commands[command].actorId) || !HasRoles(chain.requiredRoles, roles) {
        return chain.(status := Pending);
      }
      var approvals := Unique(chain.approvals + [approver]);
      updated := chain.(approvals := approvals,
                        status := if |approvals| >= chain.requiredCount then Satisfied else Pending);
    }

    method RecordTheApproval(command: string, approver: string, roles: seq<string>, approved: bool)
      returns (r: Result<Option<Chain>, Refusal>)
      modifies this`calls, store
      ensures calls == old(calls) + [Approve(command, approver, roles, approved)] && (old(Valid()) ==> Valid())
      ensures (store.View(), r) == RecordApproval(world, old(store.View()), command, approver, roles, approved)
    {
      Log(Approve(command, approver, roles, approved));
      var current := store.LoadApprovalChainForCommand(command);
      if current.None? { return Ok(None); }
      var chain := current.value;
      if chain.status != Pending && chain.status != Satisfied { return Ok(Some(chain)); }
      if approved && command !in world.commands { return Err(UnknownCommand); }
      var updated := DecideChain(chain, command, approver, roles, approved);
      store.SaveApprovalChain(updated);
      r := Ok(Some(updated));
    }

    method OpenPostClosureObligations(command: string, cert: Certificate, now: int)
      returns (r: Result<seq<Obligation>, Refusal>)
      modifies this`calls, store
      ensures calls == old(calls) + [OpenPostClosure(command, cert, now)] && (old(Valid()) ==> Valid())
      ensures (store.View(), r) == OpenObligations(world, old(store.View()), command, cert, now)
    {
      Log(OpenPostClosure(command, cert, now));
      var owed := WhatIsOwed(command, cert, now);
      match owed {
        case Err(e) => return Err(e);
        case Ok(None) => return Ok([]);
        case Ok(Some(terms)) =>
          var o := OpenTheObligation(command, terms.0, terms.1, terms.2, cert.certificateId);
          r := Ok([o]);
      }
    }

    /** The owner, kind and due time of the obligation a disposition leaves, or why the closure is refused. */
    method WhatIsOwed(command: string, cert: Certificate, now: int)
      returns (r: Result<Option<(Ownership, Kind, int)>, Refusal>)
      modifies store
      ensures var (noted, owed) := Owed(world, old(store.View()), command, cert, now);
              && store.View() == noted
              && (match r
                  case Err(e) => owed == Err(e)
                  case Ok(None) => owed == Ok(None)
                  case Ok(Some((owner, kind, due))) =>
                    command in world.commands
                    && owed == Ok(Some(NewObligation(world, noted, command, owner, kind, due, cert.certificateId))))
    {
      if command !in world.commands { return Err(UnknownCommand); }
      var c := world.commands[command];
      var resource := if command in world.actions then world.actions[command].capability else c.intent;
      var key := (c.tenantId, resource);
      match cert.disposition {
        case AcceptedRisk =>
          if key !in store.ownership { return Err(RiskOwnerRequired); }
          if cert.acceptedRiskId == "" || cert.caseId == "" { return Err(RiskIdsRequired); }
          if cert.riskExpiresAt.None? { return Err(RiskExpiryRequired); }
          if cert.riskExpiresAt.value <= now { return Err(RiskExpiryPast); }
          r := Ok(Some((store.ownership[key], RiskReview, cert.riskExpiresAt.value)));
        case RequiresReview =>
          var tier := if command in world.actions then world.actions[command].riskTier else "medium";
          var resolved := ResolveTheOwnership(c.tenantId, resource, c.actorId, tier);
          if resolved.Err? { return Err(resolved.error); }
          r := Ok(Some((resolved.value, CaseReview, now + DAY)));
        case Compensated =>
          if key !in store.ownership { return Err(CompensationOwnerRequired); }
          if cert.compensationOutcomeId == "" { return Err(CompensationOutcomeRequired); }
          if cert.compensationReviewerId == "" { return Err(CompensationReviewerRequired); }
          r := Ok(Some((store.ownership[key], CompensationReview, now + DAY)));
        case Committed => r := Ok(None);
      }
    }

    method OpenTheObligation(command: string, owner: Ownership, kind: Kind, due: int, certificateId: string)
      returns (o: Obligation)
      requires command in world.commands
      modifies store
      ensures o == NewObligation(world, old(store.View()), command, owner, kind, due, certificateId)
      ensures store.View() == SaveObligation(old(store.View()), o)
    {
      var tenant := world.commands[command].tenantId;
      var policyId := EscalationPolicyFor(tenant, command);
      o := Obligation(world.obligationId(ObligationKey(command, kind, due, certificateId)), command, tenant,
                      owner.primaryOwnerId,
                      owner.ownerTeam, kind, due, Open, EvidenceFor(kind), policyId, certificateId);
      store.SaveTheObligation(o);
    }

    method EscalationPolicyFor(tenant: string, command: string) returns (id: string)
      ensures id == EscalationPolicyIdFor(store.View(), tenant, command)
    {
      var current := store.LoadApprovalChainForCommand(command);
      if current.Some? {
        var policy := FirstWithId(store.policies.Values(), current.value.policyId);
        return if policy.Some? then policy.value.escalationPolicyId else "default";
      }
      var mine := Filter(store.escalations.Values(), OfTenant(tenant));
      id := if |mine| == 1 then mine[0].policyId else "default";
    }

    method SatisfyTheObligation(id: string, refs: seq<string>) returns (r: Result<Obligation, Refusal>)
      modifies this`calls, store
      ensures calls == old(calls) + [SatisfyObligation(id, refs)] && (old(Valid()) ==> Valid())
      ensures (store.View(), r) == Satisfy(old(store.View()), id, refs)
    {
      Log(SatisfyObligation(id, refs));
      if id !in store.obligations.at { return Err(UnknownObligation); }
      var o := store.obligations.at[id];
      if o.status != Open && o.status != Escalated { return Err(NotSatisfiable); }
      if o.evidenceRequired != [] && refs == [] { return Err(EvidenceRequired); }
      var missing := Filter(o.evidenceRequired, Unmet(refs));
      if missing != [] { return Err(EvidenceMissing); }
      var updated := o.(status := Fulfilled);
      store.SaveTheObligation(updated);
      r := Ok(updated);
    }

    method EscalateOverdue(now: int) returns (escalated: seq<Obligation>)
      modifies this`calls, store
      ensures calls == old(calls) + [Op.EscalateOverdue(now)] && (old(Valid()) ==> Valid())
      ensures (store.View(), escalated) == Escalate(world, old(store.View()), now)
    {
      Log(Op.EscalateOverdue(now));
      escalated := EscalateEach(now);
    }

    method EscalateEach(now: int) returns (escalated: seq<Obligation>)
      modifies store
      ensures (store.View(), escalated) == Escalate(world, old(store.View()), now)
    {
      ghost var before := store.View();
      var list := store.obligations.Values();
      escalated := [];
      var i := 0;
      while i < |list|
        invariant 0 <= i <= |list|
        invariant (store.View(), escalated) == SweepObligations(world, before, list[..i], now)
      {
        var o := list[i];
        SweepObligationsNext(world, before, list, i, now);
        if o.status == Open && o.dueAt <= now {
          var updated := o.(status := Escalated);
          var route := Route(world, store.escalations, store.ownership, updated);
          SaveEscalated(updated, ObligationEscalated(updated.obligationId, updated.commandId, updated.tenantId,
                                                     updated.ownerId,
                                                     updated.ownerTeam, updated.escalationPolicyId, route.0, route.1,
                                                     now));
          escalated := escalated + [updated];
        }
        i := i + 1;
      }
      assert list[..i] == list;
    }

    method SaveSwept(c: Chain, e: Event)
      modifies store
      ensures store.View() == SaveChain(old(store.View()), c).(events := old(store.events) + [e])
    {
      store.SaveApprovalChain(c);
      store.AppendEscalationEvent(e);
    }

    method SaveEscalated(o: Obligation, e: Event)
      modifies store
      ensures store.View() == SaveObligation(old(store.View()), o).(events := old(store.events) + [e])
    {
      store.SaveTheObligation(o);
      store.AppendEscalationEvent(e);
    }

    method ExpireOverdueApprovalChains(now: int) returns (expired: seq<Chain>)
      modifies this`calls, store
      ensures calls == old(calls) + [ExpireOverdue(now)] && (old(Valid()) ==> Valid())
      ensures (store.View(), expired) == Expire(old(store.View()), now)
    {
      Log(ExpireOverdue(now));
      expired := ExpireEach(now);
    }

    method ExpireEach(now: int) returns (expired: seq<Chain>)
      modifies store
      ensures (store.View(), expired) == Expire(old(store.View()), now)
    {
      ghost var before := store.View();
      var list := store.chains.Values();
      expired := [];
      var i := 0;
      while i < |list|
        invariant 0 <= i <= |list|
        invariant (store.View(), expired) == SweepChains(before, list[..i], Overdue(now), Expired, ExpiredEvent(now))
      {
        var chain := list[i];
        SweepChainsNext(before, list, i, Overdue(now), Expired, ExpiredEvent(now));
        if chain.status == Pending && chain.dueAt <= now {
          var updated := chain.(status := Expired);
          SaveSwept(updated, ChainExpired(updated.chainId, updated.commandId, updated.tenantId, now));
          expired := expired + [updated];
        }
        i := i + 1;
      }
      assert list[..i] == list;
    }

    method CloseExpiredApprovalChains(refs: seq<string>, tenant: string, command: string, now: int)
      returns (r: Result<seq<Chain>, Refusal>)
      modifies this`calls, store
      ensures calls == old(calls) + [CloseChains(refs, tenant, command, now)] && (old(Valid()) ==> Valid())
      ensures (store.View(), r) == CloseExpired(old(store.View()), refs, tenant, command, now)
    {
      Log(CloseChains(refs, tenant, command, now));
      if refs == [] { return Err(EvidenceRequired); }
      var closed := CloseMatching(refs, tenant, command, now);
      r := Ok(closed);
    }

    method CloseMatching(refs: seq<string>, tenant: string, command: string, now: int) returns (closed: seq<Chain>)
      modifies store
      ensures (store.View(), closed)
              == SweepChains(old(store.View()), old(store.chains).Values(), Closable(tenant, command), Denied,
                             ClosedEvent(now, refs))
    {
      ghost var before := store.View();
      var list := store.chains.Values();
      closed := [];
      var i := 0;
      while i < |list|
        invariant 0 <= i <= |list|
        invariant (store.View(), closed)
                  == SweepChains(before, list[..i], Closable(tenant, command), Denied, ClosedEvent(now, refs))
      {
        var chain := list[i];
        SweepChainsNext(before, list, i, Closable(tenant, command), Denied, ClosedEvent(now, refs));
        if chain.status == Expired && (tenant == "" || chain.tenantId == tenant)
           && (command == "" || chain.commandId == command) {
          var updated := chain.(status := Denied);
          SaveSwept(updated, ChainClosed(updated.chainId, updated.commandId, updated.tenantId, now, refs));
          closed := closed + [updated];
        }
        i := i + 1;
      }
      assert list[..i] == list;
    }
  }
}
