/** Who may approve, told in the roles of the call, the chain and the registered policies: in one decision and over
    whole runs; and what a chain asks for, told in the policy it was made under. */
module AuthorityApproving {
  import opened Collections
  import opened AuthorityMesh
  import opened AuthorityRuns
  import opened AuthorityStanding

  // ----- One decision ---------------------------------------------------------------------

  /** The first policy registered under the id demands that nobody approves his own command; so does having none. */
  ghost predicate DemandsSeparation(m: Mesh, policyId: string) {
    forall i | 0 <= i < |m.policies.keys| && m.policies.keys[i] in m.policies.at && FirstUnder(m, i, policyId) ::
      m.policies.at[m.policies.keys[i]].separationOfDuty
  }

  ghost predicate FirstUnder(m: Mesh, i: nat, policyId: string)
    requires i < |m.policies.keys| && m.policies.keys[i] in m.policies.at
  {
    && m.policies.at[m.policies.keys[i]].policyId == policyId
    && forall j | 0 <= j < i && m.policies.keys[j] in m.policies.at ::
       m.policies.at[m.policies.keys[j]].policyId != policyId
  }

  /** The approval counts: every role the chain requires is among the caller's, and he is not the requester of the
      command where that is forbidden. */
  ghost predicate MayApprove(w: World, m: Mesh, c: Chain, command: string, approver: string, roles: seq<string>)
    requires command in w.commands
  {
    && (forall role | role in c.requiredRoles :: role in roles)
    && (DemandsSeparation(m, c.policyId) ==> approver != w.commands[command].actorId)
  }

  lemma {:induction false} FirstFound(policies: seq<Policy>, policyId: string, i: nat)
    requires i < |policies| && policies[i].policyId == policyId
    requires forall j | 0 <= j < i :: policies[j].policyId != policyId
    ensures FirstWithId(policies, policyId) == Some(policies[i])
  {
    if i > 0 {
      assert policies[0].policyId != policyId && policies[1..][i - 1] == policies[i];
      FirstFound(policies[1..], policyId, i - 1);
    }
  }

  lemma FirstExists(policies: seq<Policy>, policyId: string) returns (i: nat)
    requires exists n :: 0 <= n < |policies| && policies[n].policyId == policyId
    ensures i < |policies| && policies[i].policyId == policyId
            && forall j | 0 <= j < i :: policies[j].policyId != policyId
  {
    i := 0;
    while policies[i].policyId != policyId
      invariant i < |policies| && forall j | 0 <= j < i :: policies[j].policyId != policyId
      decreases |policies| - i
    {
      i := i + 1;
    }
  }

  lemma SeparationMeans(m: Mesh, policyId: string)
    ensures SeparationFor(m, policyId) <==> DemandsSeparation(m, policyId)
  {
    var keys, policies := m.policies.keys, m.policies.Values();
    forall i | 0 <= i < |keys| ensures keys[i] in m.policies.at && policies[i] == m.policies.at[keys[i]] {
      assert keys[i] in keys;
    }
    if exists n :: 0 <= n < |policies| && policies[n].policyId == policyId {
      var i := FirstExists(policies, policyId);
      FirstFound(policies, policyId, i);
      assert FirstUnder(m, i, policyId);
      forall n | 0 <= n < |keys| && FirstUnder(m, n, policyId) ensures n == i {}
    } else {
      assert FirstWithId(policies, policyId).None?;
    }
  }

  lemma MayApproveMeans(w: World, m: Mesh, c: Chain, command: string, approver: string, roles: seq<string>)
    requires command in w.commands
    ensures Qualifies(w, m, c, command, approver, roles) <==> MayApprove(w, m, c, command, approver, roles)
  {
    SeparationMeans(m, c.policyId);
  }

  /** An approval of a pending or satisfied chain records its approver, once, exactly when he may approve, and then
      satisfies the chain exactly when there are enough; otherwise the chain is PENDING with its approvals as they
      were. */
  lemma ApprovalExact(w: World, m: Mesh, command: string, approver: string, roles: seq<string>)
    requires Inv(w, m) && ChainFor(m, command).Some? && command in w.commands
    requires ChainFor(m, command).value.status in {ChainStatus.Pending, ChainStatus.Satisfied}
    ensures var (after, r) := RecordApproval(w, m, command, approver, roles, true);
            var c := ChainFor(m, command).value;
            && c.chainId in after.chains.at && r == Ok(Some(after.chains.at[c.chainId]))
            && var u := after.chains.at[c.chainId];
               if MayApprove(w, m, c, command, approver, roles) then
                 && approver in u.approvals
                 && u.approvals == (if approver in c.approvals then c.approvals else c.approvals + [approver])
                 && u.status == (if |u.approvals| >= c.requiredCount then ChainStatus.Satisfied
                                 else ChainStatus.Pending)
                 && u == c.(approvals := u.approvals, status := u.status)
               else u == c.(status := ChainStatus.Pending)
  {
    var c := ChainFor(m, command).value;
    MayApproveMeans(w, m, c, command, approver, roles);
    DecisionExact(w, m, c, command, approver, roles, true);
    SavedDecision(w, m, command, approver, roles, true);
  }

  /** A refusal denies such a chain, whoever gives it and with whatever roles. */
  lemma RefusalExact(w: World, m: Mesh, command: string, approver: string, roles: seq<string>)
    requires Inv(w, m) && ChainFor(m, command).Some?
    requires ChainFor(m, command).value.status in {ChainStatus.Pending, ChainStatus.Satisfied}
    ensures var (after, r) := RecordApproval(w, m, command, approver, roles, false);
            var c := ChainFor(m, command).value;
            && c.chainId in after.chains.at && after.chains.at[c.chainId] == c.(status := ChainStatus.Denied)
            && r == Ok(Some(c.(status := ChainStatus.Denied)))
  {
  }

  /** Nothing else moves: no other chain, and no chain at all that is past deciding. */
  lemma DecisionTouchesOneChain(w: World, m: Mesh, command: string, approver: string, roles: seq<string>,
                                approved: bool, id: string)
    requires Inv(w, m) && id in m.chains.at
    requires ChainFor(m, command).None? || id != ChainFor(m, command).value.chainId
             || m.chains.at[id].status !in {ChainStatus.Pending, ChainStatus.Satisfied}
    ensures var after := RecordApproval(w, m, command, approver, roles, approved).0;
            id in after.chains.at && after.chains.at[id] == m.chains.at[id]
  {
    if ChainFor(m, command).Some? && Deciding(ChainFor(m, command).value) && (approved ==> command in w.commands) {
      SavedDecision(w, m, command, approver, roles, approved);
    }
  }

  lemma SavedDecision(w: World, m: Mesh, command: string, approver: string, roles: seq<string>, approved: bool)
    requires ChainFor(m, command).Some? && Deciding(ChainFor(m, command).value) && (approved ==> command in w.commands)
    ensures var u := Decide(w, m, ChainFor(m, command).value, command, approver, roles, approved);
            && RecordApproval(w, m, command, approver, roles, approved) == (SaveChain(m, u), Ok(Some(u)))
            && u.chainId == ChainFor(m, command).value.chainId
            && SaveChain(m, u).chains.at == m.chains.at[u.chainId := u]
  {
  }

  // ----- Whole runs -----------------------------------------------------------------------

  /** The `i`-th call approves the chain's command in the name of `a`, with every role the chain requires, and not as
      its requester where the policies then registered forbid that. */
  ghost predicate GaveApproval(w: World, ops: seq<Op>, i: nat, c: Chain, a: string) {
    && i < |ops| && ops[i].Approve? && ops[i].approved && ops[i].approver == a && ops[i].command == c.commandId
    && (forall role | role in c.requiredRoles :: role in ops[i].roles)
    && c.commandId in w.commands
    && (DemandsSeparation(Run(w, ops[..i]), c.policyId) ==> a != w.commands[c.commandId].actorId)
  }

  /** In every run whose chain ids do not collide, each recorded approver once gave such an approval. */
  lemma ApproversHadTheRoles(w: World, ops: seq<Op>, keys: set<ChainKey>, id: string, a: string)
    requires ChainKeys(w, ops) <= keys && CollisionFree(w.chainId, keys)
    requires id in Run(w, ops).chains.at && a in Run(w, ops).chains.at[id].approvals
    ensures exists i: nat :: GaveApproval(w, ops, i, Run(w, ops).chains.at[id], a)
  {
    var c := Run(w, ops).chains.at[id];
    ApproversQualified(w, ops, keys, id, a);
    var i: nat :| ApprovedAt(w, ops, i, c, a);
    MayApproveMeans(w, Run(w, ops[..i]), c, c.commandId, a, ops[i].roles);
    assert GaveApproval(w, ops, i, c, a);
  }

  // ----- What a chain asks for --------------------------------------------------------------

  /** A preparation goes through exactly when the command and its action are known and somebody owns what it is about,
      if that is of high risk and owners are insisted on. It then stores its chain; otherwise it says what is missing.
      Either way it notes a high-risk resource that nobody owns, and changes nothing else. */
  lemma PreparedExactly(w: World, m: Mesh, command: string, now: int)
    ensures var (after, r) := Prepare(w, m, command, now);
            var known := command in w.commands && command in w.actions;
            var unowned := known && w.actions[command].riskTier == "high"
                           && (w.commands[command].tenantId, w.actions[command].capability) !in m.ownership;
            && (r.Ok? <==> known && !(unowned && w.strictOwnership))
            && (r.Err? ==> r.error == if command !in w.commands then UnknownCommand
                                      else if command !in w.actions then MissingAction else OwnershipRequired)
            && after.unowned == (if unowned then m.unowned + {w.actions[command].capability} else m.unowned)
            && (r.Ok? ==> after.chains.at == m.chains.at[r.value.chainId := r.value]
                          && after.commandChain == m.commandChain[command := r.value.chainId])
            && (r.Err? ==> after.chains == m.chains && after.commandChain == m.commandChain)
            && after == m.(unowned := after.unowned, chains := after.chains, commandChain := after.commandChain)
  {
  }

  /** A preparation that goes through asks for what the policy registered for the command's tenant, capability and
      risk tier asks for. */
  lemma ChainAsksForItsPolicy(w: World, m: Mesh, command: string, now: int)
    requires CanPrepare(w, m, command)
    requires (w.commands[command].tenantId, w.actions[command].capability, w.actions[command].riskTier) in m.policies.at
    ensures var a := w.actions[command];
            var p := m.policies.at[(w.commands[command].tenantId, a.capability, a.riskTier)];
            var r := Prepare(w, m, command, now).1;
            && r.Ok? && r.value.commandId == command && r.value.tenantId == p.tenantId && r.value.policyId == p.policyId
            && r.value.requiredRoles == p.requiredRoles && r.value.requiredCount == p.requiredCount
            && r.value.dueAt == now + p.timeout && r.value.approvals == []
            && r.value.status == (if p.requiredCount == 0 then NotRequired else ChainStatus.Pending)
  {
  }

  /** With none registered, the action's own roles are asked for within five minutes: of nobody at low risk, of one
      approver above it. */
  lemma ChainAsksByDefault(w: World, m: Mesh, command: string, now: int)
    requires CanPrepare(w, m, command)
    requires (w.commands[command].tenantId, w.actions[command].capability, w.actions[command].riskTier)
             !in m.policies.at
    ensures var a, r := w.actions[command], Prepare(w, m, command, now).1;
            && r.Ok? && r.value.commandId == command && r.value.tenantId == w.commands[command].tenantId
            && r.value.requiredRoles == a.authorityRequired && r.value.dueAt == now + 300 && r.value.approvals == []
            && r.value.requiredCount == (if a.riskTier == "low" then 0 else 1)
            && r.value.status == (if a.riskTier == "low" then NotRequired else ChainStatus.Pending)
  {
  }

  // ----- It happens -------------------------------------------------------------------------

  lemma MissingRoleRefuses(w: World, m: Mesh, c: Chain, approver: string, roles: seq<string>, role: string)
    requires Inv(w, m) && ChainFor(m, c.commandId) == Some(c) && c.commandId in w.commands
             && c.status == ChainStatus.Pending
    requires role in c.requiredRoles && role !in roles
    ensures var after := RecordApproval(w, m, c.commandId, approver, roles, true).0.chains.at;
            c.chainId in after && after[c.chainId] == c
  {
    ApprovalExact(w, m, c.commandId, approver, roles);
  }

  lemma RolesSatisfy(w: World, m: Mesh, c: Chain, approver: string, roles: seq<string>)
    requires Inv(w, m) && ChainFor(m, c.commandId) == Some(c) && c.commandId in w.commands
             && c.status == ChainStatus.Pending
    requires c.approvals == [] && c.requiredCount == 1 && approver != w.commands[c.commandId].actorId
    requires forall r | r in c.requiredRoles :: r in roles
    ensures var after := RecordApproval(w, m, c.commandId, approver, roles, true).0.chains.at;
            c.chainId in after && after[c.chainId] == c.(approvals := [approver], status := ChainStatus.Satisfied)
  {
    ApprovalExact(w, m, c.commandId, approver, roles);
    assert [] + [approver] == [approver];
  }

  /** A medium-risk command with no policy registered, prepared and approved by somebody who lacks one of its roles:
      pending, with nobody recorded. With the roles, by the same person, it is satisfied. */
  lemma OneMissingRoleRefuses(w: World, command: string, approver: string, few: seq<string>, role: string,
                              all: seq<string>)
    requires Medium(w, command) && approver != w.commands[command].actorId
    requires role in w.actions[command].authorityRequired && role !in few
    requires forall r | r in w.actions[command].authorityRequired :: r in all
    ensures var m, c := Step(w, EMPTY, PrepareAuthority(command, 0)), DefaultChain(w, command, 300);
            var refused := RecordApproval(w, m, command, approver, few, true).0.chains.at;
            var given := RecordApproval(w, m, command, approver, all, true).0.chains.at;
            && c.chainId in refused && refused[c.chainId] == c && c.status == ChainStatus.Pending && c.approvals == []
            && c.chainId in given && given[c.chainId] == c.(approvals := [approver], status := ChainStatus.Satisfied)
  {
    EmptyInv(w);
    PreparedNext(w, EMPTY, command, 0);
    var m, c := Step(w, EMPTY, PrepareAuthority(command, 0)), DefaultChain(w, command, 300);
    MissingRoleRefuses(w, m, c, approver, few, role);
    RolesSatisfy(w, m, c, approver, all);
  }
}
