/** What preparing a command does to the chains already stored: exactly when it overwrites one, and what is then
    lost. */
module AuthorityPreparing {
  import opened Collections
  import opened AuthorityMesh
  import opened AuthorityRuns
  import opened AuthorityStanding

  /** Every stored chain is still there, as it was. */
  ghost predicate RecordsKept(m: Mesh, after: Mesh) {
    forall id | id in m.chains.at :: id in after.chains.at && after.chains.at[id] == m.chains.at[id]
  }

  /** The policy a preparation would apply now: the registered one, or the default. */
  function PolicyNow(w: World, m: Mesh, command: string): Policy
    requires command in w.commands && command in w.actions
  {
    ResolvePolicy(w, m, w.commands[command].tenantId, w.actions[command])
  }

  /** What the id of the chain it would save is taken over. */
  function KeyNow(w: World, m: Mesh, command: string, now: int): ChainKey
    requires command in w.commands && command in w.actions
  {
    var p := PolicyNow(w, m, command);
    ChainKey(command, p.policyId, now + p.timeout)
  }

  lemma PreparesNow(w: World, m: Mesh, command: string, now: int)
    requires CanPrepare(w, m, command)
    ensures var c, after := NewChain(w, command, PolicyNow(w, m, command), now), Prepare(w, m, command, now).0;
            && c.chainId == w.chainId(KeyNow(w, m, command, now)) && Key(c) == KeyNow(w, m, command, now)
            && c.approvals == [] && Prepare(w, m, command, now).1 == Ok(c)
            && after.chains.at == m.chains.at[c.chainId := c] && ChainFor(after, command) == Some(c)
  {
    PreparingSaves(w, m, command, now);
    var c, after := NewChain(w, command, PolicyNow(w, m, command), now), Prepare(w, m, command, now).0;
    SavedIsCurrent(m.(unowned := after.unowned), c);
  }

  lemma PreparingSaves(w: World, m: Mesh, command: string, now: int)
    requires CanPrepare(w, m, command)
    ensures var c, after := NewChain(w, command, PolicyNow(w, m, command), now), Prepare(w, m, command, now).0;
            Prepare(w, m, command, now).1 == Ok(c) && after == SaveChain(m.(unowned := after.unowned), c)
  {
  }

  /** A preparation that goes through keeps every stored chain exactly when the id it is about to use is not stored, or
      stored with just what it is about to save: no approvals, no decision and the same terms. */
  lemma PreparingKeepsRecordsIff(w: World, m: Mesh, command: string, now: int)
    requires CanPrepare(w, m, command)
    ensures var id := w.chainId(KeyNow(w, m, command, now));
            RecordsKept(m, Prepare(w, m, command, now).0)
            <==> (id in m.chains.at ==> m.chains.at[id] == NewChain(w, command, PolicyNow(w, m, command), now))
  {
    PreparesNow(w, m, command, now);
  }

  /** A chain of this command, policy id and due time is stored with approvals. */
  ghost predicate ApprovedUnder(m: Mesh, key: ChainKey) {
    exists id | id in m.chains.at :: Key(m.chains.at[id]) == key && m.chains.at[id].approvals != []
  }

  ghost predicate LosesApprovals(m: Mesh, after: Mesh) {
    exists id | id in m.chains.at ::
    m.chains.at[id].approvals != [] && (id in after.chains.at ==> after.chains.at[id].approvals == [])
  }

  /** Where chain ids do not collide, a preparation throws approvals away exactly when a chain of the same command,
      policy id and due time already holds some: the clock reading need not be the same. */
  lemma PreparingLosesApprovalsIff(w: World, m: Mesh, command: string, now: int, keys: set<ChainKey>)
    requires Inv(w, m) && Told(m, keys) && CollisionFree(w.chainId, keys)
    requires CanPrepare(w, m, command) && KeyNow(w, m, command, now) in keys
    ensures LosesApprovals(m, Prepare(w, m, command, now).0) <==> ApprovedUnder(m, KeyNow(w, m, command, now))
  {
    PreparesNow(w, m, command, now);
    PlannedOk(w, m, command, now);
    OverwriteLosesIff(w, m, Prepare(w, m, command, now).0, NewChain(w, command, PolicyNow(w, m, command), now), keys);
  }

  lemma PlannedOk(w: World, m: Mesh, command: string, now: int)
    requires Inv(w, m) && command in w.commands && command in w.actions
    ensures ChainOk(w, NewChain(w, command, PolicyNow(w, m, command), now))
  {
    ResolvedCount(w, m, w.commands[command].tenantId, w.actions[command]);
    NewChainOk(w, command, PolicyNow(w, m, command), now);
  }

  lemma OverwriteLosesIff(w: World, m: Mesh, after: Mesh, c: Chain, keys: set<ChainKey>)
    requires Inv(w, m) && Told(m, keys) && CollisionFree(w.chainId, keys) && Key(c) in keys && ChainOk(w, c)
    requires c.approvals == [] && after.chains.at == m.chains.at[c.chainId := c]
    ensures LosesApprovals(m, after) <==> ApprovedUnder(m, Key(c))
  {
    forall id | id in m.chains.at ensures id == c.chainId <==> Key(m.chains.at[id]) == Key(c) {
      assert w.chainId(Key(m.chains.at[id])) == id && w.chainId(Key(c)) == c.chainId;
    }
  }

  /** Two preparations agreeing on command, policy id and due time make one chain: the second wipes what the first
      collected, and touches no other. */
  lemma PreparingAgainResets(w: World, m: Mesh, command: string, now: int, later: Mesh, again: int)
    requires CanPrepare(w, m, command) && CanPrepare(w, later, command)
    requires KeyNow(w, m, command, now) == KeyNow(w, later, command, again)
    ensures var id, after := w.chainId(KeyNow(w, m, command, now)), Prepare(w, later, command, again).0;
            && ChainFor(Prepare(w, m, command, now).0, command).Some?
            && ChainFor(Prepare(w, m, command, now).0, command).value.chainId == id
            && ChainFor(after, command).Some? && ChainFor(after, command).value.chainId == id
            && ChainFor(after, command).value.approvals == []
            && forall other | other in later.chains.at && other != id ::
               after.chains.at[other] == later.chains.at[other]
  {
    PreparesNow(w, m, command, now);
    PreparesNow(w, later, command, again);
  }

  // ----- It happens -----------------------------------------------------------------------

  /** Prepare, get approved, and prepare again at the same instant: the approval is gone. */
  lemma SecondPreparationWipesApproval(w: World, command: string, approver: string, roles: seq<string>)
    requires Approvable(w, command, approver, roles)
    ensures var m := RecordApproval(w, Step(w, EMPTY, PrepareAuthority(command, 0)), command, approver, roles, true).0;
            var after := Prepare(w, m, command, 0).0;
            && ChainFor(m, command).Some? && ChainFor(m, command).value.approvals == [approver]
            && ChainFor(after, command) == Some(ChainFor(m, command).value.(approvals := [], status := Pending))
  {
    EmptyInv(w);
    PreparedNext(w, EMPTY, command, 0);
    WipedAgain(w, Step(w, EMPTY, PrepareAuthority(command, 0)), command, approver, roles);
  }

  lemma WipedAgain(w: World, m: Mesh, command: string, approver: string, roles: seq<string>)
    requires Inv(w, m) && Approvable(w, command, approver, roles) && m.policies == EMPTY.policies
    requires ChainFor(m, command) == Some(DefaultChain(w, command, 300))
    ensures var approved := RecordApproval(w, m, command, approver, roles, true).0;
            && ChainFor(approved, command).Some? && ChainFor(approved, command).value.approvals == [approver]
            && ChainFor(Prepare(w, approved, command, 0).0, command)
               == Some(ChainFor(approved, command).value.(approvals := [], status := Pending))
  {
    ApprovedChainStands(w, m, DefaultChain(w, command, 300), approver, roles);
    PrepareByDefault(w, RecordApproval(w, m, command, approver, roles, true).0, command, 0);
  }

  /** The instants need not agree: re-registering a policy under its id with a shorter timeout gives a later
      preparation the same due time, and wipes the approval all the same. */
  lemma ShorterTimeoutWipesApproval(w: World, command: string, p: Policy, approver: string, roles: seq<string>)
    requires Medium(w, command) && p.requiredCount == 1 && p.timeout == 300
    requires (p.tenantId, p.capability, p.riskTier)
             == (w.commands[command].tenantId, w.actions[command].capability, w.actions[command].riskTier)
    requires approver != w.commands[command].actorId && HasRoles(p.requiredRoles, roles)
    ensures var m1 := Step(w, Step(w, EMPTY, RegisterPolicy(p)), PrepareAuthority(command, 0));
            var m2 := RecordApproval(w, m1, command, approver, roles, true).0;
            var after := Step(w, Step(w, m2, RegisterPolicy(p.(timeout := 200))), PrepareAuthority(command, 100));
            && ChainFor(m2, command).Some? && ChainFor(m2, command).value.approvals == [approver]
            && ChainFor(after, command) == Some(ChainFor(m2, command).value.(approvals := [], status := Pending))
  {
    EmptyInv(w);
    RegisteredPolicy(w, EMPTY, p);
    var m0 := Step(w, EMPTY, RegisterPolicy(p));
    ApprovedUnderPolicy(w, m0, command, p, approver, roles);
    var m2 := RecordApproval(w, Step(w, m0, PrepareAuthority(command, 0)), command, approver, roles, true).0;
    WipedUnderShorter(w, m2, command, p);
  }

  lemma WipedUnderShorter(w: World, m: Mesh, command: string, p: Policy)
    requires Inv(w, m) && Medium(w, command) && p.requiredCount == 1 && p.timeout == 300
    requires (p.tenantId, p.capability, p.riskTier)
             == (w.commands[command].tenantId, w.actions[command].capability, w.actions[command].riskTier)
    ensures ChainFor(Step(w, Step(w, m, RegisterPolicy(p.(timeout := 200))), PrepareAuthority(command, 100)), command)
            == Some(NewChain(w, command, p, 0))
  {
    RegisteredPolicy(w, m, p.(timeout := 200));
    PrepareUnder(w, Step(w, m, RegisterPolicy(p.(timeout := 200))), command, p.(timeout := 200), 100);
  }

  ghost predicate Holds(m: Mesh, p: Policy) {
    var key := (p.tenantId, p.capability, p.riskTier);
    key in m.policies.at && m.policies.at[key] == p
  }

  lemma RegisteredPolicy(w: World, m: Mesh, p: Policy)
    requires Inv(w, m) && AcceptsPolicy(p)
    ensures var after := Step(w, m, RegisterPolicy(p));
            Inv(w, after) && Holds(after, p) && after.chains == m.chains && after.commandChain == m.commandChain
  {
    StepKeepsInv(w, m, RegisterPolicy(p));
  }

  lemma ApprovedUnderPolicy(w: World, m: Mesh, command: string, p: Policy, approver: string, roles: seq<string>)
    requires Inv(w, m) && Medium(w, command) && Holds(m, p) && p.requiredCount == 1
    requires (p.tenantId, p.capability, p.riskTier)
             == (w.commands[command].tenantId, w.actions[command].capability, w.actions[command].riskTier)
    requires approver != w.commands[command].actorId && HasRoles(p.requiredRoles, roles)
    ensures var after := RecordApproval(w, Step(w, m, PrepareAuthority(command, 0)), command, approver, roles, true).0;
            Inv(w, after)
            && ChainFor(after, command) == Some(NewChain(w, command, p, 0).(approvals := [approver],
                                                                            status := Satisfied))
  {
    PrepareUnder(w, m, command, p, 0);
    StepKeepsInv(w, m, PrepareAuthority(command, 0));
    ApprovedChainStands(w, Step(w, m, PrepareAuthority(command, 0)), NewChain(w, command, p, 0), approver, roles);
  }

  lemma PrepareUnder(w: World, m: Mesh, command: string, p: Policy, now: int)
    requires Medium(w, command)
    requires var key := (w.commands[command].tenantId, w.actions[command].capability, w.actions[command].riskTier);
             key in m.policies.at && m.policies.at[key] == p
    ensures Prepare(w, m, command, now).0 == SaveChain(m, NewChain(w, command, p, now))
  {
  }
}
