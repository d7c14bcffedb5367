/** What every run of the mesh keeps: approval chains and obligations, and the auditor's view of them. */
module AuthorityRuns {
  import opened Collections
  import opened AuthorityMesh

  function Key(c: Chain): ChainKey { ChainKey(c.commandId, c.policyId, c.dueAt) }
  function ObligationKeyOf(o: Obligation): ObligationKey {
    ObligationKey(o.commandId, o.kind, o.dueAt, o.certificateId)
  }

  /** Approvals never repeat, a chain that needs nobody is never pending, and SATISFIED means enough approvers. */
  ghost predicate ChainOk(w: World, c: Chain) {
    && c.chainId == w.chainId(Key(c)) && c.commandId in w.commands
    && Distinct(c.approvals)
    && c.requiredCount >= 0 && (c.status == NotRequired <==> c.requiredCount == 0)
    && (c.status == Satisfied ==> |c.approvals| >= c.requiredCount >= 1)
  }

  ghost predicate ObligationOk(w: World, o: Obligation) {
    && o.obligationId == w.obligationId(ObligationKeyOf(o)) && o.commandId in w.commands
    && (o.status == Open || o.status == Fulfilled || o.status == Escalated)
  }

  ghost predicate Inv(w: World, m: Mesh) {
    && IndexStored(m)
    && (forall k | k in m.policies.at :: AcceptsPolicy(m.policies.at[k]))
    && (forall id | id in m.chains.at :: m.chains.at[id].chainId == id && ChainOk(w, m.chains.at[id]))
    && (forall c | c in m.commandChain :: m.commandChain[c] in m.chains.at)
    && (forall id | id in m.obligations.at ::
        m.obligations.at[id].obligationId == id && ObligationOk(w, m.obligations.at[id]))
  }

  lemma SaveChainKeepsInv(w: World, m: Mesh, c: Chain)
    requires Inv(w, m) && ChainOk(w, c)
    ensures Inv(w, SaveChain(m, c))
  {
  }

  lemma SaveObligationKeepsInv(w: World, m: Mesh, o: Obligation)
    requires Inv(w, m) && ObligationOk(w, o)
    ensures Inv(w, SaveObligation(m, o))
  {
    var after := SaveObligation(m, o);
    forall c | c in after.commandObligations
      ensures forall id | id in after.commandObligations[c] :: id in after.obligations.at {
      if c in m.commandObligations { assert forall id | id in m.commandObligations[c] :: id in m.obligations.at; }
    }
  }

  lemma {:induction false} SweepChainsKeepsInv(w: World, m: Mesh, list: seq<Chain>, pick: Chain -> bool,
                                               to: ChainStatus, event: Chain -> Event)
    requires Inv(w, m) && forall c | c in list :: ChainOk(w, c)
    requires forall c: Chain | pick(c) && ChainOk(w, c) :: ChainOk(w, WithStatus(to)(c))
    ensures Inv(w, SweepChains(m, list, pick, to, event).0)
  {
    if list != [] {
      var front, c := list[..|list| - 1], list[|list| - 1];
      assert c in list && forall x | x in front :: x in list;
      SweepChainsKeepsInv(w, m, front, pick, to, event);
      SaveChainIfPicked(w, SweepChains(m, front, pick, to, event).0, c, pick, to);
    }
  }

  lemma SaveChainIfPicked(w: World, m: Mesh, c: Chain, pick: Chain -> bool, to: ChainStatus)
    requires Inv(w, m) && ChainOk(w, c)
    requires forall c: Chain | pick(c) && ChainOk(w, c) :: ChainOk(w, WithStatus(to)(c))
    ensures pick(c) ==> Inv(w, SaveChain(m, WithStatus(to)(c)))
  {
    if pick(c) { SaveChainKeepsInv(w, m, WithStatus(to)(c)); }
  }

  lemma {:induction false} SweepObligationsKeepsInv(w: World, m: Mesh, list: seq<Obligation>, now: int)
    requires Inv(w, m) && forall o | o in list :: ObligationOk(w, o)
    ensures Inv(w, SweepObligations(w, m, list, now).0)
  {
    if list != [] {
      var front, o := list[..|list| - 1], list[|list| - 1];
      assert o in list && forall x | x in front :: x in list;
      SweepObligationsKeepsInv(w, m, front, now);
      SaveObligationKeepsInv(w, SweepObligations(w, m, front, now).0, AsEscalated()(o));
    }
  }

  lemma DecideKeepsChainOk(w: World, m: Mesh, c: Chain, command: string, approver: string, roles: seq<string>,
                           approved: bool)
    requires ChainOk(w, c) && Deciding(c) && (approved ==> command in w.commands)
    ensures ChainOk(w, Decide(w, m, c, command, approver, roles, approved))
  {
  }

  lemma ApprovalKeepsInv(w: World, m: Mesh, command: string, approver: string, roles: seq<string>, approved: bool)
    requires Inv(w, m)
    ensures Inv(w, RecordApproval(w, m, command, approver, roles, approved).0)
  {
    var current := ChainFor(m, command);
    if current.Some? && Deciding(current.value) && (approved ==> command in w.commands) {
      DecideKeepsChainOk(w, m, current.value, command, approver, roles, approved);
      SaveChainKeepsInv(w, m, Decide(w, m, current.value, command, approver, roles, approved));
    }
  }

  lemma NotedKeepsInv(w: World, m: Mesh, noted: Mesh)
    requires Inv(w, m) && noted == m.(unowned := noted.unowned)
    ensures Inv(w, noted)
  {
  }

  lemma NewChainOk(w: World, command: string, p: Policy, now: int)
    requires p.requiredCount >= 0 && command in w.commands
    ensures ChainOk(w, NewChain(w, command, p, now))
  {
  }

  lemma ResolvedCount(w: World, m: Mesh, tenant: string, a: Action)
    requires Inv(w, m)
    ensures ResolvePolicy(w, m, tenant, a).requiredCount >= 0
  {
  }

  /** Preparing notes a missing owner at most, and saves an empty chain for the command. */
  lemma PrepareShape(w: World, m: Mesh, command: string, now: int)
    requires Inv(w, m)
    ensures var (after, r) := Prepare(w, m, command, now);
            match r
            case Err(_) => after == m.(unowned := after.unowned)
            case Ok(c) =>
              && after == SaveChain(m.(unowned := after.unowned), c)
              && ChainOk(w, c) && c.approvals == [] && c.commandId == command
  {
    if Prepare(w, m, command, now).1.Ok? {
      var c, a := w.commands[command], w.actions[command];
      var noted := ResolveOwnership(w, m, c.tenantId, a.capability, c.actorId, a.riskTier).0;
      NotedKeepsInv(w, m, noted);
      ResolvedCount(w, noted, c.tenantId, a);
      NewChainOk(w, command, ResolvePolicy(w, noted, c.tenantId, a), now);
    }
  }

  lemma PrepareKeepsInv(w: World, m: Mesh, command: string, now: int)
    requires Inv(w, m)
    ensures Inv(w, Prepare(w, m, command, now).0)
  {
    PrepareShape(w, m, command, now);
    var (after, r) := Prepare(w, m, command, now);
    NotedKeepsInv(w, m, m.(unowned := after.unowned));
    if r.Ok? { SaveChainKeepsInv(w, m.(unowned := after.unowned), r.value); }
  }

  lemma OwedShape(w: World, m: Mesh, command: string, cert: Certificate, now: int)
    ensures var (noted, owed) := Owed(w, m, command, cert, now);
            && noted == m.(unowned := noted.unowned)
            && (owed.Ok? && owed.value.Some? ==> var o := owed.value.value;
                                                 ObligationOk(w, o) && o.commandId == command && o.status == Open)
  {
  }

  lemma OpenKeepsInv(w: World, m: Mesh, command: string, cert: Certificate, now: int)
    requires Inv(w, m)
    ensures Inv(w, OpenObligations(w, m, command, cert, now).0)
  {
    OwedShape(w, m, command, cert, now);
    var (noted, owed) := Owed(w, m, command, cert, now);
    NotedKeepsInv(w, m, noted);
    if owed.Ok? && owed.value.Some? { SaveObligationKeepsInv(w, noted, owed.value.value); }
  }

  lemma ValuesOk(w: World, m: Mesh)
    requires Inv(w, m)
    ensures forall c | c in m.chains.Values() ::
            ChainOk(w, c) && c.chainId in m.chains.at && m.chains.at[c.chainId] == c
    ensures forall o | o in m.obligations.Values() ::
            ObligationOk(w, o) && o.obligationId in m.obligations.at && m.obligations.at[o.obligationId] == o
  {
    forall c | c in m.chains.Values() ensures ChainOk(w, c) && c.chainId in m.chains.at && m.chains.at[c.chainId] == c {
      var i :| 0 <= i < |m.chains.keys| && m.chains.Values()[i] == c;
      assert m.chains.keys[i] in m.chains.keys;
    }
    forall o | o in m.obligations.Values()
      ensures ObligationOk(w, o) && o.obligationId in m.obligations.at && m.obligations.at[o.obligationId] == o {
      var i :| 0 <= i < |m.obligations.keys| && m.obligations.Values()[i] == o;
      assert m.obligations.keys[i] in m.obligations.keys;
    }
  }

  lemma SweepsKeepInv(w: World, m: Mesh, refs: seq<string>, tenant: string, command: string, now: int)
    requires Inv(w, m)
    ensures Inv(w, Expire(m, now).0) && Inv(w, CloseExpired(m, refs, tenant, command, now).0)
            && Inv(w, Escalate(w, m, now).0)
  {
    ValuesOk(w, m);
    SweepObligationsKeepsInv(w, m, m.obligations.Values(), now);
    SweepChainsKeepsInv(w, m, m.chains.Values(), Overdue(now), Expired, ExpiredEvent(now));
    SweepChainsKeepsInv(w, m, m.chains.Values(), Closable(tenant, command), Denied, ClosedEvent(now, refs));
  }

  lemma SatisfyKeepsInv(w: World, m: Mesh, id: string, refs: seq<string>)
    requires Inv(w, m)
    ensures Inv(w, Satisfy(m, id, refs).0)
  {
    if Satisfy(m, id, refs).1.Ok? { SaveObligationKeepsInv(w, m, m.obligations.at[id].(status := Fulfilled)); }
  }

  lemma StepKeepsInv(w: World, m: Mesh, op: Op)
    requires Inv(w, m)
    ensures Inv(w, Step(w, m, op))
  {
    match op
    case PrepareAuthority(command, now) => PrepareKeepsInv(w, m, command, now);
    case Approve(command, approver, roles, approved) => ApprovalKeepsInv(w, m, command, approver, roles, approved);
    case OpenPostClosure(command, cert, now) => OpenKeepsInv(w, m, command, cert, now);
    case SatisfyObligation(id, refs) => SatisfyKeepsInv(w, m, id, refs);
    case EscalateOverdue(now) => SweepsKeepInv(w, m, [], "", "", now);
    case ExpireOverdue(now) => SweepsKeepInv(w, m, [], "", "", now);
    case CloseChains(refs, tenant, command, now) => SweepsKeepInv(w, m, refs, tenant, command, now);
    case _ => RegisteringKeepsInv(w, m, op);
  }

  lemma RegisteringKeepsInv(w: World, m: Mesh, op: Op)
    requires Inv(w, m) && (op.RegisterOwnership? || op.RegisterPolicy? || op.RegisterEscalation?)
    ensures Inv(w, Step(w, m, op))
  {
  }

  lemma {:induction false} RunKeepsInv(w: World, ops: seq<Op>)
    ensures Inv(w, Run(w, ops))
  {
    if ops != [] {
      RunKeepsInv(w, ops[..|ops| - 1]);
      StepKeepsInv(w, Run(w, ops[..|ops| - 1]), ops[|ops| - 1]);
    }
  }

  // ----- What each step leaves alone ------------------------------------------------------

  /** Nothing but events, the chain index and the statuses of chains differs. */
  ghost predicate OnlyStatusDiffers(m: Mesh, after: Mesh) {
    && after == m.(chains := after.chains, commandChain := after.commandChain, events := after.events)
    && after.chains.keys == m.chains.keys
    && forall id | id in after.chains.at ::
       id in m.chains.at && after.chains.at[id] == m.chains.at[id].(status := after.chains.at[id].status)
  }

  lemma SaveOnlyStatus(m: Mesh, before: Mesh, c: Chain, to: ChainStatus, e: Event)
    requires OnlyStatusDiffers(m, before) && c.chainId in m.chains.at && m.chains.at[c.chainId] == c
    ensures OnlyStatusDiffers(m, SaveChain(before, c.(status := to)).(events := before.events + [e]))
  {
    assert c.chainId in before.chains.keys;
  }

  /** A chain sweep changes nothing about a chain but its status. */
  lemma {:induction false} SweepOnlyStatus(m: Mesh, list: seq<Chain>, pick: Chain -> bool, to: ChainStatus,
                                           event: Chain -> Event)
    requires forall c | c in list :: c.chainId in m.chains.at && m.chains.at[c.chainId] == c
    ensures OnlyStatusDiffers(m, SweepChains(m, list, pick, to, event).0)
  {
    if list != [] {
      var front, c := list[..|list| - 1], list[|list| - 1];
      assert c in list && forall x | x in front :: x in list;
      SweepOnlyStatus(m, front, pick, to, event);
      SaveOnlyStatus(m, SweepChains(m, front, pick, to, event).0, c, to, event(WithStatus(to)(c)));
    }
  }

  lemma ChainSweepsOnlyStatus(w: World, m: Mesh, refs: seq<string>, tenant: string, command: string, now: int)
    requires Inv(w, m)
    ensures OnlyStatusDiffers(m, Expire(m, now).0)
            && OnlyStatusDiffers(m, CloseExpired(m, refs, tenant, command, now).0)
  {
    ValuesOk(w, m);
    SweepOnlyStatus(m, m.chains.Values(), Overdue(now), Expired, ExpiredEvent(now));
    SweepOnlyStatus(m, m.chains.Values(), Closable(tenant, command), Denied, ClosedEvent(now, refs));
  }

  /** An obligation sweep leaves ownership, policies and chains alone. */
  lemma {:induction false} SweepObligationsShape(w: World, m: Mesh, list: seq<Obligation>, now: int)
    ensures var after := SweepObligations(w, m, list, now).0;
            after == m.(obligations := after.obligations, commandObligations := after.commandObligations,
                        events := after.events)
  {
    if list != [] { SweepObligationsShape(w, m, list[..|list| - 1], now); }
  }

  ghost predicate ObligationsKept(m: Mesh, after: Mesh) {
    after.obligations == m.obligations && after.commandObligations == m.commandObligations
    && after.policies == m.policies
  }

  ghost predicate ChainsKept(m: Mesh, after: Mesh) {
    after.chains == m.chains && after.commandChain == m.commandChain && after.policies == m.policies
  }

  lemma {:induction false} SweepChainsFrame(m: Mesh, list: seq<Chain>, pick: Chain -> bool, to: ChainStatus,
                                            event: Chain -> Event)
    ensures ObligationsKept(m, SweepChains(m, list, pick, to, event).0)
  {
    if list != [] { SweepChainsFrame(m, list[..|list| - 1], pick, to, event); }
  }

  lemma PrepareFrame(w: World, m: Mesh, command: string, now: int)
    ensures ObligationsKept(m, Prepare(w, m, command, now).0)
  {
  }

  lemma ApprovalFrame(w: World, m: Mesh, command: string, approver: string, roles: seq<string>, approved: bool)
    ensures ObligationsKept(m, RecordApproval(w, m, command, approver, roles, approved).0)
  {
  }

  lemma ChainSweepsFrame(m: Mesh, refs: seq<string>, tenant: string, command: string, now: int)
    ensures ObligationsKept(m, Expire(m, now).0) && ObligationsKept(m, CloseExpired(m, refs, tenant, command, now).0)
  {
    SweepChainsFrame(m, m.chains.Values(), Overdue(now), Expired, ExpiredEvent(now));
    SweepChainsFrame(m, m.chains.Values(), Closable(tenant, command), Denied, ClosedEvent(now, refs));
  }

  lemma OpeningFrame(w: World, m: Mesh, command: string, cert: Certificate, now: int)
    ensures ChainsKept(m, OpenObligations(w, m, command, cert, now).0)
  {
    OwedShape(w, m, command, cert, now);
  }

  lemma SatisfyingFrame(m: Mesh, id: string, refs: seq<string>)
    ensures ChainsKept(m, Satisfy(m, id, refs).0)
  {
  }

  predicate OnChains(op: Op) { op.PrepareAuthority? || op.Approve? || op.ExpireOverdue? || op.CloseChains? }
  predicate OnObligations(op: Op) { op.OpenPostClosure? || op.SatisfyObligation? || op.EscalateOverdue? }

  /** Chains change only by preparing, approving and the chain sweeps; obligations by opening, satisfying and
      escalating; policies by registration alone. */
  lemma StepFrame(w: World, m: Mesh, op: Op)
    ensures OnChains(op) ==> ObligationsKept(m, Step(w, m, op))
    ensures OnObligations(op) ==> ChainsKept(m, Step(w, m, op))
    ensures !OnChains(op) && !OnObligations(op) ==>
              var after := Step(w, m, op);
              after == m.(ownership := after.ownership, policies := after.policies, escalations := after.escalations)
              && (op.RegisterPolicy? || after.policies == m.policies)
  {
    if OnChains(op) { ChainCallFrame(w, m, op); }
    if OnObligations(op) { ObligationCallFrame(w, m, op); }
  }

  lemma ChainCallFrame(w: World, m: Mesh, op: Op)
    requires OnChains(op)
    ensures ObligationsKept(m, Step(w, m, op))
  {
    match op
    case PrepareAuthority(command, now) => PrepareFrame(w, m, command, now);
    case Approve(command, approver, roles, approved) => ApprovalFrame(w, m, command, approver, roles, approved);
    case ExpireOverdue(now) => ChainSweepsFrame(m, [], "", "", now);
    case CloseChains(refs, tenant, command, now) => ChainSweepsFrame(m, refs, tenant, command, now);
  }

  lemma ObligationCallFrame(w: World, m: Mesh, op: Op)
    requires OnObligations(op)
    ensures ChainsKept(m, Step(w, m, op))
  {
    match op
    case OpenPostClosure(command, cert, now) => OpeningFrame(w, m, command, cert, now);
    case SatisfyObligation(id, refs) => SatisfyingFrame(m, id, refs);
    case EscalateOverdue(now) => SweepObligationsShape(w, m, m.obligations.Values(), now);
  }

  // ----- Whose approvals a chain holds --------------------------------------------------

  function PreparedKeys(w: World, m: Mesh, op: Op): set<ChainKey> {
    if !op.PrepareAuthority? then {}
    else match Prepare(w, m, op.command, op.now).1 case Ok(c) => {Key(c)} case Err(_) => {}
  }

  /** Every input the run's chain ids were hashed from. */
  function ChainKeys(w: World, ops: seq<Op>): set<ChainKey> {
    if ops == [] then {}
    else ChainKeys(w, ops[..|ops| - 1]) + PreparedKeys(w, Run(w, ops[..|ops| - 1]), ops[|ops| - 1])
  }

  /** The chain index leads each command to a chain of its own. */
  ghost predicate Told(m: Mesh, keys: set<ChainKey>) {
    && (forall id | id in m.chains.at :: Key(m.chains.at[id]) in keys)
    && (forall c | c in m.commandChain ::
        m.commandChain[c] in m.chains.at && m.chains.at[m.commandChain[c]].commandId == c)
  }

  lemma SaveChainKeepsTold(w: World, m: Mesh, c: Chain, keys: set<ChainKey>)
    requires Inv(w, m) && ChainOk(w, c) && Told(m, keys)
    requires CollisionFree(w.chainId, keys) && Key(c) in keys
    ensures Told(SaveChain(m, c), keys)
  {
    if c.chainId in m.chains.at {
      assert w.chainId(Key(m.chains.at[c.chainId])) == w.chainId(Key(c));
    }
  }

  lemma {:induction false} SweepChainsKeepsTold(w: World, m: Mesh, list: seq<Chain>, pick: Chain -> bool,
                                                to: ChainStatus, event: Chain -> Event, keys: set<ChainKey>)
    requires Inv(w, m) && Told(m, keys) && CollisionFree(w.chainId, keys)
    requires forall c | c in list :: ChainOk(w, c) && Key(c) in keys
    requires forall c: Chain | pick(c) && ChainOk(w, c) :: ChainOk(w, WithStatus(to)(c))
    ensures Told(SweepChains(m, list, pick, to, event).0, keys)
  {
    if list != [] {
      var front, c := list[..|list| - 1], list[|list| - 1];
      assert c in list && forall x | x in front :: x in list;
      SweepChainsKeepsTold(w, m, front, pick, to, event, keys);
      SweepChainsKeepsInv(w, m, front, pick, to, event);
      if pick(c) { SaveChainKeepsTold(w, SweepChains(m, front, pick, to, event).0, WithStatus(to)(c), keys); }
    }
  }

  lemma SweepsKeepTold(w: World, m: Mesh, refs: seq<string>, tenant: string, command: string, now: int,
                       keys: set<ChainKey>)
    requires Inv(w, m) && Told(m, keys) && CollisionFree(w.chainId, keys)
    ensures Told(Expire(m, now).0, keys) && Told(CloseExpired(m, refs, tenant, command, now).0, keys)
  {
    ValuesOk(w, m);
    SweepChainsKeepsTold(w, m, m.chains.Values(), Overdue(now), Expired, ExpiredEvent(now), keys);
    SweepChainsKeepsTold(w, m, m.chains.Values(), Closable(tenant, command), Denied, ClosedEvent(now, refs), keys);
  }

  lemma StepKeepsTold(w: World, m: Mesh, op: Op, keys: set<ChainKey>)
    requires Inv(w, m) && Told(m, keys) && CollisionFree(w.chainId, keys) && PreparedKeys(w, m, op) <= keys
    ensures Told(Step(w, m, op), keys)
  {
    match op
    case PrepareAuthority(command, now) => PrepareKeepsTold(w, m, command, now, keys);
    case Approve(command, approver, roles, approved) =>
      ApprovalKeepsTold(w, m, command, approver, roles, approved, keys);
    case ExpireOverdue(now) => SweepsKeepTold(w, m, [], "", "", now, keys);
    case CloseChains(refs, tenant, command, now) => SweepsKeepTold(w, m, refs, tenant, command, now, keys);
    case _ => StepFrame(w, m, op);
  }

  lemma PrepareKeepsTold(w: World, m: Mesh, command: string, now: int, keys: set<ChainKey>)
    requires Inv(w, m) && Told(m, keys) && CollisionFree(w.chainId, keys)
    requires PreparedKeys(w, m, PrepareAuthority(command, now)) <= keys
    ensures Told(Prepare(w, m, command, now).0, keys)
  {
    PrepareShape(w, m, command, now);
    var (after, r) := Prepare(w, m, command, now);
    if r.Ok? {
      assert Key(r.value) in PreparedKeys(w, m, PrepareAuthority(command, now));
      NotedKeepsInv(w, m, m.(unowned := after.unowned));
      SaveChainKeepsTold(w, m.(unowned := after.unowned), r.value, keys);
    }
  }

  lemma ApprovalKeepsTold(w: World, m: Mesh, command: string, approver: string, roles: seq<string>, approved: bool,
                          keys: set<ChainKey>)
    requires Inv(w, m) && Told(m, keys) && CollisionFree(w.chainId, keys)
    ensures Told(RecordApproval(w, m, command, approver, roles, approved).0, keys)
  {
    var current := ChainFor(m, command);
    if current.Some? && Deciding(current.value) && (approved ==> command in w.commands) {
      DecideKeepsChainOk(w, m, current.value, command, approver, roles, approved);
      SaveChainKeepsTold(w, m, Decide(w, m, current.value, command, approver, roles, approved), keys);
    }
  }

  lemma {:induction false} RunTold(w: World, ops: seq<Op>, keys: set<ChainKey>)
    requires ChainKeys(w, ops) <= keys && CollisionFree(w.chainId, keys)
    ensures Told(Run(w, ops), keys)
  {
    if ops != [] {
      var front := ops[..|ops| - 1];
      RunTold(w, front, keys);
      RunKeepsInv(w, front);
      StepKeepsTold(w, Run(w, front), ops[|ops| - 1], keys);
    }
  }

  /** The `i`-th call is the approval `a` of chain `c`: given for its command, with every required role, and not by
      the requester while the chain's policy demanded separation of duty. */
  ghost predicate ApprovedAt(w: World, ops: seq<Op>, i: nat, c: Chain, a: string) {
    && i < |ops| && ops[i].Approve? && ops[i].approved && ops[i].approver == a && ops[i].command == c.commandId
    && c.commandId in w.commands
    && Qualifies(w, Run(w, ops[..i]), c, c.commandId, a, ops[i].roles)
  }

  ghost predicate SameChain(c: Chain, d: Chain) { Key(c) == Key(d) && c.requiredRoles == d.requiredRoles }

  ghost predicate HeldBefore(m: Mesh, c: Chain, a: string) {
    c.chainId in m.chains.at && SameChain(m.chains.at[c.chainId], c) && a in m.chains.at[c.chainId].approvals
  }

  lemma PreparedChainIsEmpty(w: World, m: Mesh, command: string, now: int, id: string, a: string)
    requires Inv(w, m)
    requires var after := Prepare(w, m, command, now).0; id in after.chains.at && a in after.chains.at[id].approvals
    ensures HeldBefore(m, Prepare(w, m, command, now).0.chains.at[id], a)
  {
    PrepareShape(w, m, command, now);
  }

  lemma DecisionAddsOne(w: World, m: Mesh, command: string, approver: string, roles: seq<string>, approved: bool,
                        keys: set<ChainKey>, id: string, a: string)
    requires Inv(w, m) && Told(m, keys)
    requires var after := RecordApproval(w, m, command, approver, roles, approved).0;
             id in after.chains.at && a in after.chains.at[id].approvals
    ensures var c := RecordApproval(w, m, command, approver, roles, approved).0.chains.at[id];
            HeldBefore(m, c, a) || (approved && approver == a && command == c.commandId && command in w.commands
                                    && Qualifies(w, m, c, command, a, roles))
  {
    var current := ChainFor(m, command);
    if current.Some? && Deciding(current.value) && (approved ==> command in w.commands) {
      var u := Decide(w, m, current.value, command, approver, roles, approved);
      assert SameChain(current.value, u) && u.chainId == current.value.chainId == m.commandChain[command];
      if id == u.chainId { assert a in current.value.approvals + [approver]; }
    }
  }

  lemma SweptChainHeldBefore(m: Mesh, after: Mesh, id: string, a: string)
    requires OnlyStatusDiffers(m, after) && id in after.chains.at && a in after.chains.at[id].approvals
    requires forall id | id in m.chains.at :: m.chains.at[id].chainId == id
    ensures HeldBefore(m, after.chains.at[id], a)
  {
  }

  lemma SweepsHeldBefore(w: World, m: Mesh, refs: seq<string>, tenant: string, command: string, now: int,
                         after: Mesh, id: string, a: string)
    requires Inv(w, m) && (after == Expire(m, now).0 || after == CloseExpired(m, refs, tenant, command, now).0)
    requires id in after.chains.at && a in after.chains.at[id].approvals
    ensures HeldBefore(m, after.chains.at[id], a)
  {
    ChainSweepsOnlyStatus(w, m, refs, tenant, command, now);
    SweptChainHeldBefore(m, after, id, a);
  }

  /** An approver is in a chain after a step because he was in it before or has just qualified. */
  lemma ApprovalsComeFrom(w: World, m: Mesh, op: Op, keys: set<ChainKey>, id: string, a: string)
    requires Inv(w, m) && Told(m, keys)
    requires var after := Step(w, m, op); id in after.chains.at && a in after.chains.at[id].approvals
    ensures var c := Step(w, m, op).chains.at[id];
            || HeldBefore(m, c, a)
            || (op.Approve? && op.approved && op.approver == a && op.command == c.commandId && c.commandId in w.commands
                && Qualifies(w, m, c, c.commandId, a, op.roles))
  {
    match op
    case PrepareAuthority(command, now) => PreparedChainIsEmpty(w, m, command, now, id, a);
    case Approve(command, approver, roles, approved) =>
      DecisionAddsOne(w, m, command, approver, roles, approved, keys, id, a);
    case ExpireOverdue(now) => SweepsHeldBefore(w, m, [], "", "", now, Expire(m, now).0, id, a);
    case CloseChains(refs, tenant, command, now) =>
      SweepsHeldBefore(w, m, refs, tenant, command, now, CloseExpired(m, refs, tenant, command, now).0, id, a);
    case _ => StepFrame(w, m, op);
  }

  lemma ApprovedEarlier(w: World, ops: seq<Op>, i: nat, c: Chain, d: Chain, a: string)
    requires ops != [] && ApprovedAt(w, ops[..|ops| - 1], i, c, a) && SameChain(c, d)
    ensures ApprovedAt(w, ops, i, d, a)
  {
    assert ops[..|ops| - 1][..i] == ops[..i];
  }

  /** In every run whose chain ids do not collide, each recorded approver once qualified for that chain. */
  lemma {:induction false} ApproversQualified(w: World, ops: seq<Op>, keys: set<ChainKey>, id: string, a: string)
    requires ChainKeys(w, ops) <= keys && CollisionFree(w.chainId, keys)
    requires id in Run(w, ops).chains.at && a in Run(w, ops).chains.at[id].approvals
    ensures exists i: nat :: ApprovedAt(w, ops, i, Run(w, ops).chains.at[id], a)
  {
    if ops != [] {
      var front, last := ops[..|ops| - 1], |ops| - 1;
      var m, c := Run(w, front), Run(w, ops).chains.at[id];
      RunKeepsInv(w, front);
      RunTold(w, front, keys);
      RunKeepsInv(w, ops);
      ApprovalsComeFrom(w, m, ops[last], keys, id, a);
      if HeldBefore(m, c, a) {
        ApproversQualified(w, front, keys, id, a);
        var i: nat :| ApprovedAt(w, front, i, m.chains.at[id], a);
        ApprovedEarlier(w, ops, i, m.chains.at[id], c, a);
      } else {
        assert ApprovedAt(w, ops, last, c, a);
      }
    }
  }

  /** Every registration of the policy id in this run demanded separation of duty; perhaps there was none. */
  ghost predicate AlwaysSeparated(ops: seq<Op>, policyId: string) {
    forall i | 0 <= i < |ops| :: ops[i].RegisterPolicy? && ops[i].policy.policyId == policyId
      ==> ops[i].policy.separationOfDuty
  }

  ghost predicate OnlySeparated(m: Mesh, policyId: string) {
    forall k | k in m.policies.at :: m.policies.at[k].policyId == policyId ==> m.policies.at[k].separationOfDuty
  }

  lemma StepOnlySeparated(w: World, m: Mesh, op: Op, policyId: string)
    requires Inv(w, m) && OnlySeparated(m, policyId) && AlwaysSeparated([op], policyId)
    ensures OnlySeparated(Step(w, m, op), policyId)
  {
    assert [op][0] == op;
    StepFrame(w, m, op);
  }

  lemma {:induction false} RunOnlySeparated(w: World, ops: seq<Op>, policyId: string)
    requires AlwaysSeparated(ops, policyId)
    ensures OnlySeparated(Run(w, ops), policyId) && SeparationFor(Run(w, ops), policyId)
  {
    if ops != [] {
      RunOnlySeparated(w, ops[..|ops| - 1], policyId);
      RunKeepsInv(w, ops[..|ops| - 1]);
      StepOnlySeparated(w, Run(w, ops[..|ops| - 1]), ops[|ops| - 1], policyId);
    }
    var table := Run(w, ops).policies;
    forall p | p in table.Values() && p.policyId == policyId ensures p.separationOfDuty {
      var i :| 0 <= i < |table.keys| && table.Values()[i] == p;
      assert table.keys[i] in table.keys;
    }
  }

  /** Nobody approves his own command where separation of duty was always demanded, or no policy registered at all. */
  lemma RequesterAbsent(w: World, ops: seq<Op>, keys: set<ChainKey>, id: string)
    requires ChainKeys(w, ops) <= keys && CollisionFree(w.chainId, keys)
    requires id in Run(w, ops).chains.at && AlwaysSeparated(ops, Run(w, ops).chains.at[id].policyId)
    ensures var c := Run(w, ops).chains.at[id];
            c.commandId in w.commands && w.commands[c.commandId].actorId !in c.approvals
  {
    RunKeepsInv(w, ops);
    var c := Run(w, ops).chains.at[id];
    var actor := w.commands[c.commandId].actorId;
    if actor in c.approvals {
      ApproversQualified(w, ops, keys, id, actor);
      var i: nat :| ApprovedAt(w, ops, i, c, actor);
      RunOnlySeparated(w, ops[..i], c.policyId);
      assert false;
    }
  }

  // ----- One decision ---------------------------------------------------------------------

  /** A refusal denies the chain whoever gives it. An approval adds its approver once, at the end, and only if he
      qualifies; the chain is then satisfied exactly when he does and there are enough. */
  lemma DecisionExact(w: World, m: Mesh, c: Chain, command: string, approver: string, roles: seq<string>,
                      approved: bool)
    requires ChainOk(w, c) && Deciding(c) && command in w.commands
    ensures var u := Decide(w, m, c, command, approver, roles, approved);
            var ok := approved && Qualifies(w, m, c, command, approver, roles);
            && u == c.(approvals := u.approvals, status := u.status)
            && u.approvals == (if ok && approver !in c.approvals then c.approvals + [approver] else c.approvals)
            && (u.status == Satisfied <==> ok && |u.approvals| >= c.requiredCount)
            && (u.status == Denied <==> !approved)
            && (u.status == Satisfied || u.status == Pending || u.status == Denied)
            && (c.status == Satisfied ==> (u.status == Satisfied <==> ok))
  {
    UniqueSame(c.approvals);
    if approver in c.approvals {
      assert (c.approvals + [approver])[..|c.approvals|] == c.approvals;
    } else {
      UniqueSame(c.approvals + [approver]);
    }
  }

  // ----- The auditor ----------------------------------------------------------------------

  datatype ChainFailure = CommandNotFound | DuplicateApprovers | InsufficientApprovers | CommittedUnsatisfied

  /** The auditor's own check of a command's chain against its terminal certificate. */
  function VerifyApprovalChain(w: World, m: Mesh, certificates: map<string, Disposition>,
                               command: string): (failures: seq<ChainFailure>)
    ensures CommandNotFound in failures <==> command !in w.commands
    ensures DuplicateApprovers in failures <==>
              command in w.commands && ChainFor(m, command).Some? && !Distinct(ChainFor(m, command).value.approvals)
    ensures InsufficientApprovers in failures <==>
              command in w.commands && ChainFor(m, command).Some? && ChainFor(m, command).value.status == Satisfied
              && |ChainFor(m, command).value.approvals| < ChainFor(m, command).value.requiredCount
    ensures CommittedUnsatisfied in failures <==>
              command in w.commands && ChainFor(m, command).Some?
              && command in certificates && certificates[command] == Committed
              && ChainFor(m, command).value.status != Satisfied && ChainFor(m, command).value.status != NotRequired
  {
    if command !in w.commands then [CommandNotFound]
    else
      match ChainFor(m, command)
      case None => []
      case Some(c) =>
        SetSize(c.approvals);
        (if |set a | a in c.approvals| != |c.approvals| then [DuplicateApprovers] else [])
        + (if c.status == Satisfied && |c.approvals| < c.requiredCount then [InsufficientApprovers] else [])
        + (if command in certificates && certificates[command] == Committed && c.status != Satisfied
           && c.status != NotRequired
           then [CommittedUnsatisfied] else [])
  }

  /** Whatever the mesh did, the auditor's only finding about a known command is a commit over an unsatisfied chain. */
  lemma AuditorFindsOnlyUnsatisfiedCommits(w: World, ops: seq<Op>, certificates: map<string, Disposition>,
                                           command: string)
    requires command in w.commands
    ensures var m := Run(w, ops);
            VerifyApprovalChain(w, m, certificates, command)
            == if ChainFor(m, command).Some? && command in certificates && certificates[command] == Committed
                  && ChainFor(m, command).value.status != Satisfied && ChainFor(m, command).value.status != NotRequired
               then [CommittedUnsatisfied] else []
  {
    RunKeepsInv(w, ops);
    var current := ChainFor(Run(w, ops), command);
    if current.Some? { SetSize(current.value.approvals); }
  }
}
