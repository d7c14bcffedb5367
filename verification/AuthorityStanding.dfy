/** How long an approval stands: which calls take a command away from its satisfied chain, over every call and every
    run. */
module AuthorityStanding {
  import opened Collections
  import opened AuthorityMesh
  import opened AuthorityRuns
  import opened AuthoritySweeps

  // ----- One call -----------------------------------------------------------------------

  /** Preparing goes through: the command and its action are known, and strict mode does not miss a high-risk owner. */
  predicate CanPrepare(w: World, m: Mesh, command: string) {
    && command in w.commands && command in w.actions
    && var a := w.actions[command];
       (w.commands[command].tenantId, a.capability) in m.ownership || a.riskTier != "high" || !w.strictOwnership
  }

  lemma PrepareOkIff(w: World, m: Mesh, command: string, now: int)
    ensures Prepare(w, m, command, now).1.Ok? <==> CanPrepare(w, m, command)
  {
  }

  /** The approval counts towards the command's current chain. */
  predicate CountsNow(w: World, m: Mesh, command: string, approver: string, roles: seq<string>) {
    && ChainFor(m, command).Some? && command in w.commands
    && Qualifies(w, m, ChainFor(m, command).value, command, approver, roles)
  }

  predicate UnseatedByPreparing(w: World, m: Mesh, c: string, command: string) {
    c == command && CanPrepare(w, m, command)
  }

  predicate UnseatedByDecision(w: World, m: Mesh, c: string, approver: string, roles: seq<string>, approved: bool,
                               command: string) {
    c == command && !(approved && CountsNow(w, m, command, approver, roles))
  }

  ghost predicate UnseatedByClosing(m: Mesh, refs: seq<string>, tenant: string, c: string, command: string) {
    refs != [] && SomePicked(m, Closable(tenant, c), command)
  }

  /** The calls that take a command off its satisfied chain: preparing it again, a refusal by anybody, an approval that
      does not count, and a sweep that picks any other chain of it. */
  ghost predicate Unseats(w: World, m: Mesh, op: Op, command: string) {
    match op
    case PrepareAuthority(c, now) => UnseatedByPreparing(w, m, c, command)
    case Approve(c, approver, roles, approved) => UnseatedByDecision(w, m, c, approver, roles, approved, command)
    case ExpireOverdue(now) => SomePicked(m, Overdue(now), command)
    case CloseChains(refs, tenant, c, now) => UnseatedByClosing(m, refs, tenant, c, command)
    case _ => false
  }

  lemma PreparingStandsIff(w: World, m: Mesh, c: string, now: int, command: string, keys: set<ChainKey>)
    requires Inv(w, m) && Told(m, keys) && CollisionFree(w.chainId, keys) && Stands(m, command)
    requires PreparedKeys(w, m, PrepareAuthority(c, now)) <= keys
    ensures Stands(Prepare(w, m, c, now).0, command) <==> !UnseatedByPreparing(w, m, c, command)
  {
    PrepareShape(w, m, c, now);
    PrepareOkIff(w, m, c, now);
    var r := Prepare(w, m, c, now).1;
    if r.Ok? {
      assert Key(r.value) in PreparedKeys(w, m, PrepareAuthority(c, now));
      NewChainNotSatisfied(w, m, c, now);
      var current := ChainFor(m, command).value;
      assert w.chainId(Key(current)) == current.chainId && w.chainId(Key(r.value)) == r.value.chainId;
    }
  }

  lemma NewChainNotSatisfied(w: World, m: Mesh, command: string, now: int)
    requires Prepare(w, m, command, now).1.Ok?
    ensures Prepare(w, m, command, now).1.value.status != Satisfied
  {
  }

  lemma ApprovingStandsIff(w: World, m: Mesh, c: string, approver: string, roles: seq<string>, approved: bool,
                           command: string, keys: set<ChainKey>)
    requires Inv(w, m) && Told(m, keys) && CollisionFree(w.chainId, keys) && Stands(m, command)
    ensures Stands(RecordApproval(w, m, c, approver, roles, approved).0, command)
            <==> !UnseatedByDecision(w, m, c, approver, roles, approved, command)
  {
    if c == command {
      OwnDecisionStandsIff(w, m, approver, roles, approved, command, keys);
    } else {
      DecisionElsewhere(w, m, c, approver, roles, approved, command, keys);
    }
  }

  lemma OwnDecisionStandsIff(w: World, m: Mesh, approver: string, roles: seq<string>, approved: bool,
                             command: string, keys: set<ChainKey>)
    requires Inv(w, m) && Told(m, keys) && Stands(m, command)
    ensures Stands(RecordApproval(w, m, command, approver, roles, approved).0, command)
            <==> approved && CountsNow(w, m, command, approver, roles)
  {
    var mine := ChainFor(m, command).value;
    assert mine.commandId == command && command in w.commands;
    DecisionExact(w, m, mine, command, approver, roles, approved);
  }

  /** A decision about one command leaves every other command's current chain alone. */
  lemma DecisionElsewhere(w: World, m: Mesh, c: string, approver: string, roles: seq<string>, approved: bool,
                          command: string, keys: set<ChainKey>)
    requires Inv(w, m) && Told(m, keys) && c != command
    ensures ChainFor(RecordApproval(w, m, c, approver, roles, approved).0, command) == ChainFor(m, command)
  {
    var other := ChainFor(m, c);
    if other.Some? && Deciding(other.value) && (approved ==> c in w.commands) {
      var u := Decide(w, m, other.value, c, approver, roles, approved);
      assert u.chainId == other.value.chainId && u.commandId == other.value.commandId == c;
      SaveElsewhere(m, u, command);
    }
  }

  lemma SaveElsewhere(m: Mesh, u: Chain, command: string)
    requires u.commandId != command && (command in m.commandChain ==> m.commandChain[command] != u.chainId)
    ensures ChainFor(SaveChain(m, u), command) == ChainFor(m, command)
  {
  }

  lemma ClosingStandsIff(w: World, m: Mesh, refs: seq<string>, tenant: string, c: string, now: int, command: string)
    requires Inv(w, m) && Stands(m, command)
    ensures var after := CloseExpired(m, refs, tenant, c, now).0;
            && ChainFor(after, command).Some?
            && (Stands(after, command) <==> !UnseatedByClosing(m, refs, tenant, c, command))
            && (!Stands(after, command) ==> ChainFor(after, command).value.status == Denied)
  {
    if refs != [] { SweepStandsIff(w, m, Closable(tenant, c), Denied, ClosedEvent(now, refs), command); }
  }

  lemma OtherCallsStand(w: World, m: Mesh, op: Op, command: string)
    requires !OnChains(op) && Stands(m, command)
    ensures KeptIff(w, m, op, command)
  {
    StepFrame(w, m, op);
  }

  ghost predicate KeptIff(w: World, m: Mesh, op: Op, command: string) {
    Stands(Step(w, m, op), command) <==> !Unseats(w, m, op, command)
  }

  lemma PrepareKeptIff(w: World, m: Mesh, c: string, now: int, command: string, keys: set<ChainKey>)
    requires Inv(w, m) && Told(m, keys) && CollisionFree(w.chainId, keys) && Stands(m, command)
    requires PreparedKeys(w, m, PrepareAuthority(c, now)) <= keys
    ensures KeptIff(w, m, PrepareAuthority(c, now), command)
  {
    PreparingStandsIff(w, m, c, now, command, keys);
  }

  lemma ApproveKeptIff(w: World, m: Mesh, c: string, approver: string, roles: seq<string>, approved: bool,
                       command: string, keys: set<ChainKey>)
    requires Inv(w, m) && Told(m, keys) && CollisionFree(w.chainId, keys) && Stands(m, command)
    ensures KeptIff(w, m, Approve(c, approver, roles, approved), command)
  {
    ApprovingStandsIff(w, m, c, approver, roles, approved, command, keys);
  }

  lemma ExpireKeptIff(w: World, m: Mesh, now: int, command: string)
    requires Inv(w, m) && Stands(m, command)
    ensures KeptIff(w, m, ExpireOverdue(now), command)
  {
    SatisfiedStandsIff(w, m, now, command);
  }

  lemma CloseKeptIff(w: World, m: Mesh, refs: seq<string>, tenant: string, c: string, now: int, command: string)
    requires Inv(w, m) && Stands(m, command)
    ensures KeptIff(w, m, CloseChains(refs, tenant, c, now), command)
  {
    ClosingStandsIff(w, m, refs, tenant, c, now, command);
  }

  /** A command stays on its satisfied chain through a call exactly when the call is none of those that unseat it. */
  lemma StepKeepsSatisfiedIff(w: World, m: Mesh, op: Op, command: string, keys: set<ChainKey>)
    requires Inv(w, m) && Told(m, keys) && CollisionFree(w.chainId, keys) && PreparedKeys(w, m, op) <= keys
    requires Stands(m, command)
    ensures KeptIff(w, m, op, command)
  {
    if op.PrepareAuthority? || op.Approve? {
      ChainCallKeptIff(w, m, op, command, keys);
    } else {
      SweepKeptIff(w, m, op, command);
    }
  }

  lemma ChainCallKeptIff(w: World, m: Mesh, op: Op, command: string, keys: set<ChainKey>)
    requires Inv(w, m) && Told(m, keys) && CollisionFree(w.chainId, keys) && PreparedKeys(w, m, op) <= keys
    requires Stands(m, command) && (op.PrepareAuthority? || op.Approve?)
    ensures KeptIff(w, m, op, command)
  {
    match op
    case PrepareAuthority(c, now) => PrepareKeptIff(w, m, c, now, command, keys);
    case Approve(c, approver, roles, approved) => ApproveKeptIff(w, m, c, approver, roles, approved, command, keys);
  }

  lemma SweepKeptIff(w: World, m: Mesh, op: Op, command: string)
    requires Inv(w, m) && Stands(m, command) && !op.PrepareAuthority? && !op.Approve?
    ensures KeptIff(w, m, op, command)
  {
    match op
    case ExpireOverdue(now) => ExpireKeptIff(w, m, now, command);
    case CloseChains(refs, tenant, c, now) => CloseKeptIff(w, m, refs, tenant, c, now, command);
    case _ => OtherCallsStand(w, m, op, command);
  }

  // ----- Whole runs -----------------------------------------------------------------------

  /** Before each call of a run, and after the last: does the command's approval stand? */
  ghost function Standing(w: World, ops: seq<Op>, command: string): (r: seq<bool>)
    ensures |r| == |ops| + 1 && forall i | 0 <= i <= |ops| :: r[i] == Stands(Run(w, ops[..i]), command)
  {
    seq(|ops| + 1, i requires 0 <= i <= |ops| => Stands(Run(w, ops[..i]), command))
  }

  /** Which calls of a run spare it. */
  ghost function Sparing(w: World, ops: seq<Op>, command: string): (r: seq<bool>)
    ensures |r| == |ops| && forall i | 0 <= i < |ops| :: r[i] == !Unseats(w, Run(w, ops[..i]), ops[i], command)
  {
    seq(|ops|, i requires 0 <= i < |ops| => !Unseats(w, Run(w, ops[..i]), ops[i], command))
  }

  /** An approval that stands after `start` calls stands throughout the rest of a run exactly when no later call
      unseats it. */
  lemma StandsThroughoutIff(w: World, ops: seq<Op>, keys: set<ChainKey>, command: string, start: nat)
    requires start <= |ops| && Standing(w, ops, command)[start]
    requires ChainKeys(w, ops) <= keys && CollisionFree(w.chainId, keys)
    ensures (forall i | start <= i <= |ops| :: Standing(w, ops, command)[i])
            <==> (forall i | start <= i < |ops| :: Sparing(w, ops, command)[i])
  {
    var stands, spared := Standing(w, ops, command), Sparing(w, ops, command);
    forall i | start <= i < |spared| && stands[i] ensures stands[i + 1] == spared[i] {
      NextStandsIff(w, ops, keys, command, i);
    }
    ThroughoutIff(stands, spared, start);
  }

  lemma NextStandsIff(w: World, ops: seq<Op>, keys: set<ChainKey>, command: string, i: nat)
    requires i < |ops| && Standing(w, ops, command)[i]
    requires ChainKeys(w, ops) <= keys && CollisionFree(w.chainId, keys)
    ensures Standing(w, ops, command)[i + 1] == Sparing(w, ops, command)[i]
  {
    var m := Run(w, ops[..i]);
    PrefixKeys(w, ops, i);
    PrefixKeys(w, ops, i + 1);
    RunKeepsInv(w, ops[..i]);
    RunTold(w, ops[..i], keys);
    assert ops[..i + 1][..i] == ops[..i];
    StepKeepsSatisfiedIff(w, m, ops[i], command, keys);
  }

  lemma {:induction false} PrefixKeys(w: World, ops: seq<Op>, i: nat)
    requires i <= |ops|
    ensures ChainKeys(w, ops[..i]) <= ChainKeys(w, ops)
    decreases |ops|
  {
    if i < |ops| {
      PrefixKeys(w, ops[..|ops| - 1], i);
      assert ops[..|ops| - 1][..i] == ops[..i];
    } else {
      assert ops[..i] == ops;
    }
  }

  // ----- It happens -----------------------------------------------------------------------

  function DefaultChain(w: World, command: string, due: int): Chain
    requires command in w.commands && command in w.actions
  {
    var c, a := w.commands[command], w.actions[command];
    var policyId := w.defaultPolicyId(PolicyKey(c.tenantId, a.capability, a.riskTier, a.authorityRequired));
    Chain(w.chainId(ChainKey(command, policyId, due)), command, c.tenantId, policyId, a.authorityRequired, 1, [],
          Pending, due)
  }

  lemma PrepareByDefault(w: World, m: Mesh, command: string, now: int)
    requires command in w.commands && command in w.actions && w.actions[command].riskTier == "medium"
    requires m.policies == EMPTY.policies
    ensures Prepare(w, m, command, now).0 == SaveChain(m, DefaultChain(w, command, now + 300))
  {
  }

  /** A medium-risk command with no registered policy, and somebody else who may approve it. */
  predicate Approvable(w: World, command: string, approver: string, roles: seq<string>) {
    && command in w.commands && command in w.actions && w.actions[command].riskTier == "medium"
    && approver != w.commands[command].actorId && HasRoles(w.actions[command].authorityRequired, roles)
  }

  lemma ApprovedChainStands(w: World, m: Mesh, c: Chain, approver: string, roles: seq<string>)
    requires Inv(w, m) && ChainFor(m, c.commandId) == Some(c) && c.commandId in w.commands
    requires c.status == Pending && c.approvals == [] && c.requiredCount == 1
    requires approver != w.commands[c.commandId].actorId && HasRoles(c.requiredRoles, roles)
    ensures var after := RecordApproval(w, m, c.commandId, approver, roles, true).0;
            && Inv(w, after) && after.policies == m.policies
            && ChainFor(after, c.commandId) == Some(c.(approvals := [approver], status := Satisfied))
            && after.chains.at == m.chains.at[c.chainId := c.(approvals := [approver], status := Satisfied)]
  {
    ApprovalKeepsInv(w, m, c.commandId, approver, roles, true);
    DecisionExact(w, m, c, c.commandId, approver, roles, true);
    var u := Decide(w, m, c, c.commandId, approver, roles, true);
    assert u == c.(approvals := [approver], status := Satisfied);
    assert RecordApproval(w, m, c.commandId, approver, roles, true).0 == SaveChain(m, u);
  }

  predicate Medium(w: World, command: string) {
    command in w.commands && command in w.actions && w.actions[command].riskTier == "medium"
  }

  lemma PreparedNext(w: World, m: Mesh, command: string, now: int)
    requires Inv(w, m) && Medium(w, command) && m.policies == EMPTY.policies
    ensures var after, c := Step(w, m, PrepareAuthority(command, now)), DefaultChain(w, command, now + 300);
            && Inv(w, after) && after == SaveChain(m, c) && after.policies == EMPTY.policies
            && ChainFor(after, command) == Some(c) && after.chains.at == m.chains.at[c.chainId := c]
  {
    PrepareByDefault(w, m, command, now);
    PrepareKeepsInv(w, m, command, now);
    SavedIsCurrent(m, DefaultChain(w, command, now + 300));
  }

  lemma SavedIsCurrent(m: Mesh, c: Chain)
    ensures var after := SaveChain(m, c);
            ChainFor(after, c.commandId) == Some(c) && after.chains.at == m.chains.at[c.chainId := c]
            && after.policies == m.policies
  {
  }

  lemma EmptyInv(w: World)
    ensures Inv(w, EMPTY)
  {
  }

  /** Prepare, prepare again, get approved, and let the first chain run out: expiry unseats the approval. */
  lemma RepreparedCommandLosesItsApproval(w: World, command: string, approver: string, roles: seq<string>)
    requires Approvable(w, command, approver, roles)
    requires DefaultChain(w, command, 300).chainId != DefaultChain(w, command, 400).chainId
    ensures var m := Step(w, Step(w, EMPTY, PrepareAuthority(command, 0)), PrepareAuthority(command, 100));
            var after := RecordApproval(w, m, command, approver, roles, true).0;
            && Stands(after, command) && ChainFor(after, command).value.approvals == [approver]
            && ChainFor(Expire(after, 350).0, command).Some?
               && ChainFor(Expire(after, 350).0, command).value.status == Expired
  {
    EmptyInv(w);
    PreparedNext(w, EMPTY, command, 0);
    var m1 := Step(w, EMPTY, PrepareAuthority(command, 0));
    PreparedNext(w, m1, command, 100);
    ApprovedThenExpired(w, Step(w, m1, PrepareAuthority(command, 100)), DefaultChain(w, command, 300),
                        DefaultChain(w, command, 400), approver, roles);
  }

  lemma ApprovedThenExpired(w: World, m: Mesh, first: Chain, second: Chain, approver: string, roles: seq<string>)
    requires Inv(w, m) && ChainFor(m, second.commandId) == Some(second) && second.commandId in w.commands
    requires second.status == Pending && second.approvals == [] && second.requiredCount == 1
    requires approver != w.commands[second.commandId].actorId && HasRoles(second.requiredRoles, roles)
    requires first.chainId != second.chainId && first.chainId in m.chains.at && m.chains.at[first.chainId] == first
    requires PickedOf(Overdue(350), second.commandId)(first)
    ensures var after := RecordApproval(w, m, second.commandId, approver, roles, true).0;
            && Stands(after, second.commandId) && ChainFor(after, second.commandId).value.approvals == [approver]
            && ChainFor(Expire(after, 350).0, second.commandId).Some?
            && ChainFor(Expire(after, 350).0, second.commandId).value.status == Expired
  {
    ApprovedChainStands(w, m, second, approver, roles);
    OverdueUnseats(w, RecordApproval(w, m, second.commandId, approver, roles, true).0, 350, second.commandId,
                   first.chainId);
  }

  lemma OverdueUnseats(w: World, m: Mesh, now: int, command: string, id: string)
    requires Inv(w, m) && Stands(m, command)
    requires id in m.chains.at && PickedOf(Overdue(now), command)(m.chains.at[id])
    ensures ChainFor(Expire(m, now).0, command).Some? && ChainFor(Expire(m, now).0, command).value.status == Expired
  {
    SatisfiedStandsIff(w, m, now, command);
  }

  /** A lone pending chain that has run out is all that expiry touches. */
  lemma ExpiredAlone(w: World, m: Mesh, c: Chain, now: int)
    requires Inv(w, m) && m.chains.at == map[c.chainId := c] && Overdue(now)(c)
    ensures var after := Step(w, m, ExpireOverdue(now));
            Inv(w, after) && after.policies == m.policies && after.chains.at == map[c.chainId := c.(status := Expired)]
  {
    StepKeepsInv(w, m, ExpireOverdue(now));
    ExpiredTable(w, m, c, now);
  }

  lemma ExpiredTable(w: World, m: Mesh, c: Chain, now: int)
    requires Inv(w, m) && m.chains.at == map[c.chainId := c] && Overdue(now)(c)
    ensures Expire(m, now).0.policies == m.policies
            && Expire(m, now).0.chains.at == map[c.chainId := c.(status := Expired)]
  {
    ExpireOnlyStatus(w, m, now);
    SweptAt(w, m, Overdue(now), Expired, ExpiredEvent(now));
    var was, after := m.chains.at, Expire(m, now).0.chains.at;
    assert c.chainId in was && was[c.chainId] == c && after[c.chainId] == c.(status := Expired);
  }

  lemma ExpireOnlyStatus(w: World, m: Mesh, now: int)
    requires Inv(w, m)
    ensures Expire(m, now).0.policies == m.policies
    ensures forall id | id in Expire(m, now).0.chains.at :: id in m.chains.at
  {
    ChainSweepsOnlyStatus(w, m, [], "", "", now);
  }

  /** Prepared at 0, expired at 350, and prepared again at 400 with a chain of its own. */
  lemma PreparedAfterExpiry(w: World, command: string)
    requires Medium(w, command) && DefaultChain(w, command, 300).chainId != DefaultChain(w, command, 700).chainId
    ensures var first, second := DefaultChain(w, command, 300), DefaultChain(w, command, 700);
            var m := Step(w, Step(w, Step(w, EMPTY, PrepareAuthority(command, 0)), ExpireOverdue(350)),
                          PrepareAuthority(command, 400));
            && Inv(w, m) && ChainFor(m, command) == Some(second)
            && m.chains.at == map[first.chainId := first.(status := Expired), second.chainId := second]
  {
    EmptyInv(w);
    PreparedNext(w, EMPTY, command, 0);
    var m1 := Step(w, EMPTY, PrepareAuthority(command, 0));
    ExpiredAlone(w, m1, DefaultChain(w, command, 300), 350);
    PreparedNext(w, Step(w, m1, ExpireOverdue(350)), command, 400);
  }

  /** Prepare, expire, prepare again, get approved, and clear the expired chain away with evidence: nothing is overdue,
      and yet the command ends up on the old chain, denied. */
  lemma ClosingUnseatsApproval(w: World, command: string, approver: string, roles: seq<string>, refs: seq<string>)
    requires Approvable(w, command, approver, roles) && refs != []
    requires DefaultChain(w, command, 300).chainId != DefaultChain(w, command, 700).chainId
    ensures var m := Step(w, Step(w, Step(w, EMPTY, PrepareAuthority(command, 0)), ExpireOverdue(350)),
                          PrepareAuthority(command, 400));
            ClosedAway(w, m, command, approver, roles, refs)
  {
    PreparedAfterExpiry(w, command);
    var m := Step(w, Step(w, Step(w, EMPTY, PrepareAuthority(command, 0)), ExpireOverdue(350)),
                  PrepareAuthority(command, 400));
    ApprovedThenClosed(w, m, DefaultChain(w, command, 300).(status := Expired), DefaultChain(w, command, 700),
                       approver, roles, refs);
  }

  /** Two chains are stored, and no other. */
  ghost predicate Pair(m: Mesh, a: Chain, b: Chain) {
    && a.chainId in m.chains.at && m.chains.at[a.chainId] == a && b.chainId in m.chains.at
       && m.chains.at[b.chainId] == b
    && a.chainId != b.chainId && forall id | id in m.chains.at :: id == a.chainId || id == b.chainId
  }

  /** Approving `m`'s command satisfies it with nothing overdue at 450, and closing at 450 leaves it denied. */
  ghost predicate ClosedAway(w: World, m: Mesh, command: string, approver: string, roles: seq<string>,
                             refs: seq<string>) {
    var after := RecordApproval(w, m, command, approver, roles, true).0;
    var closed := CloseExpired(after, refs, "", "", 450).0;
    && Stands(after, command) && (forall id | id in after.chains.at :: !Overdue(450)(after.chains.at[id]))
    && ChainFor(closed, command).Some? && ChainFor(closed, command).value.status == Denied
  }

  lemma ApprovedThenClosed(w: World, m: Mesh, old_: Chain, c: Chain, approver: string, roles: seq<string>,
                           refs: seq<string>)
    requires Inv(w, m) && ChainFor(m, c.commandId) == Some(c) && c.commandId in w.commands && refs != []
    requires c.status == Pending && c.approvals == [] && c.requiredCount == 1
    requires approver != w.commands[c.commandId].actorId && HasRoles(c.requiredRoles, roles)
    requires Pair(m, old_, c)
    requires old_.commandId == c.commandId && old_.status == Expired
    ensures ClosedAway(w, m, c.commandId, approver, roles, refs)
  {
    ApprovedChainStands(w, m, c, approver, roles);
    var after := RecordApproval(w, m, c.commandId, approver, roles, true).0;
    TwoChains(after, old_, c.(approvals := [approver], status := Satisfied));
    ClosableUnseats(w, after, refs, 450, c.commandId, old_.chainId);
  }

  lemma TwoChains(m: Mesh, a: Chain, b: Chain)
    requires Pair(m, a, b)
    requires a.status == Expired && b.status == Satisfied
    ensures forall id | id in m.chains.at :: !Overdue(450)(m.chains.at[id])
    ensures a.chainId in m.chains.at && PickedOf(Closable("", ""), a.commandId)(m.chains.at[a.chainId])
  {
  }

  lemma ClosableUnseats(w: World, m: Mesh, refs: seq<string>, now: int, command: string, id: string)
    requires Inv(w, m) && Stands(m, command) && refs != []
    requires id in m.chains.at && PickedOf(Closable("", ""), command)(m.chains.at[id])
    ensures var after := CloseExpired(m, refs, "", "", now).0;
            ChainFor(after, command).Some? && ChainFor(after, command).value.status == Denied
  {
    ClosingStandsIff(w, m, refs, "", "", now, command);
  }

  /** The requester's own approval afterwards puts an approved command back to pending, approvals and all; a refusal by
      anybody, with no role at all, denies it. */
  lemma LaterDecisionsUnseat(w: World, command: string, approver: string, roles: seq<string>, anybody: string)
    requires Approvable(w, command, approver, roles)
    ensures var m := RecordApproval(w, Step(w, EMPTY, PrepareAuthority(command, 0)), command, approver, roles, true).0;
            var back := ChainFor(RecordApproval(w, m, command, w.commands[command].actorId, roles, true).0, command);
            var denied := ChainFor(RecordApproval(w, m, command, anybody, [], false).0, command);
            && Stands(m, command)
            && back.Some? && back.value.status == Pending && back.value.approvals == [approver]
               && back.value.requiredCount == 1
            && denied.Some? && denied.value.status == Denied
  {
    EmptyInv(w);
    PreparedNext(w, EMPTY, command, 0);
    DecidedTwice(w, Step(w, EMPTY, PrepareAuthority(command, 0)), DefaultChain(w, command, 300), approver, roles,
                 anybody);
  }

  lemma DecidedTwice(w: World, m: Mesh, c: Chain, approver: string, roles: seq<string>, anybody: string)
    requires Inv(w, m) && ChainFor(m, c.commandId) == Some(c) && c.commandId in w.commands
             && m.policies == EMPTY.policies
    requires c.status == Pending && c.approvals == [] && c.requiredCount == 1
    requires approver != w.commands[c.commandId].actorId && HasRoles(c.requiredRoles, roles)
    ensures var after := RecordApproval(w, m, c.commandId, approver, roles, true).0;
            var back :=
              ChainFor(RecordApproval(w, after, c.commandId, w.commands[c.commandId].actorId, roles, true).0,
                       c.commandId);
            var denied := ChainFor(RecordApproval(w, after, c.commandId, anybody, [], false).0, c.commandId);
            && Stands(after, c.commandId)
            && back.Some? && back.value.status == Pending && back.value.approvals == [approver]
               && back.value.requiredCount == 1
            && denied.Some? && denied.value.status == Denied
  {
    ApprovedChainStands(w, m, c, approver, roles);
    var after, u := RecordApproval(w, m, c.commandId, approver, roles, true).0,
                    c.(approvals := [approver], status := Satisfied);
    NobodyApprovesUnregistered(w, after, u, roles);
    DecidedIsCurrent(w, after, c.commandId, w.commands[c.commandId].actorId, roles, true);
    DecidedIsCurrent(w, after, c.commandId, anybody, [], false);
  }

  lemma NobodyApprovesUnregistered(w: World, m: Mesh, c: Chain, roles: seq<string>)
    requires c.commandId in w.commands && m.policies == EMPTY.policies
    ensures !Qualifies(w, m, c, c.commandId, w.commands[c.commandId].actorId, roles)
  {
  }

  lemma DecidedIsCurrent(w: World, m: Mesh, command: string, approver: string, roles: seq<string>, approved: bool)
    requires Inv(w, m) && Stands(m, command) && command in w.commands && ChainFor(m, command).value.commandId == command
    ensures var c := ChainFor(m, command).value;
            var u := ChainFor(RecordApproval(w, m, command, approver, roles, approved).0, command);
            && u.Some? && u.value.requiredCount == c.requiredCount
            && (!approved ==> u.value.status == Denied)
            && (approved && !Qualifies(w, m, c, command, approver, roles) ==> u.value == c.(status := Pending))
  {
    DecisionExact(w, m, ChainFor(m, command).value, command, approver, roles, approved);
  }
}
