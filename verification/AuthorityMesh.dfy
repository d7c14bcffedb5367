/** Ownership, approval chains and obligations: the in-memory store and the mesh's operations as
    steps on a value. Time is an integer; commands and their governed actions never change. */
module AuthorityMesh {
  import opened Collections

  /** Why a call raised. */
  datatype Refusal =
    | UnknownCommand | MissingAction | OwnershipRequired | UnknownObligation | NotSatisfiable | EvidenceRequired
    | EvidenceMissing
    | RiskOwnerRequired | RiskIdsRequired | RiskExpiryRequired | RiskExpiryPast
    | CompensationOwnerRequired | CompensationOutcomeRequired | CompensationReviewerRequired

  datatype Kind = RiskReview | CaseReview | CompensationReview

  datatype ChainStatus = NotRequired | Pending | Satisfied | Denied | Expired
  datatype ObligationStatus = Open | Fulfilled | Lapsed | Escalated | Cancelled

  datatype Ownership = Ownership(tenantId: string, resourceRef: string, ownerTeam: string, primaryOwnerId: string,
                                 fallbackOwnerId: string, escalationTeam: string)

  datatype Policy = Policy(policyId: string, tenantId: string, capability: string, riskTier: string,
                           requiredRoles: seq<string>,
                           requiredCount: int, separationOfDuty: bool, timeout: int, escalationPolicyId: string)

  datatype EscalationPolicy = EscalationPolicy(policyId: string, tenantId: string, notifyAfter: int, escalateAfter: int,
                                               incidentAfter: int, fallbackOwnerId: string, escalationTeam: string)

  datatype Chain = Chain(chainId: string, commandId: string, tenantId: string, policyId: string,
                         requiredRoles: seq<string>,
                         requiredCount: int, approvals: seq<string>, status: ChainStatus, dueAt: int)

  datatype Obligation = Obligation(obligationId: string, commandId: string, tenantId: string, ownerId: string,
                                   ownerTeam: string,
                                   kind: Kind, dueAt: int, status: ObligationStatus, evidenceRequired: seq<string>,
                                   escalationPolicyId: string, certificateId: string)

  datatype Event =
    | ObligationEscalated(obligationId: string, commandId: string, tenantId: string, ownerId: string,
                          ownerTeam: string, policyId: string,
                          fallbackOwnerId: string, escalationTeam: string, at: int)
    | ChainExpired(chainId: string, commandId: string, tenantId: string, at: int)
    | ChainClosed(chainId: string, commandId: string, tenantId: string, at: int, refs: seq<string>)

  datatype Command = Command(tenantId: string, actorId: string, intent: string)
  datatype Action = Action(capability: string, riskTier: string, authorityRequired: seq<string>)

  datatype ChainKey = ChainKey(commandId: string, policyId: string, dueAt: int)
  datatype ObligationKey = ObligationKey(commandId: string, kind: Kind, dueAt: int, certificateId: string)
  datatype PolicyKey = PolicyKey(tenantId: string, capability: string, riskTier: string, requiredRoles: seq<string>)

  /** What the mesh is given: the command ledger's records and the hashes behind its ids. */
  datatype World = World(commands: map<string, Command>, actions: map<string, Action>, strictOwnership: bool,
                         chainId: ChainKey -> string, obligationId: ObligationKey -> string,
                         defaultPolicyId: PolicyKey -> string)

  datatype Disposition = Committed | Compensated | AcceptedRisk | RequiresReview
  datatype Certificate = Certificate(certificateId: string, disposition: Disposition, acceptedRiskId: string,
                                     caseId: string,
                                     riskExpiresAt: Option<int>, compensationOutcomeId: string,
                                     compensationReviewerId: string)

  type Table<K(==), V> = d: Dict<K, V> | d.Valid() witness Dict([], map[])

  datatype Mesh = Mesh(
    ownership: map<(string, string), Ownership>,
    policies: Table<(string, string, string), Policy>,
    escalations: Table<(string, string), EscalationPolicy>,
    chains: Table<string, Chain>,
    commandChain: map<string, string>,
    obligations: Table<string, Obligation>,
    commandObligations: map<string, seq<string>>,
    events: seq<Event>,
    unowned: set<string>)

  const EMPTY := Mesh(map[], Dict([], map[]), Dict([], map[]), Dict([], map[]), map[], Dict([], map[]), map[], [], {})

  // ----- The store ------------------------------------------------------------------

  function SaveChain(m: Mesh, c: Chain): Mesh {
    m.(chains := m.chains.Put(c.chainId, c), commandChain := m.commandChain[c.commandId := c.chainId])
  }

  function ChainFor(m: Mesh, command: string): Option<Chain> {
    if command in m.commandChain && m.commandChain[command] in m.chains.at
    then Some(m.chains.at[m.commandChain[command]]) else None
  }

  /** A saved chain is what its command shows from then on; any other command keeps showing what it did, unless it
      pointed at the same id. */
  lemma SavedChainShows(m: Mesh, c: Chain)
    ensures ChainFor(SaveChain(m, c), c.commandId) == Some(c)
    ensures forall k | k != c.commandId ::
              ChainFor(SaveChain(m, c), k)
              == if k in m.commandChain && m.commandChain[k] == c.chainId then Some(c) else ChainFor(m, k)
  {
  }

  function IdsFor(m: Mesh, command: string): seq<string> {
    if command in m.commandObligations then m.commandObligations[command] else []
  }

  function SaveObligation(m: Mesh, o: Obligation): Mesh {
    var existing := IdsFor(m, o.commandId);
    m.(obligations := m.obligations.Put(o.obligationId, o),
       commandObligations := if o.obligationId in existing then m.commandObligations
                             else m.commandObligations[o.commandId := existing + [o.obligationId]])
  }

  /** Every id in the index is stored, so reading through it cannot fail. */
  ghost predicate IndexStored(m: Mesh) {
    forall c | c in m.commandObligations :: forall id | id in m.commandObligations[c] :: id in m.obligations.at
  }

  function ListObligations(m: Mesh, command: string): seq<Obligation>
    requires IndexStored(m)
  {
    if command == "" then m.obligations.Values()
    else
      var ids := IdsFor(m, command);
      seq(|ids|, i requires 0 <= i < |ids| => assert ids[i] in ids; m.obligations.at[ids[i]])
  }

  // ----- Policies and ownership -------------------------------------------------------

  /** The first registered policy carrying the id. */
  function FirstWithId(policies: seq<Policy>, policyId: string): (r: Option<Policy>)
    ensures r.Some? ==> r.value in policies && r.value.policyId == policyId
    ensures r.None? <==> forall p | p in policies :: p.policyId != policyId
  {
    if policies == [] then None
    else
      assert policies == [policies[0]] + policies[1..];
      if policies[0].policyId == policyId then Some(policies[0]) else FirstWithId(policies[1..], policyId)
  }

  /** A chain whose policy is not registered is held to separation of duty at every risk tier. */
  predicate SeparationFor(m: Mesh, policyId: string) {
    match FirstWithId(m.policies.Values(), policyId) case None => true case Some(p) => p.separationOfDuty
  }

  function EscalationPolicyIdFor(m: Mesh, tenant: string, command: string): string {
    match ChainFor(m, command)
    case Some(c) =>
      (match FirstWithId(m.policies.Values(), c.policyId) case None => "default" case Some(p) => p.escalationPolicyId)
    case None =>
      var mine := Filter(m.escalations.Values(), OfTenant(tenant));
      if |mine| == 1 then mine[0].policyId else "default"
  }

  function OfTenant(tenant: string): EscalationPolicy -> bool { (p: EscalationPolicy) => p.tenantId == tenant }

  /** A missing high-risk owner is noted before strict mode refuses it. */
  function ResolveOwnership(w: World, m: Mesh, tenant: string, resource: string, requester: string,
                            tier: string): (Mesh, Result<Ownership, Refusal>) {
    if (tenant, resource) in m.ownership then (m, Ok(m.ownership[(tenant, resource)]))
    else
      var noted := if tier == "high" then m.(unowned := m.unowned + {resource}) else m;
      if tier == "high" && w.strictOwnership then (noted, Err(OwnershipRequired))
      else (noted, Ok(Ownership(tenant, resource, "tenant_operations", requester, requester, "tenant_operations")))
  }

  function ResolvePolicy(w: World, m: Mesh, tenant: string, a: Action): Policy {
    var key := (tenant, a.capability, a.riskTier);
    if key in m.policies.at then m.policies.at[key]
    else Policy(w.defaultPolicyId(PolicyKey(tenant, a.capability, a.riskTier, a.authorityRequired)), tenant,
                a.capability, a.riskTier,
                a.authorityRequired, if a.riskTier == "low" then 0 else 1, a.riskTier == "high", 300, "default")
  }

  // ----- Approval chains --------------------------------------------------------------

  function NewChain(w: World, command: string, p: Policy, now: int): Chain {
    var due := now + p.timeout;
    Chain(w.chainId(ChainKey(command, p.policyId, due)), command, p.tenantId, p.policyId, p.requiredRoles,
          p.requiredCount, [],
          if p.requiredCount == 0 then NotRequired else Pending, due)
  }

  function Prepare(w: World, m: Mesh, command: string, now: int): (Mesh, Result<Chain, Refusal>) {
    if command !in w.commands then (m, Err(UnknownCommand))
    else if command !in w.actions then (m, Err(MissingAction))
    else
      var c, a := w.commands[command], w.actions[command];
      var (noted, owner) := ResolveOwnership(w, m, c.tenantId, a.capability, c.actorId, a.riskTier);
      match owner
      case Err(e) => (noted, Err(e))
      case Ok(_) =>
        var chain := NewChain(w, command, ResolvePolicy(w, noted, c.tenantId, a), now);
        (SaveChain(noted, chain), Ok(chain))
  }

  predicate HasRoles(required: seq<string>, roles: seq<string>) { forall r | r in required :: r in roles }

  /** May this approver count towards the chain? */
  predicate Qualifies(w: World, m: Mesh, c: Chain, command: string, approver: string, roles: seq<string>)
    requires command in w.commands
  {
    !(SeparationFor(m, c.policyId) && approver == w.commands[command].actorId) && HasRoles(c.requiredRoles, roles)
  }

  /** tuple(dict.fromkeys((*approvals, approver))) */
  function WithApprover(approvals: seq<string>, approver: string): seq<string> { Unique(approvals + [approver]) }

  predicate Deciding(c: Chain) { c.status == Pending || c.status == Satisfied }

  /** One resolver's decision: a refusal denies, a qualified approval counts, any other falls back to pending. */
  function Decide(w: World, m: Mesh, c: Chain, command: string, approver: string, roles: seq<string>,
                  approved: bool): Chain
    requires approved ==> command in w.commands
  {
    if !approved then c.(status := Denied)
    else if !Qualifies(w, m, c, command, approver, roles) then c.(status := Pending)
    else
      var approvals := WithApprover(c.approvals, approver);
      c.(approvals := approvals, status := if |approvals| >= c.requiredCount then Satisfied else Pending)
  }

  function RecordApproval(w: World, m: Mesh, command: string, approver: string, roles: seq<string>,
                          approved: bool): (Mesh, Result<Option<Chain>, Refusal>) {
    match ChainFor(m, command)
    case None => (m, Ok(None))
    case Some(c) =>
      if !Deciding(c) then (m, Ok(Some(c)))
      else if approved && command !in w.commands then (m, Err(UnknownCommand))
      else
        var u := Decide(w, m, c, command, approver, roles, approved);
        (SaveChain(m, u), Ok(Some(u)))
  }

  // ----- Obligations ------------------------------------------------------------------

  function EvidenceFor(kind: Kind): seq<string> {
    match kind
    case RiskReview => ["review_decision", "risk_owner_attestation"]
    case CaseReview => ["case_disposition"]
    case CompensationReview => ["compensation_receipt", "compensation_reviewer_attestation"]
  }

  function NewObligation(w: World, m: Mesh, command: string, owner: Ownership, kind: Kind, due: int,
                         certificateId: string): Obligation
    requires command in w.commands
  {
    var tenant := w.commands[command].tenantId;
    Obligation(w.obligationId(ObligationKey(command, kind, due, certificateId)), command, tenant,
               owner.primaryOwnerId, owner.ownerTeam,
               kind, due, Open, EvidenceFor(kind), EscalationPolicyIdFor(m, tenant, command), certificateId)
  }

  const DAY := 24 * 3600

  /** What a terminal disposition leaves owed, after noting a missing high-risk owner. */
  function Owed(w: World, m: Mesh, command: string, cert: Certificate,
                now: int): (Mesh, Result<Option<Obligation>, Refusal>) {
    if command !in w.commands then (m, Err(UnknownCommand))
    else
      var c := w.commands[command];
      var resource := if command in w.actions then w.actions[command].capability else c.intent;
      var owned := (c.tenantId, resource) in m.ownership;
      match cert.disposition
      case AcceptedRisk =>
        if !owned then (m, Err(RiskOwnerRequired))
        else if cert.acceptedRiskId == "" || cert.caseId == "" then (m, Err(RiskIdsRequired))
        else if cert.riskExpiresAt.None? then (m, Err(RiskExpiryRequired))
        else if cert.riskExpiresAt.value <= now then (m, Err(RiskExpiryPast))
        else (m, Ok(Some(NewObligation(w, m, command, m.ownership[(c.tenantId, resource)], RiskReview,
                                       cert.riskExpiresAt.value, cert.certificateId))))
      case RequiresReview =>
        var tier := if command in w.actions then w.actions[command].riskTier else "medium";
        var (noted, owner) := ResolveOwnership(w, m, c.tenantId, resource, c.actorId, tier);
        if owner.Err? then (noted, Err(owner.error))
        else (noted, Ok(Some(NewObligation(w, noted, command, owner.value, CaseReview, now + DAY, cert.certificateId))))
      case Compensated =>
        if !owned then (m, Err(CompensationOwnerRequired))
        else if cert.compensationOutcomeId == "" then (m, Err(CompensationOutcomeRequired))
        else if cert.compensationReviewerId == "" then (m, Err(CompensationReviewerRequired))
        else (m, Ok(Some(NewObligation(w, m, command, m.ownership[(c.tenantId, resource)], CompensationReview,
                                       now + DAY, cert.certificateId))))
      case Committed => (m, Ok(None))
  }

  function OpenObligations(w: World, m: Mesh, command: string, cert: Certificate,
                           now: int): (Mesh, Result<seq<Obligation>, Refusal>) {
    var (noted, owed) := Owed(w, m, command, cert, now);
    match owed
    case Err(e) => (noted, Err(e))
    case Ok(None) => (noted, Ok([]))
    case Ok(Some(o)) => (SaveObligation(noted, o), Ok([o]))
  }

  predicate StartsWith(s: string, prefix: string) { prefix <= s }

  predicate RefSatisfies(name: string, refs: seq<string>) {
    exists ref | ref in refs :: ref == name || StartsWith(ref, name + ":") || StartsWith(ref, "evidence:" + name + ":")
  }

  function Unmet(refs: seq<string>): string -> bool { name => !RefSatisfies(name, refs) }

  function Satisfy(m: Mesh, id: string, refs: seq<string>): (Mesh, Result<Obligation, Refusal>) {
    if id !in m.obligations.at then (m, Err(UnknownObligation))
    else
      var o := m.obligations.at[id];
      if o.status != Open && o.status != Escalated then (m, Err(NotSatisfiable))
      else if o.evidenceRequired != [] && refs == [] then (m, Err(EvidenceRequired))
      else if Filter(o.evidenceRequired, Unmet(refs)) != [] then (m, Err(EvidenceMissing))
      else
        var u := o.(status := Fulfilled);
        (SaveObligation(m, u), Ok(u))
  }

  // ----- Sweeps -----------------------------------------------------------------------

  function Overdue(now: int): Chain -> bool { (c: Chain) => c.status == Pending && c.dueAt <= now }

  function Closable(tenant: string, command: string): Chain -> bool {
    (c: Chain) => c.status == Expired && (tenant == "" || c.tenantId == tenant)
    && (command == "" || c.commandId == command)
  }

  function ExpiredEvent(now: int): Chain -> Event {
    (c: Chain) => ChainExpired(c.chainId, c.commandId, c.tenantId, now)
  }
  function ClosedEvent(now: int, refs: seq<string>): Chain -> Event {
    (c: Chain) => ChainClosed(c.chainId, c.commandId, c.tenantId, now, refs)
  }

  function WithStatus(to: ChainStatus): Chain -> Chain { (c: Chain) => c.(status := to) }

  /** Save every picked chain under a new status, with one event each, in the order listed. */
  function SweepChains(m: Mesh, list: seq<Chain>, pick: Chain -> bool, to: ChainStatus,
                       event: Chain -> Event): (Mesh, seq<Chain>) {
    if list == [] then (m, [])
    else
      var (before, done) := SweepChains(m, list[..|list| - 1], pick, to, event);
      var c := list[|list| - 1];
      if !pick(c) then (before, done)
      else
        var u := WithStatus(to)(c);
        (SaveChain(before, u).(events := before.events + [event(u)]), done + [u])
  }

  lemma SweepChainsNext(m: Mesh, list: seq<Chain>, i: nat, pick: Chain -> bool, to: ChainStatus, event: Chain -> Event)
    requires i < |list|
    ensures var (before, done) := SweepChains(m, list[..i], pick, to, event);
            var u := WithStatus(to)(list[i]);
            SweepChains(m, list[..i + 1], pick, to, event)
            == if !pick(list[i]) then (before, done)
               else (SaveChain(before, u).(events := before.events + [event(u)]), done + [u])
  {
    assert list[..i + 1][..i] == list[..i];
  }

  function Expire(m: Mesh, now: int): (Mesh, seq<Chain>) {
    SweepChains(m, m.chains.Values(), Overdue(now), Expired, ExpiredEvent(now))
  }

  function CloseExpired(m: Mesh, refs: seq<string>, tenant: string, command: string,
                        now: int): (Mesh, Result<seq<Chain>, Refusal>) {
    if refs == [] then (m, Err(EvidenceRequired))
    else
      var (after, closed) := SweepChains(m, m.chains.Values(), Closable(tenant, command), Denied,
                                         ClosedEvent(now, refs));
      (after, Ok(closed))
  }

  function Late(now: int): Obligation -> bool { (o: Obligation) => o.status == Open && o.dueAt <= now }

  /** Who hears of an overdue obligation: its policy's route, else the resource owner's, else its own owner. */
  function Route(w: World, escalations: Table<(string, string), EscalationPolicy>,
                 ownership: map<(string, string), Ownership>, o: Obligation): (string, string)
  {
    var key := (o.tenantId, o.escalationPolicyId);
    if key in escalations.at then (escalations.at[key].fallbackOwnerId, escalations.at[key].escalationTeam)
    else
      var resource := if o.commandId in w.actions then w.actions[o.commandId].capability
                      else if o.commandId in w.commands then w.commands[o.commandId].intent else "";
      if resource != "" && (o.tenantId, resource) in ownership then
        (ownership[(o.tenantId, resource)].fallbackOwnerId, ownership[(o.tenantId, resource)].escalationTeam)
      else (o.ownerId, o.ownerTeam)
  }

  function EscalatedEvent(w: World, m: Mesh, now: int): Obligation -> Event {
    EscalatedEventBy(w, m.escalations, m.ownership, now)
  }

  function EscalatedEventBy(w: World, escalations: Table<(string, string), EscalationPolicy>,
                            ownership: map<(string, string), Ownership>, now: int): Obligation -> Event
  {
    (o: Obligation) =>
      var route := Route(w, escalations, ownership, o);
      ObligationEscalated(o.obligationId, o.commandId, o.tenantId, o.ownerId, o.ownerTeam, o.escalationPolicyId,
                          route.0, route.1, now)
  }

  function AsEscalated(): Obligation -> Obligation { (o: Obligation) => o.(status := Escalated) }

  function SweepObligations(w: World, m: Mesh, list: seq<Obligation>, now: int): (Mesh, seq<Obligation>) {
    if list == [] then (m, [])
    else
      var (before, done) := SweepObligations(w, m, list[..|list| - 1], now);
      var o := list[|list| - 1];
      if !Late(now)(o) then (before, done)
      else
        var u := AsEscalated()(o);
        (SaveObligation(before, u).(events := before.events + [EscalatedEvent(w, before, now)(u)]), done + [u])
  }

  lemma SweepObligationsNext(w: World, m: Mesh, list: seq<Obligation>, i: nat, now: int)
    requires i < |list|
    ensures var (before, done) := SweepObligations(w, m, list[..i], now);
            var u := AsEscalated()(list[i]);
            SweepObligations(w, m, list[..i + 1], now)
            == if !Late(now)(list[i]) then (before, done)
               else (SaveObligation(before, u).(events := before.events + [EscalatedEvent(w, before, now)(u)]),
                     done + [u])
  {
    assert list[..i + 1][..i] == list[..i];
  }

  function Escalate(w: World, m: Mesh, now: int): (Mesh, seq<Obligation>) {
    SweepObligations(w, m, m.obligations.Values(), now)
  }

  // ----- Runs -------------------------------------------------------------------------

  datatype Op =
    | RegisterOwnership(ownership: Ownership)
    | RegisterPolicy(policy: Policy)
    | RegisterEscalation(escalation: EscalationPolicy)
    | PrepareAuthority(command: string, now: int)
    | Approve(command: string, approver: string, roles: seq<string>, approved: bool)
    | OpenPostClosure(command: string, certificate: Certificate, now: int)
    | SatisfyObligation(id: string, refs: seq<string>)
    | EscalateOverdue(now: int)
    | ExpireOverdue(now: int)
    | CloseChains(refs: seq<string>, tenant: string, command: string, now: int)

  predicate AcceptsOwnership(o: Ownership) { o.ownerTeam != "" && o.primaryOwnerId != "" }
  predicate AcceptsPolicy(p: Policy) { p.requiredCount >= 0 && p.timeout > 0 }

  predicate AcceptsEscalation(e: EscalationPolicy) {
    e.notifyAfter >= 0 && e.escalateAfter >= 0 && e.incidentAfter >= 0 && e.fallbackOwnerId != ""
    && e.escalationTeam != ""
  }

  function Step(w: World, m: Mesh, op: Op): Mesh {
    match op
    case RegisterOwnership(o) =>
      if AcceptsOwnership(o) then m.(ownership := m.ownership[(o.tenantId, o.resourceRef) := o]) else m
    case RegisterPolicy(p) =>
      if AcceptsPolicy(p) then m.(policies := m.policies.Put((p.tenantId, p.capability, p.riskTier), p)) else m
    case RegisterEscalation(e) =>
      if AcceptsEscalation(e) then m.(escalations := m.escalations.Put((e.tenantId, e.policyId), e)) else m
    case PrepareAuthority(command, now) => Prepare(w, m, command, now).0
    case Approve(command, approver, roles, approved) => RecordApproval(w, m, command, approver, roles, approved).0
    case OpenPostClosure(command, cert, now) => OpenObligations(w, m, command, cert, now).0
    case SatisfyObligation(id, refs) => Satisfy(m, id, refs).0
    case EscalateOverdue(now) => Escalate(w, m, now).0
    case ExpireOverdue(now) => Expire(m, now).0
    case CloseChains(refs, tenant, command, now) => CloseExpired(m, refs, tenant, command, now).0
  }

  function Run(w: World, ops: seq<Op>): Mesh {
    if ops == [] then EMPTY else Step(w, Run(w, ops[..|ops| - 1]), ops[|ops| - 1])
  }

  lemma RunMore(w: World, ops: seq<Op>, op: Op)
    ensures Run(w, ops + [op]) == Step(w, Run(w, ops), op)
  {
    assert (ops + [op])[..|ops|] == ops;
  }
}
