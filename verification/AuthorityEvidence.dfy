/** What an obligation asks for and what satisfies it, told in the characters of the references and the fields of the
    call: in one call and over whole runs. */
module AuthorityEvidence {
  import opened Collections
  import opened AuthorityMesh
  import opened AuthorityRuns
  import opened AuthorityObligations
  import opened AuthorityReopening
  import opened AuthorityApproving

  // ----- References -------------------------------------------------------------------------

  /** The reference is the name itself, or the name with a colon behind it, or `evidence:`, the name and a colon, and
      then anything. */
  ghost predicate Names(ref: string, name: string) {
    || ref == name
    || (|ref| > |name| && ref[..|name|] == name && ref[|name|] == ':')
    || (|ref| > |name| + 9 && ref[..9] == "evidence:" && ref[9..9 + |name|] == name && ref[9 + |name|] == ':')
  }

  lemma StartsWithColon(s: string, front: string)
    ensures StartsWith(s, front + ":") <==> |s| > |front| && s[..|front|] == front && s[|front|] == ':'
  {
    var prefix := front + ":";
    if |s| > |front| && s[..|front|] == front && s[|front|] == ':' {
      assert s[..|prefix|] == prefix;
    }
    if StartsWith(s, prefix) {
      assert s[..|front|] == prefix[..|front|] && s[|front|] == prefix[|front|];
    }
  }

  lemma FrontOfTwo(s: string, a: string, b: string)
    requires |s| >= |a| + |b|
    ensures s[..|a| + |b|] == a + b <==> s[..|a|] == a && s[|a|..|a| + |b|] == b
  {
    var both := s[..|a| + |b|];
    assert both[..|a|] == s[..|a|] && both[|a|..] == s[|a|..|a| + |b|];
    assert (a + b)[..|a|] == a && (a + b)[|a|..] == b;
    assert both == both[..|a|] + both[|a|..];
  }

  lemma NamesMeans(ref: string, name: string)
    ensures Names(ref, name) <==>
            ref == name || StartsWith(ref, name + ":") || StartsWith(ref, "evidence:" + name + ":")
  {
    StartsWithColon(ref, name);
    var word := "evidence:";
    StartsWithColon(ref, word + name);
    assert (word + name) + ":" == word + name + ":";
    if |ref| > |name| + 9 { FrontOfTwo(ref, word, name); }
  }

  /** Some reference names the evidence. */
  ghost predicate Referenced(refs: seq<string>, name: string) { exists i :: 0 <= i < |refs| && Names(refs[i], name) }

  lemma ReferencedMeans(refs: seq<string>, name: string)
    ensures RefSatisfies(name, refs) <==> Referenced(refs, name)
  {
    if RefSatisfies(name, refs) {
      var ref :| ref in refs
                 && (ref == name || StartsWith(ref, name + ":") || StartsWith(ref, "evidence:" + name + ":"));
      NamesMeans(ref, name);
      var i :| 0 <= i < |refs| && refs[i] == ref;
    }
    if Referenced(refs, name) {
      var i :| 0 <= i < |refs| && Names(refs[i], name);
      NamesMeans(refs[i], name);
      assert refs[i] in refs;
    }
  }

  // ----- One satisfaction ---------------------------------------------------------------------

  /** It goes through exactly when the obligation is open or escalated and each piece of evidence it asks for is
      referenced, and then changes its status and nothing else. */
  lemma SatisfactionExact(m: Mesh, id: string, refs: seq<string>, other: string)
    requires forall x | x in m.obligations.at :: m.obligations.at[x].obligationId == x
    ensures var (after, r) := Satisfy(m, id, refs);
            && (r.Ok? <==> id in m.obligations.at
                           && (m.obligations.at[id].status == Open || m.obligations.at[id].status == Escalated)
                           && forall name | name in m.obligations.at[id].evidenceRequired :: Referenced(refs, name))
            && (r.Ok? ==> r.value == m.obligations.at[id].(status := Fulfilled))
            && (other in m.obligations.at <==> other in after.obligations.at)
            && (other in m.obligations.at ==>
                  after.obligations.at[other] == if r.Ok? && other == id then r.value else m.obligations.at[other])
  {
    SatisfyIff(m, id, refs);
    if id in m.obligations.at {
      forall name | name in m.obligations.at[id].evidenceRequired
        ensures RefSatisfies(name, refs) <==> Referenced(refs, name) {
        ReferencedMeans(refs, name);
      }
    }
    if other in m.obligations.at { SatisfyingTable(m, id, refs, other); }
  }

  /** A refusal says what is wrong. */
  lemma SatisfactionRefusal(m: Mesh, id: string, refs: seq<string>)
    requires Satisfy(m, id, refs).1.Err?
    ensures var why := Satisfy(m, id, refs).1.error;
            match why
            case UnknownObligation => id !in m.obligations.at
            case NotSatisfiable => id in m.obligations.at && m.obligations.at[id].status !in {Open, Escalated}
            case EvidenceRequired => id in m.obligations.at && m.obligations.at[id].evidenceRequired != [] && refs == []
            case EvidenceMissing =>
              && id in m.obligations.at
              && exists name | name in m.obligations.at[id].evidenceRequired :: !Referenced(refs, name)
            case _ => false
  {
    if Satisfy(m, id, refs).1.error == EvidenceMissing {
      var required := m.obligations.at[id].evidenceRequired;
      var name := Filter(required, Unmet(refs))[0];
      FilterMember(required, Unmet(refs), name);
      ReferencedMeans(refs, name);
    }
  }

  // ----- Opening ------------------------------------------------------------------------------

  /** What each kind of review asks to be shown. */
  ghost predicate AsksFor(kind: Kind, name: string) {
    match kind
    case RiskReview => name == "review_decision" || name == "risk_owner_attestation"
    case CaseReview => name == "case_disposition"
    case CompensationReview => name == "compensation_receipt" || name == "compensation_reviewer_attestation"
  }

  lemma AsksForMeans(kind: Kind, name: string)
    ensures name in EvidenceFor(kind) <==> AsksFor(kind, name)
  {
  }

  /** Who the resource belongs to, or the requester and tenant operations where nobody was registered for it. */
  ghost predicate OwnedBy(w: World, m: Mesh, command: string, resource: string, owner: string, team: string)
    requires command in w.commands
  {
    var key := (w.commands[command].tenantId, resource);
    if key in m.ownership then owner == m.ownership[key].primaryOwnerId && team == m.ownership[key].ownerTeam
    else owner == w.commands[command].actorId && team == "tenant_operations"
  }

  ghost predicate OpensOne(w: World, m: Mesh, command: string, cert: Certificate, now: int) {
    var r := OpenObligations(w, m, command, cert, now).1;
    command in w.commands && r.Ok? && r.value != []
  }

  /** A closure leaves an obligation exactly when its papers are in order: for an accepted risk an owner on record,
      the risk, the case and an expiry still to come; for a compensation an owner on record, the outcome and a
      reviewer; for a review an owner on record, unless the action is of less than high risk or owners are not
      insisted on. */
  lemma OpensExactly(w: World, m: Mesh, command: string, cert: Certificate, now: int)
    ensures OpensOne(w, m, command, cert, now) <==>
            && command in w.commands
            && var owned := (w.commands[command].tenantId, if command in w.actions then w.actions[command].capability
                                                           else w.commands[command].intent) in m.ownership;
               match cert.disposition
               case AcceptedRisk =>
                 && owned && cert.acceptedRiskId != "" && cert.caseId != ""
                 && cert.riskExpiresAt.Some? && cert.riskExpiresAt.value > now
               case RequiresReview =>
                 owned || !w.strictOwnership || (command in w.actions ==> w.actions[command].riskTier != "high")
               case Compensated => owned && cert.compensationOutcomeId != "" && cert.compensationReviewerId != ""
               case Committed => false
  {
    OpensIff(w, m, command, cert, now);
  }

  /** A closure that leaves an obligation leaves one: of the closed command and its tenant, of the kind and due time the
      disposition calls for and under the certificate presented; it is stored, and no other obligation changes. */
  lemma OpenedSays(w: World, m: Mesh, command: string, cert: Certificate, now: int)
    requires OpensOne(w, m, command, cert, now)
    ensures var (after, r) := OpenObligations(w, m, command, cert, now);
            var o := r.value[0];
            && |r.value| == 1 && after.obligations.at == m.obligations.at[o.obligationId := o]
            && o.commandId == command && o.tenantId == w.commands[command].tenantId && o.status == Open
            && o.certificateId == cert.certificateId
            && match cert.disposition
               case AcceptedRisk => o.kind == RiskReview && cert.riskExpiresAt == Some(o.dueAt)
               case RequiresReview => o.kind == CaseReview && o.dueAt == now + 86400
               case Compensated => o.kind == CompensationReview && o.dueAt == now + 86400
               case Committed => false
  {
    OpenedIsOwed(w, m, command, cert, now);
    OwedShape(w, m, command, cert, now);
    OwedSays(w, m, command, cert, now);
  }

  lemma OpenedIsOwed(w: World, m: Mesh, command: string, cert: Certificate, now: int)
    requires OpensOne(w, m, command, cert, now)
    ensures var (noted, owed) := Owed(w, m, command, cert, now);
            owed.Ok? && owed.value.Some?
            && OpenObligations(w, m, command, cert, now)
               == (SaveObligation(noted, owed.value.value), Ok([owed.value.value]))
  {
  }

  lemma OwedSays(w: World, m: Mesh, command: string, cert: Certificate, now: int)
    requires var owed := Owed(w, m, command, cert, now).1; owed.Ok? && owed.value.Some?
    ensures var o := Owed(w, m, command, cert, now).1.value.value;
            && command in w.commands && o.tenantId == w.commands[command].tenantId
            && o.certificateId == cert.certificateId && o.evidenceRequired == EvidenceFor(o.kind)
            && match cert.disposition
               case AcceptedRisk => o.kind == RiskReview && cert.riskExpiresAt == Some(o.dueAt)
               case RequiresReview => o.kind == CaseReview && o.dueAt == now + 86400
               case Compensated => o.kind == CompensationReview && o.dueAt == now + 86400
               case Committed => false
  {
  }

  /** It asks for its kind's evidence. */
  lemma OpenedAsksItsKind(w: World, m: Mesh, command: string, cert: Certificate, now: int)
    requires OpensOne(w, m, command, cert, now)
    ensures AsksItsKind(OpenObligations(w, m, command, cert, now).1.value[0])
  {
    var o := OpenObligations(w, m, command, cert, now).1.value[0];
    OpenedIsOwed(w, m, command, cert, now);
    OwedSays(w, m, command, cert, now);
    forall name ensures name in o.evidenceRequired <==> AsksFor(o.kind, name) { AsksForMeans(o.kind, name); }
  }

  /** It belongs to the owner of what the command was about. */
  lemma OpenedIsOwned(w: World, m: Mesh, command: string, cert: Certificate, now: int)
    requires OpensOne(w, m, command, cert, now)
    ensures var o := OpenObligations(w, m, command, cert, now).1.value[0];
            OwnedBy(w, m, command, if command in w.actions then w.actions[command].capability
                                   else w.commands[command].intent, o.ownerId, o.ownerTeam)
  {
    OpenedIsOwed(w, m, command, cert, now);
  }

  /** Whom it escalates to: what the policy of the command's current chain says, the default where that policy is not
      registered; without a chain the tenant's only escalation policy, or the default where it has none or several. */
  ghost predicate EscalatesUnder(m: Mesh, tenant: string, command: string, policyId: string) {
    if command in m.commandChain && m.commandChain[command] in m.chains.at then
      var c := m.chains.at[m.commandChain[command]];
      if exists i :: 0 <= i < |m.policies.keys| && m.policies.keys[i] in m.policies.at && FirstUnder(m, i, c.policyId)
      then forall i | 0 <= i < |m.policies.keys| && m.policies.keys[i] in m.policies.at
                      && FirstUnder(m, i, c.policyId) ::
             policyId == m.policies.at[m.policies.keys[i]].escalationPolicyId
      else policyId == "default"
    else
      (exists k | k in m.escalations.at :: OnlyOf(m, tenant, k) && policyId == m.escalations.at[k].policyId)
      || (policyId == "default" && forall k | k in m.escalations.at :: !OnlyOf(m, tenant, k))
  }

  ghost predicate OnlyOf(m: Mesh, tenant: string, k: (string, string))
    requires k in m.escalations.at
  {
    m.escalations.at[k].tenantId == tenant
    && forall x | x in m.escalations.at && m.escalations.at[x].tenantId == tenant :: x == k
  }

  lemma PolicyFound(m: Mesh, policyId: string)
    ensures var found := FirstWithId(m.policies.Values(), policyId);
            && (found.Some? <==> exists i :: 0 <= i < |m.policies.keys| && m.policies.keys[i] in m.policies.at
                                             && FirstUnder(m, i, policyId))
            && forall i | 0 <= i < |m.policies.keys| && m.policies.keys[i] in m.policies.at
                          && FirstUnder(m, i, policyId) ::
                 found == Some(m.policies.at[m.policies.keys[i]])
  {
    var keys, policies := m.policies.keys, m.policies.Values();
    forall i | 0 <= i < |keys| ensures keys[i] in m.policies.at && policies[i] == m.policies.at[keys[i]] {
      assert keys[i] in keys;
    }
    if FirstWithId(policies, policyId).Some? {
      var i := FirstExists(policies, policyId);
      assert FirstUnder(m, i, policyId);
    }
    forall i | 0 <= i < |keys| && FirstUnder(m, i, policyId)
      ensures FirstWithId(policies, policyId) == Some(m.policies.at[keys[i]]) {
      FirstFound(policies, policyId, i);
    }
  }

  lemma {:induction false} FilterOne<T>(s: seq<T>, keep: T -> bool, i: nat)
    requires i < |s| && keep(s[i]) && forall j | 0 <= j < |s| && keep(s[j]) :: j == i
    ensures Filter(s, keep) == [s[i]]
  {
    if i < |s| - 1 {
      FilterOne(s[..|s| - 1], keep, i);
    } else {
      FilterNone(s[..|s| - 1], keep);
    }
  }

  lemma TheOnlyOne(m: Mesh, tenant: string, k: (string, string))
    requires k in m.escalations.at && OnlyOf(m, tenant, k)
    ensures Filter(m.escalations.Values(), OfTenant(tenant)) == [m.escalations.at[k]]
  {
    var keys, all := m.escalations.keys, m.escalations.Values();
    forall i | 0 <= i < |keys| ensures keys[i] in m.escalations.at && all[i] == m.escalations.at[keys[i]] {
      assert keys[i] in keys;
    }
    var i :| 0 <= i < |keys| && keys[i] == k;
    FilterOne(all, OfTenant(tenant), i);
  }

  lemma OneIsTheOnly(m: Mesh, tenant: string)
    requires |Filter(m.escalations.Values(), OfTenant(tenant))| == 1
    ensures exists k | k in m.escalations.at :: OnlyOf(m, tenant, k)
  {
    var keys, all := m.escalations.keys, m.escalations.Values();
    forall i | 0 <= i < |keys| ensures keys[i] in m.escalations.at && all[i] == m.escalations.at[keys[i]] {
      assert keys[i] in keys;
    }
    FilterTwo(all, OfTenant(tenant));
    var i :| 0 <= i < |all| && OfTenant(tenant)(all[i]);
    forall x | x in m.escalations.at && m.escalations.at[x].tenantId == tenant ensures x == keys[i] {
      var j :| 0 <= j < |keys| && keys[j] == x;
      assert OfTenant(tenant)(all[j]);
    }
    assert OnlyOf(m, tenant, keys[i]);
  }

  lemma EscalationPolicyExact(m: Mesh, tenant: string, command: string)
    ensures EscalatesUnder(m, tenant, command, EscalationPolicyIdFor(m, tenant, command))
  {
    if ChainFor(m, command).Some? {
      PolicyFound(m, ChainFor(m, command).value.policyId);
    } else {
      forall k | k in m.escalations.at && OnlyOf(m, tenant, k)
        ensures Filter(m.escalations.Values(), OfTenant(tenant)) == [m.escalations.at[k]] {
        TheOnlyOne(m, tenant, k);
      }
      if |Filter(m.escalations.Values(), OfTenant(tenant))| == 1 { OneIsTheOnly(m, tenant); }
    }
  }

  lemma OpenedEscalatesUnder(w: World, m: Mesh, command: string, cert: Certificate, now: int)
    requires OpensOne(w, m, command, cert, now)
    ensures EscalatesUnder(m, w.commands[command].tenantId, command,
                           OpenObligations(w, m, command, cert, now).1.value[0].escalationPolicyId)
  {
    EscalationPolicyExact(m, w.commands[command].tenantId, command);
    EscalationPolicySame(w, m, command, cert, now);
  }

  lemma EscalationPolicySame(w: World, m: Mesh, command: string, cert: Certificate, now: int)
    requires OpensOne(w, m, command, cert, now)
    ensures OpenObligations(w, m, command, cert, now).1.value[0].escalationPolicyId
            == EscalationPolicyIdFor(m, w.commands[command].tenantId, command)
  {
    OpenedIsOwed(w, m, command, cert, now);
    OwedShape(w, m, command, cert, now);
    if cert.disposition == RequiresReview {
      NotedSamePolicy(m, Owed(w, m, command, cert, now).0, w.commands[command].tenantId, command);
    }
  }

  lemma NotedSamePolicy(m: Mesh, noted: Mesh, tenant: string, command: string)
    requires noted == m.(unowned := noted.unowned)
    ensures EscalationPolicyIdFor(noted, tenant, command) == EscalationPolicyIdFor(m, tenant, command)
  {
  }

  /** A closure is refused for the reason it is told: which of its papers is missing, or whose owner. */
  lemma OpeningRefusal(w: World, m: Mesh, command: string, cert: Certificate, now: int)
    requires OpenObligations(w, m, command, cert, now).1.Err?
    ensures var why := OpenObligations(w, m, command, cert, now).1.error;
            if command !in w.commands then why == UnknownCommand
            else
              var key := (w.commands[command].tenantId, if command in w.actions then w.actions[command].capability
                                                        else w.commands[command].intent);
              match why
              case RiskOwnerRequired => cert.disposition == AcceptedRisk && key !in m.ownership
              case RiskIdsRequired =>
                cert.disposition == AcceptedRisk && (cert.acceptedRiskId == "" || cert.caseId == "")
              case RiskExpiryRequired => cert.disposition == AcceptedRisk && cert.riskExpiresAt == None
              case RiskExpiryPast =>
                cert.disposition == AcceptedRisk && cert.riskExpiresAt.Some? && cert.riskExpiresAt.value <= now
              case OwnershipRequired =>
                cert.disposition == RequiresReview && key !in m.ownership && w.strictOwnership && command in w.actions
                && w.actions[command].riskTier == "high"
              case CompensationOwnerRequired => cert.disposition == Compensated && key !in m.ownership
              case CompensationOutcomeRequired => cert.disposition == Compensated && cert.compensationOutcomeId == ""
              case CompensationReviewerRequired => cert.disposition == Compensated && cert.compensationReviewerId == ""
              case _ => false
  {
  }

  // ----- Whole runs -----------------------------------------------------------------------

  ghost predicate AsksItsKind(o: Obligation) { forall name :: name in o.evidenceRequired <==> AsksFor(o.kind, name) }

  ghost predicate AllAskTheirKind(m: Mesh) { forall id | id in m.obligations.at :: AsksItsKind(m.obligations.at[id]) }

  lemma OpeningAsksItsKind(w: World, m: Mesh, command: string, cert: Certificate, now: int)
    requires AllAskTheirKind(m)
    ensures AllAskTheirKind(OpenObligations(w, m, command, cert, now).0)
  {
    OwedShape(w, m, command, cert, now);
    if OpensOne(w, m, command, cert, now) {
      OpenedSays(w, m, command, cert, now);
      OpenedAsksItsKind(w, m, command, cert, now);
    }
  }

  lemma StatusKeepsAsking(m: Mesh, after: Mesh)
    requires AllAskTheirKind(m)
    requires forall id | id in after.obligations.at ::
               id in m.obligations.at
               && after.obligations.at[id] == m.obligations.at[id].(status := after.obligations.at[id].status)
    ensures AllAskTheirKind(after)
  {
    forall id | id in after.obligations.at ensures AsksItsKind(after.obligations.at[id]) {
      assert AsksItsKind(m.obligations.at[id]);
    }
  }

  lemma StepAsksItsKind(w: World, m: Mesh, op: Op)
    requires Inv(w, m) && AllAskTheirKind(m)
    ensures AllAskTheirKind(Step(w, m, op))
  {
    match op
    case OpenPostClosure(command, cert, now) => OpeningAsksItsKind(w, m, command, cert, now);
    case SatisfyObligation(id, refs) => SatisfyingAsksItsKind(m, id, refs);
    case EscalateOverdue(now) => EscalatingAsksItsKind(w, m, now);
    case _ => StepFrame(w, m, op);
  }

  lemma SatisfyingAsksItsKind(m: Mesh, id: string, refs: seq<string>)
    requires AllAskTheirKind(m) && forall x | x in m.obligations.at :: m.obligations.at[x].obligationId == x
    ensures AllAskTheirKind(Satisfy(m, id, refs).0)
  {
    if Satisfy(m, id, refs).1.Ok? { StatusKeepsAsking(m, Satisfy(m, id, refs).0); }
  }

  lemma EscalatingAsksItsKind(w: World, m: Mesh, now: int)
    requires Inv(w, m) && AllAskTheirKind(m)
    ensures AllAskTheirKind(Escalate(w, m, now).0)
  {
    EscalateOnlyStatus(w, m, now);
    StatusKeepsAsking(m, Escalate(w, m, now).0);
  }

  /** In every run each obligation on record asks for exactly the evidence of its kind. */
  lemma {:induction false} ObligationsAskTheirKind(w: World, ops: seq<Op>)
    ensures AllAskTheirKind(Run(w, ops))
  {
    if ops != [] {
      ObligationsAskTheirKind(w, ops[..|ops| - 1]);
      RunKeepsInv(w, ops[..|ops| - 1]);
      StepAsksItsKind(w, Run(w, ops[..|ops| - 1]), ops[|ops| - 1]);
    }
  }

  /** The `i`-th call satisfies the obligation with a reference naming each piece of evidence its kind asks for. */
  ghost predicate ShownAt(ops: seq<Op>, i: nat, o: Obligation) {
    && i < |ops| && ops[i].SatisfyObligation? && ops[i].id == o.obligationId
    && forall name | AsksFor(o.kind, name) :: Referenced(ops[i].refs, name)
  }

  /** In every run each satisfied obligation once was shown all its kind asks for. */
  lemma SatisfiedWasShown(w: World, ops: seq<Op>, id: string)
    requires id in Run(w, ops).obligations.at && Run(w, ops).obligations.at[id].status == Fulfilled
    ensures exists i: nat :: ShownAt(ops, i, Run(w, ops).obligations.at[id])
  {
    var o := Run(w, ops).obligations.at[id];
    SatisfiedOnEvidence(w, ops, id);
    ObligationsAskTheirKind(w, ops);
    var i: nat :| FulfilledAt(ops, i, o);
    forall name | AsksFor(o.kind, name) ensures Referenced(ops[i].refs, name) {
      assert AsksItsKind(o) && name in o.evidenceRequired;
      ReferencedMeans(ops[i].refs, name);
    }
    assert ShownAt(ops, i, o);
  }

  /** One piece missing alone keeps an obligation unsatisfied. */
  lemma OneMissingPieceRefuses(m: Mesh, id: string, refs: seq<string>, name: string)
    requires id in m.obligations.at && AsksItsKind(m.obligations.at[id])
    requires AsksFor(m.obligations.at[id].kind, name) && !Referenced(refs, name)
    ensures Satisfy(m, id, refs).1.Err? && Satisfy(m, id, refs).0 == m
  {
    SatisfyIff(m, id, refs);
    ReferencedMeans(refs, name);
  }
}
