/** How long an obligation stays settled: opening one again under the same command, kind, due time and certificate
    overwrites whatever became of it. */
module AuthorityReopening {
  import opened Collections
  import opened AuthorityMesh
  import opened AuthorityRuns
  import opened AuthorityObligations
  import opened AuthoritySweeps

  // ----- What a closure opens, before the call ------------------------------------------

  function ResourceOf(w: World, command: string): string
    requires command in w.commands
  {
    if command in w.actions then w.actions[command].capability else w.commands[command].intent
  }

  predicate Owned(w: World, m: Mesh, command: string)
    requires command in w.commands
  {
    (w.commands[command].tenantId, ResourceOf(w, command)) in m.ownership
  }

  /** The closure leaves an obligation: its own papers are in order and somebody can be made to own it. */
  predicate Opens(w: World, m: Mesh, command: string, cert: Certificate, now: int) {
    && command in w.commands
    && match cert.disposition
       case AcceptedRisk =>
         && Owned(w, m, command) && cert.acceptedRiskId != "" && cert.caseId != ""
         && cert.riskExpiresAt.Some? && now < cert.riskExpiresAt.value
       case RequiresReview =>
         Owned(w, m, command) || !w.strictOwnership || command !in w.actions || w.actions[command].riskTier != "high"
       case Compensated => Owned(w, m, command) && cert.compensationOutcomeId != "" && cert.compensationReviewerId != ""
       case Committed => false
  }

  function KindOpened(d: Disposition): Kind {
    match d case AcceptedRisk => RiskReview case Compensated => CompensationReview case _ => CaseReview
  }

  /** What the id of that obligation is taken over. An accepted risk is due when the certificate says. */
  function OpenedKey(command: string, cert: Certificate, now: int): ObligationKey {
    var due := if cert.disposition == AcceptedRisk && cert.riskExpiresAt.Some? then cert.riskExpiresAt.value
               else now + DAY;
    ObligationKey(command, KindOpened(cert.disposition), due, cert.certificateId)
  }

  lemma OpensIff(w: World, m: Mesh, command: string, cert: Certificate, now: int)
    ensures var owed := Owed(w, m, command, cert, now).1;
            && (owed.Ok? && owed.value.Some? <==> Opens(w, m, command, cert, now))
            && (owed.Ok? && owed.value.Some? ==>
                  var o := owed.value.value;
                  && o.status == Open && o.obligationId == w.obligationId(OpenedKey(command, cert, now))
                  && o.evidenceRequired == EvidenceFor(OpenedKey(command, cert, now).kind))
  {
    if command in w.commands {
      match cert.disposition
      case AcceptedRisk =>
      case RequiresReview =>
      case Compensated =>
      case Committed =>
    }
  }

  lemma OpeningTable(w: World, m: Mesh, command: string, cert: Certificate, now: int, id: string)
    requires id in m.obligations.at
    ensures var after := OpenObligations(w, m, command, cert, now).0.obligations.at;
            && id in after
            && if Opens(w, m, command, cert, now) && w.obligationId(OpenedKey(command, cert, now)) == id
               then after[id].status == Open else after[id] == m.obligations.at[id]
  {
    OpensIff(w, m, command, cert, now);
    OwedShape(w, m, command, cert, now);
  }

  // ----- One call -----------------------------------------------------------------------

  /** The obligation is on record and no longer open: escalated or satisfied. */
  ghost predicate Settled(m: Mesh, id: string) { id in m.obligations.at && m.obligations.at[id].status != Open }

  ghost predicate Met(m: Mesh, id: string) { id in m.obligations.at && m.obligations.at[id].status == Fulfilled }

  /** The one kind of call that puts an obligation back: a closure that opens one under its id. */
  ghost predicate Reopens(w: World, m: Mesh, op: Op, id: string) {
    && op.OpenPostClosure? && Opens(w, m, op.command, op.certificate, op.now)
    && w.obligationId(OpenedKey(op.command, op.certificate, op.now)) == id
  }

  /** Where obligation ids do not collide, that is a closure of the same command, of the same kind, due at the same time
      and under the same certificate. */
  lemma ReopensSameIff(w: World, m: Mesh, op: Op, id: string)
    requires Inv(w, m) && id in m.obligations.at && op.OpenPostClosure?
    requires CollisionFree(w.obligationId, {ObligationKeyOf(m.obligations.at[id]),
                                            OpenedKey(op.command, op.certificate, op.now)})
    ensures Reopens(w, m, op, id) <==>
            Opens(w, m, op.command, op.certificate, op.now)
            && OpenedKey(op.command, op.certificate, op.now) == ObligationKeyOf(m.obligations.at[id])
  {
    var mine, asked := ObligationKeyOf(m.obligations.at[id]), OpenedKey(op.command, op.certificate, op.now);
    assert w.obligationId(mine) == id && mine in {mine, asked} && asked in {mine, asked};
  }

  lemma SatisfyingTable(m: Mesh, target: string, refs: seq<string>, id: string)
    requires id in m.obligations.at && forall x | x in m.obligations.at :: m.obligations.at[x].obligationId == x
    ensures var after := Satisfy(m, target, refs).0.obligations.at;
            && id in after
            && after[id] == if id == target && Satisfy(m, target, refs).1.Ok?
                            then m.obligations.at[id].(status := Fulfilled) else m.obligations.at[id]
  {
  }

  lemma EscalatingTable(w: World, m: Mesh, now: int, id: string)
    requires Inv(w, m) && id in m.obligations.at
    ensures id in Escalate(w, m, now).0.obligations.at
    ensures Escalate(w, m, now).0.obligations.at[id] == Raised(now)(m.obligations.at[id])
  {
    ValuesOk(w, m);
    SweepObligationsTable(w, m, m.obligations.Values(), now);
    var i :| 0 <= i < |m.obligations.keys| && m.obligations.keys[i] == id;
    assert m.obligations.Values()[i] == m.obligations.at[id];
  }

  /** Nothing about the obligation changes, but for satisfying it, escalating it or opening it again. */
  ghost predicate SettledKept(w: World, m: Mesh, op: Op, id: string) {
    && (Settled(m, id) ==> (Settled(Step(w, m, op), id) <==> !Reopens(w, m, op, id)))
    && (Met(m, id) ==> (Met(Step(w, m, op), id) <==> !Reopens(w, m, op, id)))
  }

  lemma OpeningKeptIff(w: World, m: Mesh, command: string, cert: Certificate, now: int, id: string)
    requires Inv(w, m) && id in m.obligations.at
    ensures SettledKept(w, m, OpenPostClosure(command, cert, now), id)
  {
    OpeningTable(w, m, command, cert, now, id);
  }

  lemma SatisfyingKept(w: World, m: Mesh, target: string, refs: seq<string>, id: string)
    requires Inv(w, m) && id in m.obligations.at
    ensures SettledKept(w, m, SatisfyObligation(target, refs), id)
  {
    SatisfyingTable(m, target, refs, id);
  }

  lemma EscalatingKept(w: World, m: Mesh, now: int, id: string)
    requires Inv(w, m) && id in m.obligations.at
    ensures SettledKept(w, m, EscalateOverdue(now), id)
  {
    EscalatingTable(w, m, now, id);
  }

  /** A settled obligation stays settled through a call, and a satisfied one satisfied, exactly when the call does not
      open it again. */
  lemma StepKeepsFulfilledIff(w: World, m: Mesh, op: Op, id: string)
    requires Inv(w, m) && id in m.obligations.at
    ensures SettledKept(w, m, op, id)
  {
    match op
    case OpenPostClosure(command, cert, now) => OpeningKeptIff(w, m, command, cert, now, id);
    case SatisfyObligation(target, refs) => SatisfyingKept(w, m, target, refs, id);
    case EscalateOverdue(now) => EscalatingKept(w, m, now, id);
    case _ => StepFrame(w, m, op);
  }

  // ----- Whole runs -----------------------------------------------------------------------

  ghost function MetAlong(w: World, ops: seq<Op>, id: string): (r: seq<bool>)
    ensures |r| == |ops| + 1 && forall i | 0 <= i <= |ops| :: r[i] == Met(Run(w, ops[..i]), id)
  {
    seq(|ops| + 1, i requires 0 <= i <= |ops| => Met(Run(w, ops[..i]), id))
  }

  ghost function SparesAlong(w: World, ops: seq<Op>, id: string): (r: seq<bool>)
    ensures |r| == |ops| && forall i | 0 <= i < |ops| :: r[i] == !Reopens(w, Run(w, ops[..i]), ops[i], id)
  {
    seq(|ops|, i requires 0 <= i < |ops| => !Reopens(w, Run(w, ops[..i]), ops[i], id))
  }

  lemma NextMetIff(w: World, ops: seq<Op>, id: string, i: nat)
    requires i < |ops| && MetAlong(w, ops, id)[i]
    ensures MetAlong(w, ops, id)[i + 1] == SparesAlong(w, ops, id)[i]
  {
    PrefixNext(ops, i);
    RunMore(w, ops[..i], ops[i]);
    RunKeepsInv(w, ops[..i]);
    StepKeepsFulfilledIff(w, Run(w, ops[..i]), ops[i], id);
  }

  /** An obligation satisfied after `start` calls stays so throughout the rest of a run exactly when no later call opens
      it again. */
  lemma MetThroughoutIff(w: World, ops: seq<Op>, id: string, start: nat)
    requires start <= |ops| && MetAlong(w, ops, id)[start]
    ensures (forall i | start <= i <= |ops| :: MetAlong(w, ops, id)[i])
            <==> (forall i | start <= i < |ops| :: SparesAlong(w, ops, id)[i])
  {
    forall i | start <= i < |ops| && MetAlong(w, ops, id)[i]
      ensures MetAlong(w, ops, id)[i + 1] == SparesAlong(w, ops, id)[i] {
      NextMetIff(w, ops, id, i);
    }
    ThroughoutIff(MetAlong(w, ops, id), SparesAlong(w, ops, id), start);
  }

  // ----- It happens -----------------------------------------------------------------------

  lemma SatisfiedNow(w: World, m: Mesh, id: string, refs: seq<string>)
    requires Inv(w, m) && id in m.obligations.at && m.obligations.at[id].status == Open
    requires Covers(refs, m.obligations.at[id].evidenceRequired)
    ensures var after := Step(w, m, SatisfyObligation(id, refs));
            Met(after, id) && after.ownership == m.ownership && Inv(w, after)
  {
    SatisfyIff(m, id, refs);
    SatisfyKeepsInv(w, m, id, refs);
  }

  lemma OpenedNow(w: World, m: Mesh, command: string, cert: Certificate, now: int)
    requires Inv(w, m) && Opens(w, m, command, cert, now)
    ensures var after, id := Step(w, m, OpenPostClosure(command, cert, now)),
            w.obligationId(OpenedKey(command, cert, now));
            && Inv(w, after) && after.ownership == m.ownership && id in after.obligations.at
            && after.obligations.at[id].status == Open
            && after.obligations.at[id].evidenceRequired == EvidenceFor(OpenedKey(command, cert, now).kind)
  {
    OpensIff(w, m, command, cert, now);
    OwedShape(w, m, command, cert, now);
    OpenKeepsInv(w, m, command, cert, now);
  }

  lemma MetThenOpen(w: World, m: Mesh, command: string, cert: Certificate, refs: seq<string>, later: int)
    requires Inv(w, m) && Opens(w, m, command, cert, 0) && cert.disposition == AcceptedRisk
    requires later < cert.riskExpiresAt.value && Covers(refs, EvidenceFor(RiskReview))
    ensures var id := w.obligationId(OpenedKey(command, cert, 0));
            var met := Step(w, Step(w, m, OpenPostClosure(command, cert, 0)), SatisfyObligation(id, refs));
            var again := Step(w, met, OpenPostClosure(command, cert, later));
            Met(met, id) && id in again.obligations.at && again.obligations.at[id].status == Open
  {
    var id := w.obligationId(OpenedKey(command, cert, 0));
    OpenedNow(w, m, command, cert, 0);
    var open := Step(w, m, OpenPostClosure(command, cert, 0));
    SatisfiedNow(w, open, id, refs);
    OpenedNow(w, Step(w, open, SatisfyObligation(id, refs)), command, cert, later);
  }

  /** A certificate that accepts a risk until `expiry`. */
  function RiskAccepted(certificateId: string, riskId: string, caseId: string, expiry: int): Certificate {
    Certificate(certificateId, AcceptedRisk, riskId, caseId, Some(expiry), "", "")
  }

  /** From an empty mesh: an owner, an accepted risk reviewed with all its evidence, and the same closure presented
      again at any later time before it expires. The satisfied obligation is open again. */
  lemma ReopenedAfterSatisfaction(w: World, o: Ownership, command: string, cert: Certificate, refs: seq<string>,
                                  later: int)
    requires command in w.commands && AcceptsOwnership(o)
    requires o.tenantId == w.commands[command].tenantId && o.resourceRef == ResourceOf(w, command)
    requires cert == RiskAccepted(cert.certificateId, cert.acceptedRiskId, cert.caseId, 100)
    requires cert.acceptedRiskId != "" && cert.caseId != "" && 0 < later < 100 && Covers(refs, EvidenceFor(RiskReview))
    ensures var m, id := Step(w, EMPTY, RegisterOwnership(o)), w.obligationId(OpenedKey(command, cert, 0));
            var met := Step(w, Step(w, m, OpenPostClosure(command, cert, 0)), SatisfyObligation(id, refs));
            var again := Step(w, met, OpenPostClosure(command, cert, later));
            Met(met, id) && id in again.obligations.at && again.obligations.at[id].status == Open
  {
    var m := Step(w, EMPTY, RegisterOwnership(o));
    OwnerRegistered(w, o);
    MetThenOpen(w, m, command, cert, refs, later);
  }

  lemma OwnerRegistered(w: World, o: Ownership)
    requires AcceptsOwnership(o)
    ensures var m := Step(w, EMPTY, RegisterOwnership(o)); Inv(w, m) && (o.tenantId, o.resourceRef) in m.ownership
  {
  }
}
