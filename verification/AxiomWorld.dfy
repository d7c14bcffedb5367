/** The world-state kernel: observed symbols, governed claims, conflict marking and scoped
    projection. What the world-state store answers is a parameter of every call. */
module AxiomWorld {
  import opened Collections

  /** The eleven truth states; the kernel itself only ever stores five of them. */
  datatype TruthState =
    | Unobserved | Proposed | Hypothesis | Supported | Validated | Canonical
    | Conflicted | Revoked | Deprecated | Simulated | Superseded

  datatype Decision = Accept | Reject | Quarantine | SimulateOnly | RequireEvidence
  datatype Scope = Public | Internal | Private | Simulation

  datatype Confidence = Confidence(
    sourceReliability: real, evidenceQuality: real, temporalFreshness: real, causalCoherence: real,
    graphConsistency: real, permissionSafety: real, counterevidencePressure: real)
  {
    function Overall(): (r: real)
      ensures 0.0 <= r <= 1.0
    {
      var x := (sourceReliability + evidenceQuality + temporalFreshness + causalCoherence + graphConsistency
                + permissionSafety) / 6.0 - counterevidencePressure;
      if x < 0.0 then 0.0 else if x > 1.0 then 1.0 else x
    }
  }

  /** A stable fingerprint after str() on its keys and values. */
  type Fingerprint = map<string, string>

  datatype Observation = Observation(entityId: string, tenantId: string, kind: string, title: string,
                                     fingerprint: Fingerprint, evidence: seq<string>, scope: Scope,
                                     publicPermission: bool, confidence: Confidence)

  datatype Symbol = Symbol(entityId: string, tenantId: string, kind: string, title: string, fingerprint: Fingerprint,
                           evidence: seq<string>, state: TruthState, confidence: Confidence, scope: Scope,
                           publicPermission: bool)

  datatype Proposal = Proposal(claimId: string, tenantId: string, subject: string, relation: string, value: string,
                               evidence: seq<string>, confidence: Confidence, scope: Scope, simulated: bool)

  datatype Claim = Claim(claimId: string, tenantId: string, subject: string, relation: string, value: string,
                         evidence: seq<string>, state: TruthState, confidence: Confidence, scope: Scope,
                         admitted: bool, simulated: bool)

  /** The store's answer: accepted or not, and why. */
  datatype Admission = Admission(accepted: bool, reason: string, objectId: string)

  /** Why a receipt says what it says; a refusal by the store carries the store's own reason. */
  datatype Reason =
    | IdentityConflictDetected | ObservationAdmitted | SubjectNotObserved | SimulationRecorded | ClaimNeedsEvidence
    | ClaimSupported
    | ConflictKept | ClaimNotFound | NeedsReconciliation | SimulationNeedsEvidence | HypothesisNeedsEvidence
    | IllegalTransition
    | TransitionSupported | TransitionValidated | ProjectionEmitted | AdmissionRefused(text: string)

  datatype Receipt = Receipt(decision: Decision, reason: Reason, objectId: string, evidenceUsed: seq<string>,
                             conflicts: seq<string>)

  datatype Kernel = Kernel(symbols: Dict<string, Symbol>, claims: Dict<string, Claim>,
                           fingerprints: map<Fingerprint, string>, receipts: seq<Receipt>)

  const EMPTY := Kernel(Dict([], map[]), Dict([], map[]), map[], [])

  datatype Op =
    | Observe(event: Observation, entityAdmission: Admission)
    | Propose(proposal: Proposal, claimAdmission: Admission, contradictionAdmission: Admission)
    | Validate(claimId: string, evidence: seq<string>, validationAdmission: Admission)
    | Project(tenantId: string, scope: Scope)

  function Log(k: Kernel, r: Receipt): Kernel { k.(receipts := k.receipts + [r]) }

  function AdmissionReceipt(a: Admission, evidence: seq<string>): Receipt {
    Receipt(Reject, AdmissionRefused(a.reason), a.objectId, evidence, [])
  }

  // ----- Observation ----------------------------------------------------------------

  /** An empty entity id on record is falsy in the source and does not block a newcomer. */
  predicate IdentityConflict(k: Kernel, event: Observation) {
    event.fingerprint in k.fingerprints
    && k.fingerprints[event.fingerprint] != "" && k.fingerprints[event.fingerprint] != event.entityId
  }

  function SymbolOf(e: Observation): Symbol {
    Symbol(e.entityId, e.tenantId, e.kind, e.title, e.fingerprint, e.evidence, Supported, e.confidence, e.scope,
           e.publicPermission)
  }

  function ObserveStep(k: Kernel, e: Observation, admission: Admission): Kernel {
    if IdentityConflict(k, e) then
      Log(k, Receipt(Quarantine, IdentityConflictDetected, e.entityId, e.evidence,
                     ["possible_same_as:" + k.fingerprints[e.fingerprint]]))
    else if !admission.accepted then Log(k, AdmissionReceipt(admission, e.evidence))
    else Log(k.(symbols := k.symbols.Put(e.entityId, SymbolOf(e)),
                fingerprints := k.fingerprints[e.fingerprint := e.entityId]),
             Receipt(Accept, ObservationAdmitted, e.entityId, e.evidence, []))
  }

  // ----- Claims ---------------------------------------------------------------------

  predicate Inactive(s: TruthState) { s == Revoked || s == Deprecated || s == Superseded }

  predicate Rivals(c: Claim, tenantId: string, subject: string, relation: string, value: string) {
    c.tenantId == tenantId && c.subject == subject && c.relation == relation && c.value != value
  }

  function ConflictsWith(claims: map<string, Claim>, p: Proposal): string -> bool {
    id => id in claims && !Inactive(claims[id].state) && Rivals(claims[id], p.tenantId, p.subject, p.relation, p.value)
  }

  /** The ids of live claims about the same thing with another value, in insertion order. */
  function ClaimConflicts(k: Kernel, p: Proposal): seq<string> {
    Filter(k.claims.keys, ConflictsWith(k.claims.at, p))
  }

  function RecordOf(p: Proposal, state: TruthState, admitted: bool): Claim {
    Claim(p.claimId, p.tenantId, p.subject, p.relation, p.value, p.evidence, state, p.confidence, p.scope, admitted,
          p.simulated)
  }

  function StoreClaim(k: Kernel, c: Claim): Kernel { k.(claims := k.claims.Put(c.claimId, c)) }

  function MarkedConflicted(c: Claim): Claim {
    c.(state := Conflicted, confidence := c.confidence.(counterevidencePressure := 0.3))
  }

  /** Every id of `ids` marked as conflicted, everything else untouched. */
  function MarkAll(claims: Dict<string, Claim>, ids: seq<string>): Dict<string, Claim> {
    Dict(claims.keys, map id | id in claims.at :: if id in ids then MarkedConflicted(claims.at[id]) else claims.at[id])
  }

  function ProposeStep(k: Kernel, p: Proposal, claimAdmission: Admission, contradictionAdmission: Admission): Kernel {
    if p.subject !in k.symbols.at then Log(k, Receipt(Reject, SubjectNotObserved, p.claimId, p.evidence, []))
    else if p.simulated then
      Log(StoreClaim(k, RecordOf(p, Simulated, false)),
          Receipt(SimulateOnly, SimulationRecorded, p.claimId, p.evidence, []))
    else if p.evidence == [] then
      Log(StoreClaim(k, RecordOf(p, Hypothesis, false)),
          Receipt(RequireEvidence, ClaimNeedsEvidence, p.claimId, [], []))
    else if !claimAdmission.accepted then Log(k, AdmissionReceipt(claimAdmission, p.evidence))
    else
      var conflicts := ClaimConflicts(k, p);
      if conflicts == [] then
        Log(StoreClaim(k, RecordOf(p, Supported, true)), Receipt(Accept, ClaimSupported, p.claimId, p.evidence, []))
      else
        var marked := k.(claims := MarkAll(k.claims.Put(p.claimId, RecordOf(p, Conflicted, true)), conflicts));
        if !contradictionAdmission.accepted then Log(marked, AdmissionReceipt(contradictionAdmission, p.evidence))
        else Log(marked, Receipt(Quarantine, ConflictKept, p.claimId, p.evidence, conflicts))
  }

  function NextValidationState(s: TruthState, hasEvidence: bool): TruthState {
    if s == Hypothesis || s == Simulated then if hasEvidence then Supported else s
    else if s == Supported then Validated
    else s
  }

  function AllowedTransitions(s: TruthState): set<TruthState> {
    match s
    case Unobserved => {Proposed, Hypothesis}
    case Proposed => {Hypothesis, Supported, Simulated}
    case Hypothesis => {Supported, Conflicted, Revoked}
    case Supported => {Validated, Conflicted, Deprecated, Revoked}
    case Validated => {Canonical, Conflicted, Deprecated, Revoked, Superseded}
    case Canonical => {Superseded, Conflicted}
    case Conflicted => {Supported, Revoked, Deprecated}
    case Simulated => {Supported, Revoked}
    case _ => {}
  }

  function Validation(c: Claim, evidence: seq<string>): Claim {
    var target := NextValidationState(c.state, evidence != []);
    c.(state := target, evidence := c.evidence + evidence,
       admitted := c.admitted || target == Supported,
       simulated := if target == Supported then false else c.simulated)
  }

  function ValidateStep(k: Kernel, id: string, evidence: seq<string>, admission: Admission): Kernel {
    if id !in k.claims.at then Log(k, Receipt(Reject, ClaimNotFound, id, evidence, []))
    else
      var c := k.claims.at[id];
      if c.state == Conflicted then
        Log(k, Receipt(Quarantine, NeedsReconciliation, id, c.evidence + evidence, [id]))
      else if c.state == Simulated && evidence == [] then
        Log(k, Receipt(RequireEvidence, SimulationNeedsEvidence, id, [], []))
      else if c.state == Hypothesis && evidence == [] then
        Log(k, Receipt(RequireEvidence, HypothesisNeedsEvidence, id, [], []))
      else if NextValidationState(c.state, evidence != []) !in AllowedTransitions(c.state) then
        Log(k, Receipt(Reject, IllegalTransition, id, c.evidence + evidence, []))
      else if !c.admitted && NextValidationState(c.state, evidence != []) == Supported && !admission.accepted then
        Log(k, AdmissionReceipt(admission, evidence))
      else
        Log(k.(claims := k.claims.Put(id, Validation(c, evidence))),
            Receipt(Accept, if NextValidationState(c.state, evidence != []) == Supported then TransitionSupported
                            else TransitionValidated, id, c.evidence + evidence, []))
  }

  function Step(k: Kernel, op: Op): Kernel {
    match op
    case Observe(event, admission) => ObserveStep(k, event, admission)
    case Propose(p, a, b) => ProposeStep(k, p, a, b)
    case Validate(id, evidence, admission) => ValidateStep(k, id, evidence, admission)
    case Project(tenantId, scope) => Log(k, Receipt(Accept, ProjectionEmitted, ProjectionId(tenantId, scope), [], []))
  }

  function ProjectionId(tenantId: string, scope: Scope): string {
    "projection:" + tenantId + ":" + (match scope case Public => "public" case Internal => "internal"
                                      case Private => "private" case Simulation => "simulation")
  }

  ghost function Run(ops: seq<Op>): Kernel {
    if ops == [] then EMPTY else Step(Run(ops[..|ops| - 1]), ops[|ops| - 1])
  }

  lemma RunMore(ops: seq<Op>, op: Op)
    ensures Run(ops + [op]) == Step(Run(ops), op)
  {
    assert (ops + [op])[..|ops|] == ops;
  }

  // ----- Reality and identity -------------------------------------------------------

  predicate Supporting(s: TruthState) { s == Supported || s == Validated }

  /** Which combinations of state, admission, simulation and evidence a claim can show. */
  ghost predicate RealClaim(symbols: map<string, Symbol>, id: string, c: Claim) {
    && c.claimId == id
    && c.subject in symbols
    && c.state in {Hypothesis, Simulated, Supported, Validated, Conflicted}
    && (Supporting(c.state) ==> c.admitted && !c.simulated && c.evidence != [])
    && ((c.state == Hypothesis || c.state == Simulated) ==> !c.admitted)
  }

  /** The fingerprint index names the entity that currently carries each fingerprint. */
  ghost predicate Indexed(k: Kernel, id: string)
    requires id in k.symbols.at
  {
    var s := k.symbols.at[id];
    s.entityId == id && s.state == Supported
    && (id != "" ==> s.fingerprint in k.fingerprints && k.fingerprints[s.fingerprint] == id)
  }

  ghost predicate Inv(k: Kernel) {
    && k.symbols.Valid() && k.claims.Valid()
    && (forall id | id in k.claims.at :: RealClaim(k.symbols.at, id, k.claims.at[id]))
    && (forall id | id in k.symbols.at :: Indexed(k, id))
  }

  lemma ObserveKeepsInv(k: Kernel, e: Observation, admission: Admission)
    requires Inv(k)
    ensures Inv(ObserveStep(k, e, admission))
  {
    var after := ObserveStep(k, e, admission);
    PutValid(k.symbols, e.entityId, SymbolOf(e));
    forall id | id in after.symbols.at ensures Indexed(after, id) {
      if id in k.symbols.at { assert Indexed(k, id); }
    }
    forall id | id in after.claims.at ensures RealClaim(after.symbols.at, id, after.claims.at[id]) {
      assert RealClaim(k.symbols.at, id, k.claims.at[id]);
    }
  }

  lemma StoreKeepsInv(k: Kernel, c: Claim)
    requires Inv(k) && RealClaim(k.symbols.at, c.claimId, c)
    ensures Inv(StoreClaim(k, c))
  {
    PutValid(k.claims, c.claimId, c);
    var after := StoreClaim(k, c);
    forall id | id in after.symbols.at ensures Indexed(after, id) { assert Indexed(k, id); }
  }

  lemma MarkKeepsInv(k: Kernel, ids: seq<string>)
    requires Inv(k)
    ensures Inv(k.(claims := MarkAll(k.claims, ids)))
  {
    var after := k.(claims := MarkAll(k.claims, ids));
    forall id | id in after.symbols.at ensures Indexed(after, id) { assert Indexed(k, id); }
    forall id | id in after.claims.at ensures RealClaim(after.symbols.at, id, after.claims.at[id]) {
      assert RealClaim(k.symbols.at, id, k.claims.at[id]);
    }
  }

  lemma LogKeepsInv(k: Kernel, r: Receipt)
    requires Inv(k)
    ensures Inv(Log(k, r))
  {
    forall id | id in k.symbols.at ensures Indexed(Log(k, r), id) { assert Indexed(k, id); }
  }

  lemma ProposeKeepsInv(k: Kernel, p: Proposal, a: Admission, b: Admission)
    requires Inv(k)
    ensures Inv(ProposeStep(k, p, a, b))
  {
    var after := ProposeStep(k, p, a, b);
    var receipt := after.receipts[|k.receipts|];
    if p.subject !in k.symbols.at {
      LogKeepsInv(k, receipt);
    } else if p.simulated {
      StoreKeepsInv(k, RecordOf(p, Simulated, false));
      LogKeepsInv(StoreClaim(k, RecordOf(p, Simulated, false)), receipt);
    } else if p.evidence == [] {
      StoreKeepsInv(k, RecordOf(p, Hypothesis, false));
      LogKeepsInv(StoreClaim(k, RecordOf(p, Hypothesis, false)), receipt);
    } else if !a.accepted {
      LogKeepsInv(k, receipt);
    } else if ClaimConflicts(k, p) == [] {
      StoreKeepsInv(k, RecordOf(p, Supported, true));
      LogKeepsInv(StoreClaim(k, RecordOf(p, Supported, true)), receipt);
    } else {
      var stored := StoreClaim(k, RecordOf(p, Conflicted, true));
      StoreKeepsInv(k, RecordOf(p, Conflicted, true));
      MarkKeepsInv(stored, ClaimConflicts(k, p));
      LogKeepsInv(stored.(claims := MarkAll(stored.claims, ClaimConflicts(k, p))), receipt);
    }
  }

  /** The call gets past every refusal, so the claim advances. */
  predicate Advances(k: Kernel, id: string, evidence: seq<string>, admission: Admission) {
    && id in k.claims.at
    && (var c := k.claims.at[id];
        && ((c.state == Hypothesis || c.state == Simulated) ==> evidence != [])
        && (c.state == Hypothesis || c.state == Simulated || c.state == Supported)
        && (!c.admitted && c.state != Supported ==> admission.accepted))
  }

  lemma AdvancingStores(k: Kernel, id: string, evidence: seq<string>, admission: Admission)
    requires Advances(k, id, evidence, admission)
    ensures exists r :: ValidateStep(k, id, evidence, admission)
                        == Log(k.(claims := k.claims.Put(id, Validation(k.claims.at[id], evidence))), r)
  {
    var c := k.claims.at[id];
    assert NextValidationState(c.state, evidence != []) in AllowedTransitions(c.state) by {
      assert Supported in AllowedTransitions(Hypothesis) && Supported in AllowedTransitions(Simulated);
      assert Validated in AllowedTransitions(Supported);
    }
    var after := ValidateStep(k, id, evidence, admission);
    assert after == Log(k.(claims := k.claims.Put(id, Validation(c, evidence))), after.receipts[|k.receipts|]);
  }

  lemma RefusingOnlyLogs(k: Kernel, id: string, evidence: seq<string>, admission: Admission)
    requires Inv(k) && !Advances(k, id, evidence, admission)
    ensures exists r :: ValidateStep(k, id, evidence, admission) == Log(k, r)
  {
    if id in k.claims.at {
      assert RealClaim(k.symbols.at, id, k.claims.at[id]);
      assert Validated !in AllowedTransitions(Validated);
    }
    var after := ValidateStep(k, id, evidence, admission);
    assert after == Log(k, after.receipts[|k.receipts|]);
  }

  lemma ValidateKeepsInv(k: Kernel, id: string, evidence: seq<string>, a: Admission)
    requires Inv(k)
    ensures Inv(ValidateStep(k, id, evidence, a))
  {
    if Advances(k, id, evidence, a) {
      AdvancingStores(k, id, evidence, a);
      var c := Validation(k.claims.at[id], evidence);
      var receipt :| ValidateStep(k, id, evidence, a) == Log(k.(claims := k.claims.Put(id, c)), receipt);
      assert RealClaim(k.symbols.at, id, k.claims.at[id]);
      StoreKeepsInv(k, c);
      LogKeepsInv(StoreClaim(k, c), receipt);
    } else {
      RefusingOnlyLogs(k, id, evidence, a);
      var receipt :| ValidateStep(k, id, evidence, a) == Log(k, receipt);
      LogKeepsInv(k, receipt);
    }
  }

  lemma StepKeepsInv(k: Kernel, op: Op)
    requires Inv(k)
    ensures Inv(Step(k, op))
  {
    match op
    case Observe(event, admission) => ObserveKeepsInv(k, event, admission);
    case Propose(p, a, b) => ProposeKeepsInv(k, p, a, b);
    case Validate(id, evidence, admission) => ValidateKeepsInv(k, id, evidence, admission);
    case Project(tenantId, scope) =>
      LogKeepsInv(k, Receipt(Accept, ProjectionEmitted, ProjectionId(tenantId, scope), [], []));
  }

  /** Every reachable kernel keeps claims tied to reality and symbols to their fingerprints. */
  lemma {:induction false} RealityHolds(ops: seq<Op>)
    ensures Inv(Run(ops))
  {
    if ops != [] {
      RealityHolds(ops[..|ops| - 1]);
      StepKeepsInv(Run(ops[..|ops| - 1]), ops[|ops| - 1]);
    }
  }

  /** No two entities with non-empty ids share a current fingerprint. */
  lemma FingerprintsIdentify(ops: seq<Op>, a: string, b: string)
    requires a in Run(ops).symbols.at && b in Run(ops).symbols.at && a != "" && b != ""
    requires Run(ops).symbols.at[a].fingerprint == Run(ops).symbols.at[b].fingerprint
    ensures a == b
  {
    RealityHolds(ops);
    assert Indexed(Run(ops), a) && Indexed(Run(ops), b);
  }

  ghost predicate OneEntityEach(symbols: map<string, Symbol>) {
    forall a, b | a in symbols && b in symbols && symbols[a].fingerprint == symbols[b].fingerprint :: a == b
  }

  /** An observation is admitted under the fingerprint that the entity with the empty id carries. */
  predicate SharesNameless(k: Kernel, op: Op) {
    && op.Observe? && op.entityAdmission.accepted && !IdentityConflict(k, op.event)
    && op.event.entityId != "" && "" in k.symbols.at && k.symbols.at[""].fingerprint == op.event.fingerprint
  }

  lemma ObserveOneEntityIff(k: Kernel, e: Observation, admission: Admission)
    requires Inv(k) && OneEntityEach(k.symbols.at)
    ensures OneEntityEach(ObserveStep(k, e, admission).symbols.at) <==> !SharesNameless(k, Observe(e, admission))
  {
    var after := ObserveStep(k, e, admission).symbols.at;
    if admission.accepted && !IdentityConflict(k, e) {
      forall a | a in k.symbols.at && a != "" && k.symbols.at[a].fingerprint == e.fingerprint ensures a == e.entityId {
        assert Indexed(k, a);
      }
      if SharesNameless(k, Observe(e, admission)) {
        assert after[""].fingerprint == after[e.entityId].fingerprint;
      }
    }
  }

  /** Two current entities come to share a fingerprint exactly when a call admits one under the fingerprint of the
      entity with the empty id. */
  lemma StepOneEntityIff(k: Kernel, op: Op)
    requires Inv(k) && OneEntityEach(k.symbols.at)
    ensures OneEntityEach(Step(k, op).symbols.at) <==> !SharesNameless(k, op)
  {
    if op.Observe? { ObserveOneEntityIff(k, op.event, op.entityAdmission); }
  }

  /** The store refuses an object without an id. */
  ghost predicate RefusesNameless(ops: seq<Op>) {
    forall i | 0 <= i < |ops| && ops[i].Observe? && ops[i].event.entityId == "" :: !ops[i].entityAdmission.accepted
  }

  /** With a store that refuses empty ids, in every run each fingerprint is carried by at most one entity. */
  lemma {:induction false} FingerprintsDistinct(ops: seq<Op>)
    requires RefusesNameless(ops)
    ensures "" !in Run(ops).symbols.at && OneEntityEach(Run(ops).symbols.at)
  {
    if ops != [] {
      RefusesFront(ops);
      FingerprintsDistinct(ops[..|ops| - 1]);
      RealityHolds(ops[..|ops| - 1]);
      NamelessStaysOut(Run(ops[..|ops| - 1]), ops[|ops| - 1]);
    }
  }

  lemma RefusesFront(ops: seq<Op>)
    requires RefusesNameless(ops) && ops != []
    ensures RefusesNameless(ops[..|ops| - 1])
    ensures var op := ops[|ops| - 1]; op.Observe? && op.event.entityId == "" ==> !op.entityAdmission.accepted
  {
    assert forall i | 0 <= i < |ops| - 1 :: ops[..|ops| - 1][i] == ops[i];
  }

  lemma NamelessStaysOut(k: Kernel, op: Op)
    requires Inv(k) && OneEntityEach(k.symbols.at) && "" !in k.symbols.at
    requires op.Observe? && op.event.entityId == "" ==> !op.entityAdmission.accepted
    ensures "" !in Step(k, op).symbols.at && OneEntityEach(Step(k, op).symbols.at)
  {
    StepOneEntityIff(k, op);
    if op.Observe? { ObservedSymbols(k, op.event, op.entityAdmission); }
  }

  lemma ObservedSymbols(k: Kernel, e: Observation, admission: Admission)
    ensures ObserveStep(k, e, admission).symbols.at
            == if admission.accepted && !IdentityConflict(k, e) then k.symbols.at[e.entityId := SymbolOf(e)]
            else k.symbols.at
  {
  }

  /** With an empty entity id the identity check is skipped: two entities, one fingerprint. This takes a store that
      admits an empty id. */
  lemma EmptyIdEscapesIdentityCheck(event: Observation, other: string, admission: Admission)
    requires other != "" && admission.accepted
    ensures var ops := [Observe(event.(entityId := ""), admission), Observe(event.(entityId := other), admission)];
            "" in Run(ops).symbols.at && other in Run(ops).symbols.at
            && Run(ops).symbols.at[""].fingerprint == Run(ops).symbols.at[other].fingerprint
  {
    var first, second := Observe(event.(entityId := ""), admission), Observe(event.(entityId := other), admission);
    assert [first, second][..1] == [first] && [first][..0] == [];
    assert Run([first]) == Step(EMPTY, first);
  }

  // ----- Claim coherence ------------------------------------------------------------

  ghost predicate CoherentPair(c: Claim, d: Claim) {
    Supporting(c.state) && Supporting(d.state) ==> !Rivals(c, d.tenantId, d.subject, d.relation, d.value)
  }

  /** No two supported claims of one tenant give one subject and predicate different values. */
  ghost predicate Coherent(claims: map<string, Claim>) {
    forall x, y | x in claims && y in claims :: CoherentPair(claims[x], claims[y])
  }

  predicate SupportedRival(claims: map<string, Claim>, id: string, c: Claim) {
    id in claims && Supporting(claims[id].state) && Rivals(claims[id], c.tenantId, c.subject, c.relation, c.value)
  }

  /** The unchecked promotion: un-admitted claim, accepted evidence, a supported rival on record. */
  predicate PromotesAgainstRival(k: Kernel, op: Op) {
    && op.Validate? && op.claimId in k.claims.at && op.evidence != [] && op.validationAdmission.accepted
    && (k.claims.at[op.claimId].state == Hypothesis || k.claims.at[op.claimId].state == Simulated)
    && exists d | d in k.claims.at :: SupportedRival(k.claims.at, d, k.claims.at[op.claimId])
  }

  /** Storing a claim keeps coherence iff it is not supported or has no supported rival but itself. */
  lemma StoreCoherentIff(claims: map<string, Claim>, c: Claim)
    requires Coherent(claims)
    ensures Coherent(claims[c.claimId := c]) <==>
            (Supporting(c.state) ==> forall d | d in claims && d != c.claimId :: !SupportedRival(claims, d, c))
  {
    var after := claims[c.claimId := c];
    if Supporting(c.state) && exists d | d in claims && d != c.claimId :: SupportedRival(claims, d, c) {
      var d :| d in claims && d != c.claimId && SupportedRival(claims, d, c);
      assert !CoherentPair(after[d], after[c.claimId]);
    } else {
      forall x, y | x in after && y in after ensures CoherentPair(after[x], after[y]) {
        if x in claims && y in claims { assert CoherentPair(claims[x], claims[y]); }
        if x != c.claimId { assert x in claims; }
        if y != c.claimId { assert y in claims; }
        if Supporting(c.state) {
          assert x != c.claimId ==> !SupportedRival(claims, x, c);
          assert y != c.claimId ==> !SupportedRival(claims, y, c);
        }
      }
    }
  }

  lemma MarkKeepsCoherence(claims: Dict<string, Claim>, ids: seq<string>)
    requires Coherent(claims.at)
    ensures Coherent(MarkAll(claims, ids).at)
  {
    var after := MarkAll(claims, ids).at;
    forall x, y | x in after && y in after ensures CoherentPair(after[x], after[y]) {
      assert CoherentPair(claims.at[x], claims.at[y]);
    }
  }

  lemma SupportedKeepsCoherence(k: Kernel, p: Proposal)
    requires Inv(k) && Coherent(k.claims.at) && ClaimConflicts(k, p) == []
    ensures Coherent(k.claims.at[p.claimId := RecordOf(p, Supported, true)])
  {
    forall d | d in k.claims.at ensures !SupportedRival(k.claims.at, d, RecordOf(p, Supported, true)) {
      ConflictsListed(k, p, d);
    }
    StoreCoherentIff(k.claims.at, RecordOf(p, Supported, true));
  }

  lemma ProposeKeepsCoherence(k: Kernel, p: Proposal, a: Admission, b: Admission)
    requires Inv(k) && Coherent(k.claims.at)
    ensures Coherent(ProposeStep(k, p, a, b).claims.at)
  {
    if p.subject !in k.symbols.at {
    } else if p.simulated {
      StoreCoherentIff(k.claims.at, RecordOf(p, Simulated, false));
    } else if p.evidence == [] {
      StoreCoherentIff(k.claims.at, RecordOf(p, Hypothesis, false));
    } else if !a.accepted {
    } else if ClaimConflicts(k, p) == [] {
      SupportedKeepsCoherence(k, p);
    } else {
      StoreCoherentIff(k.claims.at, RecordOf(p, Conflicted, true));
      MarkKeepsCoherence(k.claims.Put(p.claimId, RecordOf(p, Conflicted, true)), ClaimConflicts(k, p));
    }
  }

  lemma ConflictsListed(k: Kernel, p: Proposal, id: string)
    requires k.claims.Valid() && id in k.claims.at
    ensures id in ClaimConflicts(k, p) <==>
            !Inactive(k.claims.at[id].state) && Rivals(k.claims.at[id], p.tenantId, p.subject, p.relation, p.value)
  {
    FilterMember(k.claims.keys, ConflictsWith(k.claims.at, p), id);
  }

  /** After a conflict is preserved, the new claim and every live rival are CONFLICTED and no
      validation call moves them. */
  lemma ConflictPreserved(k: Kernel, p: Proposal, a: Admission, b: Admission, id: string, evidence: seq<string>,
                          v: Admission)
    requires Inv(k) && p.subject in k.symbols.at && !p.simulated && p.evidence != [] && a.accepted
    requires ClaimConflicts(k, p) != []
    requires id == p.claimId || id in ClaimConflicts(k, p)
    ensures var after := ProposeStep(k, p, a, b);
            && id in after.claims.at && after.claims.at[id].state == Conflicted
            && ValidateStep(after, id, evidence, v).claims == after.claims
  {
    if id in ClaimConflicts(k, p) { FilterMember(k.claims.keys, ConflictsWith(k.claims.at, p), id); }
  }

  lemma ValidateCoherentIff(k: Kernel, id: string, evidence: seq<string>, a: Admission)
    requires Inv(k) && Coherent(k.claims.at)
    ensures Coherent(ValidateStep(k, id, evidence, a).claims.at)
            <==> !PromotesAgainstRival(k, Validate(id, evidence, a))
  {
    if !Advances(k, id, evidence, a) {
      RefusingOnlyLogs(k, id, evidence, a);
    } else {
      AdvancingStores(k, id, evidence, a);
      var c := k.claims.at[id];
      assert RealClaim(k.symbols.at, id, c);
      StoreCoherentIff(k.claims.at, Validation(c, evidence));
      forall d | d in k.claims.at
        ensures SupportedRival(k.claims.at, d, Validation(c, evidence)) == SupportedRival(k.claims.at, d, c)
      {
        assert CoherentPair(k.claims.at[d], c);
      }
    }
  }

  /** One step breaks coherence exactly when it promotes a claim against a supported rival. */
  lemma StepCoherentIff(k: Kernel, op: Op)
    requires Inv(k) && Coherent(k.claims.at)
    ensures Coherent(Step(k, op).claims.at) <==> !PromotesAgainstRival(k, op)
  {
    match op
    case Observe(event, admission) =>
    case Propose(p, a, b) => ProposeKeepsCoherence(k, p, a, b);
    case Validate(id, evidence, admission) => ValidateCoherentIff(k, id, evidence, admission);
    case Project(tenantId, scope) =>
  }

  ghost predicate CoherentAt(ops: seq<Op>, i: nat)
    requires i <= |ops|
  {
    Coherent(Run(ops[..i]).claims.at)
  }

  ghost predicate CheckedAt(ops: seq<Op>, i: nat)
    requires i < |ops|
  {
    !PromotesAgainstRival(Run(ops[..i]), ops[i])
  }

  /** Claim coherence over whole runs: every state on the way is coherent iff no step is an
      unchecked promotion, whatever the store answers and however claim ids are re-proposed. */
  lemma {:induction false} CoherentThroughoutIff(ops: seq<Op>, n: nat)
    requires n <= |ops|
    ensures (forall i | 0 <= i <= n :: CoherentAt(ops, i)) <==> (forall i | 0 <= i < n :: CheckedAt(ops, i))
  {
    if n == 0 {
      assert CoherentAt(ops, 0);
    } else {
      CoherentThroughoutIff(ops, n - 1);
      if CoherentAt(ops, n - 1) { NextCoherentIff(ops, n - 1); }
    }
  }

  lemma NextCoherentIff(ops: seq<Op>, i: nat)
    requires i < |ops| && CoherentAt(ops, i)
    ensures CoherentAt(ops, i + 1) <==> CheckedAt(ops, i)
  {
    RealityHolds(ops[..i]);
    assert ops[..i + 1][..i] == ops[..i];
    StepCoherentIff(Run(ops[..i]), ops[i]);
  }

  ghost predicate Contradict(p: Proposal, q: Proposal) {
    && p.claimId != q.claimId && p.tenantId == q.tenantId && p.subject == q.subject && p.relation == q.relation
    && p.value != q.value
  }

  lemma ObservedFirst(e: Observation, ok: Admission)
    requires ok.accepted
    ensures var k := Run([Observe(e, ok)]); k.claims == EMPTY.claims && e.entityId in k.symbols.at
  {
    RunMore([], Observe(e, ok));
    assert [] + [Observe(e, ok)] == [Observe(e, ok)];
  }

  lemma ProposedNext(k: Kernel, p: Proposal, q: Proposal, ok: Admission)
    requires k.claims == EMPTY.claims && p.subject in k.symbols.at && Contradict(p, q) && ok.accepted
    requires !p.simulated && p.evidence != [] && !q.simulated && q.evidence == []
    ensures var k2 := Step(Step(k, Propose(p, ok, ok)), Propose(q, ok, ok));
            k2.claims.at == map[p.claimId := RecordOf(p, Supported, true), q.claimId := RecordOf(q, Hypothesis, false)]
  {
    assert ClaimConflicts(k, p) == [];
  }

  lemma OneSupported(claims: map<string, Claim>, p: Proposal, q: Proposal)
    requires claims == map[p.claimId := RecordOf(p, Supported, true), q.claimId := RecordOf(q, Hypothesis, false)]
    requires Contradict(p, q)
    ensures Coherent(claims) && SupportedRival(claims, p.claimId, claims[q.claimId])
  {
    forall x, y | x in claims && y in claims ensures CoherentPair(claims[x], claims[y]) {}
  }

  /** An unchecked promotion: the same subject and relation proposed with two values, the second without evidence until
      its validation. Both end up supported. */
  lemma UncheckedPromotion(e: Observation, p: Proposal, q: Proposal, ok: Admission, evidence: seq<string>)
    requires ok.accepted && p.subject == e.entityId && Contradict(p, q) && evidence != []
    requires !p.simulated && p.evidence != [] && !q.simulated && q.evidence == []
    ensures var three := [Observe(e, ok)] + [Propose(p, ok, ok)] + [Propose(q, ok, ok)];
            Coherent(Run(three).claims.at) && !Coherent(Run(three + [Validate(q.claimId, evidence, ok)]).claims.at)
  {
    var one := [Observe(e, ok)];
    var two := one + [Propose(p, ok, ok)];
    var three := two + [Propose(q, ok, ok)];
    ObservedFirst(e, ok);
    ProposedNext(Run(one), p, q, ok);
    RunMore(one, Propose(p, ok, ok));
    RunMore(two, Propose(q, ok, ok));
    RunMore(three, Validate(q.claimId, evidence, ok));
    RealityHolds(three);
    OneSupported(Run(three).claims.at, p, q);
    ValidateCoherentIff(Run(three), q.claimId, evidence, ok);
  }
}
