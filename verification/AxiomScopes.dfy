/** What each scope shows, told in the fields of the observations and claims: who is listed, who is not, with what, and
    in what order. */
module AxiomScopes {
  import opened Collections
  import opened Ordering
  import opened AxiomWorld
  import opened AxiomProjection

  // ----- Where a symbol comes from --------------------------------------------------------

  /** The call admits an observation of this entity. */
  ghost predicate Admits(k: Kernel, op: Op, id: string) {
    && op.Observe? && op.event.entityId == id && op.entityAdmission.accepted
    && !(op.event.fingerprint in k.fingerprints && k.fingerprints[op.event.fingerprint] !in {"", id})
  }

  ghost predicate AdmitsAt(ops: seq<Op>, i: nat, id: string)
    requires i < |ops|
  {
    Admits(Run(ops[..i]), ops[i], id)
  }

  /** The last call of the run that does. */
  ghost predicate LastAdmitted(ops: seq<Op>, i: nat, id: string) {
    i < |ops| && AdmitsAt(ops, i, id) && forall j | i < j < |ops| :: !AdmitsAt(ops, j, id)
  }

  ghost predicate Carries(s: Symbol, e: Observation) {
    && s.entityId == e.entityId && s.tenantId == e.tenantId && s.kind == e.kind && s.title == e.title
    && s.fingerprint == e.fingerprint && s.evidence == e.evidence && s.confidence == e.confidence && s.scope == e.scope
    && s.publicPermission == e.publicPermission && s.state == Supported
  }

  lemma StepSymbols(k: Kernel, op: Op, id: string)
    ensures var after := Step(k, op).symbols.at;
            if Admits(k, op, id) then id in after && Carries(after[id], op.event)
            else (id in after <==> id in k.symbols.at) && (id in after ==> after[id] == k.symbols.at[id])
  {
    if op.Observe? { ObservedSymbols(k, op.event, op.entityAdmission); }
  }

  lemma LastAdmittedNow(ops: seq<Op>, id: string)
    requires ops != [] && AdmitsAt(ops, |ops| - 1, id)
    ensures LastAdmitted(ops, |ops| - 1, id)
  {
  }

  lemma LastAdmittedFront(ops: seq<Op>, i: nat, id: string)
    requires ops != [] && !AdmitsAt(ops, |ops| - 1, id) && i < |ops| - 1
    ensures LastAdmitted(ops, i, id) <==> LastAdmitted(ops[..|ops| - 1], i, id)
  {
    var front := ops[..|ops| - 1];
    forall j | 0 <= j < |front| ensures AdmitsAt(front, j, id) <==> AdmitsAt(ops, j, id) {
      assert front[..j] == ops[..j] && front[j] == ops[j];
    }
  }

  /** An entity is on record exactly when some call admitted it, and then as the last such call observed it. */
  lemma {:induction false} SymbolIsLastObservation(ops: seq<Op>, id: string)
    ensures id in Run(ops).symbols.at <==> exists i: nat :: LastAdmitted(ops, i, id)
    ensures forall i: nat | LastAdmitted(ops, i, id) :: Carries(Run(ops).symbols.at[id], ops[i].event)
  {
    if ops != [] {
      var front, last := ops[..|ops| - 1], |ops| - 1;
      SymbolIsLastObservation(front, id);
      StepSymbols(Run(front), ops[last], id);
      if Admits(Run(front), ops[last], id) {
        LastAdmittedNow(ops, id);
        assert ops[..last] == front;
        forall i: nat | LastAdmitted(ops, i, id) ensures i == last {}
      } else {
        forall i: nat | i < last ensures LastAdmitted(ops, i, id) <==> LastAdmitted(front, i, id) {
          LastAdmittedFront(ops, i, id);
        }
        assert ops[..last] == front;
      }
    }
  }

  // ----- Who is listed ----------------------------------------------------------------------

  /** What the scope lets through: a public reader sees what was observed as public with permission, an internal one
      what was observed as public or internal, a simulation only simulations, a private one everything. */
  ghost predicate Permitted(scope: Scope, observed: Scope, publicPermission: bool) {
    && (scope == Public ==> observed == Public && publicPermission)
    && (scope == Internal ==> observed == Public || observed == Internal)
    && (scope == Simulation ==> observed == Simulation)
  }

  lemma ShownMeans(s: Symbol, tenantId: string, scope: Scope)
    ensures SymbolShown(tenantId, scope)(s) <==> s.tenantId == tenantId && Permitted(scope, s.scope, s.publicPermission)
  {
  }

  ghost predicate Lists(p: Projection, id: string) { exists v :: v in p.symbols && v.entityId == id }
  ghost predicate ListsClaim(p: Projection, id: string) { exists v :: v in p.claims && v.claimId == id }

  lemma ListsShown(k: Kernel, tenantId: string, scope: Scope, id: string)
    requires Inv(k)
    ensures Lists(ProjectionOf(k, tenantId, scope), id) <==> id in VisibleIds(ShownSymbols(k, tenantId, scope))
  {
    var shown, views := ShownSymbols(k, tenantId, scope), ProjectionOf(k, tenantId, scope).symbols;
    if s :| s in shown && s.entityId == id {
      var i :| 0 <= i < |shown| && shown[i] == s;
      assert views[i].entityId == id;
    }
    if v :| v in views && v.entityId == id {
      var i :| 0 <= i < |views| && views[i] == v;
      assert shown[i] in shown && shown[i].entityId == id;
    }
  }

  lemma ListedMeans(k: Kernel, tenantId: string, scope: Scope, id: string)
    requires Inv(k)
    ensures Lists(ProjectionOf(k, tenantId, scope), id) <==>
            id in k.symbols.at && k.symbols.at[id].tenantId == tenantId
            && Permitted(scope, k.symbols.at[id].scope, k.symbols.at[id].publicPermission)
  {
    ListsShown(k, tenantId, scope, id);
    ShownExactly(k, tenantId, scope, id);
    if id in k.symbols.at { ShownMeans(k.symbols.at[id], tenantId, scope); }
  }

  /** Over every run: an entity is listed at a scope exactly when its last admitted observation belongs to the tenant
      and may be seen there. */
  lemma ListedExactly(ops: seq<Op>, tenantId: string, scope: Scope, id: string)
    ensures Inv(Run(ops))
    ensures Lists(ProjectionOf(Run(ops), tenantId, scope), id) <==>
            exists i: nat :: LastAdmitted(ops, i, id) && ops[i].event.tenantId == tenantId
                             && Permitted(scope, ops[i].event.scope, ops[i].event.publicPermission)
  {
    RealityHolds(ops);
    SymbolIsLastObservation(ops, id);
    ListedMeans(Run(ops), tenantId, scope, id);
  }

  /** And it is listed as it was then observed. */
  lemma ListedAsObserved(ops: seq<Op>, tenantId: string, scope: Scope, v: SymbolView)
    ensures Inv(Run(ops))
    ensures v in ProjectionOf(Run(ops), tenantId, scope).symbols ==>
              exists i: nat :: LastAdmitted(ops, i, v.entityId)
                && v.kind == ops[i].event.kind && v.title == ops[i].event.title && v.state == Supported
                && v.confidence == ops[i].event.confidence.Overall()
  {
    RealityHolds(ops);
    var k := Run(ops);
    var views, shown := ProjectionOf(k, tenantId, scope).symbols, ShownSymbols(k, tenantId, scope);
    if v in views {
      var n :| 0 <= n < |views| && views[n] == v;
      assert shown[n] in shown;
      ShownExactly(k, tenantId, scope, v.entityId);
      SymbolIsLastObservation(ops, v.entityId);
      var i: nat :| LastAdmitted(ops, i, v.entityId);
      assert Carries(shown[n], ops[i].event);
    }
  }

  /** A claim may be seen: in a simulation that goes by its truth state, elsewhere by its scope. */
  ghost predicate ClaimPermitted(scope: Scope, c: Claim) {
    && (scope == Public ==> c.scope == Public)
    && (scope == Internal ==> c.scope == Public || c.scope == Internal)
    && (scope == Simulation ==> c.state == Simulated)
  }

  lemma ClaimShownMeans(c: Claim, visible: set<string>, tenantId: string, scope: Scope)
    ensures ClaimShown(visible, tenantId, scope)(c) <==>
            c.tenantId == tenantId && c.subject in visible && ClaimPermitted(scope, c)
  {
  }

  lemma ListsClaimShown(k: Kernel, tenantId: string, scope: Scope, id: string)
    requires Inv(k)
    ensures ListsClaim(ProjectionOf(k, tenantId, scope), id) <==>
            exists c :: c in ShownClaims(k, tenantId, scope) && c.claimId == id
  {
    var shown, views := ShownClaims(k, tenantId, scope), ProjectionOf(k, tenantId, scope).claims;
    if v :| v in views && v.claimId == id {
      var i :| 0 <= i < |views| && views[i] == v;
      assert shown[i] in shown && shown[i].claimId == id;
    }
    if c :| c in shown && c.claimId == id {
      var i :| 0 <= i < |shown| && shown[i] == c;
      assert views[i].claimId == id;
    }
  }

  /** A claim is listed exactly when it is the tenant's, its subject is listed there, and it may itself be seen. */
  lemma ClaimListedExactly(k: Kernel, tenantId: string, scope: Scope, id: string)
    requires Inv(k)
    ensures var p := ProjectionOf(k, tenantId, scope);
            ListsClaim(p, id) <==>
            && id in k.claims.at && k.claims.at[id].tenantId == tenantId && Lists(p, k.claims.at[id].subject)
            && ClaimPermitted(scope, k.claims.at[id])
  {
    ListsClaimShown(k, tenantId, scope, id);
    ShownExactly(k, tenantId, scope, id);
    if id in k.claims.at {
      var c := k.claims.at[id];
      assert RealClaim(k.symbols.at, id, c);
      ListsShown(k, tenantId, scope, c.subject);
      ClaimShownMeans(c, VisibleIds(ShownSymbols(k, tenantId, scope)), tenantId, scope);
    }
  }

  /** And it is listed as it is stored. */
  lemma ClaimListedAsStored(k: Kernel, tenantId: string, scope: Scope, v: ClaimView)
    requires Inv(k) && v in ProjectionOf(k, tenantId, scope).claims
    ensures v.claimId in k.claims.at
    ensures var c := k.claims.at[v.claimId];
            && v.subject == c.subject && v.relation == c.relation && v.value == c.value && v.state == c.state
            && v.confidence == c.confidence.Overall()
  {
    var shown, views := ShownClaims(k, tenantId, scope), ProjectionOf(k, tenantId, scope).claims;
    var i :| 0 <= i < |views| && views[i] == v;
    assert shown[i] in shown;
    ShownExactly(k, tenantId, scope, v.claimId);
  }

  // ----- Order and marks --------------------------------------------------------------------

  /** Both lists stand in the order of their ids, without repeats. */
  lemma ListedInOrder(k: Kernel, tenantId: string, scope: Scope)
    requires Inv(k)
    ensures var p := ProjectionOf(k, tenantId, scope);
            && (forall i, j | 0 <= i < j < |p.symbols| ::
                  TextLe(p.symbols[i].entityId, p.symbols[j].entityId)
                  && p.symbols[i].entityId != p.symbols[j].entityId)
            && (forall i, j | 0 <= i < j < |p.claims| ::
                  TextLe(p.claims[i].claimId, p.claims[j].claimId) && p.claims[i].claimId != p.claims[j].claimId)
  {
    var visible := VisibleIds(ShownSymbols(k, tenantId, scope));
    KernelKeyed(k);
    SortedValuesFacts(k.symbols, EntityIdOf());
    SortedValuesFacts(k.claims, ClaimIdOf());
    FilterIncreasing(SortedValues(k.symbols), EntityIdOf(), SymbolShown(tenantId, scope));
    FilterIncreasing(SortedValues(k.claims), ClaimIdOf(), ClaimShown(visible, tenantId, scope));
    var symbols, claims := ShownSymbols(k, tenantId, scope), ShownClaims(k, tenantId, scope);
    forall i, j | 0 <= i < j < |symbols|
      ensures TextLe(symbols[i].entityId, symbols[j].entityId) && symbols[i].entityId != symbols[j].entityId
    {
      assert TextLe(EntityIdOf()(symbols[i]), EntityIdOf()(symbols[j]));
    }
    forall i, j | 0 <= i < j < |claims|
      ensures TextLe(claims[i].claimId, claims[j].claimId) && claims[i].claimId != claims[j].claimId
    {
      assert TextLe(ClaimIdOf()(claims[i]), ClaimIdOf()(claims[j]));
    }
  }

  function IsMark(mark: Redaction): Redaction -> bool { r => r == mark }

  function Hides(tenantId: string, scope: Scope): Symbol -> bool {
    (s: Symbol) =>
      && s.tenantId == tenantId
      && !((scope == Public ==> s.scope == Public && s.publicPermission)
           && (scope == Internal ==> s.scope == Public || s.scope == Internal)
           && (scope == Simulation ==> s.scope == Simulation))
  }

  function SubjectHidden(visible: set<string>, tenantId: string): Claim -> bool {
    (c: Claim) => c.tenantId == tenantId && c.subject !in visible
  }

  lemma {:induction false} SymbolMarks(s: seq<Symbol>, tenantId: string, scope: Scope)
    ensures |SymbolRedactions(s, tenantId, scope)| == |Filter(s, Hides(tenantId, scope))|
  {
    if s != [] { SymbolMarks(s[..|s| - 1], tenantId, scope); }
  }

  lemma {:induction false} ClaimMarks(s: seq<Claim>, visible: set<string>, tenantId: string, scope: Scope)
    ensures var marks := ClaimRedactions(s, visible, tenantId, scope);
            && |Filter(marks, IsMark(ClaimSubjectScopeRedacted))| == |Filter(s, SubjectHidden(visible, tenantId))|
            && |Filter(marks, IsMark(SymbolScopeRedacted))| == 0
  {
    if s != [] {
      var front, last := s[..|s| - 1], s[|s| - 1];
      ClaimMarks(front, visible, tenantId, scope);
      var marks, before := ClaimRedactions(s, visible, tenantId, scope),
                           ClaimRedactions(front, visible, tenantId, scope);
      if marks != before { assert marks[..|marks| - 1] == before; }
    }
  }

  lemma {:induction false} AllSymbolMarks(marks: seq<Redaction>)
    requires forall r | r in marks :: r == SymbolScopeRedacted
    ensures |Filter(marks, IsMark(SymbolScopeRedacted))| == |marks|
    ensures |Filter(marks, IsMark(ClaimSubjectScopeRedacted))| == 0
  {
    FilterAll(marks, IsMark(SymbolScopeRedacted));
    FilterNone(marks, IsMark(ClaimSubjectScopeRedacted));
  }

  /** The marks tell why something is missing: one for every hidden symbol of the tenant, one of the second kind for
      every claim of the tenant about a subject that is not listed, and the rest for claims hidden themselves. */
  lemma MarksTellWhy(k: Kernel, tenantId: string, scope: Scope)
    requires Inv(k)
    ensures var marks := ProjectionOf(k, tenantId, scope).redactions;
            && |Filter(marks, IsMark(SymbolScopeRedacted))|
               == |Filter(SortedValues(k.symbols), Hides(tenantId, scope))|
            && |Filter(marks, IsMark(ClaimSubjectScopeRedacted))|
               == |Filter(SortedValues(k.claims),
                          SubjectHidden(VisibleIds(ShownSymbols(k, tenantId, scope)), tenantId))|
  {
    var visible := VisibleIds(ShownSymbols(k, tenantId, scope));
    var first := SymbolRedactions(SortedValues(k.symbols), tenantId, scope);
    var second := ClaimRedactions(SortedValues(k.claims), visible, tenantId, scope);
    SymbolCounts(SortedValues(k.symbols), tenantId, scope);
    SymbolMarks(SortedValues(k.symbols), tenantId, scope);
    AllSymbolMarks(first);
    ClaimMarks(SortedValues(k.claims), visible, tenantId, scope);
    FilterAppend(first, second, IsMark(SymbolScopeRedacted));
    FilterAppend(first, second, IsMark(ClaimSubjectScopeRedacted));
  }

  // ----- Confidence -------------------------------------------------------------------------

  /** The overall confidence: the mean of six components less the pressure against, kept between 0 and 1. It is 1
      where all six are, falls by what the pressure adds, and by a sixth of what any component loses. */
  lemma ConfidenceExact(c: Confidence)
    requires 0.0 <= c.sourceReliability <= 1.0 && 0.0 <= c.evidenceQuality <= 1.0 && 0.0 <= c.temporalFreshness <= 1.0
    requires 0.0 <= c.causalCoherence <= 1.0 && 0.0 <= c.graphConsistency <= 1.0 && 0.0 <= c.permissionSafety <= 1.0
    requires 0.0 <= c.counterevidencePressure <= 1.0
    ensures var lost := (1.0 - c.sourceReliability) + (1.0 - c.evidenceQuality) + (1.0 - c.temporalFreshness)
                        + (1.0 - c.causalCoherence) + (1.0 - c.graphConsistency) + (1.0 - c.permissionSafety);
            if lost + 6.0 * c.counterevidencePressure >= 6.0 then c.Overall() == 0.0
            else 6.0 * (1.0 - c.Overall()) == lost + 6.0 * c.counterevidencePressure
  {
  }

  // ----- It happens -------------------------------------------------------------------------

  /** A private observation is listed for a private reader of its tenant only, a public one without permission for an
      internal and a private one. */
  lemma PrivateStaysPrivate(e: Observation, ok: Admission)
    requires ok.accepted && e.scope == Private
    ensures Inv(Run([Observe(e, ok)]))
    ensures forall scope ::
              Lists(ProjectionOf(Run([Observe(e, ok)]), e.tenantId, scope), e.entityId) <==> scope == Private
  {
    FirstObserved(e, ok);
    forall scope
      ensures Lists(ProjectionOf(Run([Observe(e, ok)]), e.tenantId, scope), e.entityId) <==> scope == Private
    {
      ListedMeans(Run([Observe(e, ok)]), e.tenantId, scope, e.entityId);
    }
  }

  lemma UnpermittedStaysInside(e: Observation, ok: Admission)
    requires ok.accepted && e.scope == Public && !e.publicPermission
    ensures Inv(Run([Observe(e, ok)]))
    ensures forall scope :: Lists(ProjectionOf(Run([Observe(e, ok)]), e.tenantId, scope), e.entityId)
                            <==> scope == Internal || scope == Private
  {
    FirstObserved(e, ok);
    forall scope
      ensures Lists(ProjectionOf(Run([Observe(e, ok)]), e.tenantId, scope), e.entityId)
              <==> scope == Internal || scope == Private
    {
      ListedMeans(Run([Observe(e, ok)]), e.tenantId, scope, e.entityId);
    }
  }

  lemma FirstObserved(e: Observation, ok: Admission)
    requires ok.accepted
    ensures var k := Run([Observe(e, ok)]); Inv(k) && e.entityId in k.symbols.at && Carries(k.symbols.at[e.entityId], e)
  {
    RealityHolds([Observe(e, ok)]);
    RunMore([], Observe(e, ok));
    assert [] + [Observe(e, ok)] == [Observe(e, ok)];
    StepSymbols(EMPTY, Observe(e, ok), e.entityId);
  }
}
