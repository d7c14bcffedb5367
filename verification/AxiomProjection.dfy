/** What an observer at a scope is shown, and that nothing else can be inferred from the lists. */
module AxiomProjection {
  import opened Collections
  import opened Ordering
  import opened AxiomWorld

  datatype SymbolView = SymbolView(entityId: string, kind: string, title: string, state: TruthState, confidence: real)
  datatype ClaimView = ClaimView(claimId: string, subject: string, relation: string, value: string,
                                 state: TruthState, confidence: real)
  datatype Redaction = SymbolScopeRedacted | ClaimSubjectScopeRedacted | ClaimScopeRedacted
  datatype Projection = Projection(tenantId: string, scope: Scope, symbols: seq<SymbolView>,
                                   claims: seq<ClaimView>, redactions: seq<Redaction>)

  predicate CanProject(record: Scope, requested: Scope, publicPermission: bool) {
    match requested
    case Private => true
    case Internal => record == Public || record == Internal
    case Simulation => record == Simulation
    case Public => record == Public && publicPermission
  }

  predicate ClaimVisible(c: Claim, requested: Scope) {
    match requested
    case Private => true
    case Internal => c.scope == Public || c.scope == Internal
    case Simulation => c.state == Simulated
    case Public => c.scope == Public
  }

  function EntityIdOf(): Symbol -> string { (s: Symbol) => s.entityId }
  function ClaimIdOf(): Claim -> string { (c: Claim) => c.claimId }
  function OfTenant(tenantId: string): Symbol -> bool { (s: Symbol) => s.tenantId == tenantId }
  function ClaimOfTenant(tenantId: string): Claim -> bool { (c: Claim) => c.tenantId == tenantId }

  function SymbolShown(tenantId: string, scope: Scope): Symbol -> bool {
    (s: Symbol) => s.tenantId == tenantId && CanProject(s.scope, scope, s.publicPermission)
  }

  function ClaimShown(visible: set<string>, tenantId: string, scope: Scope): Claim -> bool {
    (c: Claim) => c.tenantId == tenantId && c.subject in visible && ClaimVisible(c, scope)
  }

  function ViewSymbol(): Symbol -> SymbolView {
    (s: Symbol) => SymbolView(s.entityId, s.kind, s.title, s.state, s.confidence.Overall())
  }

  function ViewClaim(): Claim -> ClaimView {
    (c: Claim) => ClaimView(c.claimId, c.subject, c.relation, c.value, c.state, c.confidence.Overall())
  }

  /** sorted(d.values(), key=id), the keys of `d` being the ids of its records. */
  function SortedValues<V>(d: Dict<string, V>): (r: seq<V>)
    requires d.Valid()
    ensures |r| == |d.keys|
  {
    SortMembers(TextLe, d.keys);
    var ids := Sort(TextLe, d.keys);
    seq(|ids|, i requires 0 <= i < |ids| => assert ids[i] in ids; d.at[ids[i]])
  }

  function ShownSymbols(k: Kernel, tenantId: string, scope: Scope): seq<Symbol>
    requires Inv(k)
  {
    Filter(SortedValues(k.symbols), SymbolShown(tenantId, scope))
  }

  function VisibleIds(symbols: seq<Symbol>): set<string> { set s | s in symbols :: s.entityId }

  function ShownClaims(k: Kernel, tenantId: string, scope: Scope): seq<Claim>
    requires Inv(k)
  {
    Filter(SortedValues(k.claims), ClaimShown(VisibleIds(ShownSymbols(k, tenantId, scope)), tenantId, scope))
  }

  // ----- Sorted records -------------------------------------------------------------

  ghost predicate Keyed<V>(d: Dict<string, V>, idOf: V -> string) { forall id | id in d.at :: idOf(d.at[id]) == id }

  /** Strictly increasing ids. */
  ghost predicate Increasing<V>(s: seq<V>, idOf: V -> string) {
    forall i, j | 0 <= i < j < |s| :: TextLe(idOf(s[i]), idOf(s[j])) && idOf(s[i]) != idOf(s[j])
  }

  lemma SortedValuesFacts<V>(d: Dict<string, V>, idOf: V -> string)
    requires d.Valid() && Keyed(d, idOf)
    ensures Increasing(SortedValues(d), idOf)
    ensures forall id | id in d.at :: d.at[id] in SortedValues(d)
    ensures forall v | v in SortedValues(d) :: idOf(v) in d.at && d.at[idOf(v)] == v
  {
    var ids, r := Sort(TextLe, d.keys), SortedValues(d);
    TextLeTotalPreorder();
    SortSorted(TextLe, d.keys);
    SortDistinct(TextLe, d.keys);
    SortMembers(TextLe, d.keys);
    forall i | 0 <= i < |r| ensures ids[i] in d.at && r[i] == d.at[ids[i]] { assert ids[i] in ids; }
    forall id | id in d.at ensures d.at[id] in r {
      assert id in ids;
      var i :| 0 <= i < |ids| && ids[i] == id;
      assert r[i] == d.at[id];
    }
  }

  lemma {:induction false} FilterIncreasing<V>(s: seq<V>, idOf: V -> string, keep: V -> bool)
    requires Increasing(s, idOf)
    ensures Increasing(Filter(s, keep), idOf)
  {
    if s != [] {
      var front := s[..|s| - 1];
      FilterIncreasing(front, idOf, keep);
      forall v | v in Filter(front, keep)
        ensures TextLe(idOf(v), idOf(s[|s| - 1])) && idOf(v) != idOf(s[|s| - 1])
      {
        FilterMember(front, keep, v);
        var i :| 0 <= i < |front| && front[i] == v;
        assert s[i] == v;
      }
    }
  }

  /** Lists of records in id order with the same members are the same list. */
  lemma {:induction false} IncreasingUnique<V>(a: seq<V>, b: seq<V>, idOf: V -> string)
    requires Increasing(a, idOf) && Increasing(b, idOf)
    requires (forall v | v in a :: v in b) && (forall v | v in b :: v in a)
    ensures a == b
    decreases |a|
  {
    assert |b| > 0 ==> b[0] in b;
    if a != [] {
      assert a[0] in b;
      assert b[0] in a;
      var i :| 0 <= i < |b| && b[i] == a[0];
      var j :| 0 <= j < |a| && a[j] == b[0];
      TextLeTotal(idOf(a[0]), idOf(b[0]));
      assert a[0] == b[0];
      assert a == [a[0]] + a[1..] && b == [b[0]] + b[1..];
      forall v | v in a[1..] ensures v in b[1..] {
        var m :| 0 <= m < |a[1..]| && a[1..][m] == v;
        assert idOf(a[0]) != idOf(a[m + 1]);
        assert v in b;
      }
      forall v | v in b[1..] ensures v in a[1..] {
        var m :| 0 <= m < |b[1..]| && b[1..][m] == v;
        assert idOf(b[0]) != idOf(b[m + 1]);
        assert v in a;
      }
      IncreasingUnique(a[1..], b[1..], idOf);
    }
  }

  // ----- Projection safety ----------------------------------------------------------

  lemma KernelKeyed(k: Kernel)
    requires Inv(k)
    ensures Keyed(k.symbols, EntityIdOf()) && Keyed(k.claims, ClaimIdOf())
  {
    forall id | id in k.symbols.at ensures EntityIdOf()(k.symbols.at[id]) == id { assert Indexed(k, id); }
    forall id | id in k.claims.at ensures ClaimIdOf()(k.claims.at[id]) == id {
      assert RealClaim(k.symbols.at, id, k.claims.at[id]);
    }
  }

  /** Exactly which symbols and claims are shown. */
  lemma ShownExactly(k: Kernel, tenantId: string, scope: Scope, id: string)
    requires Inv(k)
    ensures id in VisibleIds(ShownSymbols(k, tenantId, scope)) <==>
            id in k.symbols.at && SymbolShown(tenantId, scope)(k.symbols.at[id])
    ensures forall s | s in ShownSymbols(k, tenantId, scope) ::
            s.entityId in k.symbols.at && s == k.symbols.at[s.entityId]
    ensures id in k.claims.at ==> (k.claims.at[id] in ShownClaims(k, tenantId, scope) <==>
              ClaimShown(VisibleIds(ShownSymbols(k, tenantId, scope)), tenantId, scope)(k.claims.at[id]))
    ensures forall c | c in ShownClaims(k, tenantId, scope) ::
              c.claimId in k.claims.at && c == k.claims.at[c.claimId]
              && c.subject in VisibleIds(ShownSymbols(k, tenantId, scope))
  {
    KernelKeyed(k);
    SortedValuesFacts(k.symbols, EntityIdOf());
    SortedValuesFacts(k.claims, ClaimIdOf());
    var shown := SymbolShown(tenantId, scope);
    var claimShown := ClaimShown(VisibleIds(ShownSymbols(k, tenantId, scope)), tenantId, scope);
    if id in k.symbols.at { FilterMember(SortedValues(k.symbols), shown, k.symbols.at[id]); }
    forall s | s in ShownSymbols(k, tenantId, scope)
      ensures s.entityId in k.symbols.at && s == k.symbols.at[s.entityId] && shown(s) {
      FilterMember(SortedValues(k.symbols), shown, s);
      assert EntityIdOf()(s) == s.entityId;
    }
    if id in k.claims.at { FilterMember(SortedValues(k.claims), claimShown, k.claims.at[id]); }
    forall c | c in ShownClaims(k, tenantId, scope)
      ensures c.claimId in k.claims.at && c == k.claims.at[c.claimId] && claimShown(c)
    {
      FilterMember(SortedValues(k.claims), claimShown, c);
      assert ClaimIdOf()(c) == c.claimId;
    }
  }

  /** A wider scope shows the narrower one's lists with more interleaved, never fewer. */
  lemma WiderScopeShowsMore(k: Kernel, tenantId: string, narrow: Scope, wide: Scope)
    requires Inv(k)
    requires (narrow == Public && wide == Internal) || (narrow == Internal && wide == Private)
    ensures ShownSymbols(k, tenantId, narrow) == Filter(ShownSymbols(k, tenantId, wide), SymbolShown(tenantId, narrow))
    ensures ShownClaims(k, tenantId, narrow) ==
            Filter(ShownClaims(k, tenantId, wide),
                   ClaimShown(VisibleIds(ShownSymbols(k, tenantId, narrow)), tenantId, narrow))
  {
    FilterTwice(SortedValues(k.symbols), SymbolShown(tenantId, wide), SymbolShown(tenantId, narrow),
                SymbolShown(tenantId, narrow));
    var few, many := VisibleIds(ShownSymbols(k, tenantId, narrow)), VisibleIds(ShownSymbols(k, tenantId, wide));
    forall id | id in few ensures id in many {
      ShownExactly(k, tenantId, narrow, id);
      ShownExactly(k, tenantId, wide, id);
    }
    FilterTwice(SortedValues(k.claims), ClaimShown(many, tenantId, wide), ClaimShown(few, tenantId, narrow),
                ClaimShown(few, tenantId, narrow));
  }

  /** The two kernels hold the same records as far as an observer at this scope may see. */
  ghost predicate AgreeWhereVisible(k: Kernel, l: Kernel, tenantId: string, scope: Scope)
    requires Inv(k) && Inv(l)
  {
    && (forall s :: s in ShownSymbols(k, tenantId, scope) <==> s in ShownSymbols(l, tenantId, scope))
    && (forall c :: c in ShownClaims(k, tenantId, scope) <==> c in ShownClaims(l, tenantId, scope))
  }

  /** Inference guard: the lists depend on nothing outside what they show. */
  lemma HiddenRecordsDoNotLeak(k: Kernel, l: Kernel, tenantId: string, scope: Scope)
    requires Inv(k) && Inv(l) && AgreeWhereVisible(k, l, tenantId, scope)
    ensures ShownSymbols(k, tenantId, scope) == ShownSymbols(l, tenantId, scope)
    ensures ShownClaims(k, tenantId, scope) == ShownClaims(l, tenantId, scope)
  {
    KernelKeyed(k);
    KernelKeyed(l);
    SymbolsDetermined(k, l, tenantId, scope);
    SortedValuesFacts(k.claims, ClaimIdOf());
    SortedValuesFacts(l.claims, ClaimIdOf());
    var visible := VisibleIds(ShownSymbols(k, tenantId, scope));
    FilterIncreasing(SortedValues(k.claims), ClaimIdOf(), ClaimShown(visible, tenantId, scope));
    FilterIncreasing(SortedValues(l.claims), ClaimIdOf(), ClaimShown(visible, tenantId, scope));
    IncreasingUnique(ShownClaims(k, tenantId, scope), ShownClaims(l, tenantId, scope), ClaimIdOf());
  }

  /** A hidden claim can be added, changed or dropped without any observer at this scope noticing. */
  lemma HiddenClaimUnobservable(k: Kernel, c: Claim, tenantId: string, scope: Scope)
    requires Inv(k) && RealClaim(k.symbols.at, c.claimId, c)
    requires !ClaimShown(VisibleIds(ShownSymbols(k, tenantId, scope)), tenantId, scope)(c)
    requires c.claimId in k.claims.at ==> k.claims.at[c.claimId] !in ShownClaims(k, tenantId, scope)
    ensures Inv(StoreClaim(k, c))
    ensures ShownClaims(StoreClaim(k, c), tenantId, scope) == ShownClaims(k, tenantId, scope)
  {
    StoreKeepsInv(k, c);
    var l := StoreClaim(k, c);
    forall x ensures x in ShownClaims(k, tenantId, scope) <==> x in ShownClaims(l, tenantId, scope) {
      SameShown(k, c, tenantId, scope, x);
    }
    HiddenRecordsDoNotLeak(k, l, tenantId, scope);
  }

  lemma SameShown(k: Kernel, c: Claim, tenantId: string, scope: Scope, x: Claim)
    requires Inv(k) && Inv(StoreClaim(k, c))
    requires !ClaimShown(VisibleIds(ShownSymbols(k, tenantId, scope)), tenantId, scope)(c)
    requires c.claimId in k.claims.at ==> k.claims.at[c.claimId] !in ShownClaims(k, tenantId, scope)
    ensures x in ShownClaims(k, tenantId, scope) <==> x in ShownClaims(StoreClaim(k, c), tenantId, scope)
  {
    ShownExactly(k, tenantId, scope, x.claimId);
    ShownExactly(StoreClaim(k, c), tenantId, scope, x.claimId);
  }

  /** The observation changes nothing that is shown: neither the symbol as observed nor the one it replaces is visible
      here. */
  ghost predicate Hidden(k: Kernel, e: Observation, tenantId: string, scope: Scope) {
    && !SymbolShown(tenantId, scope)(SymbolOf(e))
    && (e.entityId in k.symbols.at ==> !SymbolShown(tenantId, scope)(k.symbols.at[e.entityId]))
  }

  lemma SameSymbolShown(k: Kernel, e: Observation, a: Admission, tenantId: string, scope: Scope, x: Symbol)
    requires Inv(k) && Inv(ObserveStep(k, e, a)) && Hidden(k, e, tenantId, scope)
    ensures x in ShownSymbols(k, tenantId, scope) <==> x in ShownSymbols(ObserveStep(k, e, a), tenantId, scope)
    ensures x.entityId in VisibleIds(ShownSymbols(k, tenantId, scope))
            <==> x.entityId in VisibleIds(ShownSymbols(ObserveStep(k, e, a), tenantId, scope))
  {
    ObservedSymbols(k, e, a);
    ShownExactly(k, tenantId, scope, x.entityId);
    ShownExactly(ObserveStep(k, e, a), tenantId, scope, x.entityId);
    SymbolListed(k, tenantId, scope, x);
    SymbolListed(ObserveStep(k, e, a), tenantId, scope, x);
  }

  lemma SymbolListed(k: Kernel, tenantId: string, scope: Scope, x: Symbol)
    requires Inv(k)
    ensures x in ShownSymbols(k, tenantId, scope) <==>
            x.entityId in k.symbols.at && k.symbols.at[x.entityId] == x && SymbolShown(tenantId, scope)(x)
  {
    KernelKeyed(k);
    SortedValuesFacts(k.symbols, EntityIdOf());
    FilterMember(SortedValues(k.symbols), SymbolShown(tenantId, scope), x);
    assert EntityIdOf()(x) == x.entityId;
  }

  /** Observing a symbol hidden at a scope changes neither list shown there. */
  lemma HiddenSymbolUnobservable(k: Kernel, e: Observation, a: Admission, tenantId: string, scope: Scope)
    requires Inv(k) && Hidden(k, e, tenantId, scope)
    ensures Inv(ObserveStep(k, e, a))
    ensures ShownSymbols(ObserveStep(k, e, a), tenantId, scope) == ShownSymbols(k, tenantId, scope)
    ensures ShownClaims(ObserveStep(k, e, a), tenantId, scope) == ShownClaims(k, tenantId, scope)
  {
    ObserveKeepsInv(k, e, a);
    var l := ObserveStep(k, e, a);
    forall x ensures x in ShownSymbols(k, tenantId, scope) <==> x in ShownSymbols(l, tenantId, scope) {
      SameSymbolShown(k, e, a, tenantId, scope, x);
    }
    SymbolsDetermined(k, l, tenantId, scope);
  }

  lemma SymbolsDetermined(k: Kernel, l: Kernel, tenantId: string, scope: Scope)
    requires Inv(k) && Inv(l)
    requires forall x :: x in ShownSymbols(k, tenantId, scope) <==> x in ShownSymbols(l, tenantId, scope)
    ensures ShownSymbols(k, tenantId, scope) == ShownSymbols(l, tenantId, scope)
    ensures k.claims == l.claims ==> ShownClaims(k, tenantId, scope) == ShownClaims(l, tenantId, scope)
  {
    KernelKeyed(k);
    KernelKeyed(l);
    SortedValuesFacts(k.symbols, EntityIdOf());
    SortedValuesFacts(l.symbols, EntityIdOf());
    FilterIncreasing(SortedValues(k.symbols), EntityIdOf(), SymbolShown(tenantId, scope));
    FilterIncreasing(SortedValues(l.symbols), EntityIdOf(), SymbolShown(tenantId, scope));
    IncreasingUnique(ShownSymbols(k, tenantId, scope), ShownSymbols(l, tenantId, scope), EntityIdOf());
  }

  // ----- The projection itself ------------------------------------------------------

  ghost function SymbolRedactions(s: seq<Symbol>, tenantId: string, scope: Scope): seq<Redaction> {
    if s == [] then []
    else
      var front, last := SymbolRedactions(s[..|s| - 1], tenantId, scope), s[|s| - 1];
      if last.tenantId == tenantId && !CanProject(last.scope, scope, last.publicPermission)
      then front + [SymbolScopeRedacted] else front
  }

  ghost function ClaimRedactions(s: seq<Claim>, visible: set<string>, tenantId: string, scope: Scope): seq<Redaction> {
    if s == [] then []
    else
      var front, last := ClaimRedactions(s[..|s| - 1], visible, tenantId, scope), s[|s| - 1];
      if last.tenantId != tenantId then front
      else if last.subject !in visible then front + [ClaimSubjectScopeRedacted]
      else if !ClaimVisible(last, scope) then front + [ClaimScopeRedacted]
      else front
  }

  ghost function ProjectionOf(k: Kernel, tenantId: string, scope: Scope): Projection
    requires Inv(k)
  {
    var symbols, claims := ShownSymbols(k, tenantId, scope), ShownClaims(k, tenantId, scope);
    Projection(tenantId, scope, Map(symbols, ViewSymbol()), Map(claims, ViewClaim()),
               SymbolRedactions(SortedValues(k.symbols), tenantId, scope)
               + ClaimRedactions(SortedValues(k.claims), VisibleIds(symbols), tenantId, scope))
  }

  lemma {:induction false} SymbolCounts(s: seq<Symbol>, tenantId: string, scope: Scope)
    ensures |Filter(s, SymbolShown(tenantId, scope))| + |SymbolRedactions(s, tenantId, scope)|
            == |Filter(s, OfTenant(tenantId))|
    ensures forall r | r in SymbolRedactions(s, tenantId, scope) :: r == SymbolScopeRedacted
  {
    if s != [] { SymbolCounts(s[..|s| - 1], tenantId, scope); }
  }

  lemma {:induction false} ClaimCounts(s: seq<Claim>, visible: set<string>, tenantId: string, scope: Scope)
    ensures |Filter(s, ClaimShown(visible, tenantId, scope))| + |ClaimRedactions(s, visible, tenantId, scope)|
            == |Filter(s, ClaimOfTenant(tenantId))|
    ensures forall r | r in ClaimRedactions(s, visible, tenantId, scope) :: r != SymbolScopeRedacted
  {
    if s != [] { ClaimCounts(s[..|s| - 1], visible, tenantId, scope); }
  }

  /** Every record of the tenant is either shown or leaves one redaction mark; none of another's is. */
  lemma ShownPlusRedacted(k: Kernel, tenantId: string, scope: Scope)
    requires Inv(k)
    ensures var p := ProjectionOf(k, tenantId, scope);
            |p.symbols| + |p.claims| + |p.redactions|
            == |Filter(SortedValues(k.symbols), OfTenant(tenantId))|
            + |Filter(SortedValues(k.claims), ClaimOfTenant(tenantId))|
  {
    SymbolCounts(SortedValues(k.symbols), tenantId, scope);
    ClaimCounts(SortedValues(k.claims), VisibleIds(ShownSymbols(k, tenantId, scope)), tenantId, scope);
  }

  function Kept<V>(at: map<string, V>, keep: V -> bool): set<string> { set id | id in at && keep(at[id]) }

  lemma CountKept<V>(d: Dict<string, V>, idOf: V -> string, keep: V -> bool)
    requires d.Valid() && Keyed(d, idOf)
    ensures |Filter(SortedValues(d), keep)| == |Kept(d.at, keep)|
  {
    var kept := Filter(SortedValues(d), keep);
    SortedValuesFacts(d, idOf);
    FilterIncreasing(SortedValues(d), idOf, keep);
    var ids := Map(kept, idOf);
    SetSize(ids);
    forall v ensures v in kept <==> v in SortedValues(d) && keep(v) { FilterMember(SortedValues(d), keep, v); }
    forall id | id in d.at && keep(d.at[id]) ensures id in ids {
      var i :| 0 <= i < |kept| && kept[i] == d.at[id];
      assert ids[i] == id;
    }
    assert (set id | id in ids) == Kept(d.at, keep);
  }

  function TenantSymbols(symbols: map<string, Symbol>, tenantId: string): set<string> {
    Kept(symbols, OfTenant(tenantId))
  }

  lemma MarksCounted(k: Kernel, tenantId: string, scope: Scope)
    requires Inv(k)
    ensures |ProjectionOf(k, tenantId, scope).redactions|
            == |TenantSymbols(k.symbols.at, tenantId)| - |ShownSymbols(k, tenantId, scope)|
               + |Filter(SortedValues(k.claims), ClaimOfTenant(tenantId))| - |ShownClaims(k, tenantId, scope)|
  {
    ShownPlusRedacted(k, tenantId, scope);
    KernelKeyed(k);
    CountKept(k.symbols, EntityIdOf(), OfTenant(tenantId));
  }

  /** What a newly observed hidden symbol does leave behind is one more redaction mark in its tenant's projection. */
  lemma HiddenSymbolLeavesMark(k: Kernel, e: Observation, a: Admission, tenantId: string, scope: Scope)
    requires Inv(k) && Hidden(k, e, tenantId, scope) && e.entityId !in k.symbols.at
    ensures Inv(ObserveStep(k, e, a))
    ensures |ProjectionOf(ObserveStep(k, e, a), tenantId, scope).redactions|
            == |ProjectionOf(k, tenantId, scope).redactions|
            + if e.tenantId == tenantId && a.accepted && !IdentityConflict(k, e) then 1 else 0
  {
    HiddenSymbolUnobservable(k, e, a, tenantId, scope);
    MarksCounted(k, tenantId, scope);
    MarksCounted(ObserveStep(k, e, a), tenantId, scope);
    TenantSymbolsGrow(k, e, a, tenantId);
    ClaimsUntouched(k, e, a);
  }

  lemma ClaimsUntouched(k: Kernel, e: Observation, a: Admission)
    ensures ObserveStep(k, e, a).claims == k.claims
  {
  }

  lemma TenantSymbolsGrow(k: Kernel, e: Observation, a: Admission, tenantId: string)
    requires e.entityId !in k.symbols.at
    ensures |TenantSymbols(ObserveStep(k, e, a).symbols.at, tenantId)| == |TenantSymbols(k.symbols.at, tenantId)|
            + if e.tenantId == tenantId && a.accepted && !IdentityConflict(k, e) then 1 else 0
  {
    ObservedSymbols(k, e, a);
    NewcomerCounted(k.symbols.at, SymbolOf(e), tenantId);
  }

  lemma NewcomerCounted(symbols: map<string, Symbol>, s: Symbol, tenantId: string)
    requires s.entityId !in symbols
    ensures |TenantSymbols(symbols[s.entityId := s], tenantId)|
            == |TenantSymbols(symbols, tenantId)| + if s.tenantId == tenantId then 1 else 0
  {
    var was, now := TenantSymbols(symbols, tenantId), TenantSymbols(symbols[s.entityId := s], tenantId);
    assert s.entityId !in was;
    if s.tenantId == tenantId { assert now == was + {s.entityId}; } else { assert now == was; }
  }

  /** The first loop of project, over the symbols in id order. */
  method ProjectSymbols(sorted: seq<Symbol>, tenantId: string, scope: Scope)
    returns (symbols: seq<SymbolView>, visible: set<string>, redactions: seq<Redaction>)
    ensures symbols == Map(Filter(sorted, SymbolShown(tenantId, scope)), ViewSymbol())
    ensures visible == VisibleIds(Filter(sorted, SymbolShown(tenantId, scope)))
    ensures redactions == SymbolRedactions(sorted, tenantId, scope)
  {
    symbols, visible, redactions := [], {}, [];
    var i := 0;
    while i < |sorted|
      invariant 0 <= i <= |sorted|
      invariant symbols == Map(Filter(sorted[..i], SymbolShown(tenantId, scope)), ViewSymbol())
      invariant visible == VisibleIds(Filter(sorted[..i], SymbolShown(tenantId, scope)))
      invariant redactions == SymbolRedactions(sorted[..i], tenantId, scope)
    {
      var symbol := sorted[i];
      assert sorted[..i + 1][..i] == sorted[..i];
      if symbol.tenantId == tenantId {
        if CanProject(symbol.scope, scope, symbol.publicPermission) {
          visible := visible + {symbol.entityId};
          symbols := symbols + [ViewSymbol()(symbol)];
        } else {
          redactions := redactions + [SymbolScopeRedacted];
        }
      }
      i := i + 1;
    }
    assert sorted[..|sorted|] == sorted;
  }

  /** The second loop, over the claims in id order. */
  method ProjectClaims(sorted: seq<Claim>, visible: set<string>, tenantId: string, scope: Scope)
    returns (claims: seq<ClaimView>, redactions: seq<Redaction>)
    ensures claims == Map(Filter(sorted, ClaimShown(visible, tenantId, scope)), ViewClaim())
    ensures redactions == ClaimRedactions(sorted, visible, tenantId, scope)
  {
    claims, redactions := [], [];
    var i := 0;
    while i < |sorted|
      invariant 0 <= i <= |sorted|
      invariant claims == Map(Filter(sorted[..i], ClaimShown(visible, tenantId, scope)), ViewClaim())
      invariant redactions == ClaimRedactions(sorted[..i], visible, tenantId, scope)
    {
      var claim := sorted[i];
      assert sorted[..i + 1][..i] == sorted[..i];
      if claim.tenantId == tenantId {
        if claim.subject !in visible {
          redactions := redactions + [ClaimSubjectScopeRedacted];
        } else if ClaimVisible(claim, scope) {
          claims := claims + [ViewClaim()(claim)];
        } else {
          redactions := redactions + [ClaimScopeRedacted];
        }
      }
      i := i + 1;
    }
    assert sorted[..|sorted|] == sorted;
  }
}
