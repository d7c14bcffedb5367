/** The upgrade loop: one plan per health signal, and the ranked portfolio over many. */
module UpgradePortfolio {
  import opened Collections
  import opened Ordering

  datatype ChangeClass =
    | Code | Schema | PolicyChange | Capability | AuthorityRules | ProviderBehavior
    | DeploymentProfile | Configuration | Payment | Audit | Proof | CommandSpine

  /** Why a call raised. */
  datatype Refusal =
    | DesiredInvalid | ChangesRequired | ChangeBlank | ChangeUnknown
    | GeneratedAtRequired | LimitNotPositive | SignalsRequired | DuplicateSignal | PlansRequired | PriorityNotUnique
    | PriorityNotCovering

  datatype Severity = Low | Medium | High | Critical

  /** C0 to C7, by rank. */
  type Maturity = n: nat | n <= 7

  /** A validated health signal: blocker codes are stripped text. */
  datatype Signal = Signal(capabilityId: string, maturity: Maturity, successRate: real, failureCount: nat, latency: nat,
                           costPerSuccess: real, openIncidents: nat, blockerCodes: seq<string>,
                           evidenceRefs: seq<string>)

  datatype Diagnosis = Diagnosis(codes: seq<string>, severity: Severity, changes: seq<ChangeClass>)

  datatype Reason =
    | ActivationBlocked | OperatorReviewRequired
    | CommandNotCertified | CertificateNotIssued | SandboxNotPassed | CanaryNotCompleted | ClosureMissing
    | LearningMissing
    | AuthorityApproval | SecondApproval

  datatype Plan = Plan(signal: Signal, diagnosis: Diagnosis, target: Maturity, blocked: seq<Reason>)

  datatype Portfolio = Portfolio(generatedAt: string, plans: seq<Plan>, prioritized: seq<string>,
                                 systemic: seq<string>, blocked: seq<Reason>,
                                 severityCounts: map<Severity, nat>, selected: nat, observed: nat,
                                 evidenceRefCount: nat)

  /** Requested levels and classes arrive as text. */
  datatype Request = Request(generatedAt: string, desired: string, changes: seq<string>,
                             overrides: map<string, seq<string>>, limit: Option<int>)

  // ----- One plan -----------------------------------------------------------------------

  function ParseMaturity(s: string): Option<Maturity> {
    if |s| == 2 && s[0] == 'C' && '0' <= s[1] <= '7' then Some((s[1] - '0') as nat) else None
  }

  function ParseChange(s: string): Option<ChangeClass> {
    match s
    case "code" => Some(Code) case "schema" => Some(Schema) case "policy" => Some(PolicyChange)
    case "capability" => Some(Capability)
    case "authority_rules" => Some(AuthorityRules) case "provider_behavior" => Some(ProviderBehavior)
    case "deployment_profile" => Some(DeploymentProfile) case "configuration" => Some(Configuration)
    case "payment" => Some(Payment)
    case "audit" => Some(Audit) case "proof" => Some(Proof) case "command_spine" => Some(CommandSpine)
    case _ => None
  }

  predicate IsCritical(c: ChangeClass) {
    c == PolicyChange || c == Payment || c == Audit || c == Proof || c == CommandSpine || c == AuthorityRules
  }

  /** Stripped, all known, none blank, the first of each kept. */
  function NormalizeChanges(values: seq<string>): Result<seq<ChangeClass>, Refusal> {
    if values == [] then Err(ChangesRequired)
    else if exists i | 0 <= i < |values| :: Blank(values[i]) then Err(ChangeBlank)
    else if exists i | 0 <= i < |values| :: ParseChange(Strip(values[i])).None? then Err(ChangeUnknown)
    else Ok(Unique(seq(|values|, i requires 0 <= i < |values| => ParseChange(Strip(values[i])).value)))
  }

  datatype Weakness = MaturityBelow | SuccessBelow | FailuresObserved | LatencyAbove | CostAbove | IncidentsPresent
    | Preventive

  function CodeText(w: Weakness): string {
    match w
    case MaturityBelow => "maturity_below_live_read"
    case SuccessBelow => "success_rate_below_threshold"
    case FailuresObserved => "failures_observed"
    case LatencyAbove => "latency_above_threshold"
    case CostAbove => "cost_above_threshold"
    case IncidentsPresent => "open_incidents_present"
    case Preventive => "preventive_upgrade_review"
  }

  predicate Shows(s: Signal, w: Weakness) {
    match w
    case MaturityBelow => s.maturity < 4
    case SuccessBelow => s.successRate < 0.98
    case FailuresObserved => s.failureCount > 0
    case LatencyAbove => s.latency > 5000
    case CostAbove => s.costPerSuccess > 1.0
    case IncidentsPresent => s.openIncidents > 0
    case Preventive => false
  }

  const CHECKS := [MaturityBelow, SuccessBelow, FailuresObserved, LatencyAbove, CostAbove, IncidentsPresent]

  function ShownBy(s: Signal): Weakness -> bool { (w: Weakness) => Shows(s, w) }

  /** Blockers first, then the failed checks in order; repeats are still in the list. */
  function RawCodes(s: Signal): (codes: seq<string>)
    ensures codes != []
  {
    var found := s.blockerCodes + Map(Filter(CHECKS, ShownBy(s)), CodeText);
    if found == [] then [CodeText(Preventive)] else found
  }

  /** The severity ladder counts codes before repeats are removed. */
  function SeverityOf(s: Signal, changes: seq<ChangeClass>, codes: seq<string>): Severity {
    if exists c | c in changes :: IsCritical(c) then Critical
    else if s.openIncidents > 0 || s.successRate < 0.9 then High
    else if s.failureCount > 0 || |codes| >= 3 then Medium
    else Low
  }

  method FindWeaknesses(s: Signal) returns (codes: seq<string>)
    ensures codes == RawCodes(s)
  {
    codes := s.blockerCodes;
    FoundEnds(s);
    codes := AddIf(codes, s, s.maturity < 4, 0);
    codes := AddIf(codes, s, s.successRate < 0.98, 1);
    codes := AddIf(codes, s, s.failureCount > 0, 2);
    codes := AddIf(codes, s, s.latency > 5000, 3);
    codes := AddIf(codes, s, s.costPerSuccess > 1.0, 4);
    codes := AddIf(codes, s, s.openIncidents > 0, 5);
    if codes == [] { codes := [CodeText(Preventive)]; }
  }

  /** The list is built check by check; the severity counts it with repeats, which are removed at the end. */
  method Diagnose(s: Signal, changes: seq<ChangeClass>) returns (d: Diagnosis)
    ensures d == DiagnosisOf(s, changes)
  {
    var codes := FindWeaknesses(s);
    d := Diagnosis(Unique(codes), SeverityOf(s, changes, codes), changes);
  }

  /** The list once the first `n` checks are made. */
  ghost function FoundBy(s: Signal, n: nat): seq<string>
    requires n <= |CHECKS|
  {
    s.blockerCodes + Map(Filter(CHECKS[..n], ShownBy(s)), CodeText)
  }

  lemma FoundEnds(s: Signal)
    ensures FoundBy(s, 0) == s.blockerCodes
    ensures RawCodes(s) == if FoundBy(s, 6) == [] then [CodeText(Preventive)] else FoundBy(s, 6)
  {
    assert CHECKS[..0] == [] && CHECKS[..6] == CHECKS;
  }

  method AddIf(codes: seq<string>, s: Signal, shown: bool, n: nat) returns (r: seq<string>)
    requires n < |CHECKS| && shown == Shows(s, CHECKS[n]) && codes == FoundBy(s, n)
    ensures r == FoundBy(s, n + 1)
  {
    r := if shown then codes + [CodeText(CHECKS[n])] else codes;
    FilterNext(CHECKS, n, ShownBy(s));
  }

  function DiagnosisOf(s: Signal, changes: seq<ChangeClass>): Diagnosis {
    Diagnosis(Unique(RawCodes(s)), SeverityOf(s, changes, RawCodes(s)), changes)
  }

  /** Already there or beyond: aim one level higher, as far as C7. */
  function TargetMaturity(current: Maturity, desired: Maturity): Maturity {
    if desired <= current then (if current < 7 then current + 1 else 7) else desired
  }

  function PlanFor(s: Signal, changes: seq<ChangeClass>, desired: Maturity): Plan {
    var d := DiagnosisOf(s, changes);
    Plan(s, d, TargetMaturity(s.maturity, desired),
         [CommandNotCertified, CertificateNotIssued, SandboxNotPassed, CanaryNotCompleted, ClosureMissing,
          LearningMissing]
         + (if d.severity == High || d.severity == Critical then [AuthorityApproval] else [])
         + (if PolicyChange in changes || AuthorityRules in changes then [SecondApproval] else []))
  }

  function ChangesFor(q: Request, s: Signal): seq<string> {
    if s.capabilityId in q.overrides then q.overrides[s.capabilityId] else q.changes
  }

  function Propose(q: Request, s: Signal): Result<Plan, Refusal> {
    if ParseMaturity(q.desired).None? then Err(DesiredInvalid)
    else
      match NormalizeChanges(ChangesFor(q, s))
      case Err(e) => Err(e)
      case Ok(changes) => Ok(PlanFor(s, changes, ParseMaturity(q.desired).value))
  }

  // ----- The ranking ---------------------------------------------------------------------

  function Rank(s: Severity): nat { match s case Critical => 0 case High => 1 case Medium => 2 case Low => 3 }

  /** What a plan is ranked by, in order; every number ranks smaller first. */
  datatype Key = Key(severity: int, incidents: int, failures: int, gap: int, success: real, latency: int, cost: real,
                     id: string)

  function KeyOf(p: Plan): Key {
    var s := p.signal;
    Key(Rank(p.diagnosis.severity), 0 - s.openIncidents, 0 - s.failureCount, -(p.target - s.maturity), s.successRate,
        -(if s.latency > 5000 then s.latency - 5000 else 0),
        -(if s.costPerSuccess > 1.0 then s.costPerSuccess - 1.0 else 0.0), s.capabilityId)
  }

  /** Python's tuple comparison: the first difference decides. */
  predicate KeyLe(a: Key, b: Key) {
    if a.severity != b.severity then a.severity < b.severity
    else if a.incidents != b.incidents then a.incidents < b.incidents
    else if a.failures != b.failures then a.failures < b.failures
    else if a.gap != b.gap then a.gap < b.gap
    else if a.success != b.success then a.success < b.success
    else if a.latency != b.latency then a.latency < b.latency
    else if a.cost != b.cost then a.cost < b.cost
    else TextLe(a.id, b.id)
  }

  function RanksBefore(): (Plan, Plan) -> bool { (p: Plan, q: Plan) => KeyLe(KeyOf(p), KeyOf(q)) }

  lemma KeyLeOrders(a: Key, b: Key, c: Key)
    ensures KeyLe(a, b) || KeyLe(b, a)
    ensures KeyLe(a, b) && KeyLe(b, a) ==> a.id == b.id
    ensures KeyLe(a, b) && KeyLe(b, c) ==> KeyLe(a, c)
  {
    TextLeTotal(a.id, b.id);
    if TextLe(a.id, b.id) && TextLe(b.id, c.id) { TextLeTransitive(a.id, b.id, c.id); }
  }

  lemma RankingIsPreorder()
    ensures TotalPreorder(RanksBefore())
  {
    forall p, q ensures RanksBefore()(p, q) || RanksBefore()(q, p) { KeyLeOrders(KeyOf(p), KeyOf(q), KeyOf(q)); }
    forall p, q, r | RanksBefore()(p, q) && RanksBefore()(q, r) ensures RanksBefore()(p, r) {
      KeyLeOrders(KeyOf(p), KeyOf(q), KeyOf(r));
    }
  }

  // ----- The portfolio --------------------------------------------------------------------

  function IdOf(): Signal -> string { (s: Signal) => s.capabilityId }
  function PlanId(): Plan -> string { (p: Plan) => p.signal.capabilityId }

  /** The plans of the signals, in their order, when every request is valid. */
  function ProposeAll(q: Request, signals: seq<Signal>): Result<seq<Plan>, Refusal> {
    if signals == [] then Ok([])
    else
      match Propose(q, signals[0])
      case Err(e) => Err(e)
      case Ok(p) => match ProposeAll(q, signals[1..]) case Err(e) => Err(e) case Ok(rest) => Ok([p] + rest)
  }

  function Selected(ranked: seq<Plan>, limit: Option<int>): seq<Plan> {
    if limit.Some? && 0 <= limit.value < |ranked| then ranked[..limit.value] else ranked
  }

  function HasCode(code: string): Plan -> bool { (p: Plan) => code in p.diagnosis.codes }

  function CountOf(plans: seq<Plan>, code: string): nat { |Filter(plans, HasCode(code))| }

  /** (-count, code) */
  function CodeLe(plans: seq<Plan>): (string, string) -> bool {
    (a: string, b: string) => CountOf(plans, a) > CountOf(plans, b)
    || (CountOf(plans, a) == CountOf(plans, b) && TextLe(a, b))
  }

  function Repeated(plans: seq<Plan>): string -> bool { code => CountOf(plans, code) > 1 }

  function AllCodes(plans: seq<Plan>): seq<string> {
    if plans == [] then [] else AllCodes(plans[..|plans| - 1]) + plans[|plans| - 1].diagnosis.codes
  }

  function Systemic(plans: seq<Plan>): seq<string> {
    Filter(Sort(CodeLe(plans), Unique(AllCodes(plans))), Repeated(plans))
  }

  function AllReasons(plans: seq<Plan>): seq<Reason> {
    if plans == [] then [] else AllReasons(plans[..|plans| - 1]) + plans[|plans| - 1].blocked
  }

  function Refs(plans: seq<Plan>): set<string> { set p, r | p in plans && r in p.signal.evidenceRefs :: r }

  function OfSeverity(s: Severity): Plan -> bool { (p: Plan) => p.diagnosis.severity == s }

  function SeverityCounts(plans: seq<Plan>): map<Severity, nat> {
    map[Low := |Filter(plans, OfSeverity(Low))|, Medium := |Filter(plans, OfSeverity(Medium))|,
        High := |Filter(plans, OfSeverity(High))|, Critical := |Filter(plans, OfSeverity(Critical))|]
  }

  /** Stamping strips the ids and refuses what no longer names the plans. */
  function Assemble(q: Request, plans: seq<Plan>, observed: nat): Result<Portfolio, Refusal> {
    var prioritized := Map(Map(plans, PlanId()), Strip);
    if plans == [] then Err(PlansRequired)
    else if |set i | i in prioritized| != |prioritized| then Err(PriorityNotUnique)
    else if (set i | i in prioritized) != (set i | i in Map(plans, PlanId())) then Err(PriorityNotCovering)
    else Ok(Portfolio(q.generatedAt, plans, prioritized, Systemic(plans),
                      Unique([ActivationBlocked, OperatorReviewRequired] + AllReasons(plans)),
                      SeverityCounts(plans), |plans|, observed, |Refs(plans)|))
  }

  function ProposePortfolio(q: Request, signals: seq<Signal>): Result<Portfolio, Refusal> {
    var ids := Map(signals, IdOf());
    if Blank(q.generatedAt) then Err(GeneratedAtRequired)
    else if q.limit.Some? && q.limit.value < 1 then Err(LimitNotPositive)
    else if signals == [] then Err(SignalsRequired)
    else if |set i | i in ids| != |ids| then Err(DuplicateSignal)
    else
      match ProposeAll(q, signals)
      case Err(e) => Err(e)
      case Ok(plans) => Assemble(q, Selected(Sort(RanksBefore(), plans), q.limit), |signals|)
  }

  // ----- What the portfolio depends on -------------------------------------------------------

  ghost predicate RequestsValid(q: Request, signals: seq<Signal>) {
    forall s | s in signals :: Propose(q, s).Ok?
  }

  function PlanOf(q: Request): Signal -> Plan {
    (s: Signal) => match Propose(q, s) case Ok(p) => p case Err(_) => PlanFor(s, [], 0)
  }

  lemma FirstRequestValid(q: Request, signals: seq<Signal>)
    requires signals != []
    ensures RequestsValid(q, signals) <==> Propose(q, signals[0]).Ok? && RequestsValid(q, signals[1..])
  {
    assert forall s :: s in signals <==> s == signals[0] || s in signals[1..];
  }

  lemma FirstPlan(q: Request, signals: seq<Signal>)
    requires signals != [] && Propose(q, signals[0]).Ok?
    ensures Map(signals, PlanOf(q)) == [Propose(q, signals[0]).value] + Map(signals[1..], PlanOf(q))
  {
    MapHead(signals, PlanOf(q));
  }

  lemma {:induction false} ProposeAllExact(q: Request, signals: seq<Signal>)
    ensures ProposeAll(q, signals).Ok? <==> RequestsValid(q, signals)
    ensures ProposeAll(q, signals).Ok? ==> ProposeAll(q, signals).value == Map(signals, PlanOf(q))
  {
    if signals != [] {
      ProposeAllExact(q, signals[1..]);
      FirstRequestValid(q, signals);
      if Propose(q, signals[0]).Ok? { FirstPlan(q, signals); }
    }
  }

  ghost function Ranked(q: Request, signals: seq<Signal>): seq<Plan> { Sort(RanksBefore(), Map(signals, PlanOf(q))) }

  ghost predicate Trimmed(plans: seq<Plan>) {
    forall p | p in plans :: Strip(p.signal.capabilityId) == p.signal.capabilityId
  }

  /** The ranked plans keep the signals' ids, so nothing ties. */
  lemma RankedIds(q: Request, signals: seq<Signal>)
    requires Distinct(Map(signals, IdOf()))
    ensures Distinct(Map(Ranked(q, signals), PlanId())) && NoTies(RanksBefore(), Map(signals, PlanOf(q)))
    ensures |Ranked(q, signals)| == |signals|
  {
    var plans := Map(signals, PlanOf(q));
    assert forall s :: PlanId()(PlanOf(q)(s)) == IdOf()(s);
    assert Map(plans, PlanId()) == Map(signals, IdOf());
    SortContents(RanksBefore(), plans);
    SortMembers(RanksBefore(), plans);
    MapPermuted(plans, Ranked(q, signals), PlanId());
    MultisetDistinct(Map(plans, PlanId()), Map(Ranked(q, signals), PlanId()));
    forall a, b | a in plans && b in plans && RanksBefore()(a, b) && RanksBefore()(b, a) ensures a == b {
      KeyLeOrders(KeyOf(a), KeyOf(b), KeyOf(a));
      var i :| 0 <= i < |plans| && plans[i] == a;
      var j :| 0 <= j < |plans| && plans[j] == b;
      assert Map(plans, PlanId())[i] == Map(plans, PlanId())[j];
    }
  }

  lemma UntrimmedNotCovered(ids: seq<string>, n: nat)
    requires n < |ids| && Strip(ids[n]) != ids[n]
    ensures (set i | i in Map(ids, Strip)) != (set i | i in ids)
  {
    forall i | 0 <= i < |ids| ensures Map(ids, Strip)[i] != ids[n] { StripTwice(ids[i]); }
    var trimmed, all := set i | i in Map(ids, Strip), set i | i in ids;
    assert ids[n] in all && ids[n] !in trimmed;
  }

  lemma TrimmedIds(plans: seq<Plan>)
    ensures Trimmed(plans) <==> Map(Map(plans, PlanId()), Strip) == Map(plans, PlanId())
    ensures !Trimmed(plans) ==> (set i | i in Map(Map(plans, PlanId()), Strip)) != (set i | i in Map(plans, PlanId()))
  {
    var ids := Map(plans, PlanId());
    if Trimmed(plans) {
      assert forall i | 0 <= i < |plans| :: plans[i] in plans;
    } else {
      var p :| p in plans && Strip(p.signal.capabilityId) != p.signal.capabilityId;
      var n :| 0 <= n < |plans| && plans[n] == p;
      UntrimmedNotCovered(ids, n);
    }
  }

  lemma AssembleOkIff(q: Request, plans: seq<Plan>, observed: nat)
    requires Distinct(Map(plans, PlanId())) && plans != []
    ensures Assemble(q, plans, observed).Ok? <==> Trimmed(plans)
    ensures Trimmed(plans) ==> Map(Map(plans, PlanId()), Strip) == Map(plans, PlanId())
  {
    TrimmedIds(plans);
    SetSize(Map(plans, PlanId()));
  }

  lemma SelectedDistinct(plans: seq<Plan>, limit: Option<int>)
    requires Distinct(Map(plans, PlanId()))
    ensures Distinct(Map(Selected(plans, limit), PlanId()))
    ensures plans != [] && (limit.Some? ==> limit.value >= 1) ==> Selected(plans, limit) != []
  {
    var kept := Selected(plans, limit);
    forall i, j | 0 <= i < j < |kept| ensures Map(kept, PlanId())[i] != Map(kept, PlanId())[j] {
      assert Map(plans, PlanId())[i] != Map(plans, PlanId())[j];
    }
  }

  /** Exactly when a portfolio is built: and an untrimmed capability id only matters when it makes the cut. */
  lemma PortfolioOkIff(q: Request, signals: seq<Signal>)
    ensures ProposePortfolio(q, signals).Ok? <==>
              && !Blank(q.generatedAt) && (q.limit.Some? ==> q.limit.value >= 1) && signals != []
              && Distinct(Map(signals, IdOf())) && RequestsValid(q, signals)
              && Trimmed(Selected(Ranked(q, signals), q.limit))
    ensures ProposePortfolio(q, signals).Ok? ==>
              var r := ProposePortfolio(q, signals).value;
              r.plans == Selected(Ranked(q, signals), q.limit) && r.prioritized == Map(r.plans, PlanId())
              && r.observed == |signals|
  {
    SetSize(Map(signals, IdOf()));
    ProposeAllExact(q, signals);
    if Distinct(Map(signals, IdOf())) && signals != [] && (q.limit.Some? ==> q.limit.value >= 1) {
      RankedIds(q, signals);
      SelectedDistinct(Ranked(q, signals), q.limit);
      AssembleOkIff(q, Selected(Ranked(q, signals), q.limit), |signals|);
    }
  }

  lemma DistinctPermuted<T>(s: seq<T>, t: seq<T>)
    requires multiset(s) == multiset(t)
    ensures Distinct(s) <==> Distinct(t)
  {
    if Distinct(s) { MultisetDistinct(s, t); }
    if Distinct(t) { MultisetDistinct(t, s); }
  }

  /** The order in which signals arrive changes nothing: the same portfolio, or no portfolio either way. Only when
      several change requests are invalid may a different one of their errors be the one reported. */
  lemma PortfolioIsCanonical(q: Request, signals: seq<Signal>, others: seq<Signal>)
    requires multiset(signals) == multiset(others)
    ensures var r, r2 := ProposePortfolio(q, signals), ProposePortfolio(q, others);
            (r.Ok? <==> r2.Ok?) && (r.Ok? || RequestsValid(q, signals) ==> r == r2)
  {
    assert |multiset(signals)| == |multiset(others)|;
    forall s ensures s in signals <==> s in others { assert s in multiset(signals) <==> s in multiset(others); }
    MapPermuted(signals, others, IdOf());
    DistinctPermuted(Map(signals, IdOf()), Map(others, IdOf()));
    SetSize(Map(signals, IdOf()));
    SetSize(Map(others, IdOf()));
    ProposeAllExact(q, signals);
    ProposeAllExact(q, others);
    PortfolioOkIff(q, signals);
    PortfolioOkIff(q, others);
    if Distinct(Map(signals, IdOf())) { SameRanking(q, signals, others); }
  }

  lemma SameRanking(q: Request, signals: seq<Signal>, others: seq<Signal>)
    requires multiset(signals) == multiset(others) && Distinct(Map(signals, IdOf()))
    ensures Ranked(q, signals) == Ranked(q, others)
  {
    MapPermuted(signals, others, PlanOf(q));
    RankedIds(q, signals);
    RankingIsPreorder();
    SortCanonical(RanksBefore(), Map(signals, PlanOf(q)), Map(others, PlanOf(q)));
  }

  /** A limited portfolio is a prefix of the unlimited one, and every plan it keeps ranks strictly before every plan
      it drops. */
  lemma LimitKeepsTheBest(q: Request, signals: seq<Signal>, k: int)
    requires q.limit.None? && ProposePortfolio(q, signals).Ok? && k >= 1
    ensures var all, best := ProposePortfolio(q, signals).value, ProposePortfolio(q.(limit := Some(k)), signals);
            && best.Ok? && best.value.plans <= all.plans
            && |best.value.plans| == (if k < |signals| then k else |signals|)
            && forall i, j | 0 <= i < |best.value.plans| <= j < |all.plans| ::
                 RanksBefore()(all.plans[i], all.plans[j]) && !RanksBefore()(all.plans[j], all.plans[i])
  {
    var limited := q.(limit := Some(k));
    PortfolioOkIff(q, signals);
    PortfolioOkIff(limited, signals);
    LimitIrrelevant(q, limited, signals);
    RankedIds(q, signals);
    StrictlyRanked(q, signals);
    TrimmedSelected(Ranked(q, signals), limited.limit);
    assert ProposePortfolio(q, signals).value.plans == Ranked(q, signals);
    assert ProposePortfolio(limited, signals).value.plans == Selected(Ranked(q, signals), limited.limit);
  }

  lemma TrimmedSelected(plans: seq<Plan>, limit: Option<int>)
    requires Trimmed(plans)
    ensures Trimmed(Selected(plans, limit)) && Selected(plans, limit) <= plans
  {
    assert forall p | p in Selected(plans, limit) :: p in plans;
  }

  lemma LimitIrrelevant(q: Request, limited: Request, signals: seq<Signal>)
    requires limited == q.(limit := limited.limit)
    ensures Ranked(limited, signals) == Ranked(q, signals)
            && (RequestsValid(limited, signals) <==> RequestsValid(q, signals))
  {
    forall s ensures Propose(limited, s) == Propose(q, s) { assert ChangesFor(limited, s) == ChangesFor(q, s); }
    MapExt(signals, PlanOf(limited), PlanOf(q));
  }

  lemma StrictlyRanked(q: Request, signals: seq<Signal>)
    requires Distinct(Map(signals, IdOf()))
    ensures var ranked := Ranked(q, signals);
            forall i, j | 0 <= i < j < |ranked| ::
              RanksBefore()(ranked[i], ranked[j]) && !RanksBefore()(ranked[j], ranked[i])
  {
    var ranked, plans := Ranked(q, signals), Map(signals, PlanOf(q));
    RankedIds(q, signals);
    RankingIsPreorder();
    SortSorted(RanksBefore(), plans);
    forall i, j | 0 <= i < j < |ranked|
      ensures RanksBefore()(ranked[i], ranked[j]) && !RanksBefore()(ranked[j], ranked[i]) {
      assert Map(ranked, PlanId())[i] != Map(ranked, PlanId())[j];
      KeyLeOrders(KeyOf(ranked[i]), KeyOf(ranked[j]), KeyOf(ranked[i]));
    }
  }

  lemma TrimmedOneMore(plans: seq<Plan>, k: nat)
    requires k < |plans| && Trimmed(plans[..k])
    ensures Trimmed(plans[..k + 1]) <==> Strip(plans[k].signal.capabilityId) == plans[k].signal.capabilityId
  {
    assert plans[..k + 1] == plans[..k] + [plans[k]];
    assert plans[k] in plans[..k + 1];
  }

  /** What a portfolio needs apart from a limit and the ids that make the cut. */
  ghost predicate Proposable(q: Request, signals: seq<Signal>) {
    !Blank(q.generatedAt) && signals != [] && Distinct(Map(signals, IdOf())) && RequestsValid(q, signals)
  }

  lemma LimitedOkIff(q: Request, signals: seq<Signal>, k: int)
    ensures ProposePortfolio(q.(limit := Some(k)), signals).Ok?
            <==> k >= 1 && Proposable(q, signals) && Trimmed(Selected(Ranked(q, signals), Some(k)))
  {
    PortfolioOkIff(q.(limit := Some(k)), signals);
    LimitIrrelevant(q, q.(limit := Some(k)), signals);
  }

  /** Letting one more plan in turns success into failure exactly when the id of the plan that enters is untrimmed. */
  lemma RaisingLimitIff(q: Request, signals: seq<Signal>, k: nat)
    requires ProposePortfolio(q.(limit := Some(k)), signals).Ok?
    ensures |Ranked(q, signals)| == |signals|
    ensures ProposePortfolio(q.(limit := Some(k + 1)), signals).Ok? <==>
            k >= |signals| || Strip(PlanId()(Ranked(q, signals)[k])) == PlanId()(Ranked(q, signals)[k])
  {
    LimitedOkIff(q, signals, k);
    LimitedOkIff(q, signals, k + 1);
    RankedIds(q, signals);
    OneMoreSelected(Ranked(q, signals), k);
  }

  lemma OneMoreSelected(ranked: seq<Plan>, k: nat)
    requires Trimmed(Selected(ranked, Some(k)))
    ensures Trimmed(Selected(ranked, Some(k + 1))) <==>
            k >= |ranked| || Strip(ranked[k].signal.capabilityId) == ranked[k].signal.capabilityId
  {
    if k < |ranked| {
      assert Selected(ranked, Some(k)) == ranked[..k] && Selected(ranked, Some(k + 1)) == ranked[..k + 1];
      TrimmedOneMore(ranked, k);
    }
  }

  /** The checks CapabilityHealthSignal makes on construction: the id need only not be blank. */
  predicate SignalConstructible(s: Signal) {
    && !Blank(s.capabilityId) && 0.0 <= s.successRate <= 1.0 && 0.0 <= s.costPerSuccess
    && Normalized(s.blockerCodes) == s.blockerCodes && Normalized(s.evidenceRefs) == s.evidenceRefs
       && s.evidenceRefs != []
  }

  function Steady(id: string, incidents: nat): Signal { Signal(id, 0, 1.0, 0, 0, 0.0, incidents, [], ["e"]) }

  lemma SteadyConstructible(id: string, incidents: nat)
    requires !Blank(id)
    ensures SignalConstructible(Steady(id, incidents))
  {
    NormalizedNothing();
    NormalizedLetter('e');
  }

  ghost predicate Plain(q: Request) {
    !Blank(q.generatedAt) && ParseMaturity(q.desired).Some? && q.overrides == map[] && NormalizeChanges(q.changes).Ok?
  }

  lemma IncidentsFirst(q: Request, id: string, other: string)
    requires Plain(q) && id != other
    ensures Ranked(q, [Steady(id, 1), Steady(other, 0)]) == [PlanOf(q)(Steady(id, 1)), PlanOf(q)(Steady(other, 0))]
  {
    var p, o := PlanOf(q)(Steady(id, 1)), PlanOf(q)(Steady(other, 0));
    assert Map([Steady(id, 1), Steady(other, 0)], PlanOf(q)) == [p, o];
    RanksByIncidents(q, id, other);
    SortedPair(RanksBefore(), p, o);
  }

  lemma SortedPair<T>(le: (T, T) -> bool, a: T, b: T)
    requires le(a, b)
    ensures Sort(le, [a, b]) == [a, b]
  {
    assert [a, b][1..] == [b] && [b][1..] == [];
    assert Sort(le, [b]) == [b];
  }

  lemma RanksByIncidents(q: Request, id: string, other: string)
    requires Plain(q)
    ensures RanksBefore()(PlanOf(q)(Steady(id, 1)), PlanOf(q)(Steady(other, 0)))
  {
    assert ChangesFor(q, Steady(id, 1)) == q.changes == ChangesFor(q, Steady(other, 0));
  }

  /** Such requests and ids exist. */
  lemma SuchAPair()
    ensures Plain(Request("t", "C4", ["code"], map[], None))
    ensures Strip("a") == "a" && !Blank("a") && Strip(" b") != " b" && !Blank(" b")
  {
    assert Strip("code") == "code";
  }

  lemma PairProposable(q: Request, id: string, other: string)
    requires Plain(q) && id != other
    ensures Proposable(q, [Steady(id, 1), Steady(other, 0)])
  {
    var signals := [Steady(id, 1), Steady(other, 0)];
    assert Map(signals, IdOf()) == [id, other];
    assert forall s | s in signals :: ChangesFor(q, s) == q.changes;
  }

  /** One incident under a trimmed id, none under an untrimmed one: a limit of one succeeds and a limit of two fails. */
  lemma RaisedLimitFails(q: Request, id: string, other: string)
    requires Plain(q) && Strip(id) == id && Strip(other) != other && !Blank(id) && !Blank(other)
    ensures SignalConstructible(Steady(id, 1)) && SignalConstructible(Steady(other, 0))
    ensures ProposePortfolio(q.(limit := Some(1)), [Steady(id, 1), Steady(other, 0)]).Ok?
    ensures ProposePortfolio(q.(limit := Some(2)), [Steady(id, 1), Steady(other, 0)]).Err?
  {
    var signals := [Steady(id, 1), Steady(other, 0)];
    SteadyConstructible(id, 1);
    SteadyConstructible(other, 0);
    IncidentsFirst(q, id, other);
    PairProposable(q, id, other);
    assert Selected(Ranked(q, signals), Some(1)) == [PlanOf(q)(signals[0])];
    LimitedOkIff(q, signals, 1);
    RaisingLimitIff(q, signals, 1);
  }

  // ----- Systemic weaknesses -------------------------------------------------------------------

  lemma {:induction false} AllCodesMember(plans: seq<Plan>, code: string)
    ensures code in AllCodes(plans) <==> exists i :: 0 <= i < |plans| && HasCode(code)(plans[i])
  {
    if plans != [] {
      var front, n := plans[..|plans| - 1], |plans| - 1;
      AllCodesMember(front, code);
      if code in AllCodes(front) {
        var i :| 0 <= i < |front| && HasCode(code)(front[i]);
        assert HasCode(code)(plans[i]);
      }
      if code in plans[n].diagnosis.codes { assert HasCode(code)(plans[n]); }
      if i :| 0 <= i < |plans| && HasCode(code)(plans[i]) { if i < n { assert HasCode(code)(front[i]); } }
    }
  }

  /** Systemic is exactly what two or more of the plans share, the most frequent first and then by code. */
  lemma SystemicExact(plans: seq<Plan>, code: string)
    ensures code in Systemic(plans) <==> exists i, j ::
            0 <= i < j < |plans| && HasCode(code)(plans[i]) && HasCode(code)(plans[j])
    ensures Distinct(Systemic(plans)) && Sorted(CodeLe(plans), Systemic(plans))
  {
    var codes := Unique(AllCodes(plans));
    SortMembers(CodeLe(plans), codes);
    SortDistinct(CodeLe(plans), codes);
    CodeOrder(plans);
    SortSorted(CodeLe(plans), codes);
    FilterSorted(CodeLe(plans), Sort(CodeLe(plans), codes), Repeated(plans));
    FilterDistinct(Sort(CodeLe(plans), codes), Repeated(plans));
    FilterMember(Sort(CodeLe(plans), codes), Repeated(plans), code);
    AllCodesMember(plans, code);
    FilterTwo(plans, HasCode(code));
  }

  lemma CodeOrder(plans: seq<Plan>)
    ensures TotalPreorder(CodeLe(plans))
  {
    forall x, y ensures CodeLe(plans)(x, y) || CodeLe(plans)(y, x) { TextLeTotal(x, y); }
    forall x, y, z | CodeLe(plans)(x, y) && CodeLe(plans)(y, z) ensures CodeLe(plans)(x, z) {
      if TextLe(x, y) && TextLe(y, z) { TextLeTransitive(x, y, z); }
    }
  }

  /** counts.get(code, 0) */
  function Tally(counts: Dict<string, nat>, code: string): nat { if code in counts.at then counts.at[code] else 0 }

  /** `counts` is keyed by the codes of `seen` in order of first appearance. */
  ghost predicate KeyedBy(counts: Dict<string, nat>, seen: seq<string>) {
    counts.Valid() && counts.keys == Unique(seen)
  }

  /** `counts` has one more than `before` for each of `part`. */
  ghost predicate OneMoreEach(before: Dict<string, nat>, counts: Dict<string, nat>, part: seq<string>) {
    forall c :: Tally(counts, c) == Tally(before, c) + if c in part then 1 else 0
  }

  ghost predicate CountsPlans(counts: Dict<string, nat>, plans: seq<Plan>) {
    forall c :: Tally(counts, c) == CountOf(plans, c)
  }

  lemma KeyNext(counts: Dict<string, nat>, seen: seq<string>, code: string, n: nat)
    requires KeyedBy(counts, seen)
    ensures KeyedBy(counts.Put(code, n), seen + [code])
  {
    UniqueNext(seen, code);
    assert code in counts.at <==> code in counts.keys;
    PutValid(counts, code, n);
  }

  lemma TallyNext(before: Dict<string, nat>, counts: Dict<string, nat>, part: seq<string>, code: string)
    requires OneMoreEach(before, counts, part) && code !in part
    ensures OneMoreEach(before, counts.Put(code, Tally(counts, code) + 1), part + [code])
  {
  }

  lemma PlanCounted(before: Dict<string, nat>, counts: Dict<string, nat>, plans: seq<Plan>, i: nat)
    requires i < |plans| && CountsPlans(before, plans[..i]) && OneMoreEach(before, counts, plans[i].diagnosis.codes)
    ensures CountsPlans(counts, plans[..i + 1])
  {
    forall c ensures Tally(counts, c) == CountOf(plans[..i + 1], c) { FilterNext(plans, i, HasCode(c)); }
  }

  /** The counting loops: how many plans carry each code, in order of first appearance. */
  method CountCodes(plans: seq<Plan>) returns (counts: Dict<string, nat>)
    requires forall p | p in plans :: Distinct(p.diagnosis.codes)
    ensures KeyedBy(counts, AllCodes(plans)) && CountsPlans(counts, plans)
  {
    counts := Dict([], map[]);
    var i := 0;
    while i < |plans|
      invariant 0 <= i <= |plans|
      invariant KeyedBy(counts, AllCodes(plans[..i])) && CountsPlans(counts, plans[..i])
    {
      assert plans[..i + 1][..i] == plans[..i] && plans[i] in plans;
      var before := counts;
      counts := CountPlan(before, AllCodes(plans[..i]), plans[i].diagnosis.codes);
      PlanCounted(before, counts, plans, i);
      i := i + 1;
    }
    assert plans[..i] == plans;
  }

  lemma NextCode(before: Dict<string, nat>, counts: Dict<string, nat>, seen: seq<string>, codes: seq<string>, j: nat)
    requires j < |codes| && Distinct(codes)
    requires KeyedBy(counts, seen + codes[..j]) && OneMoreEach(before, counts, codes[..j])
    ensures var after := counts.Put(codes[j], Tally(counts, codes[j]) + 1);
            KeyedBy(after, seen + codes[..j + 1]) && OneMoreEach(before, after, codes[..j + 1])
  {
    PrefixNext(codes, j);
    assert seen + codes[..j + 1] == (seen + codes[..j]) + [codes[j]];
    KeyNext(counts, seen + codes[..j], codes[j], Tally(counts, codes[j]) + 1);
    TallyNext(before, counts, codes[..j], codes[j]);
  }

  method CountPlan(before: Dict<string, nat>, ghost seen: seq<string>, codes: seq<string>)
    returns (counts: Dict<string, nat>)
    requires KeyedBy(before, seen) && Distinct(codes)
    ensures KeyedBy(counts, seen + codes) && OneMoreEach(before, counts, codes)
  {
    counts := before;
    assert seen + codes[..0] == seen;
    var j := 0;
    while j < |codes|
      invariant 0 <= j <= |codes|
      invariant KeyedBy(counts, seen + codes[..j]) && OneMoreEach(before, counts, codes[..j])
    {
      NextCode(before, counts, seen, codes, j);
      counts := counts.Put(codes[j], Tally(counts, codes[j]) + 1);
      j := j + 1;
    }
    assert codes[..j] == codes;
  }

  function CountsLe(counts: Dict<string, nat>): (string, string) -> bool {
    (a: string, b: string) => Tally(counts, a) > Tally(counts, b)
    || (Tally(counts, a) == Tally(counts, b) && TextLe(a, b))
  }

  method SystemicWeaknessCodes(plans: seq<Plan>) returns (codes: seq<string>)
    requires forall p | p in plans :: Distinct(p.diagnosis.codes)
    ensures codes == Systemic(plans)
  {
    var counts := CountCodes(plans);
    var sorted := Sort(CountsLe(counts), counts.keys);
    assert forall c | c in counts.keys :: c in counts.at;
    SortExt(CountsLe(counts), CodeLe(plans), counts.keys);
    SortMembers(CodeLe(plans), counts.keys);
    codes := [];
    var i := 0;
    while i < |sorted|
      invariant 0 <= i <= |sorted|
      invariant codes == Filter(sorted[..i], Repeated(plans))
    {
      FilterNext(sorted, i, Repeated(plans));
      assert sorted[i] in sorted;
      assert Repeated(plans)(sorted[i]) <==> Tally(counts, sorted[i]) > 1;
      if counts.at[sorted[i]] > 1 { codes := codes + [sorted[i]]; }
      i := i + 1;
    }
    assert sorted[..i] == sorted;
  }

  lemma {:induction false} InsertExt(a: (string, string) -> bool, b: (string, string) -> bool, x: string,
                                     s: seq<string>)
    requires forall y | y in s :: a(x, y) == b(x, y)
    ensures Insert(a, x, s) == Insert(b, x, s)
  {
    if s != [] { InsertExt(a, b, x, s[1..]); }
  }

  lemma {:induction false} SortExt(a: (string, string) -> bool, b: (string, string) -> bool, s: seq<string>)
    requires forall x, y | x in s && y in s :: a(x, y) == b(x, y)
    ensures Sort(a, s) == Sort(b, s)
  {
    if s != [] {
      assert forall x | x in s[1..] :: x in s;
      SortExt(a, b, s[1..]);
      SortMembers(a, s[1..]);
      InsertExt(a, b, s[0], Sort(a, s[1..]));
    }
  }

  /** Every tier starts at zero and each plan counts once: the tiers share the plans out. */
  method CountSeverities(plans: seq<Plan>) returns (counts: map<Severity, nat>)
    ensures counts == SeverityCounts(plans)
    ensures counts[Low] + counts[Medium] + counts[High] + counts[Critical] == |plans|
  {
    counts := map[Low := 0, Medium := 0, High := 0, Critical := 0];
    var i := 0;
    while i < |plans|
      invariant 0 <= i <= |plans|
      invariant counts == SeverityCounts(plans[..i])
      invariant counts[Low] + counts[Medium] + counts[High] + counts[Critical] == i
    {
      forall s
        ensures |Filter(plans[..i + 1], OfSeverity(s))|
                == |Filter(plans[..i], OfSeverity(s))| + if OfSeverity(s)(plans[i]) then 1 else 0
      {
        FilterNext(plans, i, OfSeverity(s));
      }
      counts := counts[plans[i].diagnosis.severity := counts[plans[i].diagnosis.severity] + 1];
      i := i + 1;
    }
    assert plans[..i] == plans;
  }

  /** A plan always aims above the present level, unless that is the top, and never below what was asked for. */
  lemma PlansAimHigher(q: Request, s: Signal)
    requires Propose(q, s).Ok?
    ensures var p := Propose(q, s).value;
            && (p.target > s.maturity <==> s.maturity < 7) && p.target >= ParseMaturity(q.desired).value
               && p.target >= s.maturity
            && p.signal == s && p.diagnosis.codes != [] && Distinct(p.diagnosis.codes)
  {
    assert RawCodes(s)[0] in Unique(RawCodes(s));
  }
}
