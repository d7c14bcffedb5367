/** What a portfolio says about its signals, told in their fields: what a plan holds, which of two plans comes first,
    and what the summary counts. */
module UpgradeRanking {
  import opened Collections
  import opened Ordering
  import opened UpgradePortfolio

  // ----- Names ----------------------------------------------------------------------------

  function Name(c: ChangeClass): string {
    match c
    case Code => "code" case Schema => "schema" case PolicyChange => "policy" case Capability => "capability"
    case AuthorityRules => "authority_rules" case ProviderBehavior => "provider_behavior"
    case DeploymentProfile => "deployment_profile" case Configuration => "configuration" case Payment => "payment"
    case Audit => "audit" case Proof => "proof" case CommandSpine => "command_spine"
  }

  /** A class is read from its own name and from no other text. */
  lemma ReadByName(c: ChangeClass, s: string)
    ensures ParseChange(s) == Some(c) <==> s == Name(c)
  {
  }

  /** A level is read from its letter and digit and from no other text. */
  lemma ReadByDigit(n: Maturity, s: string)
    ensures ParseMaturity(s) == Some(n) <==> s == ['C', ['0', '1', '2', '3', '4', '5', '6', '7'][n]]
  {
  }

  /** The request names a class: one of its texts is the class's name, up to spaces around it. */
  ghost predicate Asks(values: seq<string>, c: ChangeClass) {
    exists i :: 0 <= i < |values| && Strip(values[i]) == Name(c)
  }

  /** Classes are accepted when every text names one, and then exactly the ones named are taken, once each. */
  lemma ChangesExact(values: seq<string>)
    ensures NormalizeChanges(values).Ok? <==>
            values != [] && forall i | 0 <= i < |values| :: exists c :: Strip(values[i]) == Name(c)
    ensures NormalizeChanges(values).Ok? ==>
              Distinct(NormalizeChanges(values).value)
              && forall c :: c in NormalizeChanges(values).value <==> Asks(values, c)
  {
    forall i | 0 <= i < |values|
      ensures Blank(values[i]) ==> ParseChange(Strip(values[i])).None?
      ensures ParseChange(Strip(values[i])).Some? <==> exists c :: Strip(values[i]) == Name(c)
    {
      BlankIff(values[i]);
      NamedIff(Strip(values[i]));
    }
    if NormalizeChanges(values).Ok? {
      forall c ensures c in NormalizeChanges(values).value <==> Asks(values, c) { TakenIffAsked(values, c); }
    }
  }

  lemma NamedIff(s: string)
    ensures ParseChange(s).Some? <==> exists c :: s == Name(c)
    ensures s == "" ==> ParseChange(s).None?
  {
    if ParseChange(s).Some? { ReadByName(ParseChange(s).value, s); }
    if c :| s == Name(c) { ReadByName(c, s); }
  }

  ghost predicate AllKnown(values: seq<string>) {
    forall i | 0 <= i < |values| :: ParseChange(Strip(values[i])).Some?
  }

  ghost function Read(values: seq<string>): (read: seq<ChangeClass>)
    requires AllKnown(values)
    ensures |read| == |values| && forall i | 0 <= i < |values| :: ParseChange(Strip(values[i])) == Some(read[i])
  {
    seq(|values|, i requires 0 <= i < |values| => ParseChange(Strip(values[i])).value)
  }

  lemma NormalizedReads(values: seq<string>)
    requires NormalizeChanges(values).Ok?
    ensures AllKnown(values) && NormalizeChanges(values).value == Unique(Read(values))
  {
  }

  lemma TakenIffAsked(values: seq<string>, c: ChangeClass)
    requires NormalizeChanges(values).Ok?
    ensures c in NormalizeChanges(values).value <==> Asks(values, c)
  {
    NormalizedReads(values);
    var read := Read(values);
    forall i | 0 <= i < |values| ensures read[i] == c <==> Strip(values[i]) == Name(c) {
      ReadByName(c, Strip(values[i]));
    }
    if c in read { var i :| 0 <= i < |read| && read[i] == c; }
    if Asks(values, c) {
      var i :| 0 <= i < |values| && Strip(values[i]) == Name(c);
      assert read[i] == c;
    }
  }

  // ----- One plan -------------------------------------------------------------------------

  /** The findings about a signal, written out: its own blockers, then every check that fails. */
  function Findings(s: Signal): seq<string> {
    s.blockerCodes
    + (if s.maturity < 4 then ["maturity_below_live_read"] else [])
    + (if s.successRate < 0.98 then ["success_rate_below_threshold"] else [])
    + (if s.failureCount > 0 then ["failures_observed"] else [])
    + (if s.latency > 5000 then ["latency_above_threshold"] else [])
    + (if s.costPerSuccess > 1.0 then ["cost_above_threshold"] else [])
    + (if s.openIncidents > 0 then ["open_incidents_present"] else [])
  }

  lemma FoundIsFindings(s: Signal)
    ensures FoundBy(s, 6) == Findings(s)
  {
    FirstHalf(s);
    FoundNext(s, 3);
    FoundNext(s, 4);
    FoundNext(s, 5);
  }

  lemma FirstHalf(s: Signal)
    ensures FoundBy(s, 3)
            == s.blockerCodes
               + (if s.maturity < 4 then ["maturity_below_live_read"] else [])
               + (if s.successRate < 0.98 then ["success_rate_below_threshold"] else [])
               + (if s.failureCount > 0 then ["failures_observed"] else [])
  {
    FoundEnds(s);
    FoundNext(s, 0);
    FoundNext(s, 1);
    FoundNext(s, 2);
  }

  lemma FoundNext(s: Signal, n: nat)
    requires n < |CHECKS|
    ensures FoundBy(s, n + 1) == FoundBy(s, n) + (if Shows(s, CHECKS[n]) then [CodeText(CHECKS[n])] else [])
  {
    FilterNext(CHECKS, n, ShownBy(s));
    var kept := Filter(CHECKS[..n], ShownBy(s));
    var more := if Shows(s, CHECKS[n]) then [CHECKS[n]] else [];
    assert Filter(CHECKS[..n + 1], ShownBy(s)) == kept + more;
    MapConcat(kept, more, CodeText);
  }

  /** A diagnosis lists each finding once, or the one preventive code when there is none. */
  lemma CodesExact(s: Signal, changes: seq<ChangeClass>, code: string)
    ensures Distinct(DiagnosisOf(s, changes).codes)
    ensures code in DiagnosisOf(s, changes).codes <==>
            code in Findings(s) || (Findings(s) == [] && code == "preventive_upgrade_review")
  {
    FoundIsFindings(s);
    FoundEnds(s);
    EachOrElse(Findings(s), CodeText(Preventive), code);
  }

  lemma EachOrElse<T>(found: seq<T>, word: T, x: T)
    ensures x in Unique(if found == [] then [word] else found) <==> x in found || (found == [] && x == word)
  {
  }

  lemma NoFindingsIff(s: Signal)
    ensures Findings(s) == [] <==>
            && s.blockerCodes == [] && s.maturity >= 4 && s.successRate >= 0.98 && s.failureCount == 0
            && s.latency <= 5000 && s.costPerSuccess <= 1.0 && s.openIncidents == 0
  {
  }

  /** Touching policy, payment, audit, proof, the command spine or authority rules is critical; else open incidents or a
      success rate below nine in ten are high; else failures or three findings are medium; else it is low. */
  lemma SeverityExact(s: Signal, changes: seq<ChangeClass>)
    ensures var severity := DiagnosisOf(s, changes).severity;
            var critical := exists c | c in changes ::
                            c in {PolicyChange, Payment, Audit, Proof, CommandSpine, AuthorityRules};
            && (severity == Critical <==> critical)
            && (severity == High <==> !critical && (s.openIncidents > 0 || s.successRate < 0.9))
            && (severity == Medium <==> !critical && s.openIncidents == 0 && s.successRate >= 0.9
                                        && (s.failureCount > 0 || |Findings(s)| >= 3))
  {
    FoundIsFindings(s);
    FoundEnds(s);
  }

  /** What a plan for a signal holds: its level, one step up or the one asked for, and its diagnosis. */
  lemma PlanSays(q: Request, s: Signal)
    requires Propose(q, s).Ok?
    ensures var p := Propose(q, s).value;
            var asked := if s.capabilityId in q.overrides then q.overrides[s.capabilityId] else q.changes;
            && p.signal == s
            && ParseMaturity(q.desired).Some?
            && (var level := ParseMaturity(q.desired).value;
                p.target == if level > s.maturity then level else if s.maturity == 7 then 7 else s.maturity + 1)
            && (forall c :: c in p.diagnosis.changes <==> Asks(asked, c))
            && p.diagnosis == DiagnosisOf(s, p.diagnosis.changes)
  {
    ChangesExact(ChangesFor(q, s));
  }

  /** What keeps a plan blocked: the six stages ahead of it, an approval if it is high or critical, and a second one
      if it changes policy or authority rules. */
  lemma BlockedExact(q: Request, s: Signal, r: Reason)
    requires Propose(q, s).Ok?
    ensures var p := Propose(q, s).value;
            r in p.blocked <==>
            match r
            case AuthorityApproval => p.diagnosis.severity == High || p.diagnosis.severity == Critical
            case SecondApproval => PolicyChange in p.diagnosis.changes || AuthorityRules in p.diagnosis.changes
            case ActivationBlocked => false
            case OperatorReviewRequired => false
            case _ => true
  {
    var changes := Propose(q, s).value.diagnosis.changes;
    BlockedList(s, changes, ParseMaturity(q.desired).value);
    InBlockedList(SeverityOf(s, changes, RawCodes(s)), PolicyChange in changes || AuthorityRules in changes, r);
  }

  /** The reasons as listed: two of them depend on the plan. */
  function BlockedListFor(severity: Severity, second: bool): seq<Reason> {
    [CommandNotCertified, CertificateNotIssued, SandboxNotPassed, CanaryNotCompleted, ClosureMissing, LearningMissing]
    + (if severity == High || severity == Critical then [AuthorityApproval] else [])
    + (if second then [SecondApproval] else [])
  }

  lemma BlockedList(s: Signal, changes: seq<ChangeClass>, desired: Maturity)
    ensures PlanFor(s, changes, desired).blocked
            == BlockedListFor(SeverityOf(s, changes, RawCodes(s)), PolicyChange in changes || AuthorityRules in changes)
  {
  }

  lemma InBlockedList(severity: Severity, second: bool, r: Reason)
    ensures r in BlockedListFor(severity, second) <==>
            match r
            case AuthorityApproval => severity == High || severity == Critical
            case SecondApproval => second
            case ActivationBlocked => false
            case OperatorReviewRequired => false
            case _ => true
  {
  }

  // ----- Which comes first ------------------------------------------------------------------

  ghost predicate Graver(a: Severity, b: Severity) {
    || (a == Critical && b != Critical)
    || (a == High && (b == Medium || b == Low))
    || (a == Medium && b == Low)
  }

  function Gap(p: Plan): int { p.target - p.signal.maturity }
  function Overtime(p: Plan): int { if p.signal.latency > 5000 then p.signal.latency - 5000 else 0 }
  function Overspend(p: Plan): real { if p.signal.costPerSuccess > 1.0 then p.signal.costPerSuccess - 1.0 else 0.0 }

  /** Where two texts first differ, the smaller character comes first; one that ends there comes before the longer. */
  ghost predicate TextBefore(a: string, b: string) {
    exists k :: 0 <= k <= |a| && k < |b| && a[..k] == b[..k] && (k == |a| || a[k] < b[k])
  }

  /** The graver plan first; then more open incidents, more failures, the wider gap to its target, the lower success
      rate, more time and more cost beyond their bounds; and last the capability id. */
  ghost predicate Precedes(p: Plan, q: Plan) {
    var s, t := p.signal, q.signal;
    Graver(p.diagnosis.severity, q.diagnosis.severity)
    || (p.diagnosis.severity == q.diagnosis.severity
        && (s.openIncidents > t.openIncidents
            || (s.openIncidents == t.openIncidents
                && (s.failureCount > t.failureCount
                    || (s.failureCount == t.failureCount && (Gap(p) > Gap(q) || (Gap(p) == Gap(q) && Dearer(p, q))))))))
  }

  ghost predicate Dearer(p: Plan, q: Plan) {
    var s, t := p.signal, q.signal;
    s.successRate < t.successRate
    || (s.successRate == t.successRate
        && (Overtime(p) > Overtime(q)
            || (Overtime(p) == Overtime(q)
                && (Overspend(p) > Overspend(q)
                    || (Overspend(p) == Overspend(q) && TextBefore(s.capabilityId, t.capabilityId))))))
  }

  lemma {:induction false} TextBeforeIff(a: string, b: string)
    ensures TextBefore(a, b) <==> TextLe(a, b) && a != b
  {
    if a == "" {
      if b != "" { assert a[..0] == b[..0]; }
    } else if b != "" && a[0] == b[0] {
      TextBeforeIff(a[1..], b[1..]);
      assert a == [a[0]] + a[1..] && b == [b[0]] + b[1..];
      TailBefore(a, b);
    } else if b != "" && a[0] < b[0] {
      assert a[..0] == b[..0];
    } else if b != "" {
      forall k | 0 < k <= |a| && k < |b| ensures a[..k] != b[..k] { assert a[..k][0] != b[..k][0]; }
    }
  }

  lemma TailBefore(a: string, b: string)
    requires a != "" && b != "" && a[0] == b[0]
    ensures TextBefore(a, b) <==> TextBefore(a[1..], b[1..])
  {
    if k :| 0 <= k <= |a| && k < |b| && a[..k] == b[..k] && (k == |a| || a[k] < b[k]) {
      assert a[1..][..k - 1] == a[..k][1..] && b[1..][..k - 1] == b[..k][1..];
      assert k == |a| || a[1..][k - 1] < b[1..][k - 1];
    }
    if k :| 0 <= k <= |a[1..]| && k < |b[1..]| && a[1..][..k] == b[1..][..k]
            && (k == |a[1..]| || a[1..][k] < b[1..][k])
    {
      assert a[..k + 1] == [a[0]] + a[1..][..k] && b[..k + 1] == [b[0]] + b[1..][..k];
      assert k + 1 == |a| || a[k + 1] < b[k + 1];
    }
  }

  lemma PrecedesIff(p: Plan, q: Plan)
    ensures Precedes(p, q) <==> RanksBefore()(p, q) && !RanksBefore()(q, p)
  {
    TextBeforeIff(p.signal.capabilityId, q.signal.capabilityId);
    TextLeTotal(p.signal.capabilityId, q.signal.capabilityId);
  }

  lemma RankedInOrder(q: Request, signals: seq<Signal>)
    requires Distinct(Map(signals, IdOf()))
    ensures var ranked := Ranked(q, signals);
            forall i, j | 0 <= i < j < |ranked| :: Precedes(ranked[i], ranked[j])
  {
    StrictlyRanked(q, signals);
    var ranked := Ranked(q, signals);
    forall i, j | 0 <= i < j < |ranked| ensures Precedes(ranked[i], ranked[j]) { PrecedesIff(ranked[i], ranked[j]); }
  }

  lemma RankedHolds(q: Request, signals: seq<Signal>, p: Plan)
    requires RequestsValid(q, signals)
    ensures p in Ranked(q, signals) <==> p.signal in signals && Propose(q, p.signal) == Ok(p)
  {
    SortMembers(RanksBefore(), Map(signals, PlanOf(q)));
    if p in Map(signals, PlanOf(q)) { var i :| 0 <= i < |signals| && PlanOf(q)(signals[i]) == p; }
    if p.signal in signals {
      var i :| 0 <= i < |signals| && signals[i] == p.signal;
      assert Map(signals, PlanOf(q))[i] == PlanOf(q)(p.signal);
    }
  }

  /** A portfolio stands in that order throughout, and of a limited one there are so many plans. */
  lemma PortfolioInOrder(q: Request, signals: seq<Signal>)
    requires ProposePortfolio(q, signals).Ok?
    ensures var plans := ProposePortfolio(q, signals).value.plans;
            && (forall i, j | 0 <= i < j < |plans| :: Precedes(plans[i], plans[j]))
            && |plans| == (if q.limit.Some? && q.limit.value < |signals| then q.limit.value else |signals|)
  {
    PortfolioOkIff(q, signals);
    RankedIds(q, signals);
    RankedInOrder(q, signals);
  }

  /** Every plan is the one proposed for a signal, and without a limit every signal has its plan. */
  lemma PortfolioHolds(q: Request, signals: seq<Signal>, p: Plan)
    requires ProposePortfolio(q, signals).Ok?
    ensures p in ProposePortfolio(q, signals).value.plans ==> p.signal in signals && Propose(q, p.signal) == Ok(p)
    ensures q.limit.None? && p.signal in signals && Propose(q, p.signal) == Ok(p)
            ==> p in ProposePortfolio(q, signals).value.plans
  {
    PortfolioOkIff(q, signals);
    RankedHolds(q, signals, p);
  }

  /** What a limit leaves out comes after everything it lets in. */
  lemma LimitDropsTheLeast(q: Request, signals: seq<Signal>, p: Plan)
    requires ProposePortfolio(q, signals).Ok? && p.signal in signals && Propose(q, p.signal) == Ok(p)
    requires p !in ProposePortfolio(q, signals).value.plans
    ensures forall x | x in ProposePortfolio(q, signals).value.plans :: Precedes(x, p)
  {
    PortfolioOkIff(q, signals);
    RankedInOrder(q, signals);
    RankedHolds(q, signals, p);
    LeftOutLater(Ranked(q, signals), ProposePortfolio(q, signals).value.plans, p);
  }

  lemma LeftOutLater(ranked: seq<Plan>, plans: seq<Plan>, p: Plan)
    requires plans <= ranked && p in ranked && p !in plans
    requires forall i, j | 0 <= i < j < |ranked| :: Precedes(ranked[i], ranked[j])
    ensures forall x | x in plans :: Precedes(x, p)
  {
    var j :| 0 <= j < |ranked| && ranked[j] == p;
    forall i | 0 <= i < |plans| ensures Precedes(plans[i], p) { assert plans[i] == ranked[i] && j >= |plans|; }
  }

  // ----- What the summary counts ---------------------------------------------------------------

  /** The plans that list the code, by position. */
  ghost function Carriers(plans: seq<Plan>, code: string): set<nat> {
    set i: nat | i < |plans| && code in plans[i].diagnosis.codes
  }

  ghost function OfTier(plans: seq<Plan>, severity: Severity): set<nat> {
    set i: nat | i < |plans| && plans[i].diagnosis.severity == severity
  }

  lemma {:induction false} CarriersCounted(plans: seq<Plan>, code: string)
    ensures |Filter(plans, HasCode(code))| == |Carriers(plans, code)|
  {
    if plans != [] {
      CarriersCounted(plans[..|plans| - 1], code);
      CarriersNext(plans, code);
    } else {
      assert Carriers(plans, code) == {};
    }
  }

  lemma TierNext(plans: seq<Plan>, severity: Severity)
    requires plans != []
    ensures OfTier(plans, severity) == OfTier(plans[..|plans| - 1], severity)
                                       + if plans[|plans| - 1].diagnosis.severity == severity then {|plans| - 1} else {}
  {
  }

  lemma CarriersNext(plans: seq<Plan>, code: string)
    requires plans != []
    ensures Carriers(plans, code) == Carriers(plans[..|plans| - 1], code)
                                     + if code in plans[|plans| - 1].diagnosis.codes then {|plans| - 1} else {}
  {
  }

  lemma {:induction false} TierCounted(plans: seq<Plan>, severity: Severity)
    ensures |Filter(plans, OfSeverity(severity))| == |OfTier(plans, severity)|
  {
    if plans != [] {
      TierCounted(plans[..|plans| - 1], severity);
      TierNext(plans, severity);
    } else {
      assert OfTier(plans, severity) == {};
    }
  }

  /** The systemic codes are those two plans or more carry, once each, the one with more carriers first and of equals
      the one first in the alphabet. */
  lemma SystemicTold(plans: seq<Plan>)
    ensures forall code :: code in Systemic(plans) <==> |Carriers(plans, code)| >= 2
    ensures var codes := Systemic(plans);
            forall i, j | 0 <= i < j < |codes| ::
              |Carriers(plans, codes[i])| > |Carriers(plans, codes[j])|
              || (|Carriers(plans, codes[i])| == |Carriers(plans, codes[j])| && TextBefore(codes[i], codes[j]))
  {
    forall code ensures code in Systemic(plans) <==> |Carriers(plans, code)| >= 2 {
      SystemicExact(plans, code);
      FilterTwo(plans, HasCode(code));
      CarriersCounted(plans, code);
    }
    var codes := Systemic(plans);
    SystemicExact(plans, "");
    forall i, j | 0 <= i < j < |codes|
      ensures |Carriers(plans, codes[i])| > |Carriers(plans, codes[j])|
              || (|Carriers(plans, codes[i])| == |Carriers(plans, codes[j])| && TextBefore(codes[i], codes[j]))
    {
      assert CodeLe(plans)(codes[i], codes[j]) && codes[i] != codes[j];
      CarriersCounted(plans, codes[i]);
      CarriersCounted(plans, codes[j]);
      TextBeforeIff(codes[i], codes[j]);
    }
  }

  lemma {:induction false} ReasonsTold(plans: seq<Plan>, r: Reason)
    ensures r in AllReasons(plans) <==> exists p | p in plans :: r in p.blocked
  {
    if plans != [] {
      ReasonsTold(plans[..|plans| - 1], r);
      assert plans == plans[..|plans| - 1] + [plans[|plans| - 1]];
    }
  }

  lemma SummaryIs(q: Request, signals: seq<Signal>)
    requires ProposePortfolio(q, signals).Ok?
    ensures var s := ProposePortfolio(q, signals).value;
            && s.generatedAt == q.generatedAt && s.selected == |s.plans| && s.systemic == Systemic(s.plans)
            && s.blocked == Unique([ActivationBlocked, OperatorReviewRequired] + AllReasons(s.plans))
            && s.severityCounts == SeverityCounts(s.plans) && s.evidenceRefCount == |Refs(s.plans)|
  {
  }

  /** The rest of the summary: when, how many, in which order, and how many different evidence references. */
  lemma SummaryTold(q: Request, signals: seq<Signal>)
    requires ProposePortfolio(q, signals).Ok?
    ensures var s := ProposePortfolio(q, signals).value;
            && s.generatedAt == q.generatedAt && s.selected == |s.plans| && s.observed == |signals|
            && |s.prioritized| == |s.plans|
            && (forall i | 0 <= i < |s.plans| :: s.prioritized[i] == s.plans[i].signal.capabilityId)
            && s.systemic == Systemic(s.plans)
            && s.evidenceRefCount == |set p, ref | p in s.plans && ref in p.signal.evidenceRefs :: ref|
  {
    PortfolioOkIff(q, signals);
    SummaryIs(q, signals);
  }

  /** The portfolio is blocked by its own two reasons and by those of its plans. */
  lemma SummaryBlocked(q: Request, signals: seq<Signal>, r: Reason)
    requires ProposePortfolio(q, signals).Ok?
    ensures var s := ProposePortfolio(q, signals).value;
            r in s.blocked <==>
            r == ActivationBlocked || r == OperatorReviewRequired || exists p | p in s.plans :: r in p.blocked
  {
    SummaryIs(q, signals);
    BlockedTold(ProposePortfolio(q, signals).value.plans, r);
  }

  lemma BlockedTold(plans: seq<Plan>, r: Reason)
    ensures r in Unique([ActivationBlocked, OperatorReviewRequired] + AllReasons(plans)) <==>
            r == ActivationBlocked || r == OperatorReviewRequired || exists p | p in plans :: r in p.blocked
  {
    ReasonsTold(plans, r);
  }

  lemma SummaryTiers(q: Request, signals: seq<Signal>, severity: Severity)
    requires ProposePortfolio(q, signals).Ok?
    ensures var s := ProposePortfolio(q, signals).value;
            severity in s.severityCounts && s.severityCounts[severity] == |OfTier(s.plans, severity)|
  {
    SummaryIs(q, signals);
    TierTold(ProposePortfolio(q, signals).value.plans, severity);
  }

  lemma TierTold(plans: seq<Plan>, severity: Severity)
    ensures severity in SeverityCounts(plans) && SeverityCounts(plans)[severity] == |OfTier(plans, severity)|
  {
    TierCounted(plans, severity);
  }
}
