/** The composer: which pipelines run, what each run records, and how the report files them,
    against the ledger's own separately written queries. */
module CandidateComposer {
  import opened Collections
  import opened Ordering
  import opened CandidateLedger

  datatype Capsule = Capsule(capsuleId: string, methodFamily: string, riskCeiling: string)
  datatype Pipeline = Pipeline(pipelineId: string, methodFamilies: seq<string>, capsuleIds: seq<string>)

  /** `metricId` and `direction` are those of the first success metric, which construction demands. */
  datatype Signature = Signature(hash: string, allowed: seq<string>, forbidden: seq<string>, baselineFamily: string,
                                 metricId: string, direction: Direction, risk: string)

  datatype Evaluation = Evaluation(outcome: Outcome, scores: seq<Score>, evidenceRefs: seq<string>, notes: string)

  /** Construction refuses a passing review with findings and a failing one without. */
  datatype Review = Review(passed: bool, findings: seq<string>) {
    predicate Valid() { passed <==> findings == [] }
  }

  /** The injected callbacks and the derived run seed; a reviewer may be absent. */
  datatype Callbacks = Callbacks(evaluate: Pipeline -> Evaluation, review: Option<Pipeline -> Review>,
                                 seed: string -> string) {
    ghost predicate Valid() { review.Some? ==> forall p :: review.value(p).Valid() }

    /** Review runs on passing evaluations only. */
    function MaybeReview(p: Pipeline): Option<Review> {
      if review.None? || evaluate(p).outcome != Passed then None else Some(review.value(p))
    }
  }

  /** What was skipped, and why, as the report's dictionary. */
  type Skips = Dict<string, string>

  datatype Report = Report(signatureHash: string, primaryMetric: string, baselineHash: string, candidates: seq<string>,
                           winners: seq<string>, negatives: seq<string>, reviewFailed: seq<string>, skipped: Skips,
                           baselineCompromised: bool, baselineFindings: seq<string>)

  datatype Class = Winner | Negative | ReviewFailed | Unclassified

  /** {s.metric_id: s.value for s in scores}: the last score of a metric wins. */
  function ValueByMetric(scores: seq<Score>): (m: map<string, real>)
    ensures forall k :: k in m <==> exists s | s in scores :: s.metricId == k
  {
    if scores == [] then map[]
    else
      var front, last := ValueByMetric(scores[..|scores| - 1]), scores[|scores| - 1];
      assert scores == scores[..|scores| - 1] + [last];
      front[last.metricId := last.value]
  }

  function DeltaFromBaseline(candidate: seq<Score>, baseline: seq<Score>): map<string, real> {
    var mine, base := ValueByMetric(candidate), ValueByMetric(baseline);
    map k | k in mine && k in base :: mine[k] - base[k]
  }

  // ----- Which pipelines run ----------------------------------------------------------

  function RiskRank(risk: string): nat {
    match risk case "medium" => 1 case "high" => 2 case "physical" => 3 case _ => 0
  }

  predicate AdmitsFamily(sig: Signature, family: string) {
    family !in sig.forbidden && (sig.allowed == [] || family in sig.allowed)
  }

  predicate Admits(sig: Signature, c: Capsule) {
    AdmitsFamily(sig, c.methodFamily) && RiskRank(sig.risk) <= RiskRank(c.riskCeiling)
  }

  /** Every pipeline gets a payload of its own when ids are distinct. */
  ghost predicate DistinctIds(pipelines: seq<Pipeline>) {
    forall i, j | 0 <= i < j < |pipelines| :: pipelines[i].pipelineId != pipelines[j].pipelineId
  }

  type Registry = Dict<string, Capsule>

  ghost predicate ValidRegistry(reg: Registry) {
    reg.Valid() && forall id | id in reg.at :: reg.at[id].capsuleId == id
  }

  function Register(reg: Registry, c: Capsule): Result<Registry, string> {
    if c.capsuleId in reg.at then Err("duplicate_capsule_id:" + c.capsuleId) else Ok(reg.Put(c.capsuleId, c))
  }

  /** Registration keeps every capsule under its own id, and refuses exactly a taken one. */
  lemma RegisterKeepsRegistry(reg: Registry, c: Capsule)
    requires ValidRegistry(reg)
    ensures Register(reg, c).Err? <==> c.capsuleId in reg.keys
    ensures Register(reg, c).Ok? ==>
              ValidRegistry(Register(reg, c).value) && Register(reg, c).value.keys == reg.keys + [c.capsuleId]
  {
    PutValid(reg, c.capsuleId, c);
  }

  function Admissible(sig: Signature): Capsule -> bool { (c: Capsule) => Admits(sig, c) }

  function Single(): Capsule -> Pipeline {
    (c: Capsule) => Pipeline("pipeline:" + c.capsuleId, [c.methodFamily], [c.capsuleId])
  }

  /** One single-capsule pipeline per admissible capsule. */
  function ComposeSingles(sig: Signature, reg: Registry): seq<Pipeline>
    requires reg.Valid()
  {
    Map(Filter(reg.Values(), Admissible(sig)), Single())
  }

  lemma SinglesDistinct(sig: Signature, reg: Registry)
    requires ValidRegistry(reg)
    ensures DistinctIds(ComposeSingles(sig, reg))
    ensures forall p :: p in ComposeSingles(sig, reg)
                        <==> exists id :: id in reg.at && Admits(sig, reg.at[id]) && p == Single()(reg.at[id])
  {
    var all := reg.Values();
    assert Distinct(all) by {
      forall i, j | 0 <= i < j < |all| ensures all[i] != all[j] {
        assert all[i].capsuleId == reg.keys[i] && all[j].capsuleId == reg.keys[j];
      }
    }
    var kept := Filter(all, Admissible(sig));
    FilterDistinct(all, Admissible(sig));
    forall c ensures c in kept <==> exists id :: id in reg.at && reg.at[id] == c && Admits(sig, c) {
      FilterMember(all, Admissible(sig), c);
      if c in all { var i :| 0 <= i < |all| && all[i] == c; assert reg.at[reg.keys[i]] == c; }
      if id :| id in reg.at && reg.at[id] == c {
        var i :| 0 <= i < |reg.keys| && reg.keys[i] == id;
        assert all[i] == c;
      }
    }
    forall i, j | 0 <= i < j < |kept| ensures Single()(kept[i]).pipelineId != Single()(kept[j]).pipelineId {
      assert kept[i] in kept && kept[j] in kept;
      assert kept[i].capsuleId != kept[j].capsuleId;
      assert Single()(kept[i]).pipelineId[9..] == kept[i].capsuleId;
      assert Single()(kept[j]).pipelineId[9..] == kept[j].capsuleId;
    }
    forall p ensures p in ComposeSingles(sig, reg)
                     <==> exists id :: id in reg.at && Admits(sig, reg.at[id]) && p == Single()(reg.at[id])
    {
      if p in ComposeSingles(sig, reg) {
        var i :| 0 <= i < |kept| && p == Single()(kept[i]);
        assert kept[i] in kept;
      }
      if id :| id in reg.at && Admits(sig, reg.at[id]) && p == Single()(reg.at[id]) {
        assert reg.at[id] in kept;
        var i :| 0 <= i < |kept| && kept[i] == reg.at[id];
        assert ComposeSingles(sig, reg)[i] == p;
      }
    }
  }

  function SkipReason(sig: Signature, c: Capsule): string {
    if !AdmitsFamily(sig, c.methodFamily) then "method_family_not_admissible" else "risk_ceiling_below_signature_risk"
  }

  function Inadmissible(sig: Signature, reg: Registry): string -> bool {
    id => id in reg.at && !Admits(sig, reg.at[id])
  }

  /** The base composer's skips: every registered capsule that is not admissible, in registration order. */
  function SingleSkips(sig: Signature, reg: Registry): Skips {
    Dict(Filter(reg.keys, Inadmissible(sig, reg)),
         map id | id in reg.at && !Admits(sig, reg.at[id]) :: SkipReason(sig, reg.at[id]))
  }

  /** The skips among the first `n` capsules. */
  ghost function SkipsUpTo(sig: Signature, reg: Registry, n: nat): Skips
    requires n <= |reg.keys|
  {
    Dict(Filter(reg.keys[..n], Inadmissible(sig, reg)),
         map id | id in reg.at && id in reg.keys[..n] && !Admits(sig, reg.at[id]) :: SkipReason(sig, reg.at[id]))
  }

  lemma NextSkip(sig: Signature, reg: Registry, n: nat)
    requires reg.Valid() && n < |reg.keys| && reg.keys[n] in reg.at
    ensures var id, before := reg.keys[n], SkipsUpTo(sig, reg, n);
            SkipsUpTo(sig, reg, n + 1)
            == if Admits(sig, reg.at[id]) then before else before.Put(id, SkipReason(sig, reg.at[id]))
  {
    PrefixNext(reg.keys, n);
    FilterNext(reg.keys, n, Inadmissible(sig, reg));
    var id, before, after := reg.keys[n], SkipsUpTo(sig, reg, n), SkipsUpTo(sig, reg, n + 1);
    assert id !in before.at;
    assert after.at == if Admits(sig, reg.at[id]) then before.at else before.at[id := SkipReason(sig, reg.at[id])];
  }

  /** The base composer accounts for every capsule once: it runs, or it is skipped with its reason. */
  lemma SinglesAccounted(sig: Signature, reg: Registry, id: string)
    requires ValidRegistry(reg)
    ensures SingleSkips(sig, reg).Valid()
    ensures id in SingleSkips(sig, reg).keys <==> id in reg.at && !Admits(sig, reg.at[id])
    ensures |SingleSkips(sig, reg).keys| + |ComposeSingles(sig, reg)| == |reg.keys|
  {
    var skips := SingleSkips(sig, reg);
    FilterDistinct(reg.keys, Inadmissible(sig, reg));
    forall x ensures x in skips.keys <==> x in reg.keys && Inadmissible(sig, reg)(x) {
      FilterMember(reg.keys, Inadmissible(sig, reg), x);
    }
    SkippedOrComposed(sig, reg);
  }

  lemma SkippedOrComposed(sig: Signature, reg: Registry)
    requires ValidRegistry(reg)
    ensures |Filter(reg.keys, Inadmissible(sig, reg))| + |Filter(reg.Values(), Admissible(sig))| == |reg.keys|
  {
    var f := (c: Capsule) => c.capsuleId;
    assert Map(reg.Values(), f) == reg.keys;
    forall c | c in reg.Values() ensures Inadmissible(sig, reg)(f(c)) != Admissible(sig)(c) {
      var i :| 0 <= i < |reg.keys| && reg.Values()[i] == c;
      assert reg.keys[i] in reg.keys;
    }
    var refused := (c: Capsule) => Inadmissible(sig, reg)(f(c));
    FilterMap(reg.Values(), f, Inadmissible(sig, reg), refused);
    FilterSplit(reg.Values(), refused, Admissible(sig));
    assert |multiset(reg.Values())|
           == |multiset(Filter(reg.Values(), refused))| + |multiset(Filter(reg.Values(), Admissible(sig)))|;
  }

  /** A declared chain of capsules, and why one was not composed. */
  datatype Spec = Spec(pipelineId: string, capsuleIds: seq<string>)
  datatype Skip = Skip(pipelineId: string, reason: string, capsuleId: string)

  /** The first capsule that poisons the chain, if any. */
  function Obstacle(sig: Signature, reg: Registry, ids: seq<string>): (r: Option<(string, string)>)
    ensures r.None? <==> forall id | id in ids :: id in reg.at && Admits(sig, reg.at[id])
    ensures r.Some? ==> r.value.1 in ids
  {
    if ids == [] then None
    else
      assert forall id | id in ids :: id == ids[0] || id in ids[1..];
      assert forall id | id in ids[1..] :: id in ids;
      assert ids[0] in ids;
      if ids[0] !in reg.at then Some(("unknown_capsule_id", ids[0]))
      else if !AdmitsFamily(sig, reg.at[ids[0]].methodFamily)
      then Some(("capsule_method_family_not_admissible", ids[0]))
      else if RiskRank(sig.risk) > RiskRank(reg.at[ids[0]].riskCeiling)
      then Some(("capsule_risk_ceiling_below_signature_risk", ids[0]))
      else Obstacle(sig, reg, ids[1..])
  }

  function Families(reg: Registry, ids: seq<string>): seq<string>
    requires forall id | id in ids :: id in reg.at
  {
    seq(|ids|, i requires 0 <= i < |ids| => assert ids[i] in ids; reg.at[ids[i]].methodFamily)
  }

  lemma ObstacleNext(sig: Signature, reg: Registry, ids: seq<string>, i: nat)
    requires i < |ids|
    ensures ids[i] !in reg.at ==> Obstacle(sig, reg, ids[i..]) == Some(("unknown_capsule_id", ids[i]))
    ensures ids[i] in reg.at && !AdmitsFamily(sig, reg.at[ids[i]].methodFamily) ==>
              Obstacle(sig, reg, ids[i..]) == Some(("capsule_method_family_not_admissible", ids[i]))
    ensures ids[i] in reg.at && AdmitsFamily(sig, reg.at[ids[i]].methodFamily)
            && RiskRank(sig.risk) > RiskRank(reg.at[ids[i]].riskCeiling) ==>
              Obstacle(sig, reg, ids[i..]) == Some(("capsule_risk_ceiling_below_signature_risk", ids[i]))
    ensures ids[i] in reg.at && Admits(sig, reg.at[ids[i]])
            ==> Obstacle(sig, reg, ids[i..]) == Obstacle(sig, reg, ids[i + 1..])
  {
    assert ids[i..][0] == ids[i] && ids[i..][1..] == ids[i + 1..];
  }

  lemma FamiliesNext(sig: Signature, reg: Registry, ids: seq<string>, i: nat)
    requires i < |ids| && Runnable(sig, reg, ids[..i]) && ids[i] in reg.at && Admits(sig, reg.at[ids[i]])
    ensures Runnable(sig, reg, ids[..i + 1])
    ensures Families(reg, ids[..i + 1]) == Families(reg, ids[..i]) + [reg.at[ids[i]].methodFamily]
  {
    PrefixNext(ids, i);
  }

  predicate Runnable(sig: Signature, reg: Registry, ids: seq<string>) {
    forall id | id in ids :: id in reg.at && Admits(sig, reg.at[id])
  }

  function Ids(specs: seq<Spec>): set<string> { set s | s in specs :: s.pipelineId }

  /** What the declared composer makes of its specs: pipelines and skip reasons. */
  function Compose(sig: Signature, reg: Registry, specs: seq<Spec>): (seq<Pipeline>, seq<Skip>) {
    if specs == [] then ([], [])
    else
      var front, s := specs[..|specs| - 1], specs[|specs| - 1];
      var (composed, skipped) := Compose(sig, reg, front);
      if s.pipelineId in Ids(front) then (composed, skipped + [Skip(s.pipelineId, "duplicate_pipeline_id", "")])
      else
        match Obstacle(sig, reg, s.capsuleIds)
        case Some(why) => (composed, skipped + [Skip(s.pipelineId, why.0, why.1)])
        case None => (composed + [Pipeline(s.pipelineId, Families(reg, s.capsuleIds), s.capsuleIds)], skipped)
  }

  lemma ComposeNext(sig: Signature, reg: Registry, front: seq<Spec>, s: Spec)
    ensures var (composed, skipped) := Compose(sig, reg, front);
            var why := Obstacle(sig, reg, s.capsuleIds);
            Compose(sig, reg, front + [s])
            == if s.pipelineId in Ids(front)
               then (composed, skipped + [Skip(s.pipelineId, "duplicate_pipeline_id", "")])
               else if why.Some? then (composed, skipped + [Skip(s.pipelineId, why.value.0, why.value.1)])
               else (composed + [Pipeline(s.pipelineId, Families(reg, s.capsuleIds), s.capsuleIds)], skipped)
  {
    assert (front + [s])[..|front|] == front;
  }

  ghost predicate FirstWithId(specs: seq<Spec>, i: nat) {
    i < |specs| && forall j | 0 <= j < i :: specs[j].pipelineId != specs[i].pipelineId
  }

  /** Some spec runs as `p`: the first with its id, with every capsule known and admissible. */
  ghost predicate RunsAs(sig: Signature, reg: Registry, specs: seq<Spec>, i: nat, p: Pipeline) {
    && FirstWithId(specs, i)
    && Runnable(sig, reg, specs[i].capsuleIds)
    && p == Pipeline(specs[i].pipelineId, Families(reg, specs[i].capsuleIds), specs[i].capsuleIds)
  }

  /** Exactly the first spec of each id whose whole chain is admissible is composed; every other is accounted for. */
  lemma {:induction false} ComposeExact(sig: Signature, reg: Registry, specs: seq<Spec>)
    ensures var (composed, skipped) := Compose(sig, reg, specs);
            && DistinctIds(composed)
            && |composed| + |skipped| == |specs|
            && (forall p :: p in composed <==> exists i: nat :: RunsAs(sig, reg, specs, i, p))
            && (forall k | k in skipped :: k.pipelineId in Ids(specs))
  {
    if specs != [] {
      var front, s := specs[..|specs| - 1], specs[|specs| - 1];
      ComposeExact(sig, reg, front);
      var (before, _) := Compose(sig, reg, front);
      var (composed, _) := Compose(sig, reg, specs);
      assert specs == front + [s];
      forall p, i: nat | i < |front| ensures RunsAs(sig, reg, specs, i, p) <==> RunsAs(sig, reg, front, i, p) {}
      forall p | p in before ensures p.pipelineId in Ids(front) {
        var i: nat :| RunsAs(sig, reg, front, i, p);
        assert front[i] in front;
      }
      forall p ensures p in composed <==> exists i: nat :: RunsAs(sig, reg, specs, i, p) {
        ComposedByOne(sig, reg, specs, p);
      }
    }
  }

  lemma ComposedByOne(sig: Signature, reg: Registry, specs: seq<Spec>, p: Pipeline)
    requires specs != []
    requires var front := specs[..|specs| - 1];
             p in Compose(sig, reg, front).0 <==> exists i: nat :: RunsAs(sig, reg, front, i, p)
    ensures p in Compose(sig, reg, specs).0 <==> exists i: nat :: RunsAs(sig, reg, specs, i, p)
  {
    var front, last := specs[..|specs| - 1], |specs| - 1;
    forall i: nat | i < last ensures RunsAs(sig, reg, specs, i, p) <==> RunsAs(sig, reg, front, i, p) {}
    assert specs[last].pipelineId in Ids(front) <==> !FirstWithId(specs, last);
    if p in Compose(sig, reg, specs).0 {
      if p !in Compose(sig, reg, front).0 {
        assert RunsAs(sig, reg, specs, last, p);
      } else {
        var i: nat :| RunsAs(sig, reg, front, i, p);
        assert RunsAs(sig, reg, specs, i, p);
      }
    }
    if i: nat :| RunsAs(sig, reg, specs, i, p) && i < last { assert RunsAs(sig, reg, front, i, p); }
  }

  // ----- What the report says was skipped ---------------------------------------------

  function SkipText(s: Skip): string { if s.capsuleId != "" then s.reason + ":" + s.capsuleId else s.reason }

  function SkipId(): Skip -> string { (s: Skip) => s.pipelineId }
  function SkipUnder(id: string): Skip -> bool { (s: Skip) => s.pipelineId == id }
  function SpecUnder(id: string): Spec -> bool { (s: Spec) => s.pipelineId == id }
  function PipelineUnder(id: string): Pipeline -> bool { (p: Pipeline) => p.pipelineId == id }

  /** The dictionary built from the skip list. */
  function SkippedBy(skips: seq<Skip>): Skips {
    if skips == [] then Dict([], map[])
    else
      var last := skips[|skips| - 1];
      SkippedBy(skips[..|skips| - 1]).Put(last.pipelineId, SkipText(last))
  }

  /** It lists every id once, where it was first skipped. */
  lemma {:induction false} SkippedKeys(skips: seq<Skip>)
    ensures SkippedBy(skips).Valid() && SkippedBy(skips).keys == Unique(Map(skips, SkipId()))
  {
    if skips != [] {
      var front, last := skips[..|skips| - 1], skips[|skips| - 1];
      SkippedKeys(front);
      PutValid(SkippedBy(front), last.pipelineId, SkipText(last));
      assert Map(skips, SkipId()) == Map(front, SkipId()) + [last.pipelineId];
      UniqueNext(Map(front, SkipId()), last.pipelineId);
    }
  }

  /** Of several skips under one id the last one's reason stays. */
  lemma {:induction false} LastReasonStays(skips: seq<Skip>, i: nat)
    requires i < |skips| && forall j | i < j < |skips| :: skips[j].pipelineId != skips[i].pipelineId
    ensures skips[i].pipelineId in SkippedBy(skips).at && SkippedBy(skips).at[skips[i].pipelineId] == SkipText(skips[i])
  {
    if i < |skips| - 1 { LastReasonStays(skips[..|skips| - 1], i); }
  }

  /** The report shows the skip list as it is: the same ids in the same order, each with its own reason. */
  ghost predicate ShowsSkips(d: Skips, skips: seq<Skip>) {
    && d.keys == Map(skips, SkipId())
    && forall i | 0 <= i < |skips| :: skips[i].pipelineId in d.at && d.at[skips[i].pipelineId] == SkipText(skips[i])
  }

  lemma ShownIffDistinct(skips: seq<Skip>)
    ensures ShowsSkips(SkippedBy(skips), skips) <==> Distinct(Map(skips, SkipId()))
  {
    var ids := Map(skips, SkipId());
    SkippedKeys(skips);
    if Distinct(ids) {
      UniqueSame(ids);
      forall i | 0 <= i < |skips|
        ensures skips[i].pipelineId in SkippedBy(skips).at
                && SkippedBy(skips).at[skips[i].pipelineId] == SkipText(skips[i])
      {
        forall j | i < j < |skips| ensures skips[j].pipelineId != skips[i].pipelineId { assert ids[i] != ids[j]; }
        LastReasonStays(skips, i);
      }
    }
  }

  /** The first spec of this id is composed. */
  ghost predicate Composed(sig: Signature, reg: Registry, specs: seq<Spec>, id: string) {
    exists i: nat :: FirstWithId(specs, i) && specs[i].pipelineId == id && Runnable(sig, reg, specs[i].capsuleIds)
  }

  lemma DeclaredTwice(sig: Signature, reg: Registry, s: Spec)
    requires Obstacle(sig, reg, s.capsuleIds).Some?
    ensures var why := Obstacle(sig, reg, s.capsuleIds).value;
            Compose(sig, reg, [s, s])
            == ([], [Skip(s.pipelineId, why.0, why.1), Skip(s.pipelineId, "duplicate_pipeline_id", "")])
  {
    ComposeNext(sig, reg, [], s);
    ComposeNext(sig, reg, [s], s);
    assert [] + [s] == [s] && [s] + [s] == [s, s] && Ids([]) == {} && Ids([s]) == {s.pipelineId};
    var why := Obstacle(sig, reg, s.capsuleIds).value;
    var a, b := Skip(s.pipelineId, why.0, why.1), Skip(s.pipelineId, "duplicate_pipeline_id", "");
    assert [] + [a] == [a] && [a] + [b] == [a, b];
  }

  lemma LaterSkipStays(a: Skip, b: Skip)
    requires a.pipelineId == b.pipelineId
    ensures SkippedBy([a, b]) == Dict([a.pipelineId], map[a.pipelineId := SkipText(b)])
  {
    SkippedNext([], a);
    SkippedNext([a], b);
    assert [] + [a] == [a] && [a] + [b] == [a, b];
  }

  lemma SkippedNext(front: seq<Skip>, s: Skip)
    ensures SkippedBy(front + [s]) == SkippedBy(front).Put(s.pipelineId, SkipText(s))
  {
    assert (front + [s])[..|front|] == front;
  }

  /** A spec with an unknown capsule, declared twice: two skips, of which the report shows the second reason only. */
  lemma SecondReasonHidesFirst(sig: Signature, reg: Registry, id: string, capsule: string)
    requires capsule !in reg.at && capsule != ""
    ensures var skips := Compose(sig, reg, [Spec(id, [capsule]), Spec(id, [capsule])]).1;
            && |skips| == 2 && SkipText(skips[0]) == "unknown_capsule_id:" + capsule
            && SkippedBy(skips) == Dict([id], map[id := "duplicate_pipeline_id"])
  {
    DeclaredTwice(sig, reg, Spec(id, [capsule]));
    LaterSkipStays(Skip(id, "unknown_capsule_id", capsule), Skip(id, "duplicate_pipeline_id", ""));
    assert "unknown_capsule_id" + ":" + capsule == "unknown_capsule_id:" + capsule;
  }

  lemma {:induction false} SpecsCounted(sig: Signature, reg: Registry, specs: seq<Spec>, id: string)
    ensures var (composed, skipped) := Compose(sig, reg, specs);
            |Filter(composed, PipelineUnder(id))| + |Filter(skipped, SkipUnder(id))| == |Filter(specs, SpecUnder(id))|
  {
    if specs != [] {
      var front, s := specs[..|specs| - 1], specs[|specs| - 1];
      var (composed, skipped) := Compose(sig, reg, front);
      SpecsCounted(sig, reg, front, id);
      if s.pipelineId !in Ids(front) && Obstacle(sig, reg, s.capsuleIds).None? {
        CountedOnce(composed, Pipeline(s.pipelineId, Families(reg, s.capsuleIds), s.capsuleIds), PipelineUnder(id));
      } else {
        CountedOnce(skipped, Compose(sig, reg, specs).1[|skipped|], SkipUnder(id));
      }
    }
  }

  lemma CountedOnce<T>(front: seq<T>, x: T, keep: T -> bool)
    ensures |Filter(front + [x], keep)| == |Filter(front, keep)| + if keep(x) then 1 else 0
  {
    assert (front + [x])[..|front|] == front;
  }

  lemma ComposedOnce(pipelines: seq<Pipeline>, id: string)
    requires DistinctIds(pipelines)
    ensures |Filter(pipelines, PipelineUnder(id))| == if exists p :: p in pipelines && p.pipelineId == id then 1 else 0
  {
    FilterTwo(pipelines, PipelineUnder(id));
    if p :| p in pipelines && p.pipelineId == id {
      var n :| 0 <= n < |pipelines| && pipelines[n] == p;
      assert PipelineUnder(id)(pipelines[n]);
    }
  }

  lemma ComposedIff(sig: Signature, reg: Registry, specs: seq<Spec>, id: string)
    ensures Composed(sig, reg, specs, id) <==> exists p :: p in Compose(sig, reg, specs).0 && p.pipelineId == id
  {
    ComposeExact(sig, reg, specs);
    if Composed(sig, reg, specs, id) {
      var i: nat :| FirstWithId(specs, i) && specs[i].pipelineId == id && Runnable(sig, reg, specs[i].capsuleIds);
      var p := Pipeline(id, Families(reg, specs[i].capsuleIds), specs[i].capsuleIds);
      assert RunsAs(sig, reg, specs, i, p);
    }
    if p :| p in Compose(sig, reg, specs).0 && p.pipelineId == id {
      var i: nat :| RunsAs(sig, reg, specs, i, p);
      assert specs[i].pipelineId == id;
    }
  }

  lemma ComposedCounted(sig: Signature, reg: Registry, specs: seq<Spec>, id: string)
    ensures |Filter(Compose(sig, reg, specs).0, PipelineUnder(id))| == if Composed(sig, reg, specs, id) then 1 else 0
  {
    ComposeExact(sig, reg, specs);
    ComposedOnce(Compose(sig, reg, specs).0, id);
    ComposedIff(sig, reg, specs, id);
  }

  lemma DistinctIffCounted(skips: seq<Skip>)
    ensures Distinct(Map(skips, SkipId())) <==> forall id :: |Filter(skips, SkipUnder(id))| <= 1
  {
    var ids := Map(skips, SkipId());
    forall id ensures |Filter(skips, SkipUnder(id))| > 1 <==> exists i, j ::
      0 <= i < j < |ids| && ids[i] == id && ids[j] == id {
      FilterTwo(skips, SkipUnder(id));
      if i, j :| 0 <= i < j < |ids| && ids[i] == id && ids[j] == id {
        assert SkipUnder(id)(skips[i]) && SkipUnder(id)(skips[j]);
      }
      if i, j :| 0 <= i < j < |skips| && SkipUnder(id)(skips[i]) && SkipUnder(id)(skips[j]) {
        assert ids[i] == id && ids[j] == id;
      }
    }
    if !Distinct(ids) {
      var i, j :| 0 <= i < j < |ids| && ids[i] == ids[j];
      assert |Filter(skips, SkipUnder(ids[i]))| > 1;
    }
  }

  /** The report's skips are the composer's skip list exactly when no id is declared more often than once, or twice
      where its first spec is composed. */
  lemma SkipsReportedIff(sig: Signature, reg: Registry, specs: seq<Spec>)
    ensures ShowsSkips(SkippedBy(Compose(sig, reg, specs).1), Compose(sig, reg, specs).1) <==>
            forall id :: |Filter(specs, SpecUnder(id))| <= if Composed(sig, reg, specs, id) then 2 else 1
  {
    var skips := Compose(sig, reg, specs).1;
    ShownIffDistinct(skips);
    DistinctIffCounted(skips);
    forall id
      ensures |Filter(skips, SkipUnder(id))|
              == |Filter(specs, SpecUnder(id))| - if Composed(sig, reg, specs, id) then 1 else 0
    {
      SpecsCounted(sig, reg, specs, id);
      ComposedCounted(sig, reg, specs, id);
    }
  }

  /** A pipeline that runs is also reported as skipped exactly when its id is declared again. */
  lemma RunsAndSkippedIff(sig: Signature, reg: Registry, specs: seq<Spec>, id: string)
    requires Composed(sig, reg, specs, id)
    ensures id in SkippedBy(Compose(sig, reg, specs).1).keys <==> |Filter(specs, SpecUnder(id))| > 1
  {
    var skips := Compose(sig, reg, specs).1;
    SpecsCounted(sig, reg, specs, id);
    ComposedCounted(sig, reg, specs, id);
    SkippedKeys(skips);
    FilterTwo(skips, SkipUnder(id));
    if i :| 0 <= i < |skips| && SkipUnder(id)(skips[i]) { assert Map(skips, SkipId())[i] == id; }
    if id in Map(skips, SkipId()) {
      var i :| 0 <= i < |skips| && Map(skips, SkipId())[i] == id;
      assert SkipUnder(id)(skips[i]);
    }
  }

  // ----- One run, as records --------------------------------------------------------

  /** The first single-family pipeline of the declared baseline family is the baseline. */
  predicate IsBaselineOf(sig: Signature, p: Pipeline) {
    sig.baselineFamily != "" && p.methodFamilies == [sig.baselineFamily]
  }

  function SplitBaseline(sig: Signature, pipelines: seq<Pipeline>): (r: (Option<Pipeline>, seq<Pipeline>))
    ensures multiset(pipelines) == multiset(r.1) + (if r.0.Some? then multiset{r.0.value} else multiset{})
    ensures r.0.Some? <==> exists p | p in pipelines :: IsBaselineOf(sig, p)
    ensures r.0.Some? ==> r.0.value in pipelines && IsBaselineOf(sig, r.0.value)
  {
    if pipelines == [] then (None, [])
    else
      assert pipelines == [pipelines[0]] + pipelines[1..];
      if IsBaselineOf(sig, pipelines[0]) then (Some(pipelines[0]), pipelines[1..])
      else
        var (b, rest) := SplitBaseline(sig, pipelines[1..]);
        (b, [pipelines[0]] + rest)
  }

  /** Everything a run's records depend on. */
  datatype Job = Job(hash: Hasher, sig: Signature, cb: Callbacks, baseline: Option<Pipeline>) {

    function RecordFor(p: Pipeline, delta: map<string, real>, isBaseline: bool): Run {
      var e, review := cb.evaluate(p), cb.MaybeReview(p);
      var findings := if review.Some? then review.value.findings else [];
      var data := RunData(sig.hash, p.pipelineId, p.methodFamilies, e.outcome, e.scores, delta, cb.seed(p.pipelineId),
                          isBaseline, findings);
      Run(data, hash(data), e.evidenceRefs, e.notes)
    }

    function Delta(p: Pipeline): map<string, real> {
      if baseline.None? then map[] else DeltaFromBaseline(cb.evaluate(p).scores, cb.evaluate(baseline.value).scores)
    }

    function Candidate(): Pipeline -> Run { (p: Pipeline) => RecordFor(p, Delta(p), false) }

    function Baseline(): seq<Run> {
      if baseline.None? then [] else [RecordFor(baseline.value, map[], true)]
    }

    function BaselineHash(): string { if baseline.None? then "" else Baseline()[0].recordHash }

    /** What a run adds to the ledger: the baseline first, then every candidate in order. */
    function Records(candidates: seq<Pipeline>): seq<Run> { Baseline() + Map(candidates, Candidate()) }

    /** The baseline's own findings, when its review failed. */
    function BaselineFindings(): seq<string> {
      if baseline.None? then []
      else
        var review := cb.MaybeReview(baseline.value);
        if review.Some? && !review.value.passed then review.value.findings else []
    }

    predicate Compromised() { BaselineFindings() != [] }

    /** Where the loop body files a candidate. */
    function Classify(p: Pipeline): Class {
      var review, delta := cb.MaybeReview(p), Delta(p);
      if cb.evaluate(p).outcome != Passed then Negative
      else if review.Some? && !review.value.passed then ReviewFailed
      else if Compromised() || sig.metricId !in delta then Unclassified
      else if Improves(delta[sig.metricId], sig.direction) then Winner
      else Unclassified
    }

    function Files(c: Class): Pipeline -> bool { (p: Pipeline) => Classify(p) == c }

    function HashOf(): Pipeline -> string { (p: Pipeline) => Candidate()(p).recordHash }

    /** The hashes of the candidates filed under `c`, in order. */
    function Filed(c: Class, candidates: seq<Pipeline>): seq<string> {
      Map(Filter(candidates, Files(c)), HashOf())
    }
  }

  /** The lists a run builds up. */
  datatype Tally = Tally(candidates: seq<string>, winners: seq<string>, negatives: seq<string>,
                         reviewFailed: seq<string>) {
    function Add(h: string, c: Class): Tally {
      Tally(candidates + [h],
            if c == Winner then winners + [h] else winners, if c == Negative then negatives + [h] else negatives,
            if c == ReviewFailed then reviewFailed + [h] else reviewFailed)
    }
  }

  ghost function Tallied(job: Job, candidates: seq<Pipeline>): Tally {
    Tally(Map(candidates, job.HashOf()), job.Filed(Winner, candidates),
          job.Filed(Negative, candidates), job.Filed(ReviewFailed, candidates))
  }

  lemma FiledNext(job: Job, c: Class, front: seq<Pipeline>, p: Pipeline)
    ensures job.Filed(c, front + [p]) == job.Filed(c, front) + if job.Classify(p) == c then [job.HashOf()(p)] else []
  {
    assert (front + [p])[..|front|] == front;
  }

  lemma TalliedNext(job: Job, candidates: seq<Pipeline>, i: nat)
    requires i < |candidates|
    ensures Tallied(job, candidates[..i + 1])
            == Tallied(job, candidates[..i]).Add(job.Candidate()(candidates[i]).recordHash, job.Classify(candidates[i]))
  {
    var front, p := candidates[..i], candidates[i];
    PrefixNext(candidates, i);
    FiledNext(job, Winner, front, p);
    FiledNext(job, Negative, front, p);
    FiledNext(job, ReviewFailed, front, p);
    MapConcat(front, [p], job.HashOf());
  }

  // ----- The run --------------------------------------------------------------------

  class Composer {
    const store: LedgerStore

    constructor (store: LedgerStore)
      ensures this.store == store
    {
      this.store := store;
    }

    /** Records the baseline, if there is one. */
    method RunBaseline(job: Job) returns (error: Option<string>, hash: string)
      modifies store
      ensures store.View() == AppendMany(old(store.View()), job.Baseline()).0
      ensures error.None? <==> AppendMany(old(store.View()), job.Baseline()).1 == |job.Baseline()|
      ensures error.None? ==> hash == job.BaselineHash()
    {
      if job.baseline.None? { return None, ""; }
      var record := job.RecordFor(job.baseline.value, map[], true);
      assert AppendMany(store.View(), [record][..0]) == (store.View(), 0);
      error := store.AppendRecord(record);
      hash := record.recordHash;
    }

    /** One pass of the loop: record the candidate, then file it. A duplicate hash files nothing. */
    method RunCandidate(job: Job, p: Pipeline, t: Tally) returns (error: Option<string>, filed: Tally)
      modifies store
      ensures error.None? <==> Append(old(store.View()), job.Candidate()(p)).Ok?
      ensures store.View()
              == if error.None? then Append(old(store.View()), job.Candidate()(p)).value else old(store.View())
      ensures filed == if error.None? then t.Add(job.Candidate()(p).recordHash, job.Classify(p)) else t
    {
      var delta, review := job.Delta(p), job.cb.MaybeReview(p);
      var record := job.RecordFor(p, delta, false);
      filed := t;
      error := store.AppendRecord(record);
      if error.Some? { return; }
      filed := filed.(candidates := filed.candidates + [record.recordHash]);
      if record.data.outcome != Passed {
        filed := filed.(negatives := filed.negatives + [record.recordHash]);
      } else if review.Some? && !review.value.passed {
        filed := filed.(reviewFailed := filed.reviewFailed + [record.recordHash]);
      } else if job.BaselineFindings() == [] && job.sig.metricId in delta {
        if job.sig.direction == Maximize && delta[job.sig.metricId] > 0.0 {
          filed := filed.(winners := filed.winners + [record.recordHash]);
        } else if job.sig.direction == Minimize && delta[job.sig.metricId] < 0.0 {
          filed := filed.(winners := filed.winners + [record.recordHash]);
        }
      }
    }

    /** Records and classifies as it goes, and stops at a duplicate hash with the writes made so far. */
    method RunCandidates(job: Job, candidates: seq<Pipeline>) returns (error: Option<string>, t: Tally)
      modifies store
      ensures store.View() == AppendMany(old(store.View()), Map(candidates, job.Candidate())).0
      ensures error.None? <==> AppendMany(old(store.View()), Map(candidates, job.Candidate())).1 == |candidates|
      ensures error.None? ==> t == Tallied(job, candidates)
    {
      ghost var before, all := store.View(), Map(candidates, job.Candidate());
      error, t := None, Tally([], [], [], []);
      var i := 0;
      while i < |candidates|
        invariant 0 <= i <= |candidates|
        invariant AppendMany(before, all[..i]) == (store.View(), i)
        invariant t == Tallied(job, candidates[..i])
        invariant error.None?
      {
        AppendManyNext(before, all, i);
        error, t := RunCandidate(job, candidates[i], t);
        if error.Some? { return; }
        TalliedNext(job, candidates, i);
        i := i + 1;
      }
      assert candidates[..i] == candidates && all[..i] == all;
    }

    /** Exactly the prefix of the run's records before the first refused one is stored. */
    method RunPipelines(hash: Hasher, sig: Signature, cb: Callbacks, pipelines: seq<Pipeline>, skipped: Skips)
      returns (r: Result<Report, string>)
      modifies store
      ensures var (baseline, candidates) := SplitBaseline(sig, pipelines);
              var job := Job(hash, sig, cb, baseline);
              var (now, k) := AppendMany(old(store.View()), job.Records(candidates));
              && store.View() == now
              && (r.Ok? <==> k == |job.Records(candidates)|)
              && (r.Ok? ==> r.value == ReportOf(job, candidates, skipped))
    {
      var (baseline, candidates) := SplitBaseline(sig, pipelines);
      var job := Job(hash, sig, cb, baseline);
      AppendManyMore(store.View(), job.Baseline(), Map(candidates, job.Candidate()));
      var error, baselineHash := RunBaseline(job);
      if error.Some? { return Err(error.value); }
      var t;
      error, t := RunCandidates(job, candidates);
      if error.Some? { return Err(error.value); }
      r := Ok(Report(sig.hash, sig.metricId, baselineHash, t.candidates, t.winners, t.negatives, t.reviewFailed,
                     skipped, job.BaselineFindings() != [], job.BaselineFindings()));
    }

    /** The base strategy: a pipeline per admissible capsule, and the others reported as skipped. */
    method RunSingles(reg: Registry, hash: Hasher, sig: Signature, cb: Callbacks) returns (r: Result<Report, string>)
      requires reg.Valid()
      modifies store
      ensures var (baseline, candidates) := SplitBaseline(sig, ComposeSingles(sig, reg));
              var job := Job(hash, sig, cb, baseline);
              var (now, k) := AppendMany(old(store.View()), job.Records(candidates));
              && store.View() == now
              && (r.Ok? <==> k == |job.Records(candidates)|)
              && (r.Ok? ==> r.value == ReportOf(job, candidates, SingleSkips(sig, reg)))
    {
      var skipped := SkippedCapsules(sig, reg);
      r := RunPipelines(hash, sig, cb, ComposeSingles(sig, reg), skipped);
    }

    method SkippedCapsules(sig: Signature, reg: Registry) returns (skipped: Skips)
      requires reg.Valid()
      ensures skipped == SingleSkips(sig, reg)
    {
      skipped := Dict([], map[]);
      var i := 0;
      while i < |reg.keys|
        invariant 0 <= i <= |reg.keys|
        invariant skipped == SkipsUpTo(sig, reg, i)
      {
        assert reg.keys[i] in reg.keys;
        var capsule := reg.at[reg.keys[i]];
        NextSkip(sig, reg, i);
        if !AdmitsFamily(sig, capsule.methodFamily) {
          skipped := skipped.Put(reg.keys[i], "method_family_not_admissible");
        } else if RiskRank(sig.risk) > RiskRank(capsule.riskCeiling) {
          skipped := skipped.Put(reg.keys[i], "risk_ceiling_below_signature_risk");
        }
        i := i + 1;
      }
      assert reg.keys[..i] == reg.keys;
    }
  }

  ghost function ReportOf(job: Job, candidates: seq<Pipeline>, skipped: Skips): Report {
    Report(job.sig.hash, job.sig.metricId, job.BaselineHash(), Map(candidates, job.HashOf()),
           job.Filed(Winner, candidates), job.Filed(Negative, candidates), job.Filed(ReviewFailed, candidates), skipped,
           job.Compromised(), job.BaselineFindings())
  }

  // ----- The report against the ledger's queries -----------------------------------------

  /** A first run on its signature: distinct pipeline ids, and a hash that does not collide on what is stored. */
  ghost predicate FirstRun(job: Job, before: Ledger, candidates: seq<Pipeline>) {
    && job.cb.Valid()
    && Valid(job.hash, before)
    && (forall r | r in before.records :: r.data.signatureHash != job.sig.hash)
    && DistinctIds((if job.baseline.None? then [] else [job.baseline.value]) + candidates)
    && CollisionFree(job.hash, Payloads(before.records + job.Records(candidates)))
  }

  lemma RecordsDiffer(job: Job, candidates: seq<Pipeline>)
    requires DistinctIds((if job.baseline.None? then [] else [job.baseline.value]) + candidates)
    ensures var rs := job.Records(candidates);
            && (forall i | 0 <= i < |rs| :: rs[i].data.signatureHash == job.sig.hash)
            && (forall i, j | 0 <= i < j < |rs| :: rs[i].data != rs[j].data)
  {
    var rs, pipelines := job.Records(candidates),
                         (if job.baseline.None? then [] else [job.baseline.value]) + candidates;
    assert |rs| == |pipelines|;
    assert forall i | 0 <= i < |rs| ::
           rs[i].data.pipelineId == pipelines[i].pipelineId && rs[i].data.signatureHash == job.sig.hash;
    forall i, j | 0 <= i < j < |rs| ensures rs[i].data != rs[j].data {
      assert pipelines[i].pipelineId != pipelines[j].pipelineId;
    }
  }

  /** The run never meets a duplicate hash and appends exactly one record per pipeline. */
  lemma FirstRunCompletes(job: Job, before: Ledger, candidates: seq<Pipeline>)
    requires FirstRun(job, before, candidates)
    ensures var (now, k) := AppendMany(before, job.Records(candidates));
            && k == |job.Records(candidates)| == |candidates| + (if job.baseline.None? then 0 else 1)
            && Valid(job.hash, now) && now.records == before.records + job.Records(candidates)
  {
    var rs := job.Records(candidates);
    RecordsDiffer(job, candidates);
    AllAppendedIff(job.hash, before, rs);
    AppendManyKeepsValid(job.hash, before, rs);
    assert rs[..|rs|] == rs;
  }

  /** The same pipelines on the same signature again stop at the very first record, leaving the ledger as it was. */
  lemma SecondRunStopsAtOnce(job: Job, before: Ledger, candidates: seq<Pipeline>)
    requires FirstRun(job, before, candidates) && job.Records(candidates) != []
    ensures var now := AppendMany(before, job.Records(candidates)).0;
            AppendMany(now, job.Records(candidates)) == (now, 0)
  {
    FirstRunCompletes(job, before, candidates);
    var rs, now := job.Records(candidates), AppendMany(before, job.Records(candidates)).0;
    assert rs[0] in now.records;
    assert AppendMany(now, rs[..0]) == (now, 0);
    AppendManyNext(now, rs, 0);
  }

  lemma TailDistinct(front: seq<CandidateLedger.Run>, tail: seq<CandidateLedger.Run>)
    requires Distinct(Map(front + tail, RecordHash()))
    ensures Distinct(Map(tail, RecordHash()))
  {
    var all, some, n := Map(front + tail, RecordHash()), Map(tail, RecordHash()), |front|;
    forall i, j | 0 <= i < j < |tail| ensures some[i] != some[j] {
      assert all[n + i] == some[i] && all[n + j] == some[j];
    }
  }

  lemma CandidateHashesDistinct(job: Job, before: Ledger, candidates: seq<Pipeline>)
    requires FirstRun(job, before, candidates)
    ensures Distinct(Map(candidates, job.HashOf()))
  {
    FirstRunCompletes(job, before, candidates);
    var tail := Map(candidates, job.Candidate());
    assert before.records + job.Records(candidates) == (before.records + job.Baseline()) + tail;
    TailDistinct(before.records + job.Baseline(), tail);
    assert Map(tail, RecordHash()) == Map(candidates, job.HashOf());
  }

  lemma SeparateHashes(job: Job, candidates: seq<Pipeline>)
    requires Distinct(Map(candidates, job.HashOf()))
    ensures forall p, q | p in candidates && q in candidates :: job.HashOf()(p) == job.HashOf()(q) ==> p == q
  {
    forall p, q | p in candidates && q in candidates && p != q ensures job.HashOf()(p) != job.HashOf()(q) {
      var i :| 0 <= i < |candidates| && candidates[i] == p;
      var j :| 0 <= j < |candidates| && candidates[j] == q;
      assert Map(candidates, job.HashOf())[i] != Map(candidates, job.HashOf())[j];
    }
  }

  function WinsInLedger(job: Job): Pipeline -> bool { (p: Pipeline) => IsWinner(job.sig.metricId)(job.Candidate()(p)) }

  lemma RecordsCarrySignature(job: Job, candidates: seq<Pipeline>)
    ensures forall r | r in job.Records(candidates) :: OfSignature(job.sig.hash)(r)
  {
    assert forall p :: job.Candidate()(p).data.signatureHash == job.sig.hash;
  }

  /** What the ledger holds of the signature after a first run is the run itself. */
  lemma LedgerShowsTheRun(job: Job, before: Ledger, candidates: seq<Pipeline>)
    requires FirstRun(job, before, candidates)
    ensures ForSignature(AppendMany(before, job.Records(candidates)).0, job.sig.hash) == job.Records(candidates)
  {
    FirstRunCompletes(job, before, candidates);
    RecordsCarrySignature(job, candidates);
    FilterTail(before.records, job.Records(candidates), OfSignature(job.sig.hash));
  }

  lemma KeptOfTheRun(job: Job, candidates: seq<Pipeline>, keep: CandidateLedger.Run -> bool,
                     keepSource: Pipeline -> bool)
    requires forall p | p in candidates :: keepSource(p) == keep(job.Candidate()(p))
    ensures Map(Filter(job.Records(candidates), keep), RecordHash())
            == Map(Filter(job.Baseline(), keep), RecordHash()) + Map(Filter(candidates, keepSource), job.HashOf())
  {
    FilterImages(job.Baseline(), candidates, job.Candidate(), RecordHash(), job.HashOf(), keep, keepSource);
  }

  /** A winner in one place only: the baseline failed its review, or the candidate's own scores
      declare another direction for the primary metric than the signature does. */
  ghost predicate Misfiled(job: Job, p: Pipeline) {
    var e, delta, metric := job.cb.evaluate(p), job.Delta(p), job.sig.metricId;
    && e.outcome == Passed && (job.cb.review.Some? ==> job.cb.review.value(p).passed)
    && metric in delta && delta[metric] != 0.0
    && if job.Compromised() then Improves(delta[metric], DirectionOf(e.scores, metric))
       else DirectionOf(e.scores, metric) != job.sig.direction
  }

  lemma MisfiledIff(job: Job, p: Pipeline)
    requires job.cb.Valid()
    ensures Misfiled(job, p) <==> (WinsInLedger(job)(p) != (job.Classify(p) == Winner))
  {
    assert job.cb.review.Some? ==> job.cb.review.value(p).Valid();
    var r, d := job.Candidate()(p), DirectionOf(job.cb.evaluate(p).scores, job.sig.metricId);
    var passes := job.cb.evaluate(p).outcome == Passed && (job.cb.review.Some? ==> job.cb.review.value(p).passed);
    assert passes <==> r.data.outcome == Passed && r.data.findings == [];
    assert r.data.baselineDelta == job.Delta(p);
    if passes && job.sig.metricId in job.Delta(p) {
      var delta := job.Delta(p)[job.sig.metricId];
      assert WinsInLedger(job)(p) <==> Improves(delta, d);
      assert job.Classify(p) == Winner <==> !job.Compromised() && Improves(delta, job.sig.direction);
    }
  }

  lemma BaselineNeverWins(job: Job)
    ensures Filter(job.Baseline(), IsWinner(job.sig.metricId)) == []
  {
    FilterNone(job.Baseline(), IsWinner(job.sig.metricId));
  }

  lemma LedgerWinners(job: Job, before: Ledger, candidates: seq<Pipeline>)
    requires FirstRun(job, before, candidates)
    ensures var now := AppendMany(before, job.Records(candidates)).0;
            Map(WinnersFor(now, job.sig.hash, job.sig.metricId), RecordHash())
            == Map(Filter(candidates, WinsInLedger(job)), job.HashOf())
  {
    LedgerShowsTheRun(job, before, candidates);
    KeptOfTheRun(job, candidates, IsWinner(job.sig.metricId), WinsInLedger(job));
    BaselineNeverWins(job);
  }

  /** The report's winners are those the ledger's query finds, in order, exactly when no candidate is misfiled. */
  lemma WinnersAgreeIff(job: Job, before: Ledger, candidates: seq<Pipeline>, skipped: Skips)
    requires FirstRun(job, before, candidates)
    ensures var now := AppendMany(before, job.Records(candidates)).0;
            Map(WinnersFor(now, job.sig.hash, job.sig.metricId), RecordHash())
            == ReportOf(job, candidates, skipped).winners
            <==> forall p | p in candidates :: !Misfiled(job, p)
  {
    LedgerWinners(job, before, candidates);
    CandidateHashesDistinct(job, before, candidates);
    SeparateHashes(job, candidates);
    FilteredSameIff(candidates, WinsInLedger(job), job.Files(Winner), job.HashOf());
    forall p ensures Misfiled(job, p) <==> (WinsInLedger(job)(p) != job.Files(Winner)(p)) { MisfiledIff(job, p); }
  }

  /** A baseline that scores 0 and a candidate that scores 1, where the signature wants the metric low and the scores
      say high. */
  function Scored(baseId: string): Pipeline -> Evaluation {
    (p: Pipeline) => Evaluation(Passed, [Score("m", if p.pipelineId == baseId then 0.0 else 1.0, Maximize)], [], "")
  }

  function DisputedSignature(signature: string): Signature {
    Signature(signature, ["f"], [], "f", "m", Minimize, "low")
  }

  function TheCapsule(): Capsule { Capsule("c", "f", "low") }
  function OneCapsule(): Registry { Dict(["c"], map["c" := TheCapsule()]) }

  function Alone(id: string): Pipeline { Pipeline(id, ["f"], ["c"]) }

  function Disputed(hash: Hasher, signature: string, baseId: string): Job {
    Job(hash, DisputedSignature(signature), Callbacks(Scored(baseId), None, s => s), Some(Alone(baseId)))
  }

  /** The checks ProblemSignature, MethodCapsule, CompositionSpec, CandidatePipeline and CandidateScore make on
      construction; what a signature carries beyond this model is left to its caller. */
  predicate SignatureConstructible(sig: Signature) {
    && sig.risk in {"low", "medium", "high", "physical"}
    && !Blank(sig.metricId) && Strip(sig.metricId) == sig.metricId
    && (forall f | f in sig.allowed :: f !in sig.forbidden) && sig.baselineFamily !in sig.forbidden
  }

  predicate CapsuleConstructible(c: Capsule) { !Blank(c.capsuleId) && !Blank(c.methodFamily) }
  predicate SpecConstructible(s: Spec) { !Blank(s.pipelineId) && s.capsuleIds != [] }
  predicate PipelineConstructible(p: Pipeline) { !Blank(p.pipelineId) && p.capsuleIds != [] }
  predicate ScoresConstructible(e: Evaluation) { forall s | s in e.scores :: !Blank(s.metricId) }

  lemma TwoComposed(sig: Signature, reg: Registry, a: Spec, b: Spec)
    requires a.pipelineId != b.pipelineId && Obstacle(sig, reg, a.capsuleIds).None?
             && Obstacle(sig, reg, b.capsuleIds).None?
    ensures Compose(sig, reg, [a, b]) == ([Pipeline(a.pipelineId, Families(reg, a.capsuleIds), a.capsuleIds),
                                           Pipeline(b.pipelineId, Families(reg, b.capsuleIds), b.capsuleIds)], [])
  {
    ComposeNext(sig, reg, [], a);
    ComposeNext(sig, reg, [a], b);
    assert [] + [a] == [a] && [a] + [b] == [a, b] && Ids([]) == {} && Ids([a]) == {a.pipelineId};
    var p := Pipeline(a.pipelineId, Families(reg, a.capsuleIds), a.capsuleIds);
    var q := Pipeline(b.pipelineId, Families(reg, b.capsuleIds), b.capsuleIds);
    assert [] + [p] == [p] && [p] + [q] == [p, q];
  }

  lemma BaselineFirst(sig: Signature, p: Pipeline, q: Pipeline)
    requires IsBaselineOf(sig, p)
    ensures SplitBaseline(sig, [p, q]) == (Some(p), [q])
  {
    assert [p, q][1..] == [q];
  }

  lemma CapsuleRuns(sig: Signature)
    requires AdmitsFamily(sig, "f") && sig.risk == "low"
    ensures Obstacle(sig, OneCapsule(), ["c"]) == None && Families(OneCapsule(), ["c"]) == ["f"]
  {
    assert ["c"][1..] == [];
  }

  /** Two specs of one capsule each, under different ids: what the declared composer makes of them is the disputed
      run. */
  lemma DisputedIsComposed(hash: Hasher, signature: string, baseId: string, id: string)
    requires id != baseId
    ensures var sig, specs := DisputedSignature(signature), [Spec(baseId, ["c"]), Spec(id, ["c"])];
            SplitBaseline(sig, Compose(sig, OneCapsule(), specs).0)
            == (Disputed(hash, signature, baseId).baseline, [Alone(id)])
  {
    var sig := DisputedSignature(signature);
    assert AdmitsFamily(sig, "f");
    CapsuleRuns(sig);
    TwoComposed(sig, OneCapsule(), Spec(baseId, ["c"]), Spec(id, ["c"]));
    BaselineFirst(sig, Alone(baseId), Alone(id));
  }

  lemma DisputedSignatureConstructible(signature: string)
    ensures SignatureConstructible(DisputedSignature(signature))
  {
    NormalizedLetter('m');
  }

  lemma OneCapsuleConstructible()
    ensures CapsuleConstructible(TheCapsule())
  {
    NormalizedLetter('c');
    NormalizedLetter('f');
  }

  lemma OneCapsuleRegistered()
    ensures ValidRegistry(OneCapsule())
  {
  }

  lemma ScoredConstructible(baseId: string, p: Pipeline)
    ensures ScoresConstructible(Scored(baseId)(p))
  {
    NormalizedLetter('m');
    forall s | s in Scored(baseId)(p).scores ensures s.metricId == "m" {}
  }

  /** And nothing in it is refused on construction. */
  lemma DisputedConstructible(signature: string, baseId: string, id: string)
    requires !Blank(baseId) && !Blank(id)
    ensures SignatureConstructible(DisputedSignature(signature))
    ensures ValidRegistry(OneCapsule()) && CapsuleConstructible(TheCapsule())
    ensures SpecConstructible(Spec(baseId, ["c"])) && SpecConstructible(Spec(id, ["c"]))
    ensures PipelineConstructible(Alone(baseId)) && PipelineConstructible(Alone(id))
    ensures forall p :: ScoresConstructible(Scored(baseId)(p))
  {
    DisputedSignatureConstructible(signature);
    OneCapsuleConstructible();
    OneCapsuleRegistered();
    forall p ensures ScoresConstructible(Scored(baseId)(p)) { ScoredConstructible(baseId, p); }
  }

  lemma DisputedIsMisfiled(job: Job, p: Pipeline, baseId: string)
    requires job == Disputed(job.hash, job.sig.hash, baseId) && p.pipelineId != baseId
    ensures Misfiled(job, p)
  {
    var base := job.cb.evaluate(job.baseline.value).scores;
    assert base == [Score("m", 0.0, Maximize)];
    OneScore("m", 0.0, Maximize);
    OneScore("m", 1.0, Maximize);
    assert job.Delta(p) == map["m" := 1.0];
  }

  lemma OneScore(metric: string, value: real, direction: Direction)
    ensures ValueByMetric([Score(metric, value, direction)]) == map[metric := value]
    ensures DirectionOf([Score(metric, value, direction)], metric) == direction
  {
    assert [Score(metric, value, direction)][..0] == [];
  }

  lemma DisputedIsFirst(job: Job, baseId: string, id: string)
    requires job == Disputed(job.hash, job.sig.hash, baseId) && id != baseId
    requires CollisionFree(job.hash, Payloads(job.Records([Alone(id)])))
    ensures FirstRun(job, Ledger([], {}), [Alone(id)])
  {
    assert [] + job.Records([Alone(id)]) == job.Records([Alone(id)]);
  }

  /** Every declared spec that can be built makes a pipeline that can be built. */
  lemma ComposedConstructible(sig: Signature, reg: Registry, specs: seq<Spec>)
    requires forall s | s in specs :: SpecConstructible(s)
    ensures forall p | p in Compose(sig, reg, specs).0 :: PipelineConstructible(p)
  {
    ComposeExact(sig, reg, specs);
    forall p | p in Compose(sig, reg, specs).0 ensures PipelineConstructible(p) {
      var i: nat :| RunsAs(sig, reg, specs, i, p);
      assert specs[i] in specs;
    }
  }

  /** One candidate is enough for the report and the ledger's query to name different winners. */
  lemma WinnersDisagree(hash: Hasher, signature: string, baseId: string, id: string, skipped: Skips)
    requires id != baseId
    requires CollisionFree(hash, Payloads(Disputed(hash, signature, baseId).Records([Alone(id)])))
    ensures var job, candidates := Disputed(hash, signature, baseId), [Alone(id)];
            var now := AppendMany(Ledger([], {}), job.Records(candidates)).0;
            Map(WinnersFor(now, job.sig.hash, job.sig.metricId), RecordHash())
            != ReportOf(job, candidates, skipped).winners
  {
    var job, candidates := Disputed(hash, signature, baseId), [Alone(id)];
    DisputedIsFirst(job, baseId, id);
    DisputedIsMisfiled(job, candidates[0], baseId);
    WinnersAgreeIff(job, Ledger([], {}), candidates, skipped);
    assert candidates[0] in candidates;
  }

  function FailsInLedger(job: Job): Pipeline -> bool { (p: Pipeline) => IsNegative()(job.Candidate()(p)) }

  lemma NegativeIff(job: Job, p: Pipeline)
    ensures FailsInLedger(job)(p) <==> job.Files(Negative)(p)
  {
    assert job.Candidate()(p).data.outcome == job.cb.evaluate(p).outcome;
    assert job.Classify(p) == Negative <==> job.cb.evaluate(p).outcome != Passed;
  }

  lemma NegativeBaseline(job: Job)
    ensures Map(Filter(job.Baseline(), IsNegative()), RecordHash())
            == if job.baseline.Some? && job.cb.evaluate(job.baseline.value).outcome != Passed
            then [job.BaselineHash()] else []
  {
    var s := job.Baseline();
    if s != [] { assert s[..0] == []; }
  }

  /** The report's negatives are the ledger's, without the baseline. */
  lemma NegativesAgree(job: Job, before: Ledger, candidates: seq<Pipeline>, skipped: Skips)
    requires FirstRun(job, before, candidates)
    ensures var now := AppendMany(before, job.Records(candidates)).0;
            var baseline := if job.baseline.Some? && job.cb.evaluate(job.baseline.value).outcome != Passed
            then [job.BaselineHash()] else [];
            Map(NegativeResultsFor(now, job.sig.hash), RecordHash())
            == baseline + ReportOf(job, candidates, skipped).negatives
  {
    LedgerShowsTheRun(job, before, candidates);
    KeptOfTheRun(job, candidates, IsNegative(), FailsInLedger(job));
    forall p ensures FailsInLedger(job)(p) == job.Files(Negative)(p) { NegativeIff(job, p); }
    FilterExt(candidates, FailsInLedger(job), job.Files(Negative));
    NegativeBaseline(job);
  }

  /** Winners, negatives and review failures share no record, and a compromised baseline leaves no winner. */
  lemma ClassesDisjoint(job: Job, before: Ledger, candidates: seq<Pipeline>, c: Class, d: Class, h: string)
    requires FirstRun(job, before, candidates) && c != d && h in job.Filed(c, candidates)
    ensures h in Map(candidates, job.HashOf()) && h !in job.Filed(d, candidates)
    ensures job.Compromised() ==> c != Winner
  {
    var i :| 0 <= i < |job.Filed(c, candidates)| && job.Filed(c, candidates)[i] == h;
    var p := Filter(candidates, job.Files(c))[i];
    FilterMember(candidates, job.Files(c), p);
    var n :| 0 <= n < |candidates| && candidates[n] == p;
    assert Map(candidates, job.HashOf())[n] == h;
    if h in job.Filed(d, candidates) {
      var j :| 0 <= j < |job.Filed(d, candidates)| && job.Filed(d, candidates)[j] == h;
      var q := Filter(candidates, job.Files(d))[j];
      FilterMember(candidates, job.Files(d), q);
      CandidateHashesDistinct(job, before, candidates);
      SeparateHashes(job, candidates);
    }
  }

  lemma SplitKeepsIds(sig: Signature, pipelines: seq<Pipeline>)
    requires DistinctIds(pipelines)
    ensures var (baseline, candidates) := SplitBaseline(sig, pipelines);
            DistinctIds((if baseline.None? then [] else [baseline.value]) + candidates)
  {
    var (baseline, candidates) := SplitBaseline(sig, pipelines);
    var all := (if baseline.None? then [] else [baseline.value]) + candidates;
    assert multiset(all) == multiset(pipelines);
    forall i, j | 0 <= i < j < |all| ensures all[i].pipelineId != all[j].pipelineId {
      RearrangedIdsDiffer(all, pipelines, i, j);
    }
  }

  lemma RearrangedIdsDiffer(all: seq<Pipeline>, pipelines: seq<Pipeline>, i: nat, j: nat)
    requires multiset(all) == multiset(pipelines) && DistinctIds(pipelines) && i < j < |all|
    ensures all[i].pipelineId != all[j].pipelineId
  {
    assert all[i] in multiset(pipelines) && all[j] in multiset(pipelines);
    var m :| 0 <= m < |pipelines| && pipelines[m] == all[i];
    var n :| 0 <= n < |pipelines| && pipelines[n] == all[j];
    if all[i] == all[j] {
      CountTwice(all, i, j);
      DistinctCount(pipelines, all[i]);
    }
  }

  /** Both ways of composing supply what a first run needs of its pipelines, whatever the capsules and specs. */
  lemma ComposedRunIsFirst(job: Job, before: Ledger, reg: Registry, specs: seq<Spec>, candidates: seq<Pipeline>,
                           declared: bool)
    requires ValidRegistry(reg)
    requires (job.baseline, candidates)
             == SplitBaseline(job.sig,
                              if declared then Compose(job.sig, reg, specs).0 else ComposeSingles(job.sig, reg))
    requires job.cb.Valid() && Valid(job.hash, before)
    requires forall r | r in before.records :: r.data.signatureHash != job.sig.hash
    requires CollisionFree(job.hash, Payloads(before.records + job.Records(candidates)))
    ensures FirstRun(job, before, candidates)
  {
    ComposeExact(job.sig, reg, specs);
    SinglesDistinct(job.sig, reg);
    SplitKeepsIds(job.sig, if declared then Compose(job.sig, reg, specs).0 else ComposeSingles(job.sig, reg));
  }

  // ----- Declared compositions ---------------------------------------------------------

  class DeclaredCompositionComposer {
    const composer: Composer
    const capsules: Registry
    const compositions: seq<Spec>
    var skipped: seq<Skip>

    constructor (composer: Composer, capsules: Registry, compositions: seq<Spec>)
      ensures this.composer == composer && this.capsules == capsules && this.compositions == compositions
              && skipped == []
    {
      this.composer, this.capsules, this.compositions, skipped := composer, capsules, compositions, [];
    }

    method ComposePipelines(sig: Signature) returns (composed: seq<Pipeline>)
      modifies this
      ensures (composed, skipped) == Compose(sig, capsules, compositions)
    {
      skipped, composed := [], [];
      var seen: set<string> := {};
      var i := 0;
      while i < |compositions|
        invariant 0 <= i <= |compositions|
        invariant (composed, skipped) == Compose(sig, capsules, compositions[..i])
        invariant seen == Ids(compositions[..i])
      {
        var spec := compositions[i];
        assert compositions[..i + 1][..i] == compositions[..i];
        assert compositions[..i + 1] == compositions[..i] + [spec];
        if spec.pipelineId in seen {
          skipped := skipped + [Skip(spec.pipelineId, "duplicate_pipeline_id", "")];
        } else {
          seen := seen + {spec.pipelineId};
          var families, why := Resolve(sig, spec.capsuleIds);
          match why
          case Some(w) => skipped := skipped + [Skip(spec.pipelineId, w.0, w.1)];
          case None => composed := composed + [Pipeline(spec.pipelineId, families, spec.capsuleIds)];
        }
        i := i + 1;
      }
      assert compositions[..i] == compositions;
    }

    /** Compose, then run: the inherited loop over the declared pipelines. */
    method Run(hash: Hasher, sig: Signature, cb: Callbacks) returns (r: Result<Report, string>)
      modifies this, composer.store
      ensures skipped == Compose(sig, capsules, compositions).1
      ensures var (baseline, candidates) := SplitBaseline(sig, Compose(sig, capsules, compositions).0);
              var job := Job(hash, sig, cb, baseline);
              var (now, k) := AppendMany(old(composer.store.View()), job.Records(candidates));
              && composer.store.View() == now
              && (r.Ok? <==> k == |job.Records(candidates)|)
              && (r.Ok? ==> r.value == ReportOf(job, candidates, SkippedBy(Compose(sig, capsules, compositions).1)))
    {
      var pipelines := ComposePipelines(sig);
      var skips := ComposerSkips();
      r := composer.RunPipelines(hash, sig, cb, pipelines, skips);
    }

    /** The dictionary keyed by pipeline id: of two skips under one id the later reason stays. */
    method ComposerSkips() returns (skips: Skips)
      ensures skips == SkippedBy(skipped)
    {
      skips := Dict([], map[]);
      var i := 0;
      while i < |skipped|
        invariant 0 <= i <= |skipped|
        invariant skips == SkippedBy(skipped[..i])
      {
        assert skipped[..i + 1][..i] == skipped[..i];
        var skip := skipped[i];
        skips := skips.Put(skip.pipelineId,
                           if skip.capsuleId != "" then skip.reason + ":" + skip.capsuleId else skip.reason);
        i := i + 1;
      }
      assert skipped[..i] == skipped;
    }

    /** One inadmissible or unknown capsule poisons the whole chain. */
    method Resolve(sig: Signature, ids: seq<string>) returns (families: seq<string>, why: Option<(string, string)>)
      ensures why == Obstacle(sig, capsules, ids)
      ensures why.None? ==> families == Families(capsules, ids)
    {
      families, why := [], None;
      var i := 0;
      while i < |ids|
        invariant 0 <= i <= |ids|
        invariant Runnable(sig, capsules, ids[..i])
        invariant families == Families(capsules, ids[..i])
        invariant Obstacle(sig, capsules, ids) == Obstacle(sig, capsules, ids[i..])
        invariant why.None?
      {
        ObstacleNext(sig, capsules, ids, i);
        if ids[i] !in capsules.at { return families, Some(("unknown_capsule_id", ids[i])); }
        var capsule := capsules.at[ids[i]];
        if !AdmitsFamily(sig, capsule.methodFamily) {
          return families, Some(("capsule_method_family_not_admissible", ids[i]));
        }
        if RiskRank(sig.risk) > RiskRank(capsule.riskCeiling) {
          return families, Some(("capsule_risk_ceiling_below_signature_risk", ids[i]));
        }
        FamiliesNext(sig, capsules, ids, i);
        families := families + [capsule.methodFamily];
        i := i + 1;
      }
      assert ids[..i] == ids;
    }
  }
}
