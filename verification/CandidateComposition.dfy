/** Which pipelines are composed and which are skipped and why, told in the families and risks of the capsules; and
    which pipeline is the baseline. */
module CandidateComposition {
  import opened Collections
  import opened CandidateLedger
  import opened CandidateComposer

  // ----- One capsule ------------------------------------------------------------------------

  /** No family that is forbidden, and one that is allowed where any are named. */
  ghost predicate FamilyFits(sig: Signature, family: string) {
    family !in sig.forbidden && (sig.allowed != [] ==> family in sig.allowed)
  }

  /** The ceiling reaches the risk: physical is above high, high above medium, and medium above all the rest. */
  ghost predicate RiskFits(risk: string, ceiling: string) {
    && (risk == "physical" ==> ceiling == "physical")
    && (risk == "high" ==> ceiling == "high" || ceiling == "physical")
    && (risk == "medium" ==> ceiling == "medium" || ceiling == "high" || ceiling == "physical")
  }

  ghost predicate Fits(sig: Signature, c: Capsule) {
    FamilyFits(sig, c.methodFamily) && RiskFits(sig.risk, c.riskCeiling)
  }

  lemma FitsMeans(sig: Signature, c: Capsule)
    ensures AdmitsFamily(sig, c.methodFamily) <==> FamilyFits(sig, c.methodFamily)
    ensures RiskRank(sig.risk) <= RiskRank(c.riskCeiling) <==> RiskFits(sig.risk, c.riskCeiling)
    ensures Admits(sig, c) <==> Fits(sig, c)
  {
  }

  // ----- The base composition ---------------------------------------------------------------

  /** The pipeline runs just this capsule. */
  ghost predicate RunsAlone(p: Pipeline, c: Capsule) {
    p.pipelineId == "pipeline:" + c.capsuleId && p.methodFamilies == [c.methodFamily] && p.capsuleIds == [c.capsuleId]
  }

  function FitsAt(sig: Signature, reg: Registry): string -> bool {
    id => id in reg.at && reg.at[id].methodFamily !in sig.forbidden
          && (sig.allowed == [] || reg.at[id].methodFamily in sig.allowed)
          && RiskRank(sig.risk) <= RiskRank(reg.at[id].riskCeiling)
  }

  /** One pipeline for each registered capsule that fits, and no other, in the order of registration. */
  lemma SinglesExact(sig: Signature, reg: Registry, p: Pipeline)
    requires ValidRegistry(reg)
    ensures p in ComposeSingles(sig, reg) <==>
            exists id | id in reg.at :: Fits(sig, reg.at[id]) && RunsAlone(p, reg.at[id])
  {
    var fit := Filter(reg.Values(), Admissible(sig));
    if p in ComposeSingles(sig, reg) {
      var i :| 0 <= i < |fit| && Single()(fit[i]) == p;
      FilterMember(reg.Values(), Admissible(sig), fit[i]);
      var j :| 0 <= j < |reg.keys| && reg.Values()[j] == fit[i];
      assert reg.keys[j] in reg.keys;
      FitsMeans(sig, fit[i]);
      assert RunsAlone(p, reg.at[reg.keys[j]]);
    }
    if id :| id in reg.at && Fits(sig, reg.at[id]) && RunsAlone(p, reg.at[id]) {
      var j :| 0 <= j < |reg.keys| && reg.keys[j] == id;
      assert reg.Values()[j] == reg.at[id];
      FitsMeans(sig, reg.at[id]);
      FilterMember(reg.Values(), Admissible(sig), reg.at[id]);
      var i :| 0 <= i < |fit| && fit[i] == reg.at[id];
      assert ComposeSingles(sig, reg)[i] == p;
    }
  }

  function CapsulesOf(): Pipeline -> seq<string> { (p: Pipeline) => p.capsuleIds }
  function AloneId(): string -> seq<string> { id => [id] }

  lemma {:induction false} FitInOrder(sig: Signature, reg: Registry, keys: seq<string>, values: seq<Capsule>)
    requires |keys| == |values|
    requires forall i | 0 <= i < |keys| ::
             keys[i] in reg.at && values[i] == reg.at[keys[i]] && values[i].capsuleId == keys[i]
    ensures Map(Map(Filter(values, Admissible(sig)), Single()), CapsulesOf())
            == Map(Filter(keys, FitsAt(sig, reg)), AloneId())
  {
    if keys != [] {
      var n := |keys| - 1;
      FitInOrder(sig, reg, keys[..n], values[..n]);
    }
  }

  lemma SinglesInOrder(sig: Signature, reg: Registry)
    requires ValidRegistry(reg)
    ensures Map(ComposeSingles(sig, reg), CapsulesOf()) == Map(Filter(reg.keys, FitsAt(sig, reg)), AloneId())
    ensures forall id :: FitsAt(sig, reg)(id) <==> id in reg.at && Fits(sig, reg.at[id])
  {
    forall i | 0 <= i < |reg.keys| ensures reg.keys[i] in reg.at { assert reg.keys[i] in reg.keys; }
    FitInOrder(sig, reg, reg.keys, reg.Values());
    forall id | id in reg.at ensures Admits(sig, reg.at[id]) <==> Fits(sig, reg.at[id]) { FitsMeans(sig, reg.at[id]); }
  }

  /** Every other registered capsule is skipped, and for the reason told: its family, or else its ceiling. */
  lemma SinglesSkippedExactly(sig: Signature, reg: Registry, id: string)
    requires ValidRegistry(reg)
    ensures var d := SingleSkips(sig, reg);
            && (id in d.at <==> id in reg.at && !Fits(sig, reg.at[id]))
            && (id in d.keys <==> id in d.at)
            && (id in d.at ==>
                  d.at[id] == if !FamilyFits(sig, reg.at[id].methodFamily) then "method_family_not_admissible"
                              else "risk_ceiling_below_signature_risk")
  {
    FilterMember(reg.keys, Inadmissible(sig, reg), id);
    if id in reg.at { FitsMeans(sig, reg.at[id]); }
  }

  // ----- The declared composition -------------------------------------------------------------

  ghost predicate Usable(sig: Signature, reg: Registry, id: string) { id in reg.at && Fits(sig, reg.at[id]) }

  /** The `i`-th spec is the first of its id. */
  ghost predicate IsFirst(specs: seq<Spec>, i: nat) {
    i < |specs| && forall j | 0 <= j < i :: specs[j].pipelineId != specs[i].pipelineId
  }

  /** It runs as this pipeline: under its id, its capsules in order, each registered and fitting, with their
      families. */
  ghost predicate RunsSpec(sig: Signature, reg: Registry, s: Spec, p: Pipeline) {
    && p.pipelineId == s.pipelineId && p.capsuleIds == s.capsuleIds && |p.methodFamilies| == |s.capsuleIds|
    && forall n | 0 <= n < |s.capsuleIds| ::
         Usable(sig, reg, s.capsuleIds[n]) && p.methodFamilies[n] == reg.at[s.capsuleIds[n]].methodFamily
  }

  lemma RunsSpecMeans(sig: Signature, reg: Registry, specs: seq<Spec>, i: nat, p: Pipeline)
    ensures RunsAs(sig, reg, specs, i, p) <==> IsFirst(specs, i) && RunsSpec(sig, reg, specs[i], p)
  {
    if IsFirst(specs, i) {
      var ids := specs[i].capsuleIds;
      forall id | id in reg.at ensures Admits(sig, reg.at[id]) <==> Fits(sig, reg.at[id]) {
        FitsMeans(sig, reg.at[id]);
      }
      if RunsSpec(sig, reg, specs[i], p) {
        forall id | id in ids ensures id in reg.at && Admits(sig, reg.at[id]) {
          var n :| 0 <= n < |ids| && ids[n] == id;
        }
        assert p.methodFamilies == Families(reg, ids);
      }
      if RunsAs(sig, reg, specs, i, p) {
        forall n | 0 <= n < |ids| ensures Usable(sig, reg, ids[n]) { assert ids[n] in ids; }
      }
    }
  }

  /** Composed are exactly the first specs of their id all of whose capsules are registered and fit. */
  lemma ComposedExactly(sig: Signature, reg: Registry, specs: seq<Spec>, p: Pipeline)
    ensures p in Compose(sig, reg, specs).0 <==>
            exists i: nat :: IsFirst(specs, i) && RunsSpec(sig, reg, specs[i], p)
  {
    ComposeExact(sig, reg, specs);
    forall i: nat ensures RunsAs(sig, reg, specs, i, p) <==> IsFirst(specs, i) && RunsSpec(sig, reg, specs[i], p) {
      RunsSpecMeans(sig, reg, specs, i, p);
    }
  }

  /** What is wrong with a capsule a spec names. */
  ghost predicate Wrong(sig: Signature, reg: Registry, id: string, reason: string) {
    if id !in reg.at then reason == "unknown_capsule_id"
    else if !FamilyFits(sig, reg.at[id].methodFamily) then reason == "capsule_method_family_not_admissible"
    else !RiskFits(sig.risk, reg.at[id].riskCeiling) && reason == "capsule_risk_ceiling_below_signature_risk"
  }

  /** The `n`-th capsule of the chain is the first with something wrong. */
  ghost predicate StopsAt(sig: Signature, reg: Registry, ids: seq<string>, n: nat, reason: string) {
    n < |ids| && Wrong(sig, reg, ids[n], reason) && forall m | 0 <= m < n :: Usable(sig, reg, ids[m])
  }

  lemma {:induction false} ObstacleMeans(sig: Signature, reg: Registry, ids: seq<string>)
    ensures Obstacle(sig, reg, ids).None? <==> forall n | 0 <= n < |ids| :: Usable(sig, reg, ids[n])
    ensures Obstacle(sig, reg, ids).Some? ==>
              exists n: nat :: StopsAt(sig, reg, ids, n, Obstacle(sig, reg, ids).value.0)
                               && ids[n] == Obstacle(sig, reg, ids).value.1
  {
    if ids != [] {
      if ids[0] in reg.at { FitsMeans(sig, reg.at[ids[0]]); }
      ObstacleMeans(sig, reg, ids[1..]);
      ObstacleFurther(sig, reg, ids);
    }
  }

  lemma ObstacleFurther(sig: Signature, reg: Registry, ids: seq<string>)
    requires ids != []
    requires Obstacle(sig, reg, ids[1..]).None? <==> forall n | 0 <= n < |ids[1..]| :: Usable(sig, reg, ids[1..][n])
    requires Obstacle(sig, reg, ids[1..]).Some? ==>
               exists n: nat :: StopsAt(sig, reg, ids[1..], n, Obstacle(sig, reg, ids[1..]).value.0)
                                && ids[1..][n] == Obstacle(sig, reg, ids[1..]).value.1
    ensures Obstacle(sig, reg, ids).None? <==> forall n | 0 <= n < |ids| :: Usable(sig, reg, ids[n])
    ensures Obstacle(sig, reg, ids).Some? ==>
              exists n: nat :: StopsAt(sig, reg, ids, n, Obstacle(sig, reg, ids).value.0)
                               && ids[n] == Obstacle(sig, reg, ids).value.1
  {
    if ids[0] in reg.at { FitsMeans(sig, reg.at[ids[0]]); }
    if Usable(sig, reg, ids[0]) {
      assert Obstacle(sig, reg, ids) == Obstacle(sig, reg, ids[1..]);
      forall n | 0 <= n < |ids| && (forall m | 0 <= m < |ids[1..]| :: Usable(sig, reg, ids[1..][m]))
        ensures Usable(sig, reg, ids[n]) {
        if n > 0 { assert ids[n] == ids[1..][n - 1]; }
      }
      forall m | 0 <= m < |ids[1..]| ensures ids[1..][m] == ids[m + 1] {}
      if Obstacle(sig, reg, ids[1..]).Some? {
        var n: nat :| StopsAt(sig, reg, ids[1..], n, Obstacle(sig, reg, ids[1..]).value.0)
                      && ids[1..][n] == Obstacle(sig, reg, ids[1..]).value.1;
        forall m | 0 <= m < n + 1 ensures Usable(sig, reg, ids[m]) {
          if m > 0 { assert ids[m] == ids[1..][m - 1]; }
        }
        assert StopsAt(sig, reg, ids, n + 1, Obstacle(sig, reg, ids).value.0);
      }
    } else {
      assert StopsAt(sig, reg, ids, 0, Obstacle(sig, reg, ids).value.0);
    }
  }

  /** The `i`-th spec is skipped so: as a repetition of an id, or for the first capsule of its chain with something
      wrong. */
  ghost predicate SkippedAt(sig: Signature, reg: Registry, specs: seq<Spec>, i: nat, k: Skip) {
    && i < |specs| && k.pipelineId == specs[i].pipelineId
    && if IsFirst(specs, i) then
         exists n: nat :: StopsAt(sig, reg, specs[i].capsuleIds, n, k.reason) && specs[i].capsuleIds[n] == k.capsuleId
       else k.reason == "duplicate_pipeline_id" && k.capsuleId == ""
  }

  lemma OneStop(sig: Signature, reg: Registry, ids: seq<string>, n: nat, m: nat, a: string, b: string)
    requires StopsAt(sig, reg, ids, n, a) && StopsAt(sig, reg, ids, m, b)
    ensures n == m && a == b
  {
  }

  lemma SkippedNext(sig: Signature, reg: Registry, front: seq<Spec>, s: Spec, k: Skip)
    ensures var before, after := Compose(sig, reg, front).1, Compose(sig, reg, front + [s]).1;
            k in after <==> k in before || SkippedAt(sig, reg, front + [s], |front|, k)
  {
    ComposeNext(sig, reg, front, s);
    ObstacleMeans(sig, reg, s.capsuleIds);
    var specs, why := front + [s], Obstacle(sig, reg, s.capsuleIds);
    assert s.pipelineId in Ids(front) <==> !IsFirst(specs, |front|) by {
      if s.pipelineId in Ids(front) {
        var x :| x in front && x.pipelineId == s.pipelineId;
        var j :| 0 <= j < |front| && front[j] == x;
        assert specs[j].pipelineId == s.pipelineId;
      } else {
        forall j | 0 <= j < |front| ensures specs[j].pipelineId != s.pipelineId { assert front[j] in front; }
      }
    }
    if IsFirst(specs, |front|) && SkippedAt(sig, reg, specs, |front|, k) {
      var n: nat :| StopsAt(sig, reg, s.capsuleIds, n, k.reason) && s.capsuleIds[n] == k.capsuleId;
      assert !Usable(sig, reg, s.capsuleIds[n]);
      var m: nat :| StopsAt(sig, reg, s.capsuleIds, m, why.value.0) && s.capsuleIds[m] == why.value.1;
      OneStop(sig, reg, s.capsuleIds, n, m, k.reason, why.value.0);
      assert k == Skip(s.pipelineId, why.value.0, why.value.1);
    }
  }

  /** Every other spec is skipped, and for that reason. */
  lemma {:induction false} SkippedExactly(sig: Signature, reg: Registry, specs: seq<Spec>, k: Skip)
    ensures k in Compose(sig, reg, specs).1 <==> exists i: nat :: SkippedAt(sig, reg, specs, i, k)
  {
    if specs != [] {
      var front, n := specs[..|specs| - 1], |specs| - 1;
      assert front + [specs[n]] == specs;
      SkippedExactly(sig, reg, front, k);
      SkippedNext(sig, reg, front, specs[n], k);
      forall i: nat | i < n ensures SkippedAt(sig, reg, specs, i, k) <==> SkippedAt(sig, reg, front, i, k) {
        assert IsFirst(specs, i) <==> IsFirst(front, i);
      }
      if i: nat :| SkippedAt(sig, reg, front, i, k) { assert SkippedAt(sig, reg, specs, i, k); }
      if i: nat :| SkippedAt(sig, reg, specs, i, k) && i < n { assert SkippedAt(sig, reg, front, i, k); }
    }
  }

  /** Under an id that was skipped the report shows the last reason, with the capsule behind a colon where there is
      one. */
  lemma ReasonShown(skips: seq<Skip>, i: nat)
    requires i < |skips| && forall j | i < j < |skips| :: skips[j].pipelineId != skips[i].pipelineId
    ensures var d := SkippedBy(skips);
            && skips[i].pipelineId in d.at
            && d.at[skips[i].pipelineId] == if skips[i].capsuleId == "" then skips[i].reason
                                            else skips[i].reason + ":" + skips[i].capsuleId
  {
    LastReasonStays(skips, i);
  }

  // ----- The baseline -----------------------------------------------------------------------

  ghost predicate MayBeBaseline(sig: Signature, p: Pipeline) {
    sig.baselineFamily != "" && |p.methodFamilies| == 1 && p.methodFamilies[0] == sig.baselineFamily
  }

  /** The baseline is the first pipeline of just the family declared, and the candidates are all the others, in
      order. */
  lemma {:induction false} BaselineExact(sig: Signature, pipelines: seq<Pipeline>, i: nat)
    requires i < |pipelines| && MayBeBaseline(sig, pipelines[i])
    requires forall j | 0 <= j < i :: !MayBeBaseline(sig, pipelines[j])
    ensures SplitBaseline(sig, pipelines) == (Some(pipelines[i]), pipelines[..i] + pipelines[i + 1..])
  {
    MayBeMeans(sig, pipelines[0]);
    if i == 0 {
      assert pipelines[..0] + pipelines[1..] == pipelines[1..];
    } else {
      assert !MayBeBaseline(sig, pipelines[0]) && pipelines[i] == pipelines[1..][i - 1];
      BaselineExact(sig, pipelines[1..], i - 1);
      WithoutOne(pipelines, i);
    }
  }

  lemma MayBeMeans(sig: Signature, p: Pipeline)
    ensures IsBaselineOf(sig, p) <==> MayBeBaseline(sig, p)
  {
  }

  lemma WithoutOne<T>(s: seq<T>, i: nat)
    requires 0 < i < |s|
    ensures [s[0]] + (s[1..][..i - 1] + s[1..][i..]) == s[..i] + s[i + 1..]
  {
  }

  /** There is none where no family is declared or no pipeline is of just that family. */
  lemma {:induction false} NoBaselineExact(sig: Signature, pipelines: seq<Pipeline>)
    requires forall i | 0 <= i < |pipelines| :: !MayBeBaseline(sig, pipelines[i])
    ensures SplitBaseline(sig, pipelines) == (None, pipelines)
  {
    if pipelines != [] {
      MayBeMeans(sig, pipelines[0]);
      NoBaselineExact(sig, pipelines[1..]);
      assert [pipelines[0]] + pipelines[1..] == pipelines;
    }
  }

  /** What a report says besides its lists: the problem, the metric, the baseline's record, and whether the baseline's
      own review failed, with its findings. */
  lemma ReportSays(job: Job, candidates: seq<Pipeline>, skipped: Skips)
    requires job.cb.Valid()
    ensures var r := ReportOf(job, candidates, skipped);
            && r.signatureHash == job.sig.hash && r.primaryMetric == job.sig.metricId && r.skipped == skipped
            && |r.candidates| == |candidates|
            && (forall i | 0 <= i < |candidates| :: r.candidates[i] == job.Candidate()(candidates[i]).recordHash)
            && (job.baseline.None? ==> r.baselineHash == "" && !r.baselineCompromised && r.baselineFindings == [])
            && (job.baseline.Some? ==>
                  var b := job.baseline.value;
                  var failed := job.cb.evaluate(b).outcome == Passed && job.cb.review.Some?
                                && !job.cb.review.value(b).passed;
                  && r.baselineHash == job.Baseline()[0].recordHash && r.baselineCompromised == failed
                  && r.baselineFindings == if failed then job.cb.review.value(b).findings else [])
  {
    if job.baseline.Some? && job.cb.review.Some? { assert job.cb.review.value(job.baseline.value).Valid(); }
  }
}
