/** Who wins, told in the scores: a candidate's last score of the primary metric against the baseline's last score of
    it. */
module CandidateWinners {
  import opened Collections
  import opened CandidateLedger
  import opened CandidateComposer

  // ----- Scores by position ---------------------------------------------------------------

  /** The `i`-th score is the last of its metric. */
  ghost predicate LastOf(scores: seq<Score>, i: nat, metric: string) {
    i < |scores| && scores[i].metricId == metric && forall j | i < j < |scores| :: scores[j].metricId != metric
  }

  ghost predicate FirstOf(scores: seq<Score>, i: nat, metric: string) {
    i < |scores| && scores[i].metricId == metric && forall j | 0 <= j < i :: scores[j].metricId != metric
  }

  lemma {:induction false} ValueIsLast(scores: seq<Score>, metric: string)
    ensures metric in ValueByMetric(scores) <==> exists i: nat :: LastOf(scores, i, metric)
    ensures forall i: nat | LastOf(scores, i, metric) :: ValueByMetric(scores)[metric] == scores[i].value
  {
    if scores != [] {
      var front, last := scores[..|scores| - 1], |scores| - 1;
      ValueIsLast(front, metric);
      if scores[last].metricId == metric {
        assert LastOf(scores, last, metric);
      } else {
        forall i: nat ensures LastOf(scores, i, metric) <==> LastOf(front, i, metric) {
          LastOfFront(scores, i, metric);
        }
      }
    }
  }

  lemma LastOfFront(scores: seq<Score>, i: nat, metric: string)
    requires scores != [] && scores[|scores| - 1].metricId != metric
    ensures LastOf(scores, i, metric) <==> LastOf(scores[..|scores| - 1], i, metric)
  {
  }

  lemma {:induction false} DirectionIsFirst(scores: seq<Score>, metric: string, i: nat)
    requires FirstOf(scores, i, metric)
    ensures DirectionOf(scores, metric) == scores[i].direction
  {
    if i > 0 { DirectionIsFirst(scores[1..], metric, i - 1); }
  }

  lemma {:induction false} FirstExists(scores: seq<Score>, metric: string)
    requires exists s :: s in scores && s.metricId == metric
    ensures exists i: nat :: FirstOf(scores, i, metric)
  {
    if scores[0].metricId == metric {
      assert FirstOf(scores, 0, metric);
    } else {
      assert scores == [scores[0]] + scores[1..];
      FirstExists(scores[1..], metric);
      var i: nat :| FirstOf(scores[1..], i, metric);
      assert FirstOf(scores, i + 1, metric);
    }
  }

  /** The last score of the metric in one list is better than the last one in the other. */
  ghost predicate Outdoes(mine: seq<Score>, base: seq<Score>, metric: string, direction: Direction) {
    exists i: nat, j: nat :: LastOf(mine, i, metric) && LastOf(base, j, metric)
      && if direction == Maximize then mine[i].value > base[j].value else mine[i].value < base[j].value
  }

  lemma OutdoesMeans(mine: seq<Score>, base: seq<Score>, metric: string, direction: Direction)
    ensures metric in DeltaFromBaseline(mine, base) && Improves(DeltaFromBaseline(mine, base)[metric], direction)
            <==> Outdoes(mine, base, metric, direction)
  {
    ValueIsLast(mine, metric);
    ValueIsLast(base, metric);
    if metric in ValueByMetric(mine) && metric in ValueByMetric(base) {
      var i: nat :| LastOf(mine, i, metric);
      var j: nat :| LastOf(base, j, metric);
      assert DeltaFromBaseline(mine, base)[metric] == mine[i].value - base[j].value;
    }
  }

  /** What is recorded as the difference to the baseline: for each metric both were scored on, the last score less the
      baseline's last one. */
  lemma DeltaExact(mine: seq<Score>, base: seq<Score>, metric: string)
    ensures metric in DeltaFromBaseline(mine, base)
            <==> exists i: nat, j: nat :: LastOf(mine, i, metric) && LastOf(base, j, metric)
    ensures forall i: nat, j: nat | LastOf(mine, i, metric) && LastOf(base, j, metric) ::
              DeltaFromBaseline(mine, base)[metric] == mine[i].value - base[j].value
  {
    ValueIsLast(mine, metric);
    ValueIsLast(base, metric);
    if metric in ValueByMetric(mine) && metric in ValueByMetric(base) {
      var i: nat :| LastOf(mine, i, metric);
      var j: nat :| LastOf(base, j, metric);
      assert LastOf(mine, i, metric) && LastOf(base, j, metric);
    }
  }

  // ----- The report -----------------------------------------------------------------------

  ghost predicate ReviewPasses(cb: Callbacks, p: Pipeline) { cb.review.Some? ==> cb.review.value(p).passed }

  /** The candidate passed, its review did not fail, there is a baseline whose review did not fail, and the
      candidate's last score of the primary metric is better than the baseline's, in the direction the signature asks
      for. */
  ghost predicate WinsOnMerit(job: Job, p: Pipeline) {
    && job.cb.evaluate(p).outcome == Passed && ReviewPasses(job.cb, p)
    && job.baseline.Some?
    && (job.cb.evaluate(job.baseline.value).outcome == Passed ==> ReviewPasses(job.cb, job.baseline.value))
    && Outdoes(job.cb.evaluate(p).scores, job.cb.evaluate(job.baseline.value).scores, job.sig.metricId,
               job.sig.direction)
  }

  lemma CompromisedMeans(job: Job)
    requires job.cb.Valid()
    ensures job.Compromised() <==>
            job.baseline.Some? && job.cb.evaluate(job.baseline.value).outcome == Passed
            && !ReviewPasses(job.cb, job.baseline.value)
  {
    if job.baseline.Some? && job.cb.review.Some? { assert job.cb.review.value(job.baseline.value).Valid(); }
  }

  lemma WinnerMeans(job: Job, p: Pipeline)
    requires job.cb.Valid()
    ensures job.Classify(p) == Winner <==> WinsOnMerit(job, p)
    ensures job.Classify(p) == Negative <==> job.cb.evaluate(p).outcome != Passed
    ensures job.Classify(p) == ReviewFailed <==> job.cb.evaluate(p).outcome == Passed && !ReviewPasses(job.cb, p)
  {
    CompromisedMeans(job);
    if job.baseline.Some? {
      OutdoesMeans(job.cb.evaluate(p).scores, job.cb.evaluate(job.baseline.value).scores, job.sig.metricId,
                   job.sig.direction);
    }
  }

  lemma HashFiledIff(job: Job, candidates: seq<Pipeline>, c: Class, p: Pipeline)
    requires p in candidates && Distinct(Map(candidates, job.HashOf()))
    ensures job.HashOf()(p) in job.Filed(c, candidates) <==> job.Classify(p) == c
  {
    var kept := Filter(candidates, job.Files(c));
    FilterMember(candidates, job.Files(c), p);
    if p in kept {
      var i :| 0 <= i < |kept| && kept[i] == p;
      assert job.Filed(c, candidates)[i] == job.HashOf()(p);
    }
    if job.HashOf()(p) in job.Filed(c, candidates) {
      var i :| 0 <= i < |kept| && job.Filed(c, candidates)[i] == job.HashOf()(p);
      FilterMember(candidates, job.Files(c), kept[i]);
      SeparateHashes(job, candidates);
      assert kept[i] == p;
    }
  }

  /** The hash of a candidate's record. */
  function RecordHashOf(job: Job, p: Pipeline): string { job.Candidate()(p).recordHash }

  /** A first run reports a candidate as a winner exactly when it wins on merit, as a negative exactly when it did not
      pass, and as failed in review exactly when it passed and its review did not. */
  lemma ReportedByMerit(job: Job, before: Ledger, candidates: seq<Pipeline>, skipped: Skips, p: Pipeline)
    requires FirstRun(job, before, candidates) && p in candidates
    ensures var r := ReportOf(job, candidates, skipped);
            && (RecordHashOf(job, p) in r.winners <==> WinsOnMerit(job, p))
            && (RecordHashOf(job, p) in r.negatives <==> job.cb.evaluate(p).outcome != Passed)
            && (RecordHashOf(job, p) in r.reviewFailed <==>
                job.cb.evaluate(p).outcome == Passed && !ReviewPasses(job.cb, p))
            && RecordHashOf(job, p) in r.candidates
  {
    CandidateHashesDistinct(job, before, candidates);
    WinnerMeans(job, p);
    HashFiledIff(job, candidates, Winner, p);
    HashFiledIff(job, candidates, Negative, p);
    HashFiledIff(job, candidates, ReviewFailed, p);
    var i :| 0 <= i < |candidates| && candidates[i] == p;
    assert Map(candidates, job.HashOf())[i] == job.HashOf()(p);
  }

  ghost function Merit(job: Job): Pipeline -> bool { (p: Pipeline) => WinsOnMerit(job, p) }

  /** And the winners stand in the order of the candidates, with nothing between them. */
  lemma WinnersInOrder(job: Job, candidates: seq<Pipeline>, skipped: Skips)
    requires job.cb.Valid()
    ensures ReportOf(job, candidates, skipped).winners == Map(Filter(candidates, Merit(job)), job.HashOf())
  {
    forall p | p in candidates ensures job.Files(Winner)(p) == Merit(job)(p) { WinnerMeans(job, p); }
    FilterExt(candidates, job.Files(Winner), Merit(job));
  }

  // ----- What is recorded -----------------------------------------------------------------

  /** A candidate's record says what was run and what came of it. */
  lemma RecordSays(job: Job, p: Pipeline)
    ensures var r := job.Candidate()(p);
            && r.data.signatureHash == job.sig.hash && r.data.pipelineId == p.pipelineId
            && r.data.methodFamilies == p.methodFamilies && !r.data.isBaseline
            && r.data.outcome == job.cb.evaluate(p).outcome && r.data.scores == job.cb.evaluate(p).scores
            && r.data.runSeed == job.cb.seed(p.pipelineId)
            && r.evidenceRefs == job.cb.evaluate(p).evidenceRefs && r.notes == job.cb.evaluate(p).notes
            && r.recordHash == job.hash(r.data)
            && (job.cb.Valid() ==> (r.data.findings == []
                                    <==> job.cb.evaluate(p).outcome == Passed ==> ReviewPasses(job.cb, p)))
  {
    if job.cb.Valid() && job.cb.review.Some? { assert job.cb.review.value(p).Valid(); }
  }

  /** The baseline's record says the same of the baseline, and compares it with nothing. */
  lemma BaselineSays(job: Job)
    requires job.baseline.Some?
    ensures |job.Baseline()| == 1
    ensures var r, b := job.Baseline()[0], job.baseline.value;
            && r.data.signatureHash == job.sig.hash && r.data.pipelineId == b.pipelineId
            && r.data.methodFamilies == b.methodFamilies && r.data.isBaseline && r.data.baselineDelta == map[]
            && r.data.outcome == job.cb.evaluate(b).outcome && r.data.scores == job.cb.evaluate(b).scores
            && r.data.runSeed == job.cb.seed(b.pipelineId) && r.recordHash == job.hash(r.data)
  {
  }

  /** A record outdoes another on the metric, in the direction the first of its own scores of that metric declares. */
  ghost predicate OutdoesByOwn(mine: seq<Score>, base: seq<Score>, metric: string) {
    exists d: nat :: FirstOf(mine, d, metric) && Outdoes(mine, base, metric, mine[d].direction)
  }

  /** The query, on what is recorded. */
  ghost predicate WinsByRecord(records: seq<CandidateLedger.Run>, signature: string, metric: string,
                               r: CandidateLedger.Run) {
    && r in records && r.data.signatureHash == signature && !r.data.isBaseline
    && r.data.outcome == Passed && r.data.findings == []
    && exists b :: b in records && b.data.signatureHash == signature && b.data.isBaseline
                   && OutdoesByOwn(r.data.scores, b.data.scores, metric)
  }

  lemma BeatsMeans(job: Job, p: Pipeline)
    ensures Beats(job.sig.metricId)(job.Candidate()(p)) <==>
            job.baseline.Some?
            && OutdoesByOwn(job.cb.evaluate(p).scores, job.cb.evaluate(job.baseline.value).scores, job.sig.metricId)
  {
    var metric, mine := job.sig.metricId, job.cb.evaluate(p).scores;
    assert job.Candidate()(p).data.baselineDelta == job.Delta(p) && job.Candidate()(p).data.scores == mine;
    if job.baseline.Some? {
      var base := job.cb.evaluate(job.baseline.value).scores;
      OutdoesMeans(mine, base, metric, DirectionOf(mine, metric));
      if Outdoes(mine, base, metric, DirectionOf(mine, metric)) {
        var i: nat :| LastOf(mine, i, metric);
        assert mine[i] in mine;
        FirstExists(mine, metric);
        var d: nat :| FirstOf(mine, d, metric);
        DirectionIsFirst(mine, metric, d);
      }
      if d: nat :| FirstOf(mine, d, metric) && Outdoes(mine, base, metric, mine[d].direction) {
        DirectionIsFirst(mine, metric, d);
      }
    }
  }

  /** After a first run the ledger's query finds exactly the records of the signature that outdo its baseline's, on the
      recorded scores. */
  lemma QueriedByRecord(job: Job, before: Ledger, candidates: seq<Pipeline>, r: CandidateLedger.Run)
    requires FirstRun(job, before, candidates)
    ensures var now := AppendMany(before, job.Records(candidates)).0;
            r in WinnersFor(now, job.sig.hash, job.sig.metricId)
            <==> WinsByRecord(now.records, job.sig.hash, job.sig.metricId, r)
  {
    var now, metric := AppendMany(before, job.Records(candidates)).0, job.sig.metricId;
    LedgerShowsTheRun(job, before, candidates);
    FilterMember(now.records, OfSignature(job.sig.hash), r);
    FilterMember(job.Records(candidates), IsWinner(metric), r);
    if r in job.Records(candidates) && !r.data.isBaseline {
      var p := CandidateOf(job, candidates, r);
      BeatsMeans(job, p);
      BaselineOfRun(job, before, candidates);
    }
  }

  lemma CandidateOf(job: Job, candidates: seq<Pipeline>, r: CandidateLedger.Run) returns (p: Pipeline)
    requires r in job.Records(candidates) && !r.data.isBaseline
    ensures p in candidates && r == job.Candidate()(p)
  {
    var baseline, rest := job.Baseline(), Map(candidates, job.Candidate());
    BaselineMarked(job, candidates);
    assert r in baseline || r in rest;
    var i :| 0 <= i < |rest| && rest[i] == r;
    p := candidates[i];
  }

  /** In a run's records the baseline's is marked, and the candidates' are not. */
  lemma BaselineMarked(job: Job, candidates: seq<Pipeline>)
    ensures forall b | b in job.Baseline() :: b.data.isBaseline
    ensures forall r | r in Map(candidates, job.Candidate()) :: !r.data.isBaseline
  {
    forall i | 0 <= i < |candidates| ensures !Map(candidates, job.Candidate())[i].data.isBaseline {
      RecordSays(job, candidates[i]);
    }
  }

  /** The records of the signature that are marked as baseline: the run's own, if it had one. */
  lemma BaselineOfRun(job: Job, before: Ledger, candidates: seq<Pipeline>)
    requires FirstRun(job, before, candidates)
    ensures var now := AppendMany(before, job.Records(candidates)).0;
            forall b :: b in now.records && b.data.signatureHash == job.sig.hash && b.data.isBaseline
                        <==> job.baseline.Some? && b == job.Baseline()[0]
  {
    var now := AppendMany(before, job.Records(candidates)).0;
    LedgerShowsTheRun(job, before, candidates);
    forall b
      ensures b in now.records && b.data.signatureHash == job.sig.hash && b.data.isBaseline
              <==> job.baseline.Some? && b == job.Baseline()[0]
    {
      FilterMember(now.records, OfSignature(job.sig.hash), b);
      BaselineInRecords(job, candidates, b);
    }
  }

  lemma BaselineInRecords(job: Job, candidates: seq<Pipeline>, b: CandidateLedger.Run)
    ensures b in job.Records(candidates) && b.data.isBaseline <==> job.baseline.Some? && b == job.Baseline()[0]
  {
    BaselineMarked(job, candidates);
    assert b in job.Records(candidates) <==> b in job.Baseline() || b in Map(candidates, job.Candidate());
  }

  // ----- It happens -----------------------------------------------------------------------

  /** The metric is to be high; the baseline scores 0.7, one candidate 0.9, another 0.4. */
  function Marks(baseId: string, betterId: string): Pipeline -> Evaluation {
    (p: Pipeline) =>
      var mark := if p.pipelineId == baseId then 0.7 else if p.pipelineId == betterId then 0.9 else 0.4;
      Evaluation(Passed, [Score("m", mark, Maximize)], [], "")
  }

  function Contest(hash: Hasher, signature: string, baseId: string, betterId: string): Job {
    Job(hash, Signature(signature, ["f"], [], "f", "m", Maximize, "low"),
        Callbacks(Marks(baseId, betterId), None, s => s), Some(Alone(baseId)))
  }

  lemma SingleScores(a: real, b: real)
    ensures Outdoes([Score("m", a, Maximize)], [Score("m", b, Maximize)], "m", Maximize) <==> a > b
  {
    var mine, base := [Score("m", a, Maximize)], [Score("m", b, Maximize)];
    assert LastOf(mine, 0, "m") && LastOf(base, 0, "m");
  }

  lemma ContestMerit(job: Job, id: string, value: real)
    requires job.baseline.Some? && job.cb.review.None? && job.sig.metricId == "m" && job.sig.direction == Maximize
    requires job.cb.evaluate(job.baseline.value).scores == [Score("m", 0.7, Maximize)]
    requires job.cb.evaluate(Alone(id)) == Evaluation(Passed, [Score("m", value, Maximize)], [], "")
    ensures Merit(job)(Alone(id)) <==> value > 0.7
  {
    SingleScores(value, 0.7);
  }

  lemma ContestScores(hash: Hasher, signature: string, baseId: string, betterId: string, worseId: string)
    requires baseId != betterId && baseId != worseId && betterId != worseId
    ensures var cb := Contest(hash, signature, baseId, betterId).cb;
            && cb.evaluate(Alone(baseId)) == Evaluation(Passed, [Score("m", 0.7, Maximize)], [], "")
            && cb.evaluate(Alone(betterId)) == Evaluation(Passed, [Score("m", 0.9, Maximize)], [], "")
            && cb.evaluate(Alone(worseId)) == Evaluation(Passed, [Score("m", 0.4, Maximize)], [], "")
  {
  }

  lemma OneWins(job: Job, a: Pipeline, b: Pipeline, skipped: Skips)
    requires job.cb.Valid() && Merit(job)(a) && !Merit(job)(b)
    ensures ReportOf(job, [a, b], skipped).winners == [RecordHashOf(job, a)]
  {
    WinnersInOrder(job, [a, b], skipped);
    OneOfTwo(a, b, Merit(job));
    assert Map([a], job.HashOf()) == [RecordHashOf(job, a)];
  }

  /** The better candidate alone wins. */
  lemma BetterWinsWorseDoesNot(hash: Hasher, signature: string, baseId: string, betterId: string, worseId: string,
                               skipped: Skips)
    requires baseId != betterId && baseId != worseId && betterId != worseId
    ensures var job := Contest(hash, signature, baseId, betterId);
            ReportOf(job, [Alone(betterId), Alone(worseId)], skipped).winners == [RecordHashOf(job, Alone(betterId))]
  {
    var job := Contest(hash, signature, baseId, betterId);
    ContestScores(hash, signature, baseId, betterId, worseId);
    ContestMerit(job, betterId, 0.9);
    ContestMerit(job, worseId, 0.4);
    OneWins(job, Alone(betterId), Alone(worseId), skipped);
  }

  lemma OneOfTwo<T>(a: T, b: T, keep: T -> bool)
    requires keep(a) && !keep(b)
    ensures Filter([a, b], keep) == [a]
  {
    FilterNext([a, b], 0, keep);
    FilterNext([a, b], 1, keep);
    assert [a, b][..0] == [] && [a, b][..2] == [a, b];
  }
}
