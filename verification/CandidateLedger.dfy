/** The append-only comparison ledger and its queries. Scores are exact reals. */
module CandidateLedger {
  import opened Collections

  datatype Outcome = Passed | Failed | Regression | Timeout | BudgetExceeded | Error | Skipped
  datatype Direction = Maximize | Minimize
  datatype Score = Score(metricId: string, value: real, direction: Direction)

  /** What a run records before it is hashed. */
  datatype RunData = RunData(
    signatureHash: string, pipelineId: string, methodFamilies: seq<string>, outcome: Outcome, scores: seq<Score>,
    baselineDelta: map<string, real>, runSeed: string, isBaseline: bool, findings: seq<string>)

  datatype Run = Run(data: RunData, recordHash: string, evidenceRefs: seq<string>, notes: string)

  type Hasher = RunData -> string

  datatype Ledger = Ledger(records: seq<Run>, seen: set<string>)

  function RecordHash(): Run -> string { (r: Run) => r.recordHash }
  function OfSignature(signature: string): Run -> bool { (r: Run) => r.data.signatureHash == signature }

  /** A ledger record is a hash of its own payload, seen exactly when stored. */
  ghost predicate Valid(hash: Hasher, l: Ledger) {
    && (forall r | r in l.records :: r.recordHash == hash(r.data) && r.recordHash in l.seen)
    && (forall h | h in l.seen :: exists r :: r in l.records && r.recordHash == h)
    && Distinct(Map(l.records, RecordHash()))
  }

  function Append(l: Ledger, r: Run): Result<Ledger, string> {
    if r.recordHash in l.seen then Err("duplicate_record_hash:" + r.recordHash)
    else Ok(Ledger(l.records + [r], l.seen + {r.recordHash}))
  }

  lemma AppendKeepsValid(hash: Hasher, l: Ledger, r: Run)
    requires Valid(hash, l) && r.recordHash == hash(r.data) && Append(l, r).Ok?
    ensures Valid(hash, Append(l, r).value)
  {
    var after := Append(l, r).value;
    assert Map(after.records, RecordHash()) == Map(l.records, RecordHash()) + [r.recordHash];
    forall h | h in after.seen ensures exists x :: x in after.records && x.recordHash == h {
      if h in l.seen {
        var x :| x in l.records && x.recordHash == h;
        assert x in after.records;
      } else {
        assert r in after.records;
      }
    }
  }

  ghost function Payloads(records: seq<Run>): set<RunData> { set r | r in records :: r.data }

  /** A record is refused exactly when its payload is already stored. */
  lemma RefusedIffStored(hash: Hasher, l: Ledger, r: Run)
    requires Valid(hash, l) && r.recordHash == hash(r.data)
    requires CollisionFree(hash, Payloads(l.records) + {r.data})
    ensures Append(l, r).Err? <==> r.data in Payloads(l.records)
  {
    forall x | x in l.records ensures x.recordHash == r.recordHash <==> x.data == r.data {
      assert x.data in Payloads(l.records);
    }
    assert r.recordHash in l.seen <==> exists x :: x in l.records && x.recordHash == r.recordHash;
    assert r.data in Payloads(l.records) <==> exists x :: x in l.records && x.data == r.data;
  }

  /** Appending in order until one is refused: what is stored then, and how many went in. */
  function AppendMany(l: Ledger, rs: seq<Run>): (r: (Ledger, nat))
    ensures r.1 <= |rs| && r.0.records == l.records + rs[..r.1]
    ensures r.1 < |rs| ==> Append(r.0, rs[r.1]).Err?
  {
    if rs == [] then (l, 0)
    else
      var front := rs[..|rs| - 1];
      var (now, k) := AppendMany(l, front);
      assert rs[..k] == front[..k];
      if k < |front| || Append(now, rs[|rs| - 1]).Err? then (now, k)
      else
        assert rs[..|rs|] == front[..k] + [rs[|rs| - 1]];
        (Append(now, rs[|rs| - 1]).value, k + 1)
  }

  lemma {:induction false} AppendManyMore(l: Ledger, a: seq<Run>, b: seq<Run>)
    ensures var (now, k) := AppendMany(l, a);
            AppendMany(l, a + b) == if k < |a| then (now, k) else (AppendMany(now, b).0, |a| + AppendMany(now, b).1)
  {
    if b == [] {
      assert a + b == a;
    } else {
      assert (a + b)[..|a + b| - 1] == a + b[..|b| - 1];
      AppendManyMore(l, a, b[..|b| - 1]);
    }
  }

  lemma AppendManyNext(l: Ledger, rs: seq<Run>, i: nat)
    requires i < |rs| && AppendMany(l, rs[..i]).1 == i
    ensures var now := AppendMany(l, rs[..i]).0;
            match Append(now, rs[i])
            case Ok(next) => AppendMany(l, rs[..i + 1]) == (next, i + 1)
            case Err(_) => AppendMany(l, rs) == (now, i)
  {
    var front := rs[..i + 1];
    assert front[..i] == rs[..i] && rs == front + rs[i + 1..];
    AppendManyMore(l, front, rs[i + 1..]);
  }

  ghost predicate Hashed(hash: Hasher, rs: seq<Run>) { forall r | r in rs :: r.recordHash == hash(r.data) }

  lemma {:induction false} AppendManyKeepsValid(hash: Hasher, l: Ledger, rs: seq<Run>)
    requires Valid(hash, l) && Hashed(hash, rs)
    ensures Valid(hash, AppendMany(l, rs).0)
  {
    if rs != [] {
      var front, last := rs[..|rs| - 1], rs[|rs| - 1];
      assert last in rs;
      AppendManyKeepsValid(hash, l, front);
      var (now, k) := AppendMany(l, front);
      if k == |front| && Append(now, last).Ok? { AppendKeepsValid(hash, now, last); }
    }
  }

  /** Every record of a batch goes in exactly when no payload repeats, in the batch or in the store. */
  lemma AllAppendedIff(hash: Hasher, l: Ledger, rs: seq<Run>)
    requires Valid(hash, l) && Hashed(hash, rs)
    requires CollisionFree(hash, Payloads(l.records + rs))
    ensures AppendMany(l, rs).1 == |rs| <==>
            && (forall i, j | 0 <= i < j < |rs| :: rs[i].data != rs[j].data)
            && (forall i | 0 <= i < |rs| :: rs[i].data !in Payloads(l.records))
  {
    AppendManyKeepsValid(hash, l, rs);
    var (now, k) := AppendMany(l, rs);
    if k < |rs| {
      RefusedRepeats(hash, l, rs, now, k);
    } else {
      assert rs[..k] == rs;
      DistinctPayloads(hash, l, rs, now);
    }
  }

  /** What was refused repeats a payload from the store or from earlier in the batch. */
  lemma RefusedRepeats(hash: Hasher, l: Ledger, rs: seq<Run>, now: Ledger, k: nat)
    requires k < |rs| && Valid(hash, now) && Hashed(hash, rs) && CollisionFree(hash, Payloads(l.records + rs))
    requires now.records == l.records + rs[..k] && Append(now, rs[k]).Err?
    ensures rs[k].data in Payloads(l.records) || exists i | 0 <= i < k :: rs[i].data == rs[k].data
  {
    assert rs[k] in l.records + rs;
    assert Payloads(now.records) + {rs[k].data} <= Payloads(l.records + rs);
    RefusedIffStored(hash, now, rs[k]);
    var x :| x in now.records && x.data == rs[k].data;
    if x in l.records { assert x.data in Payloads(l.records); } else { var i :| 0 <= i < k && rs[..k][i] == x; }
  }

  lemma DistinctPayloads(hash: Hasher, l: Ledger, rs: seq<Run>, now: Ledger)
    requires Valid(hash, now) && now.records == l.records + rs
    ensures forall i, j | 0 <= i < j < |rs| :: rs[i].data != rs[j].data
    ensures forall i | 0 <= i < |rs| :: rs[i].data !in Payloads(l.records)
  {
    var all, hashes, n := now.records, Map(now.records, RecordHash()), |l.records|;
    assert forall i | 0 <= i < |all| :: all[i] in all && hashes[i] == hash(all[i].data);
    forall i, j | 0 <= i < j < |rs| ensures rs[i].data != rs[j].data {
      assert all[n + i] == rs[i] && all[n + j] == rs[j];
      assert hashes[n + i] != hashes[n + j];
    }
    forall i | 0 <= i < |rs| ensures rs[i].data !in Payloads(l.records) {
      assert all[n + i] == rs[i];
      forall x | x in l.records ensures x.data != rs[i].data {
        var m :| 0 <= m < n && l.records[m] == x;
        assert all[m] == x && hashes[m] != hashes[n + i];
      }
    }
  }

  function ForSignature(l: Ledger, signature: string): seq<Run> { Filter(l.records, OfSignature(signature)) }

  /** next((s.direction for s in scores if s.metric_id == metric), "maximize") */
  function DirectionOf(scores: seq<Score>, metric: string): (d: Direction)
    ensures (exists s | s in scores :: s.metricId == metric) ==> exists s | s in scores ::
            s.metricId == metric && s.direction == d
    ensures !(exists s | s in scores :: s.metricId == metric) ==> d == Maximize
  {
    if scores == [] then Maximize
    else if scores[0].metricId == metric then scores[0].direction
    else
      var rest := DirectionOf(scores[1..], metric);
      assert forall s | s in scores[1..] :: s in scores;
      assert forall s | s in scores :: s == scores[0] || s in scores[1..];
      rest
  }

  predicate Improves(delta: real, direction: Direction) {
    (direction == Maximize && delta > 0.0) || (direction == Minimize && delta < 0.0)
  }

  /** Passed, not the baseline, free of findings, and better than the baseline on the metric. */
  function IsWinner(metric: string): Run -> bool {
    (r: Run) => r.data.outcome == Passed && !r.data.isBaseline && r.data.findings == []
                && metric in r.data.baselineDelta
                && Improves(r.data.baselineDelta[metric], DirectionOf(r.data.scores, metric))
  }

  function IsNegative(): Run -> bool { (r: Run) => r.data.outcome != Passed }

  function WinnersFor(l: Ledger, signature: string, metric: string): seq<Run> {
    Filter(ForSignature(l, signature), IsWinner(metric))
  }

  function NegativeResultsFor(l: Ledger, signature: string): seq<Run> {
    Filter(ForSignature(l, signature), IsNegative())
  }

  class LedgerStore {
    var records: seq<Run>
    var seen: set<string>

    ghost function View(): Ledger
      reads this
    {
      Ledger(records, seen)
    }

    constructor ()
      ensures View() == Ledger([], {})
    {
      records, seen := [], {};
    }

    /** A duplicate hash is refused and leaves the store as it was. */
    method AppendRecord(r: Run) returns (error: Option<string>)
      modifies this
      ensures error.None? <==> Append(old(View()), r).Ok?
      ensures View() == if error.None? then Append(old(View()), r).value else old(View())
    {
      if r.recordHash in seen { return Some("duplicate_record_hash:" + r.recordHash); }
      records := records + [r];
      seen := seen + {r.recordHash};
      error := None;
    }

    /** The query's own two passes: collect the eligible runs, then keep those that improved. */
    method QueryWinners(signature: string, metric: string) returns (winners: seq<Run>)
      ensures winners == WinnersFor(View(), signature, metric)
    {
      var runs := Filter(Filter(records, OfSignature(signature)), Eligible());
      winners := [];
      var i := 0;
      while i < |runs|
        invariant 0 <= i <= |runs|
        invariant winners == Filter(runs[..i], Beats(metric))
      {
        var run := runs[i];
        assert runs[..i + 1][..i] == runs[..i];
        if metric in run.data.baselineDelta {
          var delta := run.data.baselineDelta[metric];
          var direction := DirectionOf(run.data.scores, metric);
          if direction == Maximize && delta > 0.0 {
            winners := winners + [run];
          } else if direction == Minimize && delta < 0.0 {
            winners := winners + [run];
          }
        }
        i := i + 1;
      }
      assert runs[..|runs|] == runs;
      FilterTwice(Filter(records, OfSignature(signature)), Eligible(), Beats(metric), IsWinner(metric));
    }
  }

  function Eligible(): Run -> bool {
    (r: Run) => r.data.outcome == Passed && !r.data.isBaseline && r.data.findings == []
  }

  function Beats(metric: string): Run -> bool {
    (r: Run) => metric in r.data.baselineDelta
                && Improves(r.data.baselineDelta[metric], DirectionOf(r.data.scores, metric))
  }
}
