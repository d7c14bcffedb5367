/** What the records of the approval router say, told in the fields of the calls: what is stored when a request is
    made, what an answer, a timeout and an eviction make of it, and that over whole runs a record keeps what its
    caller gave. */
module ApprovalRecords {
  import opened Collections
  import opened ApprovalRouter

  /** HIGH if either says so, else MEDIUM if either does. */
  ghost function Graver(keyword: RiskTier, passport: Option<RiskTier>): RiskTier {
    if keyword == High || passport == Some(High) then High
    else if keyword == Medium || passport == Some(Medium) then Medium
    else Low
  }

  lemma GraverMeans(keyword: RiskTier, passport: Option<RiskTier>)
    ensures MaxRisk(keyword, passport) == Graver(keyword, passport)
  {
  }

  /** The record repeats what the caller gave, at the graver of the two risks and at the time of the call. */
  ghost predicate AskedBy(x: Request, op: Op) {
    && op.RequestApproval?
    && x.requestId == op.requestId && x.tenantId == op.draft.tenantId && x.identityId == op.draft.identityId
    && x.channel == op.draft.channel && x.actionDescription == op.draft.actionDescription
    && x.commandId == op.draft.commandId && x.payloadHash == op.draft.payloadHash
    && x.policyVersion == op.draft.policyVersion
    && x.riskTier == Graver(op.keyword, op.passport) && x.requestedAt == op.now
  }

  /** The same request, settled so, then and by them. */
  ghost predicate SettledAs(x: Request, was: Request, status: ApprovalStatus, now: int, who: string) {
    && x.requestId == was.requestId && x.tenantId == was.tenantId && x.identityId == was.identityId
    && x.channel == was.channel && x.actionDescription == was.actionDescription
    && x.commandId == was.commandId && x.payloadHash == was.payloadHash && x.policyVersion == was.policyVersion
    && x.riskTier == was.riskTier && x.requestedAt == was.requestedAt
    && x.status == status && x.resolvedAt == Some(now) && x.resolvedBy == who
  }

  ghost predicate InTime(timeout: int, x: Request, now: int) { now - x.requestedAt < timeout }

  lemma ClosedAs(x: Request, status: ApprovalStatus, now: int, who: string)
    ensures SettledAs(Close(x, status, now, who), x, status, now, who)
    ensures forall y :: SettledAs(y, x, status, now, who) <==> y == Close(x, status, now, who)
  {
  }

  // ----- Asking -----------------------------------------------------------------------------

  /** At LOW risk the request is settled on the spot, approved by nobody but the router; above it, it waits under its
      id, unanswered. */
  lemma AskingExact(timeout: int, r: Router, op: Op)
    requires Inv(timeout, r) && op.RequestApproval?
    ensures var after := Step(timeout, r, op);
            if Graver(op.keyword, op.passport) == Low then
              && after.full != []
              && var x := after.full[|after.full| - 1];
                 AskedBy(x, op) && x.status == Approved && x.resolvedAt == Some(op.now) && x.resolvedBy == "auto"
            else
              && op.requestId in after.pending.at
              && var x := after.pending.at[op.requestId];
                 AskedBy(x, op) && x.status == Pending && x.resolvedAt == None && x.resolvedBy == ""
  {
    GraverMeans(op.keyword, op.passport);
    RequestSettles(timeout, r, op);
  }

  ghost function Timely(timeout: int, r: Router, now: int): set<string> {
    set k | k in r.pending.at && InTime(timeout, r.pending.at[k], now)
  }

  /** Of the requests waiting in time this one has waited longest, and with it there are as many as the queue takes. */
  ghost predicate FirstOfTooMany(timeout: int, r: Router, now: int, id: string) {
    && |Timely(timeout, r, now)| >= 10_000 && id in Timely(timeout, r, now)
    && exists i :: 0 <= i < |r.pending.keys| && r.pending.keys[i] == id
                   && forall j | 0 <= j < i :: r.pending.keys[j] !in Timely(timeout, r, now)
  }

  lemma {:induction false} FilterHead<T>(s: seq<T>, keep: T -> bool, i: nat)
    requires i < |s| && keep(s[i]) && forall j | 0 <= j < i :: !keep(s[j])
    ensures Filter(s, keep) != [] && Filter(s, keep)[0] == s[i]
  {
    if i < |s| - 1 {
      FilterHead(s[..|s| - 1], keep, i);
    } else {
      FilterNone(s[..|s| - 1], keep);
    }
  }

  lemma FirstPassing<T>(s: seq<T>, keep: T -> bool) returns (i: nat)
    requires exists j :: 0 <= j < |s| && keep(s[j])
    ensures i < |s| && keep(s[i]) && forall j | 0 <= j < i :: !keep(s[j])
  {
    i := 0;
    while !keep(s[i])
      invariant i < |s| && forall j | 0 <= j < i :: !keep(s[j])
      decreases |s| - i
    {
      i := i + 1;
    }
  }

  lemma TimelyKeys(timeout: int, r: Router, now: int)
    requires r.pending.Valid()
    ensures forall k :: k in LiveKeys(timeout, r, now) <==> k in Timely(timeout, r, now)
    ensures |LiveKeys(timeout, r, now)| == |Timely(timeout, r, now)|
  {
    var live := Live(r.pending.at, timeout, now);
    FilterDistinct(r.pending.keys, live);
    forall k ensures k in LiveKeys(timeout, r, now) <==> k in Timely(timeout, r, now) {
      FilterMember(r.pending.keys, live, k);
    }
    SetSize(LiveKeys(timeout, r, now));
    assert (set k | k in LiveKeys(timeout, r, now)) == Timely(timeout, r, now);
  }

  lemma FirstOfTooManyIff(timeout: int, r: Router, now: int, id: string)
    requires r.pending.Valid()
    ensures FirstOfTooMany(timeout, r, now, id) <==>
            |LiveKeys(timeout, r, now)| >= MAX_PENDING && LiveKeys(timeout, r, now)[0] == id
  {
    TimelyKeys(timeout, r, now);
    var live := Live(r.pending.at, timeout, now);
    if |LiveKeys(timeout, r, now)| >= MAX_PENDING {
      var k := LiveKeys(timeout, r, now)[0];
      FilterMember(r.pending.keys, live, k);
      var i := FirstPassing(r.pending.keys, live);
      FilterHead(r.pending.keys, live, i);
      forall j | 0 <= j < i ensures r.pending.keys[j] !in Timely(timeout, r, now) {}
      if FirstOfTooMany(timeout, r, now, id) {
        var n :| 0 <= n < |r.pending.keys| && r.pending.keys[n] == id
                 && forall j | 0 <= j < n :: r.pending.keys[j] !in Timely(timeout, r, now);
        FilterHead(r.pending.keys, live, n);
      }
    }
  }

  /** Asking settles, of the requests already waiting, those whose time is up, and above LOW the one that has waited
      longest when the queue is full; the others wait on as they were. */
  lemma AskingSpares(timeout: int, r: Router, op: Op, other: string)
    requires Inv(timeout, r) && op.RequestApproval? && other in r.pending.at
    requires other != op.requestId || Graver(op.keyword, op.passport) == Low
    ensures var after, was := Step(timeout, r, op), r.pending.at[other];
            var evicted := Graver(op.keyword, op.passport) != Low && FirstOfTooMany(timeout, r, op.now, other);
            if !InTime(timeout, was, op.now) then
              other !in after.pending.at && exists x | x in after.full :: SettledAs(x, was, Expired, op.now, "timeout")
            else if evicted then
              other !in after.pending.at
              && exists x | x in after.full :: SettledAs(x, was, Expired, op.now, "capacity_eviction")
            else other in after.pending.at && after.pending.at[other] == was
  {
    GraverMeans(op.keyword, op.passport);
    PruneSpares(timeout, r, op.now, other);
    PruneInv(timeout, r, op.now);
    RequestSettles(timeout, r, op);
    FirstOfTooManyIff(timeout, r, op.now, other);
    RoomSpares(PruneStep(timeout, r, op.now), op.now, other);
  }

  /** Evictions are counted: one more exactly when a request above LOW meets a full queue. */
  lemma EvictionsCounted(timeout: int, r: Router, op: Op)
    requires Inv(timeout, r)
    ensures Step(timeout, r, op).evicted
            == r.evicted + if op.RequestApproval? && Graver(op.keyword, op.passport) != Low
                              && |Timely(timeout, r, op.now)| >= 10_000 then 1 else 0
  {
    if op.RequestApproval? {
      GraverMeans(op.keyword, op.passport);
      PruneInv(timeout, r, op.now);
      TimelyKeys(timeout, r, op.now);
    }
  }

  lemma RoomSpares(r: Router, now: int, other: string)
    requires r.pending.Valid()
    ensures var after := MakeRoom(r, now);
            && r.full <= after.full
            && if |r.pending.keys| >= MAX_PENDING && r.pending.keys[0] == other then
                 other !in after.pending.at
                 && exists x | x in after.full :: SettledAs(x, r.pending.at[other], Expired, now, "capacity_eviction")
               else if other in r.pending.at then
                 other in after.pending.at && after.pending.at[other] == r.pending.at[other]
               else other !in after.pending.at
  {
    if |r.pending.keys| >= MAX_PENDING {
      var oldest := r.pending.keys[0];
      assert oldest in r.pending.keys;
      ClosedAs(r.pending.at[oldest], Expired, now, "capacity_eviction");
      var x := Close(r.pending.at[oldest], Expired, now, "capacity_eviction");
      assert MakeRoom(r, now).full == r.full + [x] && x in r.full + [x];
    }
  }

  /** A prune settles exactly the requests whose time is up, and leaves the others as they were. */
  lemma PruneSpares(timeout: int, r: Router, now: int, other: string)
    requires r.pending.Valid() && other in r.pending.at
    ensures var after, was := PruneStep(timeout, r, now), r.pending.at[other];
            && r.full <= after.full
            && (InTime(timeout, was, now) ==> other in after.pending.at && after.pending.at[other] == was)
            && (!InTime(timeout, was, now) ==>
                  other !in after.pending.at
                  && exists x | x in after.full :: SettledAs(x, was, Expired, now, "timeout"))
  {
    if !InTime(timeout, r.pending.at[other], now) {
      var gone := StaleKeys(r.pending, timeout, now);
      FilterMember(r.pending.keys, Stale(r.pending.at, timeout, now), other);
      var i :| 0 <= i < |gone| && gone[i] == other;
      var closed := Expirations(r.pending.at, gone, now);
      ClosedAs(r.pending.at[other], Expired, now, "timeout");
      assert PruneStep(timeout, r, now).full[|r.full| + i] == closed[i];
    }
  }

  /** Whatever a prune settles was waiting past its time. */
  lemma PruneSettlesStale(timeout: int, r: Router, now: int, i: nat)
    requires r.pending.Valid() && |r.full| <= i < |PruneStep(timeout, r, now).full|
    ensures exists k | k in r.pending.at ::
              !InTime(timeout, r.pending.at[k], now)
              && SettledAs(PruneStep(timeout, r, now).full[i], r.pending.at[k], Expired, now, "timeout")
  {
    var gone := StaleKeys(r.pending, timeout, now);
    var k := gone[i - |r.full|];
    FilterMember(r.pending.keys, Stale(r.pending.at, timeout, now), k);
    ClosedAs(r.pending.at[k], Expired, now, "timeout");
  }

  // ----- Answering --------------------------------------------------------------------------

  /** An answer in time settles the request as answered, by who answered; a late one settles it as expired, whatever it
      says; and one to nobody waiting does nothing. Nothing else moves. */
  lemma AnswerExact(timeout: int, r: Router, id: string, approved: bool, who: string, now: int)
    requires Inv(timeout, r)
    ensures var after := Step(timeout, r, Resolve(id, approved, who, now));
            if id !in r.pending.at then after == r
            else
              && |after.full| == |r.full| + 1 && after.full[..|r.full|] == r.full
              && (var x, was := after.full[|r.full|], r.pending.at[id];
                  if InTime(timeout, was, now) then SettledAs(x, was, if approved then Approved else Denied, now, who)
                  else SettledAs(x, was, Expired, now, "timeout"))
              && id !in after.pending.at
              && (forall k | k != id :: k in after.pending.at <==> k in r.pending.at)
              && (forall k | k in after.pending.at :: after.pending.at[k] == r.pending.at[k])
  {
  }

  /** Looking a request up settles it if its time is up, and otherwise changes nothing. */
  lemma LookupExact(timeout: int, r: Router, id: string, now: int)
    requires Inv(timeout, r)
    ensures var after := Step(timeout, r, Lookup(id, now));
            if id !in r.pending.at || InTime(timeout, r.pending.at[id], now) then after == r
            else
              && |after.full| == |r.full| + 1 && after.full[..|r.full|] == r.full
              && SettledAs(after.full[|r.full|], r.pending.at[id], Expired, now, "timeout")
              && id !in after.pending.at
              && (forall k | k != id :: k in after.pending.at <==> k in r.pending.at)
              && (forall k | k in after.pending.at :: after.pending.at[k] == r.pending.at[k])
  {
  }

  // ----- Whole runs -----------------------------------------------------------------------

  /** One of the calls asked for it. */
  ghost predicate Asked(ops: seq<Op>, x: Request) { exists i :: 0 <= i < |ops| && AskedBy(x, ops[i]) }

  ghost predicate AllAsked(r: Router, ops: seq<Op>) {
    (forall k | k in r.pending.at :: Asked(ops, r.pending.at[k])) && (forall x | x in r.full :: Asked(ops, x))
  }

  lemma AskedMore(ops: seq<Op>, op: Op, x: Request)
    ensures Asked(ops + [op], x) <==> Asked(ops, x) || AskedBy(x, op)
  {
    assert (ops + [op])[|ops|] == op;
    if Asked(ops, x) {
      var i :| 0 <= i < |ops| && AskedBy(x, ops[i]);
      assert (ops + [op])[i] == ops[i];
    }
  }

  lemma AllAskedMore(r: Router, ops: seq<Op>, op: Op)
    requires AllAsked(r, ops)
    ensures AllAsked(r, ops + [op])
  {
    forall k | k in r.pending.at ensures Asked(ops + [op], r.pending.at[k]) { AskedMore(ops, op, r.pending.at[k]); }
    forall x | x in r.full ensures Asked(ops + [op], x) { AskedMore(ops, op, x); }
  }

  /** Settling changes none of what was asked. */
  lemma SettledAsked(ops: seq<Op>, x: Request, was: Request, status: ApprovalStatus, now: int, who: string)
    requires Asked(ops, was) && SettledAs(x, was, status, now, who)
    ensures Asked(ops, x)
  {
    var i :| 0 <= i < |ops| && AskedBy(was, ops[i]);
    assert AskedBy(x, ops[i]);
  }

  lemma PruneAsked(timeout: int, r: Router, now: int, ops: seq<Op>)
    requires r.pending.Valid() && AllAsked(r, ops)
    ensures AllAsked(PruneStep(timeout, r, now), ops)
  {
    var after := PruneStep(timeout, r, now);
    forall i | |r.full| <= i < |after.full| ensures Asked(ops, after.full[i]) {
      PruneSettlesStale(timeout, r, now, i);
      var k :| k in r.pending.at && !InTime(timeout, r.pending.at[k], now)
               && SettledAs(after.full[i], r.pending.at[k], Expired, now, "timeout");
      SettledAsked(ops, after.full[i], r.pending.at[k], Expired, now, "timeout");
    }
    AppendedAsked(r.full, after.full, ops);
  }

  lemma AppendedAsked(before: seq<Request>, after: seq<Request>, ops: seq<Op>)
    requires before <= after && (forall x | x in before :: Asked(ops, x))
    requires forall i | |before| <= i < |after| :: Asked(ops, after[i])
    ensures forall x | x in after :: Asked(ops, x)
  {
    forall i | 0 <= i < |before| ensures after[i] in before { assert after[i] == before[i]; }
  }

  lemma RoomAsked(r: Router, now: int, ops: seq<Op>)
    requires r.pending.Valid() && AllAsked(r, ops)
    ensures AllAsked(MakeRoom(r, now), ops)
  {
    if |r.pending.keys| >= MAX_PENDING {
      var oldest := r.pending.keys[0];
      assert oldest in r.pending.keys;
      var x := Close(r.pending.at[oldest], Expired, now, "capacity_eviction");
      ClosedAs(r.pending.at[oldest], Expired, now, "capacity_eviction");
      SettledAsked(ops, x, r.pending.at[oldest], Expired, now, "capacity_eviction");
    }
  }

  lemma AskingAsked(timeout: int, r: Router, op: Op, ops: seq<Op>)
    requires Inv(timeout, r) && op.RequestApproval? && AllAsked(r, ops) && op in ops
    ensures AllAsked(Step(timeout, r, op), ops)
  {
    GraverMeans(op.keyword, op.passport);
    var pruned, request := PruneStep(timeout, r, op.now),
                           Issue(op.draft, op.requestId, MaxRisk(op.keyword, op.passport), op.now);
    PruneAsked(timeout, r, op.now, ops);
    PruneInv(timeout, r, op.now);
    RoomAsked(pruned, op.now, ops);
    var i :| 0 <= i < |ops| && ops[i] == op;
    assert AskedBy(request, ops[i]);
    AddedAsked(MakeRoom(pruned, op.now), request, ops);
    AddedAsked(pruned, request, ops);
  }

  lemma AddedAsked(r: Router, x: Request, ops: seq<Op>)
    requires AllAsked(r, ops) && Asked(ops, x)
    ensures AllAsked(Enter(r, x), ops)
    ensures AllAsked(Settle(r.(issued := r.issued + [x.requestId]), [x]), ops)
  {
  }

  lemma StepAsked(timeout: int, r: Router, op: Op, ops: seq<Op>)
    requires Inv(timeout, r) && AllAsked(r, ops) && op in ops
    ensures AllAsked(Step(timeout, r, op), ops)
  {
    match op
    case RequestApproval(draft, id, keyword, passport, now) => AskingAsked(timeout, r, op, ops);
    case Resolve(id, approved, who, now) =>
      if id in r.pending.at {
        var x := Outcome(timeout, r.pending.at[id], approved, who, now);
        SettledAsked(ops, x, r.pending.at[id], x.status, now, x.resolvedBy);
      }
    case Lookup(id, now) =>
      if id in r.pending.at {
        SettledAsked(ops, Close(r.pending.at[id], Expired, now, "timeout"), r.pending.at[id], Expired, now, "timeout");
      }
    case Prune(now) => PruneAsked(timeout, r, now, ops);
  }

  lemma NextAsked(timeout: int, ops: seq<Op>, op: Op)
    requires AllAsked(Run(timeout, ops), ops)
    ensures AllAsked(Run(timeout, ops + [op]), ops + [op])
  {
    RunMore(timeout, ops, op);
    AllAskedMore(Run(timeout, ops), ops, op);
    StepAsked(timeout, Run(timeout, ops), op, ops + [op]);
  }

  /** In every run each record, waiting or settled, repeats what some call asked for, at its risk and at its time. */
  lemma {:induction false} RecordsKeepTheirAsking(timeout: int, ops: seq<Op>)
    ensures AllAsked(Run(timeout, ops), ops)
  {
    if ops != [] {
      var front, op := ops[..|ops| - 1], ops[|ops| - 1];
      RecordsKeepTheirAsking(timeout, front);
      assert front + [op] == ops;
      NextAsked(timeout, front, op);
    } else {
      assert Run(timeout, ops) == EMPTY;
    }
  }
}
