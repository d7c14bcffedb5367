/** The human-in-the-loop approval router: a pending dictionary in arrival order, timeout
    expiry, capacity eviction and a bounded history window. Time is an integer clock. */
module ApprovalRouter {
  import opened Collections

  const MAX_PENDING: nat := 10_000
  const MAX_HISTORY: nat := 100_000

  datatype RiskTier = Low | Medium | High
  datatype ApprovalStatus = Pending | Approved | Denied | Expired

  datatype Request = Request(
    requestId: string, tenantId: string, identityId: string, channel: string, actionDescription: string,
    riskTier: RiskTier, commandId: string, payloadHash: string, policyVersion: string,
    status: ApprovalStatus, requestedAt: int, resolvedAt: Option<int>, resolvedBy: string)

  /** What a caller supplies: everything of a request but its id, risk and lifecycle. */
  datatype Draft = Draft(tenantId: string, identityId: string, channel: string, actionDescription: string,
                         commandId: string, payloadHash: string, policyVersion: string)

  function RiskOrder(tier: RiskTier): nat {
    match tier case Low => 0 case Medium => 1 case High => 2
  }

  /** The keyword heuristic may escalate above the passport's floor, never below it. */
  function MaxRisk(keyword: RiskTier, passport: Option<RiskTier>): (r: RiskTier)
    ensures RiskOrder(r) >= RiskOrder(keyword)
    ensures passport.Some? ==> RiskOrder(r) >= RiskOrder(passport.value)
    ensures r == keyword || passport == Some(r)
  {
    if passport.Some? && RiskOrder(passport.value) > RiskOrder(keyword) then passport.value else keyword
  }

  /** The router, with three histories the code does not keep: every record ever settled,
      every id ever issued, and every id whose pending request was overwritten. */
  datatype Router = Router(pending: Dict<string, Request>, history: seq<Request>, evicted: nat,
                           full: seq<Request>, issued: seq<string>, lost: seq<string>)

  const EMPTY := Router(Dict([], map[]), [], 0, [], [], [])

  datatype Op =
    | RequestApproval(draft: Draft, requestId: string, keyword: RiskTier, passport: Option<RiskTier>, now: int)
    | Resolve(id: string, approved: bool, who: string, now: int)
    | Lookup(id: string, now: int)
    | Prune(now: int)

  predicate TimedOut(timeout: int, r: Request, now: int) { now - r.requestedAt >= timeout }

  function Close(r: Request, status: ApprovalStatus, now: int, who: string): Request {
    r.(status := status, resolvedAt := Some(now), resolvedBy := who)
  }

  function Issue(draft: Draft, id: string, risk: RiskTier, now: int): Request {
    Request(id, draft.tenantId, draft.identityId, draft.channel, draft.actionDescription, risk,
            draft.commandId, draft.payloadHash, draft.policyVersion, if risk == Low then Approved else Pending, now,
            if risk == Low then Some(now) else None, if risk == Low then "auto" else "")
  }

  function Settle(r: Router, closed: seq<Request>): Router {
    r.(history := Last(r.history + closed, MAX_HISTORY), full := r.full + closed)
  }

  function Stale(pending: map<string, Request>, timeout: int, now: int): string -> bool {
    k => k in pending && TimedOut(timeout, pending[k], now)
  }

  function Live(pending: map<string, Request>, timeout: int, now: int): string -> bool {
    k => !(k in pending && TimedOut(timeout, pending[k], now))
  }

  /** The records a prune closes, in arrival order. */
  function Expirations(pending: map<string, Request>, stale: seq<string>, now: int): (r: seq<Request>)
    requires forall k | k in stale :: k in pending
    ensures |r| == |stale|
    ensures forall i | 0 <= i < |r| :: stale[i] in pending && r[i] == Close(pending[stale[i]], Expired, now, "timeout")
  {
    seq(|stale|, i requires 0 <= i < |stale| => assert stale[i] in stale;
        Close(pending[stale[i]], Expired, now, "timeout"))
  }

  function StaleKeys(d: Dict<string, Request>, timeout: int, now: int): (r: seq<string>)
    ensures forall k | k in r :: k in d.at
  {
    assert forall k | k in Filter(d.keys, Stale(d.at, timeout, now)) :: k in d.at by {
      forall k | k in Filter(d.keys, Stale(d.at, timeout, now)) ensures k in d.at {
        FilterMember(d.keys, Stale(d.at, timeout, now), k);
      }
    }
    Filter(d.keys, Stale(d.at, timeout, now))
  }

  function PruneStep(timeout: int, r: Router, now: int): Router {
    Settle(r.(pending := r.pending.Keep(Live(r.pending.at, timeout, now))),
           Expirations(r.pending.at, StaleKeys(r.pending, timeout, now), now))
  }

  function EvictStep(r: Router, now: int): Router
    requires r.pending.Valid()
  {
    if r.pending.keys == [] then r
    else
      var oldest := r.pending.keys[0];
      Settle(r.(pending := r.pending.Del(oldest), evicted := r.evicted + 1),
             [Close(r.pending.at[oldest], Expired, now, "capacity_eviction")])
  }

  function MakeRoom(r: Router, now: int): Router
    requires r.pending.Valid()
  {
    if |r.pending.keys| >= MAX_PENDING then EvictStep(r, now) else r
  }

  function Enter(r: Router, request: Request): Router {
    r.(pending := r.pending.Put(request.requestId, request), issued := r.issued + [request.requestId],
       lost := if request.requestId in r.pending.at then r.lost + [request.requestId] else r.lost)
  }

  function Outcome(timeout: int, r: Request, approved: bool, who: string, now: int): Request {
    if TimedOut(timeout, r, now) then Close(r, Expired, now, "timeout")
    else Close(r, if approved then Approved else Denied, now, who)
  }

  function Step(timeout: int, r: Router, op: Op): Router
    requires r.pending.Valid()
  {
    match op
    case RequestApproval(draft, id, keyword, passport, now) =>
      var pruned := PruneStep(timeout, r, now);
      KeepValid(r.pending, Live(r.pending.at, timeout, now));
      var request := Issue(draft, id, MaxRisk(keyword, passport), now);
      if request.riskTier == Low then Settle(pruned.(issued := pruned.issued + [id]), [request])
      else Enter(MakeRoom(pruned, now), request)
    case Resolve(id, approved, who, now) =>
      if id !in r.pending.at then r
      else Settle(r.(pending := r.pending.Del(id)), [Outcome(timeout, r.pending.at[id], approved, who, now)])
    case Lookup(id, now) =>
      if id in r.pending.at && TimedOut(timeout, r.pending.at[id], now)
      then Settle(r.(pending := r.pending.Del(id)), [Close(r.pending.at[id], Expired, now, "timeout")])
      else r
    case Prune(now) => PruneStep(timeout, r, now)
  }

  // ----- The invariant --------------------------------------------------------------

  function IdOf(): Request -> string { (r: Request) => r.requestId }
  function Ids(s: seq<Request>): seq<string> { Map(s, IdOf()) }

  /** Approved means auto-approved at LOW risk, or answered strictly inside the timeout. */
  ghost predicate Justified(timeout: int, r: Request) {
    && r.status != Pending && r.resolvedAt.Some?
    && (r.status == Approved ==>
          (r.riskTier == Low && r.resolvedBy == "auto" && r.resolvedAt == Some(r.requestedAt))
          || (r.riskTier != Low && r.resolvedAt.value - r.requestedAt < timeout))
  }

  ghost predicate Waiting(id: string, r: Request) {
    r.requestId == id && r.status == Pending && r.riskTier != Low
  }

  ghost predicate Inv(timeout: int, r: Router) {
    && r.pending.Valid()
    && (forall k | k in r.pending.at :: Waiting(k, r.pending.at[k]))
    && |r.pending.keys| <= MAX_PENDING
    && r.history == Last(r.full, MAX_HISTORY)
    && (forall x | x in r.full :: Justified(timeout, x))
    && multiset(r.issued) == multiset(r.pending.keys) + multiset(Ids(r.full)) + multiset(r.lost)
  }

  lemma SettleInv(r: Router, closed: seq<Request>)
    requires r.history == Last(r.full, MAX_HISTORY)
    ensures Settle(r, closed).history == Last(Settle(r, closed).full, MAX_HISTORY)
    ensures multiset(Ids(Settle(r, closed).full)) == multiset(Ids(r.full)) + multiset(Ids(closed))
  {
    LastAppend(r.full, closed, MAX_HISTORY);
    assert Ids(r.full + closed) == Ids(r.full) + Ids(closed);
  }

  /** A prune shares the pending keys out between those kept and those closed. */
  lemma PruneShares(timeout: int, r: Router, now: int)
    requires Inv(timeout, r)
    ensures var kept := r.pending.Keep(Live(r.pending.at, timeout, now));
            var gone := StaleKeys(r.pending, timeout, now);
            var closed := Expirations(r.pending.at, gone, now);
            && kept.Valid() && |kept.keys| <= |r.pending.keys|
            && multiset(r.pending.keys) == multiset(kept.keys) + multiset(gone)
            && Ids(closed) == gone
            && forall x | x in closed :: Justified(timeout, x)
  {
    var live, stale := Live(r.pending.at, timeout, now), Stale(r.pending.at, timeout, now);
    KeepValid(r.pending, live);
    FilterLength(r.pending.keys, live);
    FilterSplit(r.pending.keys, live, stale);
    var gone := StaleKeys(r.pending, timeout, now);
    var closed := Expirations(r.pending.at, gone, now);
    forall i | 0 <= i < |gone| ensures Ids(closed)[i] == gone[i] {
      assert Waiting(gone[i], r.pending.at[gone[i]]);
    }
  }

  lemma PruneInv(timeout: int, r: Router, now: int)
    requires Inv(timeout, r)
    ensures Inv(timeout, PruneStep(timeout, r, now))
    ensures PruneStep(timeout, r, now).issued == r.issued && PruneStep(timeout, r, now).lost == r.lost
  {
    PruneShares(timeout, r, now);
    var kept := r.pending.Keep(Live(r.pending.at, timeout, now));
    var closed := Expirations(r.pending.at, StaleKeys(r.pending, timeout, now), now);
    SettleInv(r.(pending := kept), closed);
    forall k | k in kept.at ensures Waiting(k, kept.at[k]) { assert kept.at[k] == r.pending.at[k]; }
  }

  /** Moving one pending request to the settled records keeps the invariant. */
  lemma MoveInv(timeout: int, r: Router, id: string, closed: Request, evicted: nat)
    requires Inv(timeout, r) && id in r.pending.at
    requires closed.requestId == id && Justified(timeout, closed)
    ensures Inv(timeout, Settle(r.(pending := r.pending.Del(id), evicted := evicted), [closed]))
    ensures |r.pending.Del(id).keys| == |r.pending.keys| - 1
  {
    DelContents(r.pending, id);
    SettleInv(r.(pending := r.pending.Del(id), evicted := evicted), [closed]);
    assert Ids([closed]) == [id];
  }

  lemma RoomInv(timeout: int, r: Router, now: int)
    requires Inv(timeout, r)
    ensures Inv(timeout, MakeRoom(r, now)) && |MakeRoom(r, now).pending.keys| < MAX_PENDING
    ensures MakeRoom(r, now).issued == r.issued && MakeRoom(r, now).lost == r.lost
  {
    if |r.pending.keys| >= MAX_PENDING {
      var oldest := r.pending.keys[0];
      assert oldest in r.pending.keys;
      MoveInv(timeout, r, oldest, Close(r.pending.at[oldest], Expired, now, "capacity_eviction"), r.evicted + 1);
    }
  }

  lemma EnterInv(timeout: int, r: Router, request: Request)
    requires Inv(timeout, r) && |r.pending.keys| < MAX_PENDING && Waiting(request.requestId, request)
    ensures Inv(timeout, Enter(r, request))
  {
    PutValid(r.pending, request.requestId, request);
  }

  lemma AutoApproveInv(timeout: int, r: Router, request: Request)
    requires Inv(timeout, r) && Justified(timeout, request)
    ensures Inv(timeout, Settle(r.(issued := r.issued + [request.requestId]), [request]))
  {
    SettleInv(r.(issued := r.issued + [request.requestId]), [request]);
    assert Ids([request]) == [request.requestId];
  }

  lemma ArrivalInv(timeout: int, r: Router, op: Op)
    requires Inv(timeout, r) && op.RequestApproval?
    ensures Inv(timeout, Step(timeout, r, op))
  {
    PruneInv(timeout, r, op.now);
    var pruned := PruneStep(timeout, r, op.now);
    var request := Issue(op.draft, op.requestId, MaxRisk(op.keyword, op.passport), op.now);
    if request.riskTier == Low {
      AutoApproveInv(timeout, pruned, request);
    } else {
      RoomInv(timeout, pruned, op.now);
      EnterInv(timeout, MakeRoom(pruned, op.now), request);
    }
  }

  lemma StepKeepsInv(timeout: int, r: Router, op: Op)
    requires Inv(timeout, r)
    ensures Inv(timeout, Step(timeout, r, op))
  {
    match op
    case RequestApproval(draft, id, keyword, passport, now) => ArrivalInv(timeout, r, op);
    case Resolve(id, approved, who, now) =>
      if id in r.pending.at {
        assert Waiting(id, r.pending.at[id]);
        MoveInv(timeout, r, id, Outcome(timeout, r.pending.at[id], approved, who, now), r.evicted);
      }
    case Lookup(id, now) =>
      if id in r.pending.at && TimedOut(timeout, r.pending.at[id], now) {
        assert Waiting(id, r.pending.at[id]);
        MoveInv(timeout, r, id, Close(r.pending.at[id], Expired, now, "timeout"), r.evicted);
      }
    case Prune(now) => PruneInv(timeout, r, now);
  }

  // ----- Runs -----------------------------------------------------------------------

  /** The router after a sequence of calls on a fresh router. */
  ghost function Run(timeout: int, ops: seq<Op>): (r: Router)
    ensures Inv(timeout, r)
  {
    if ops == [] then EMPTY
    else
      var before := Run(timeout, ops[..|ops| - 1]);
      StepKeepsInv(timeout, before, ops[|ops| - 1]);
      Step(timeout, before, ops[|ops| - 1])
  }

  lemma RunMore(timeout: int, ops: seq<Op>, op: Op)
    ensures Run(timeout, ops + [op]) == Step(timeout, Run(timeout, ops), op)
  {
    assert (ops + [op])[..|ops|] == ops;
  }

  /** Every request carries an id never issued before. */
  ghost predicate FreshIds(timeout: int, ops: seq<Op>) {
    forall i | 0 <= i < |ops| && ops[i].RequestApproval? :: ops[i].requestId !in Run(timeout, ops[..i]).issued
  }

  /** A request is auto-approved exactly when keyword risk and passport floor are both LOW. */
  lemma AutoApprovedIffLow(timeout: int, r: Router, draft: Draft, id: string, keyword: RiskTier,
                           passport: Option<RiskTier>, now: int)
    requires Inv(timeout, r)
    ensures var after := Step(timeout, r, RequestApproval(draft, id, keyword, passport, now));
            (after.full != [] && after.full[|after.full| - 1].resolvedBy == "auto"
             && |after.full| > |PruneStep(timeout, r, now).full|)
            <==> keyword == Low && (passport == None || passport == Some(Low))
  {
    RequestSettles(timeout, r, RequestApproval(draft, id, keyword, passport, now));
    if MaxRisk(keyword, passport) != Low { RoomSettlesEvicted(PruneStep(timeout, r, now), now); }
  }

  /** Making room settles nothing, or one request under the name of the eviction. */
  lemma RoomSettlesEvicted(r: Router, now: int)
    requires r.pending.Valid()
    ensures var after := MakeRoom(r, now).full;
            after == r.full || (|after| == |r.full| + 1 && after[|r.full|].resolvedBy != "auto")
  {
    assert "capacity_eviction"[0] != "auto"[0];
  }

  /** The approval a call grants: automatic, or an answer given in time. */
  ghost predicate Grants(timeout: int, r: Router, op: Op, x: Request) {
    match op
    case RequestApproval(draft, id, keyword, passport, now) =>
      keyword == Low && (passport == None || passport == Some(Low)) && x == Issue(draft, id, Low, now)
    case Resolve(id, approved, who, now) =>
      && approved && id in r.pending.at && !TimedOut(timeout, r.pending.at[id], now)
      && x == Close(r.pending.at[id], Approved, now, who)
    case _ => false
  }

  ghost predicate Granted(r: Router, x: Request) { x in r.full && x.status == Approved }

  lemma PruneGrantsNothing(timeout: int, r: Router, now: int, x: Request)
    requires Inv(timeout, r)
    ensures Granted(PruneStep(timeout, r, now), x) <==> Granted(r, x)
  {
    PruneShares(timeout, r, now);
  }

  lemma RequestGrants(timeout: int, r: Router, op: Op, x: Request)
    requires Inv(timeout, r) && op.RequestApproval?
    ensures Granted(Step(timeout, r, op), x) <==> Granted(r, x) || Grants(timeout, r, op, x)
  {
    PruneGrantsNothing(timeout, r, op.now, x);
    RequestSettles(timeout, r, op);
    RoomGrantsNothing(PruneStep(timeout, r, op.now), op.now, x);
  }

  lemma RoomGrantsNothing(r: Router, now: int, x: Request)
    requires r.pending.Valid()
    ensures Granted(MakeRoom(r, now), x) <==> Granted(r, x)
  {
  }

  /** What a request adds to the settled records: itself at LOW risk, else what room-making closes. */
  lemma RequestSettles(timeout: int, r: Router, op: Op)
    requires r.pending.Valid() && op.RequestApproval?
    ensures var pruned := PruneStep(timeout, r, op.now);
            && pruned.pending.Valid()
            && (MaxRisk(op.keyword, op.passport) == Low
                <==> op.keyword == Low && (op.passport == None || op.passport == Some(Low)))
            && Step(timeout, r, op).full == if MaxRisk(op.keyword, op.passport) == Low
                                            then pruned.full + [Issue(op.draft, op.requestId, Low, op.now)]
                                            else MakeRoom(pruned, op.now).full
  {
    KeepValid(r.pending, Live(r.pending.at, timeout, op.now));
  }

  lemma StepGrants(timeout: int, r: Router, op: Op, x: Request)
    requires Inv(timeout, r)
    ensures Granted(Step(timeout, r, op), x) <==> Granted(r, x) || Grants(timeout, r, op, x)
  {
    match op
    case RequestApproval(draft, id, keyword, passport, now) => RequestGrants(timeout, r, op, x);
    case Resolve(id, approved, who, now) =>
    case Lookup(id, now) =>
    case Prune(now) => PruneGrantsNothing(timeout, r, now, x);
  }

  ghost predicate GrantedAt(timeout: int, ops: seq<Op>, i: nat, x: Request)
    requires i < |ops|
  {
    Grants(timeout, Run(timeout, ops[..i]), ops[i], x)
  }

  lemma GrantedAtFront(timeout: int, ops: seq<Op>, op: Op, x: Request)
    ensures forall i | 0 <= i < |ops| :: GrantedAt(timeout, ops + [op], i, x) == GrantedAt(timeout, ops, i, x)
    ensures GrantedAt(timeout, ops + [op], |ops|, x) == Grants(timeout, Run(timeout, ops), op, x)
  {
    forall i | 0 <= i <= |ops| ensures (ops + [op])[..i] == ops[..i] {}
    assert ops[..|ops|] == ops;
  }

  /** Every approval of a run, exactly: the automatic ones are the requests made at LOW keyword risk under a LOW or
      absent passport floor, as issued; every other is a pending request that was answered yes in time. */
  lemma {:induction false} ApprovalsExact(timeout: int, ops: seq<Op>, x: Request)
    ensures Granted(Run(timeout, ops), x) <==> exists i :: 0 <= i < |ops| && GrantedAt(timeout, ops, i, x)
  {
    if ops != [] {
      var front, op := ops[..|ops| - 1], ops[|ops| - 1];
      assert ops == front + [op];
      ApprovalsExact(timeout, front, x);
      StepGrants(timeout, Run(timeout, front), op, x);
      GrantedAtFront(timeout, front, op, x);
    }
  }

  /** `x` was asked for at LOW keyword risk, under a LOW passport floor or none, and stands as issued. */
  ghost predicate AskedLow(ops: seq<Op>, x: Request) {
    exists i :: 0 <= i < |ops| && AutomaticFrom(ops[i], x)
  }

  ghost predicate AutomaticFrom(op: Op, x: Request) {
    && op.RequestApproval? && op.keyword == Low && (op.passport == None || op.passport == Some(Low))
    && x == Issue(op.draft, op.requestId, Low, op.now)
  }

  /** Timeout means deny, over every run: whatever was settled as approved was asked for at LOW risk, or is above LOW
      and was answered strictly inside its timeout. */
  lemma TimeoutMeansDeny(timeout: int, ops: seq<Op>, x: Request)
    requires Granted(Run(timeout, ops), x)
    ensures if x.riskTier == Low then AskedLow(ops, x)
            else x.resolvedAt.Some? && x.resolvedAt.value - x.requestedAt < timeout
    ensures Run(timeout, ops).history == Last(Run(timeout, ops).full, MAX_HISTORY)
    ensures |Run(timeout, ops).pending.keys| <= MAX_PENDING
  {
    ApprovalsExact(timeout, ops, x);
    var i :| 0 <= i < |ops| && GrantedAt(timeout, ops, i, x);
    if ops[i].RequestApproval? {
      assert AutomaticFrom(ops[i], x);
    } else {
      assert Waiting(ops[i].id, Run(timeout, ops[..i]).pending.at[ops[i].id]);
    }
  }

  ghost predicate SettledOnly(before: Router, after: Router) {
    before.full <= after.full && before.issued <= after.issued && before.lost <= after.lost
  }

  lemma PruneGrows(timeout: int, r: Router, now: int)
    requires r.pending.Valid()
    ensures var after := PruneStep(timeout, r, now);
            SettledOnly(r, after) && after.issued == r.issued && after.pending.Valid()
  {
    KeepValid(r.pending, Live(r.pending.at, timeout, now));
  }

  lemma RoomGrows(r: Router, now: int)
    requires r.pending.Valid()
    ensures var after := MakeRoom(r, now); SettledOnly(r, after) && after.issued == r.issued
  {
  }

  lemma StepGrows(timeout: int, r: Router, op: Op)
    requires Inv(timeout, r)
    ensures SettledOnly(r, Step(timeout, r, op))
    ensures Step(timeout, r, op).issued == if op.RequestApproval? then r.issued + [op.requestId] else r.issued
  {
    PruneGrows(timeout, r, op.now);
    if op.RequestApproval? { RoomGrows(PruneStep(timeout, r, op.now), op.now); }
  }

  /** Settled records are never rewritten: a record expired in any prefix of a run is there at its end. */
  lemma {:induction false} RunGrows(timeout: int, ops: seq<Op>, k: nat)
    requires k <= |ops|
    ensures SettledOnly(Run(timeout, ops[..k]), Run(timeout, ops))
  {
    if k < |ops| {
      var front := ops[..|ops| - 1];
      assert front[..k] == ops[..k];
      RunGrows(timeout, front, k);
      StepGrows(timeout, Run(timeout, front), ops[|ops| - 1]);
    } else {
      assert ops[..k] == ops;
    }
  }

  /** Requests issued that are neither pending nor settled. */
  function Unaccounted(r: Router): int { |r.issued| - |r.pending.keys| - |r.full| }

  function LiveKeys(timeout: int, r: Router, now: int): seq<string> {
    Filter(r.pending.keys, Live(r.pending.at, timeout, now))
  }

  /** Asking above LOW under the id of a request that is still waiting in time, and is not the one about to be
      evicted. */
  predicate AsksAgain(timeout: int, r: Router, op: Op) {
    && op.RequestApproval? && MaxRisk(op.keyword, op.passport) != Low
    && op.requestId in r.pending.at && !TimedOut(timeout, r.pending.at[op.requestId], op.now)
    && (|LiveKeys(timeout, r, op.now)| >= MAX_PENDING ==> LiveKeys(timeout, r, op.now)[0] != op.requestId)
  }

  lemma StillPendingIff(timeout: int, r: Router, id: string, now: int)
    requires Inv(timeout, r)
    ensures Inv(timeout, PruneStep(timeout, r, now))
    ensures id in MakeRoom(PruneStep(timeout, r, now), now).pending.at <==>
            id in r.pending.at && !TimedOut(timeout, r.pending.at[id], now)
            && (|LiveKeys(timeout, r, now)| >= MAX_PENDING ==> LiveKeys(timeout, r, now)[0] != id)
  {
    PruneInv(timeout, r, now);
  }

  lemma LostIff(timeout: int, r: Router, op: Op)
    requires Inv(timeout, r)
    ensures Step(timeout, r, op).lost == if AsksAgain(timeout, r, op) then r.lost + [op.requestId] else r.lost
  {
    if op.RequestApproval? {
      StillPendingIff(timeout, r, op.requestId, op.now);
      RoomInv(timeout, PruneStep(timeout, r, op.now), op.now);
    }
  }

  lemma UnaccountedLost(timeout: int, r: Router)
    requires Inv(timeout, r)
    ensures Unaccounted(r) == |r.lost|
  {
    assert |multiset(r.issued)| == |multiset(r.pending.keys) + multiset(Ids(r.full)) + multiset(r.lost)|;
  }

  /** The exact loss: a call leaves one more request neither pending nor settled exactly when it asks again under the id
      of a waiting one, and otherwise loses none. */
  lemma RequestLosesIff(timeout: int, r: Router, op: Op)
    requires Inv(timeout, r)
    ensures Unaccounted(Step(timeout, r, op)) == Unaccounted(r) + if AsksAgain(timeout, r, op) then 1 else 0
  {
    LostIff(timeout, r, op);
    StepKeepsInv(timeout, r, op);
    UnaccountedLost(timeout, r);
    UnaccountedLost(timeout, Step(timeout, r, op));
  }

  lemma FreshPrefix(timeout: int, ops: seq<Op>)
    requires FreshIds(timeout, ops) && ops != []
    ensures FreshIds(timeout, ops[..|ops| - 1])
  {
    var front := ops[..|ops| - 1];
    forall i | 0 <= i < |front| && front[i].RequestApproval?
      ensures front[i].requestId !in Run(timeout, front[..i]).issued {
      assert front[..i] == ops[..i] && front[i] == ops[i];
    }
  }

  lemma {:induction false} FreshRun(timeout: int, ops: seq<Op>)
    requires FreshIds(timeout, ops)
    ensures Distinct(Run(timeout, ops).issued) && Run(timeout, ops).lost == []
  {
    if ops != [] {
      var front, op := ops[..|ops| - 1], ops[|ops| - 1];
      FreshPrefix(timeout, ops);
      FreshRun(timeout, front);
      var r := Run(timeout, front);
      StepGrows(timeout, r, op);
      LostIff(timeout, r, op);
      StillPendingIff(timeout, r, if op.RequestApproval? then op.requestId else "", op.now);
      if op.RequestApproval? {
        PruneInv(timeout, r, op.now);
        RoomInv(timeout, PruneStep(timeout, r, op.now), op.now);
        var roomy := MakeRoom(PruneStep(timeout, r, op.now), op.now);
        assert op.requestId !in multiset(roomy.issued);
        assert op.requestId !in multiset(roomy.pending.keys);
      }
    }
  }

  ghost function Times<T>(x: T, s: seq<T>): nat { multiset(s)[x] }

  /** Conservation: with fresh ids every issued id is pending or settled, never both, and
      settled at most once; so an expired or evicted request is never approved later. */
  lemma RequestConservation(timeout: int, ops: seq<Op>, id: string)
    requires FreshIds(timeout, ops)
    ensures var r := Run(timeout, ops);
            Times(id, r.pending.keys) + Times(id, Ids(r.full)) == if id in r.issued then 1 else 0
  {
    FreshRun(timeout, ops);
    DistinctCount(Run(timeout, ops).issued, id);
  }

  lemma SettledOnce(timeout: int, ops: seq<Op>, i: nat, j: nat)
    requires FreshIds(timeout, ops) && i < j < |Run(timeout, ops).full|
    ensures Run(timeout, ops).full[i].requestId != Run(timeout, ops).full[j].requestId
  {
    var ids := Ids(Run(timeout, ops).full);
    if ids[i] == ids[j] {
      RequestConservation(timeout, ops, ids[i]);
      CountTwice(ids, i, j);
    }
  }

  lemma PruneIdle(timeout: int, r: Router, now: int)
    requires Inv(timeout, r) && forall k | k in r.pending.at :: !TimedOut(timeout, r.pending.at[k], now)
    ensures PruneStep(timeout, r, now) == r
  {
    FilterAll(r.pending.keys, Live(r.pending.at, timeout, now));
    FilterNone(r.pending.keys, Stale(r.pending.at, timeout, now));
    assert r.pending.Keep(Live(r.pending.at, timeout, now)) == r.pending;
    assert r.full + [] == r.full && r.history + [] == r.history;
  }

  /** With room to spare and nothing stale, a request above LOW just joins the queue. */
  lemma RequestJoins(timeout: int, r: Router, draft: Draft, id: string, keyword: RiskTier, now: int)
    requires Inv(timeout, r) && |r.pending.keys| < MAX_PENDING && keyword != Low
    requires forall k | k in r.pending.at :: !TimedOut(timeout, r.pending.at[k], now)
    ensures Step(timeout, r, RequestApproval(draft, id, keyword, None, now)) == Enter(r, Issue(draft, id, keyword, now))
  {
    PruneIdle(timeout, r, now);
  }

  lemma FirstJoins(draft: Draft, id: string)
    ensures Inv(300, EMPTY)
    ensures Step(300, EMPTY, RequestApproval(draft, id, High, None, 0)) == Enter(EMPTY, Issue(draft, id, High, 0))
    ensures Inv(300, Enter(EMPTY, Issue(draft, id, High, 0)))
  {
    assert Run(300, []) == EMPTY;
    RequestJoins(300, EMPTY, draft, id, High, 0);
    StepKeepsInv(300, EMPTY, RequestApproval(draft, id, High, None, 0));
  }

  /** Without fresh ids a pending request vanishes: two requests of one tenant, identity and
      instant share an id, and the first ends up neither pending nor settled. */
  lemma CollidingIdsLoseRequest(draft: Draft, other: Draft, id: string)
    ensures Inv(300, EMPTY) && Inv(300, Step(300, EMPTY, RequestApproval(draft, id, High, None, 0)))
    ensures var first := Step(300, EMPTY, RequestApproval(draft, id, High, None, 0));
            var r := Step(300, first, RequestApproval(other, id, Medium, None, 0));
            r.lost == [id] && r.pending == Dict([id], map[id := Issue(other, id, Medium, 0)]) && r.full == []
  {
    FirstJoins(draft, id);
    RequestJoins(300, Enter(EMPTY, Issue(draft, id, High, 0)), other, id, Medium, 0);
  }

  // ----- Eviction takes the oldest --------------------------------------------------

  /** Pending requests stand in the order they were made, none later than `clock`. */
  ghost predicate InOrder(d: Dict<string, Request>, clock: int)
    requires d.Valid()
  {
    && (forall i, j | 0 <= i < j < |d.keys| :: d.at[d.keys[i]].requestedAt <= d.at[d.keys[j]].requestedAt)
    && (forall k | k in d.at :: d.at[k].requestedAt <= clock)
  }

  ghost predicate Monotone(ops: seq<Op>) {
    forall i, j | 0 <= i < j < |ops| :: ops[i].now <= ops[j].now
  }

  lemma {:induction false} FilterInOrder(s: seq<string>, at: map<string, Request>, keep: string -> bool)
    requires forall k | k in s :: k in at
    requires forall i, j | 0 <= i < j < |s| :: at[s[i]].requestedAt <= at[s[j]].requestedAt
    ensures forall k | k in Filter(s, keep) :: k in s
    ensures forall i, j | 0 <= i < j < |Filter(s, keep)| ::
              at[Filter(s, keep)[i]].requestedAt <= at[Filter(s, keep)[j]].requestedAt
  {
    if s != [] {
      var front := s[..|s| - 1];
      assert forall k | k in front :: k in s;
      FilterInOrder(front, at, keep);
      forall k | k in Filter(front, keep) ensures at[k].requestedAt <= at[s[|s| - 1]].requestedAt {
        var i :| 0 <= i < |front| && front[i] == k;
      }
    }
  }

  /** Leaving entries out does not disturb the order of the rest. */
  lemma SublistInOrder(d: Dict<string, Request>, e: Dict<string, Request>, keep: string -> bool, clock: int)
    requires d.Valid() && InOrder(d, clock) && e.Valid()
    requires e.keys == Filter(d.keys, keep) && forall k | k in e.at :: k in d.at && e.at[k] == d.at[k]
    ensures InOrder(e, clock)
  {
    FilterInOrder(d.keys, d.at, keep);
    forall i | 0 <= i < |e.keys| ensures e.at[e.keys[i]] == d.at[e.keys[i]] { assert e.keys[i] in e.keys; }
  }

  lemma DelInOrder(d: Dict<string, Request>, id: string, clock: int)
    requires d.Valid() && InOrder(d, clock)
    ensures d.Del(id).Valid() && InOrder(d.Del(id), clock)
  {
    DelValid(d, id);
    SublistInOrder(d, d.Del(id), Other(id), clock);
  }

  lemma PutInOrder(d: Dict<string, Request>, request: Request, clock: int)
    requires d.Valid() && InOrder(d, clock)
    requires request.requestId !in d.at && clock <= request.requestedAt
    ensures d.Put(request.requestId, request).Valid()
    ensures InOrder(d.Put(request.requestId, request), request.requestedAt)
  {
    PutValid(d, request.requestId, request);
    var after := d.Put(request.requestId, request);
    forall i | 0 <= i < |d.keys| ensures after.at[after.keys[i]] == d.at[d.keys[i]] {
      assert d.keys[i] in d.keys;
    }
  }

  lemma PruneInOrder(timeout: int, r: Router, now: int, clock: int)
    requires r.pending.Valid() && InOrder(r.pending, clock)
    ensures PruneStep(timeout, r, now).pending.Valid() && InOrder(PruneStep(timeout, r, now).pending, clock)
  {
    var live := Live(r.pending.at, timeout, now);
    KeepValid(r.pending, live);
    SublistInOrder(r.pending, r.pending.Keep(live), live, clock);
  }

  lemma RoomInOrder(r: Router, now: int, clock: int)
    requires r.pending.Valid() && InOrder(r.pending, clock)
    ensures MakeRoom(r, now).pending.Valid() && InOrder(MakeRoom(r, now).pending, clock)
  {
    if |r.pending.keys| >= MAX_PENDING { DelInOrder(r.pending, r.pending.keys[0], clock); }
  }

  lemma ArrivalInOrder(timeout: int, r: Router, op: Op, clock: int)
    requires r.pending.Valid() && InOrder(r.pending, clock) && clock <= op.now && r.lost == [] && op.RequestApproval?
    requires Step(timeout, r, op).lost == []
    ensures Step(timeout, r, op).pending.Valid() && InOrder(Step(timeout, r, op).pending, op.now)
  {
    PruneInOrder(timeout, r, op.now, clock);
    var pruned := PruneStep(timeout, r, op.now);
    RoomInOrder(pruned, op.now, clock);
    var request := Issue(op.draft, op.requestId, MaxRisk(op.keyword, op.passport), op.now);
    if request.riskTier != Low { PutInOrder(MakeRoom(pruned, op.now).pending, request, clock); }
  }

  lemma StepInOrder(timeout: int, r: Router, op: Op, clock: int)
    requires r.pending.Valid() && InOrder(r.pending, clock) && clock <= op.now && r.lost == []
    requires Step(timeout, r, op).lost == []
    ensures Step(timeout, r, op).pending.Valid() && InOrder(Step(timeout, r, op).pending, op.now)
  {
    match op
    case RequestApproval(draft, id, keyword, passport, now) => ArrivalInOrder(timeout, r, op, clock);
    case Resolve(id, approved, who, now) => DelInOrder(r.pending, id, clock);
    case Lookup(id, now) => DelInOrder(r.pending, id, clock);
    case Prune(now) => PruneInOrder(timeout, r, now, clock);
  }

  lemma {:induction false} RunInOrder(timeout: int, ops: seq<Op>)
    requires ops != [] && Monotone(ops) && Run(timeout, ops).lost == []
    ensures InOrder(Run(timeout, ops).pending, ops[|ops| - 1].now)
  {
    var front, op := ops[..|ops| - 1], ops[|ops| - 1];
    StepGrows(timeout, Run(timeout, front), op);
    if front != [] {
      assert ops[|front| - 1].now <= op.now;
      RunInOrder(timeout, front);
      StepInOrder(timeout, Run(timeout, front), op, front[|front| - 1].now);
    } else {
      StepInOrder(timeout, EMPTY, op, op.now);
    }
  }

  /** With fresh ids and a monotone clock, what eviction removes is a longest-waiting request. */
  lemma EvictsOldest(timeout: int, ops: seq<Op>, now: int)
    requires ops != [] && FreshIds(timeout, ops) && Monotone(ops)
    requires Run(timeout, ops).pending.keys != []
    ensures var r := Run(timeout, ops); var victim := EvictStep(r, now).full[|r.full|];
            && victim.status == Expired && victim.resolvedBy == "capacity_eviction"
            && victim.requestId in r.pending.at && victim.requestId !in EvictStep(r, now).pending.at
            && forall k | k in r.pending.at :: victim.requestedAt <= r.pending.at[k].requestedAt
  {
    FreshRun(timeout, ops);
    RunInOrder(timeout, ops);
    var r := Run(timeout, ops);
    assert r.pending.keys[0] in r.pending.at;
    forall k | k in r.pending.at ensures r.pending.at[r.pending.keys[0]].requestedAt <= r.pending.at[k].requestedAt {
      var i :| 0 <= i < |r.pending.keys| && r.pending.keys[i] == k;
    }
  }
}
