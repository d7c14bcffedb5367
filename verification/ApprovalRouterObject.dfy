/** The router object: fields updated in place, each method tied to the step it performs. */
module ApprovalRouterObject {
  import opened Collections
  import opened ApprovalRouter

  class Router {
    const timeoutSeconds: int
    var pending: Dict<string, Request>
    var history: seq<Request>
    var evictedCount: nat
    ghost var full: seq<Request>
    ghost var issued: seq<string>
    ghost var lost: seq<string>
    ghost var calls: seq<Op>

    ghost function View(): ApprovalRouter.Router
      reads this
    {
      ApprovalRouter.Router(pending, history, evictedCount, full, issued, lost)
    }

    /** The router is what the calls made so far leave behind, so whatever is proved of every run holds of it. */
    ghost predicate Valid()
      reads this
    {
      View() == Run(timeoutSeconds, calls)
    }

    /** All the inner methods need. */
    ghost predicate Sound()
      reads this
    {
      pending.Valid() && |history| <= MAX_HISTORY
    }

    ghost method Log(op: Op)
      requires Valid()
      modifies this`calls
      ensures calls == old(calls) + [op] && Sound() && Run(timeoutSeconds, calls) == Step(timeoutSeconds, View(), op)
    {
      RunMore(timeoutSeconds, calls, op);
      calls := calls + [op];
    }

    constructor (timeoutSeconds: int)
      ensures Valid() && calls == [] && View() == EMPTY && this.timeoutSeconds == timeoutSeconds
    {
      this.timeoutSeconds := timeoutSeconds;
      pending, history, evictedCount := Dict([], map[]), [], 0;
      full, issued, lost, calls := [], [], [], [];
    }

    method AppendHistory(request: Request)
      modifies this
      ensures View() == Settle(old(View()), [request]) && calls == old(calls)
    {
      history := history + [request];
      if |history| > MAX_HISTORY { history := history[|history| - MAX_HISTORY..]; }
      full := full + [request];
    }

    method EvictOldestPending(now: int)
      requires pending.Valid()
      modifies this
      ensures View() == EvictStep(old(View()), now) && calls == old(calls)
    {
      if pending.keys == [] { return; }
      var oldest := pending.keys[0];
      assert oldest in pending.keys;
      var request := pending.at[oldest];
      pending := pending.Del(oldest);
      evictedCount := evictedCount + 1;
      AppendHistory(Close(request, Expired, now, "capacity_eviction"));
    }

    method ExpiredIds(now: int) returns (expiredIds: seq<string>)
      requires pending.Valid()
      ensures expiredIds == StaleKeys(pending, timeoutSeconds, now)
    {
      expiredIds := [];
      var i := 0;
      while i < |pending.keys|
        invariant 0 <= i <= |pending.keys|
        invariant expiredIds == Filter(pending.keys[..i], Stale(pending.at, timeoutSeconds, now))
      {
        var id := pending.keys[i];
        assert id in pending.keys;
        assert pending.keys[..i + 1][..i] == pending.keys[..i];
        if TimedOut(timeoutSeconds, pending.at[id], now) { expiredIds := expiredIds + [id]; }
        i := i + 1;
      }
      assert pending.keys[..i] == pending.keys;
    }

    /** The stale ids are collected first, then removed and recorded one by one. */
    method PruneExpiredPending(now: int)
      requires Sound()
      modifies this
      ensures Sound() && calls == old(calls)
      ensures View() == PruneStep(timeoutSeconds, old(View()), now)
    {
      ghost var before := View();
      var expiredIds := ExpiredIds(now);
      StaleDistinct(pending, timeoutSeconds, now);
      NothingExpiredYet(before, expiredIds, now);
      var i := 0;
      while i < |expiredIds|
        invariant 0 <= i <= |expiredIds|
        invariant calls == old(calls)
        invariant View() == ExpireFirst(before, expiredIds, now, i)
      {
        var id := expiredIds[i];
        ExpireNext(before, expiredIds, now, i);
        var request := pending.at[id];
        pending := pending.Del(id);
        AppendHistory(Close(request, Expired, now, "timeout"));
        i := i + 1;
      }
      AllExpired(timeoutSeconds, before, now);
      KeepValid(before.pending, Live(before.pending.at, timeoutSeconds, now));
    }

    method RequestApproval(idOf: (string, string, int) -> string, draft: Draft, keyword: RiskTier,
                           passport: Option<RiskTier>, now: int)
      returns (request: Request)
      requires Valid()
      modifies this
      ensures Valid()
      ensures calls
              == old(calls)
              + [ApprovalRouter.RequestApproval(draft, idOf(draft.tenantId, draft.identityId, now), keyword,
                                                passport, now)]
      ensures View() == Step(timeoutSeconds, old(View()),
                             ApprovalRouter.RequestApproval(draft, idOf(draft.tenantId, draft.identityId, now),
                                                            keyword, passport, now))
      ensures request == Issue(draft, idOf(draft.tenantId, draft.identityId, now), MaxRisk(keyword, passport), now)
    {
      Log(ApprovalRouter.RequestApproval(draft, idOf(draft.tenantId, draft.identityId, now), keyword, passport, now));
      var risk := MaxRisk(keyword, passport);
      var requestId := idOf(draft.tenantId, draft.identityId, now);
      PruneExpiredPending(now);
      request := Issue(draft, requestId, risk, now);
      if risk == Low {
        issued := issued + [requestId];
        AppendHistory(request);
      } else {
        Enqueue(request, now);
      }
    }

    /** Insert a request, evicting the oldest one at capacity. */
    method Enqueue(request: Request, now: int)
      requires Sound()
      modifies this
      ensures Sound() && calls == old(calls)
      ensures View() == Enter(MakeRoom(old(View()), now), request)
    {
      if |pending.keys| >= MAX_PENDING {
        DelValid(pending, pending.keys[0]);
        EvictOldestPending(now);
      }
      var requestId := request.requestId;
      PutValid(pending, requestId, request);
      lost := if requestId in pending.at then lost + [requestId] else lost;
      pending := pending.Put(requestId, request);
      issued := issued + [requestId];
    }

    /** Take one request out of the pending ones and record it as closed. */
    method CloseRequest(requestId: string, closed: Request)
      requires pending.Valid()
      modifies this
      ensures View() == Settle(old(View()).(pending := old(pending).Del(requestId)), [closed]) && calls == old(calls)
    {
      pending := pending.Del(requestId);
      AppendHistory(closed);
    }

    method Resolve(requestId: string, approved: bool, resolvedBy: string, now: int) returns (r: Option<Request>)
      requires Valid()
      modifies this
      ensures Valid()
      ensures calls == old(calls) + [ApprovalRouter.Resolve(requestId, approved, resolvedBy, now)]
      ensures View() == Step(timeoutSeconds, old(View()), ApprovalRouter.Resolve(requestId, approved, resolvedBy, now))
      ensures r == if requestId in old(pending.at)
                   then Some(Outcome(timeoutSeconds, old(pending.at)[requestId], approved, resolvedBy, now)) else None
    {
      Log(ApprovalRouter.Resolve(requestId, approved, resolvedBy, now));
      if requestId !in pending.at { return None; }
      var request := pending.at[requestId];
      var closed := if TimedOut(timeoutSeconds, request, now) then Close(request, Expired, now, "timeout")
                    else Close(request, if approved then Approved else Denied, now, resolvedBy);
      CloseRequest(requestId, closed);
      r := Some(closed);
    }

    method LookupRequest(requestId: string, now: int) returns (r: Option<Request>)
      requires Valid()
      modifies this
      ensures Valid()
      ensures calls == old(calls) + [Lookup(requestId, now)]
      ensures View() == Step(timeoutSeconds, old(View()), Lookup(requestId, now))
      ensures r == if requestId !in old(pending.at) then None
                   else if TimedOut(timeoutSeconds, old(pending.at)[requestId], now)
                   then Some(Close(old(pending.at)[requestId], Expired, now, "timeout"))
                   else Some(old(pending.at)[requestId])
    {
      Log(Lookup(requestId, now));
      if requestId !in pending.at { return None; }
      var request := pending.at[requestId];
      if TimedOut(timeoutSeconds, request, now) {
        var closed := Close(request, Expired, now, "timeout");
        CloseRequest(requestId, closed);
        return Some(closed);
      }
      r := Some(request);
    }

    /** The live requests of one tenant ("" for all), oldest first. */
    method GetPending(tenantId: string, now: int) returns (r: seq<Request>)
      requires Valid()
      modifies this
      ensures Valid() && calls == old(calls) + [Prune(now)]
      ensures View() == Step(timeoutSeconds, old(View()), Prune(now))
      ensures r == Filter(pending.Values(), OfTenant(tenantId))
      ensures forall x | x in r :: !TimedOut(timeoutSeconds, x, now)
    {
      Log(Prune(now));
      PruneExpiredPending(now);
      r := Filter(pending.Values(), OfTenant(tenantId));
      forall x | x in r ensures !TimedOut(timeoutSeconds, x, now) {
        FilterMember(pending.Values(), OfTenant(tenantId), x);
        var i :| 0 <= i < |pending.keys| && pending.Values()[i] == x;
        assert pending.keys[i] in pending.keys;
      }
    }
  }

  function OfTenant(tenantId: string): Request -> bool {
    (r: Request) => tenantId == "" || r.tenantId == tenantId
  }

  function NotIn(gone: seq<string>): string -> bool { k => k !in gone }

  /** The router part way through a prune: the first `n` of the stale ids are removed and recorded. */
  ghost function ExpireFirst(r: ApprovalRouter.Router, gone: seq<string>, now: int, n: nat): ApprovalRouter.Router
    requires n <= |gone| && forall k | k in gone :: k in r.pending.at
  {
    Settle(r.(pending := r.pending.Keep(NotIn(gone[..n]))), Expirations(r.pending.at, gone, now)[..n])
  }

  lemma NothingExpiredYet(r: ApprovalRouter.Router, gone: seq<string>, now: int)
    requires r.pending.Valid() && (forall k | k in gone :: k in r.pending.at) && |r.history| <= MAX_HISTORY
    ensures ExpireFirst(r, gone, now, 0) == r
  {
    FilterAll(r.pending.keys, NotIn([]));
    assert r.pending.Keep(NotIn([])) == r.pending;
    assert r.history + [] == r.history && r.full + [] == r.full;
  }

  lemma ExpireNext(r: ApprovalRouter.Router, gone: seq<string>, now: int, i: nat)
    requires r.pending.Valid() && i < |gone| && Distinct(gone) && forall k | k in gone :: k in r.pending.at
    ensures var part := ExpireFirst(r, gone, now, i);
            && gone[i] in part.pending.at
            && Settle(part.(pending := part.pending.Del(gone[i])),
                      [Close(part.pending.at[gone[i]], Expired, now, "timeout")])
               == ExpireFirst(r, gone, now, i + 1)
  {
    var closed := Expirations(r.pending.at, gone, now);
    assert gone[i] !in gone[..i];
    RemoveNext(r.pending, gone, i);
    assert closed[..i + 1] == closed[..i] + [closed[i]];
    LastAppend(r.history + closed[..i], [closed[i]], MAX_HISTORY);
    assert r.history + closed[..i] + [closed[i]] == r.history + closed[..i + 1];
    assert r.full + closed[..i] + [closed[i]] == r.full + closed[..i + 1];
  }

  lemma StaleDistinct(d: Dict<string, Request>, timeout: int, now: int)
    requires d.Valid()
    ensures Distinct(StaleKeys(d, timeout, now))
  {
    FilterDistinct(d.keys, Stale(d.at, timeout, now));
  }

  lemma RemoveNext(d: Dict<string, Request>, gone: seq<string>, i: nat)
    requires d.Valid() && i < |gone|
    ensures d.Keep(NotIn(gone[..i])).Del(gone[i]) == d.Keep(NotIn(gone[..i + 1]))
    ensures d.Keep(NotIn(gone[..i + 1])).Valid()
  {
    assert gone[..i + 1] == gone[..i] + [gone[i]];
    FilterTwice(d.keys, NotIn(gone[..i]), Other(gone[i]), NotIn(gone[..i + 1]));
    KeepValid(d, NotIn(gone[..i + 1]));
  }

  lemma AllExpired(timeout: int, r: ApprovalRouter.Router, now: int)
    requires r.pending.Valid()
    ensures ExpireFirst(r, StaleKeys(r.pending, timeout, now), now, |StaleKeys(r.pending, timeout, now)|)
            == PruneStep(timeout, r, now)
  {
    var gone, live := StaleKeys(r.pending, timeout, now), Live(r.pending.at, timeout, now);
    forall k | k in r.pending.at ensures (k !in gone) == live(k) {
      FilterMember(r.pending.keys, Stale(r.pending.at, timeout, now), k);
    }
    FilterExt(r.pending.keys, NotIn(gone), live);
    assert gone[..|gone|] == gone;
    assert r.pending.Keep(NotIn(gone)) == r.pending.Keep(live);
    var closed := Expirations(r.pending.at, gone, now);
    assert closed[..|gone|] == closed;
  }
}
