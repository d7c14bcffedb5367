/** What the sweeps do to each record, what they report of it and to whom, told in the fields of the records; and what
    the responsibility witness counts. */
module AuthorityDeadlines {
  import opened Collections
  import opened AuthorityMesh
  import opened AuthorityRuns
  import opened AuthoritySweeps

  // ----- Chains -----------------------------------------------------------------------------

  /** Expiring moves a chain from PENDING to EXPIRED when its time is up, and leaves every other as it was. */
  lemma ExpiryTold(w: World, m: Mesh, now: int, id: string)
    requires Inv(w, m)
    ensures var after := Expire(m, now).0;
            && (id in after.chains.at <==> id in m.chains.at)
            && (id in m.chains.at ==>
                  var c := m.chains.at[id];
                  after.chains.at[id] == if c.status == ChainStatus.Pending && c.dueAt <= now
                                         then c.(status := ChainStatus.Expired) else c)
  {
    CurrentValues(w, m);
    SweepChainsTable(m, m.chains.Values(), Overdue(now), Expired, ExpiredEvent(now));
  }

  ghost predicate ToClose(c: Chain, tenant: string, command: string) {
    && c.status == ChainStatus.Expired
    && (tenant != "" ==> c.tenantId == tenant) && (command != "" ==> c.commandId == command)
  }

  /** Closing, which takes evidence, denies the expired chains of the tenant and command asked for, or of all where
      none is named. */
  lemma ClosingTold(w: World, m: Mesh, refs: seq<string>, tenant: string, command: string, now: int, id: string)
    requires Inv(w, m) && refs != []
    ensures var after := CloseExpired(m, refs, tenant, command, now).0;
            && (id in after.chains.at <==> id in m.chains.at)
            && (id in m.chains.at ==>
                  var c := m.chains.at[id];
                  after.chains.at[id] == if ToClose(c, tenant, command) then c.(status := ChainStatus.Denied) else c)
  {
    CurrentValues(w, m);
    SweepChainsTable(m, m.chains.Values(), Closable(tenant, command), Denied, ClosedEvent(now, refs));
  }

  lemma StoredAt(w: World, m: Mesh, c: Chain)
    requires Inv(w, m)
    ensures c in m.chains.Values() <==> c.chainId in m.chains.at && m.chains.at[c.chainId] == c
  {
    CurrentValues(w, m);
  }

  lemma MapMember<T, U>(s: seq<T>, f: T -> U, x: T)
    requires x in s
    ensures f(x) in Map(s, f)
  {
    var i :| 0 <= i < |s| && s[i] == x;
    assert Map(s, f)[i] == f(x);
  }

  lemma PickedReturned(w: World, m: Mesh, pick: Chain -> bool, to: ChainStatus, c: Chain)
    requires Inv(w, m)
    ensures c.chainId in m.chains.at && m.chains.at[c.chainId] == c && pick(c) ==>
              c.(status := to) in Map(Filter(m.chains.Values(), pick), WithStatus(to))
    ensures c in Map(Filter(m.chains.Values(), pick), WithStatus(to)) ==>
              c.status == to && c.chainId in m.chains.at && pick(m.chains.at[c.chainId])
              && c == m.chains.at[c.chainId].(status := to)
  {
    StoredAt(w, m, c);
    var picked := Filter(m.chains.Values(), pick);
    FilterMember(m.chains.Values(), pick, c);
    if c in picked { MapMember(picked, WithStatus(to), c); }
    if c in Map(picked, WithStatus(to)) {
      var i :| 0 <= i < |picked| && WithStatus(to)(picked[i]) == c;
      FilterMember(m.chains.Values(), pick, picked[i]);
      StoredAt(w, m, picked[i]);
    }
  }

  /** Expiring returns exactly the chains it moved, and reports each, in that order, under its own id, command and
      tenant. */
  lemma ExpiryReports(w: World, m: Mesh, now: int, c: Chain)
    requires Inv(w, m)
    ensures var (after, done) := Expire(m, now);
            && (c.chainId in m.chains.at && m.chains.at[c.chainId] == c
                && c.status == ChainStatus.Pending && c.dueAt <= now
                ==> c.(status := ChainStatus.Expired) in done)
            && (c in done ==> c.chainId in m.chains.at && m.chains.at[c.chainId] == c.(status := ChainStatus.Pending)
                              && c.status == ChainStatus.Expired && c.dueAt <= now)
            && |after.events| == |m.events| + |done| && after.events[..|m.events|] == m.events
            && forall i | 0 <= i < |done| :: var e := after.events[|m.events| + i];
                 e.ChainExpired? && e.chainId == done[i].chainId && e.commandId == done[i].commandId
                 && e.tenantId == done[i].tenantId && e.at == now
  {
    SweepAll(w, m, Overdue(now), Expired, ExpiredEvent(now));
    PickedReturned(w, m, Overdue(now), Expired, c);
  }

  /** The same of closing, whose reports carry the evidence it was given. */
  lemma ClosingReports(w: World, m: Mesh, refs: seq<string>, tenant: string, command: string, now: int, c: Chain)
    requires Inv(w, m) && refs != []
    ensures var (after, r) := CloseExpired(m, refs, tenant, command, now);
            && r.Ok?
            && (c.chainId in m.chains.at && m.chains.at[c.chainId] == c && ToClose(c, tenant, command)
                ==> c.(status := ChainStatus.Denied) in r.value)
            && (c in r.value ==> c.chainId in m.chains.at && m.chains.at[c.chainId] == c.(status := ChainStatus.Expired)
                                 && c.status == ChainStatus.Denied && ToClose(m.chains.at[c.chainId], tenant, command))
            && |after.events| == |m.events| + |r.value| && after.events[..|m.events|] == m.events
            && forall i | 0 <= i < |r.value| :: var e := after.events[|m.events| + i];
                 e.ChainClosed? && e.chainId == r.value[i].chainId && e.commandId == r.value[i].commandId
                 && e.tenantId == r.value[i].tenantId && e.at == now && e.refs == refs
  {
    SweepAll(w, m, Closable(tenant, command), Denied, ClosedEvent(now, refs));
    PickedReturned(w, m, Closable(tenant, command), Denied, c);
  }

  // ----- Obligations ------------------------------------------------------------------------

  /** Escalating moves an obligation from OPEN to ESCALATED when its time is up, and leaves every other as it was. */
  lemma EscalationTold(w: World, m: Mesh, now: int, id: string)
    requires Inv(w, m)
    ensures var after := Escalate(w, m, now).0;
            && (id in after.obligations.at <==> id in m.obligations.at)
            && (id in m.obligations.at ==>
                  var o := m.obligations.at[id];
                  after.obligations.at[id] == if o.status == Open && o.dueAt <= now then o.(status := Escalated) else o)
  {
    ValuesOk(w, m);
    SweepObligationsTable(w, m, m.obligations.Values(), now);
    if id in m.obligations.at {
      var i :| 0 <= i < |m.obligations.keys| && m.obligations.keys[i] == id;
      assert m.obligations.Values()[i] == m.obligations.at[id];
    }
  }

  /** Who hears of it: whoever its escalation policy names; where that is not registered, whoever the ownership of
      what the command was about names; and where nobody owns that, its own owner and team. */
  ghost predicate Hears(w: World, m: Mesh, o: Obligation, owner: string, team: string) {
    if (o.tenantId, o.escalationPolicyId) in m.escalations.at then
      var p := m.escalations.at[(o.tenantId, o.escalationPolicyId)];
      owner == p.fallbackOwnerId && team == p.escalationTeam
    else
      var about := if o.commandId in w.actions then Some(w.actions[o.commandId].capability)
                   else if o.commandId in w.commands then Some(w.commands[o.commandId].intent) else None;
      if about.Some? && about.value != "" && (o.tenantId, about.value) in m.ownership then
        var b := m.ownership[(o.tenantId, about.value)];
        owner == b.fallbackOwnerId && team == b.escalationTeam
      else owner == o.ownerId && team == o.ownerTeam
  }

  ghost predicate Reports(w: World, m: Mesh, e: Event, o: Obligation, now: int) {
    && e.ObligationEscalated? && e.obligationId == o.obligationId && e.commandId == o.commandId
    && e.tenantId == o.tenantId && e.ownerId == o.ownerId && e.ownerTeam == o.ownerTeam
    && e.policyId == o.escalationPolicyId && e.at == now
    && Hears(w, m, o, e.fallbackOwnerId, e.escalationTeam)
  }

  lemma ReportedBy(w: World, m: Mesh, o: Obligation, now: int)
    ensures Reports(w, m, EscalatedEvent(w, m, now)(o), o, now)
  {
  }

  /** Escalating reports each obligation it returns, in that order, to whoever is to hear of it. */
  lemma EscalationReports(w: World, m: Mesh, now: int)
    requires Inv(w, m)
    ensures var (after, done) := Escalate(w, m, now);
            && |after.events| == |m.events| + |done| && after.events[..|m.events|] == m.events
            && forall i | 0 <= i < |done| :: Reports(w, m, after.events[|m.events| + i], done[i], now)
  {
    SweepObligationsReturns(w, m, m.obligations.Values(), now);
    var done := Escalate(w, m, now).1;
    forall i | 0 <= i < |done| ensures Reports(w, m, Map(done, EscalatedEvent(w, m, now))[i], done[i], now) {
      ReportedBy(w, m, done[i], now);
    }
  }

  /** What it returns is exactly what it moved. */
  lemma EscalationReturns(w: World, m: Mesh, now: int, o: Obligation)
    requires Inv(w, m)
    ensures var done := Escalate(w, m, now).1;
            && (o.obligationId in m.obligations.at && m.obligations.at[o.obligationId] == o
                && o.status == Open && o.dueAt <= now
                ==> o.(status := Escalated) in done)
            && (o in done ==> o.obligationId in m.obligations.at && o.status == Escalated && o.dueAt <= now
                              && m.obligations.at[o.obligationId] == o.(status := Open))
  {
    ValuesOk(w, m);
    SweepObligationsReturns(w, m, m.obligations.Values(), now);
    var all, late := m.obligations.Values(), Filter(m.obligations.Values(), Late(now));
    FilterMember(all, Late(now), o);
    if o.obligationId in m.obligations.at && m.obligations.at[o.obligationId] == o {
      var i :| 0 <= i < |m.obligations.keys| && m.obligations.keys[i] == o.obligationId;
      assert all[i] == o;
    }
    if o in late { MapMember(late, AsEscalated(), o); }
    if o in Map(late, AsEscalated()) {
      var i :| 0 <= i < |late| && AsEscalated()(late[i]) == o;
      FilterMember(all, Late(now), late[i]);
    }
  }

  // ----- The witness ------------------------------------------------------------------------

  /** Of these keys, those whose entry passes. */
  ghost function Passing<K, V>(at: map<K, V>, keys: seq<K>, pick: V -> bool): set<K> {
    set k | k in keys && k in at && pick(at[k])
  }

  lemma {:induction false} CountedByKey<K, V>(at: map<K, V>, keys: seq<K>, values: seq<V>, pick: V -> bool)
    requires Distinct(keys) && |values| == |keys|
    requires forall i | 0 <= i < |keys| :: keys[i] in at && values[i] == at[keys[i]]
    ensures |Filter(values, pick)| == |Passing(at, keys, pick)|
  {
    if keys == [] {
      assert Passing(at, keys, pick) == {};
    } else {
      var n := |keys| - 1;
      CountedByKey(at, keys[..n], values[..n], pick);
      PassingNext(at, keys[..n], keys[n], pick);
      assert keys == keys[..n] + [keys[n]];
    }
  }

  lemma PassingNext<K, V>(at: map<K, V>, front: seq<K>, last: K, pick: V -> bool)
    requires last !in front && last in at
    ensures |Passing(at, front + [last], pick)| == |Passing(at, front, pick)| + if pick(at[last]) then 1 else 0
  {
    var before, after := Passing(at, front, pick), Passing(at, front + [last], pick);
    assert after == if pick(at[last]) then before + {last} else before;
  }

  ghost function ChainsThat(m: Mesh, pick: Chain -> bool): set<string> {
    set id | id in m.chains.at && pick(m.chains.at[id])
  }

  ghost function ObligationsThat(m: Mesh, pick: Obligation -> bool): set<string> {
    set id | id in m.obligations.at && pick(m.obligations.at[id])
  }

  lemma ChainsCounted(m: Mesh, pick: Chain -> bool)
    ensures |Filter(m.chains.Values(), pick)| == |ChainsThat(m, pick)|
  {
    var keys := m.chains.keys;
    forall i | 0 <= i < |keys| ensures keys[i] in m.chains.at { assert keys[i] in keys; }
    CountedByKey(m.chains.at, keys, m.chains.Values(), pick);
    assert ChainsThat(m, pick) == Passing(m.chains.at, keys, pick);
  }

  lemma ObligationsCounted(m: Mesh, pick: Obligation -> bool)
    ensures |Filter(m.obligations.Values(), pick)| == |ObligationsThat(m, pick)|
  {
    var keys := m.obligations.keys;
    forall i | 0 <= i < |keys| ensures keys[i] in m.obligations.at { assert keys[i] in keys; }
    CountedByKey(m.obligations.at, keys, m.obligations.Values(), pick);
    assert ObligationsThat(m, pick) == Passing(m.obligations.at, keys, pick);
  }

  /** The chain counts of the witness are the numbers of chains in each condition. */
  lemma WitnessChains(m: Mesh, now: int)
    ensures var seen := ResponsibilityWitness(m, now);
            && seen.pending == |set id | id in m.chains.at && m.chains.at[id].status == ChainStatus.Pending|
            && seen.overdue == |set id | id in m.chains.at && m.chains.at[id].status == ChainStatus.Pending
                                         && m.chains.at[id].dueAt <= now|
            && seen.expired == |set id | id in m.chains.at && m.chains.at[id].status == ChainStatus.Expired|
  {
    ChainsCounted(m, HasStatus(ChainStatus.Pending));
    ChainsCounted(m, Overdue(now));
    ChainsCounted(m, HasStatus(ChainStatus.Expired));
    assert ChainsThat(m, HasStatus(ChainStatus.Pending))
           == set id | id in m.chains.at && m.chains.at[id].status == ChainStatus.Pending;
    assert ChainsThat(m, Overdue(now)) == set id | id in m.chains.at && m.chains.at[id].status == ChainStatus.Pending
                                                   && m.chains.at[id].dueAt <= now;
    assert ChainsThat(m, HasStatus(ChainStatus.Expired))
           == set id | id in m.chains.at && m.chains.at[id].status == ChainStatus.Expired;
  }

  ghost function Owing(m: Mesh, kind: Kind): set<string> {
    set id | id in m.obligations.at && m.obligations.at[id].kind == kind
             && (m.obligations.at[id].status == Open || m.obligations.at[id].status == Escalated)
  }

  /** Its obligation counts likewise, by status and, of those not yet settled, by kind. */
  lemma WitnessObligations(m: Mesh, now: int)
    ensures var seen := ResponsibilityWitness(m, now);
            && seen.openObligations == |set id | id in m.obligations.at && m.obligations.at[id].status == Open|
            && seen.overdueObligations == |set id | id in m.obligations.at && m.obligations.at[id].status == Open
                                                    && m.obligations.at[id].dueAt <= now|
            && seen.escalated == |set id | id in m.obligations.at && m.obligations.at[id].status == Escalated|
  {
    ObligationsCounted(m, IsOpen());
    ObligationsCounted(m, Late(now));
    ObligationsCounted(m, IsEscalated());
    assert ObligationsThat(m, IsOpen()) == set id | id in m.obligations.at && m.obligations.at[id].status == Open;
    assert ObligationsThat(m, Late(now)) == set id | id in m.obligations.at && m.obligations.at[id].status == Open
                                                     && m.obligations.at[id].dueAt <= now;
    assert ObligationsThat(m, IsEscalated())
           == set id | id in m.obligations.at && m.obligations.at[id].status == Escalated;
  }

  lemma WitnessReviews(m: Mesh, now: int)
    ensures var seen := ResponsibilityWitness(m, now);
            && seen.riskReviews == |Owing(m, RiskReview)| && seen.caseReviews == |Owing(m, CaseReview)|
            && seen.compensationReviews == |Owing(m, CompensationReview)|
  {
    OwingCounted(m, RiskReview);
    OwingCounted(m, CaseReview);
    OwingCounted(m, CompensationReview);
  }

  lemma OwingCounted(m: Mesh, kind: Kind)
    ensures |Filter(m.obligations.Values(), Active(kind))| == |Owing(m, kind)|
  {
    ObligationsCounted(m, Active(kind));
    assert ObligationsThat(m, Active(kind)) == Owing(m, kind);
  }

  /** It is clear exactly when nothing is overdue, expired, escalated or unowned. */
  lemma WitnessClearIff(m: Mesh, now: int)
    ensures ResponsibilityWitness(m, now).clear <==>
            && (forall id | id in m.chains.at ::
                  m.chains.at[id].status != ChainStatus.Expired
                  && (m.chains.at[id].status == ChainStatus.Pending ==> m.chains.at[id].dueAt > now))
            && (forall id | id in m.obligations.at ::
                  m.obligations.at[id].status != Escalated
                  && (m.obligations.at[id].status == Open ==> m.obligations.at[id].dueAt > now))
            && m.unowned == {}
    ensures ResponsibilityWitness(m, now).unowned == |m.unowned|
  {
    NoChainThat(m, Overdue(now));
    NoChainThat(m, HasStatus(ChainStatus.Expired));
    NoObligationThat(m, Late(now));
    NoObligationThat(m, IsEscalated());
  }

  lemma NoChainThat(m: Mesh, pick: Chain -> bool)
    ensures |Filter(m.chains.Values(), pick)| == 0 <==> forall id | id in m.chains.at :: !pick(m.chains.at[id])
  {
    ChainsCounted(m, pick);
    if id :| id in m.chains.at && pick(m.chains.at[id]) { assert id in ChainsThat(m, pick); }
  }

  lemma NoObligationThat(m: Mesh, pick: Obligation -> bool)
    ensures |Filter(m.obligations.Values(), pick)| == 0 <==>
            forall id | id in m.obligations.at :: !pick(m.obligations.at[id])
  {
    ObligationsCounted(m, pick);
    if id :| id in m.obligations.at && pick(m.obligations.at[id]) { assert id in ObligationsThat(m, pick); }
  }
}
