/** The overdue sweeps: complete, idempotent, one event each, and what they do to the current chain of a command. */
module AuthoritySweeps {
  import opened Collections
  import opened AuthorityMesh
  import opened AuthorityRuns

  // ----- Chain sweeps, exactly -----------------------------------------------------------

  function Swept(pick: Chain -> bool, to: ChainStatus): Chain -> Chain {
    (c: Chain) => if pick(c) then WithStatus(to)(c) else c
  }

  function PickedOf(pick: Chain -> bool, command: string): Chain -> bool {
    (c: Chain) => pick(c) && c.commandId == command
  }

  ghost predicate Current(m: Mesh, list: seq<Chain>) {
    forall c | c in list :: c.chainId in m.chains.at && m.chains.at[c.chainId] == c
  }

  /** Every listed chain that is picked has its new status, and no other has changed. */
  ghost predicate SweptTable(m: Mesh, after: Mesh, list: seq<Chain>, pick: Chain -> bool, to: ChainStatus) {
    after.chains.keys == m.chains.keys
    && forall id | id in m.chains.at ::
         id in after.chains.at
         && after.chains.at[id] == if m.chains.at[id] in list then Swept(pick, to)(m.chains.at[id]) else m.chains.at[id]
  }

  lemma ListedWith(m: Mesh, front: seq<Chain>, c: Chain, id: string)
    requires id in m.chains.at && m.chains.at[id].chainId == id && Current(m, front + [c])
    ensures c.chainId in m.chains.at && m.chains.at[c.chainId] == c
    ensures m.chains.at[id] in front + [c] <==> m.chains.at[id] in front || id == c.chainId
  {
    assert c in front + [c];
  }

  function SaveIf(before: Mesh, c: Chain, picked: bool, to: ChainStatus, e: Event): Mesh {
    if picked then SaveChain(before, c.(status := to)).(events := before.events + [e]) else before
  }

  lemma SweptEntry(m: Mesh, before: Mesh, front: seq<Chain>, c: Chain, pick: Chain -> bool, to: ChainStatus,
                   e: Event, id: string)
    requires SweptTable(m, before, front, pick, to) && Current(m, front + [c])
    requires id in m.chains.at && m.chains.at[id].chainId == id
    ensures var after := SaveIf(before, c, pick(c), to, e);
            id in after.chains.at
            && after.chains.at[id]
               == if m.chains.at[id] in front + [c] then Swept(pick, to)(m.chains.at[id]) else m.chains.at[id]
  {
    ListedWith(m, front, c, id);
    SavedAt(before, c, pick(c), to, e, id);
    if id == c.chainId { assert m.chains.at[id] == c; }
  }

  lemma SavedAt(before: Mesh, c: Chain, picked: bool, to: ChainStatus, e: Event, id: string)
    requires id in before.chains.at
    ensures var after := SaveIf(before, c, picked, to, e).chains.at;
            id in after && after[id] == if picked && id == c.chainId then c.(status := to) else before.chains.at[id]
  {
  }

  lemma SaveSweptTable(m: Mesh, before: Mesh, front: seq<Chain>, c: Chain, pick: Chain -> bool, to: ChainStatus,
                       e: Event)
    requires SweptTable(m, before, front, pick, to) && Current(m, front + [c])
    requires forall id | id in m.chains.at :: m.chains.at[id].chainId == id
    ensures SweptTable(m, SaveIf(before, c, pick(c), to, e), front + [c], pick, to)
  {
    assert c in front + [c];
    assert c.chainId in before.chains.at;
    var after := SaveIf(before, c, pick(c), to, e);
    forall id | id in m.chains.at
      ensures id in after.chains.at
      ensures after.chains.at[id]
              == if m.chains.at[id] in front + [c] then Swept(pick, to)(m.chains.at[id]) else m.chains.at[id]
    {
      SweptEntry(m, before, front, c, pick, to, e, id);
    }
  }

  lemma {:induction false} SweepChainsTable(m: Mesh, list: seq<Chain>, pick: Chain -> bool, to: ChainStatus,
                                            event: Chain -> Event)
    requires Current(m, list) && forall id | id in m.chains.at :: m.chains.at[id].chainId == id
    ensures SweptTable(m, SweepChains(m, list, pick, to, event).0, list, pick, to)
  {
    if list != [] {
      var front, c := list[..|list| - 1], list[|list| - 1];
      assert list == front + [c];
      SweepChainsTable(m, front, pick, to, event);
      SaveSweptTable(m, SweepChains(m, front, pick, to, event).0, front, c, pick, to, event(WithStatus(to)(c)));
    }
  }

  /** The returned chains and the new events are those of the picked chains, in order. */
  lemma {:induction false} SweepChainsReturns(m: Mesh, list: seq<Chain>, pick: Chain -> bool, to: ChainStatus,
                                              event: Chain -> Event)
    ensures var (after, done) := SweepChains(m, list, pick, to, event);
            && done == Map(Filter(list, pick), WithStatus(to))
            && after.events == m.events + Map(done, event)
  {
    if list != [] {
      SweepChainsReturns(m, list[..|list| - 1], pick, to, event);
      var kept, c := Filter(list[..|list| - 1], pick), list[|list| - 1];
      MapConcat(kept, [c], WithStatus(to));
      MapConcat(Map(kept, WithStatus(to)), [WithStatus(to)(c)], event);
    }
  }

  /** The sweep leaves each command pointing at the last of its chains that was picked, if any was. */
  lemma {:induction false} SweepChainsIndex(m: Mesh, list: seq<Chain>, pick: Chain -> bool, to: ChainStatus,
                                            event: Chain -> Event, command: string)
    ensures var after, mine := SweepChains(m, list, pick, to, event).0, Filter(list, PickedOf(pick, command));
            if mine == [] then (command in after.commandChain <==> command in m.commandChain)
                               && (command in m.commandChain ==> after.commandChain[command] == m.commandChain[command])
            else command in after.commandChain && after.commandChain[command] == mine[|mine| - 1].chainId
  {
    if list != [] {
      var front, c := list[..|list| - 1], list[|list| - 1];
      SweepChainsIndex(m, front, pick, to, event, command);
      var before := SweepChains(m, front, pick, to, event).0.commandChain;
      assert SweepChains(m, list, pick, to, event).0.commandChain
             == if pick(c) then before[c.commandId := c.chainId] else before;
    }
  }

  lemma CurrentValues(w: World, m: Mesh)
    requires Inv(w, m)
    ensures Current(m, m.chains.Values())
    ensures forall id | id in m.chains.at :: m.chains.at[id] in m.chains.Values()
  {
    ValuesOk(w, m);
    forall id | id in m.chains.at ensures m.chains.at[id] in m.chains.Values() {
      var i :| 0 <= i < |m.chains.keys| && m.chains.keys[i] == id;
      assert m.chains.Values()[i] == m.chains.at[id];
    }
  }

  /** A sweep of the whole table, as a map over its listing. */
  lemma SweepAll(w: World, m: Mesh, pick: Chain -> bool, to: ChainStatus, event: Chain -> Event)
    requires Inv(w, m)
    ensures var (after, done) := SweepChains(m, m.chains.Values(), pick, to, event);
            && after.chains.Values() == Map(m.chains.Values(), Swept(pick, to))
            && done == Map(Filter(m.chains.Values(), pick), WithStatus(to))
            && after.events == m.events + Map(done, event)
            && after.obligations == m.obligations && after.unowned == m.unowned
  {
    CurrentValues(w, m);
    SweepChainsTable(m, m.chains.Values(), pick, to, event);
    SweepChainsReturns(m, m.chains.Values(), pick, to, event);
    SweepOnlyStatus(m, m.chains.Values(), pick, to, event);
    var after := SweepChains(m, m.chains.Values(), pick, to, event).0;
    forall i | 0 <= i < |m.chains.keys| ensures after.chains.Values()[i] == Map(m.chains.Values(), Swept(pick, to))[i] {
      assert m.chains.keys[i] in m.chains.keys;
      assert m.chains.Values()[i] == m.chains.at[m.chains.keys[i]];
    }
  }

  lemma {:induction false} SweepNothing(m: Mesh, list: seq<Chain>, pick: Chain -> bool, to: ChainStatus,
                                        event: Chain -> Event)
    requires forall c | c in list :: !pick(c)
    ensures SweepChains(m, list, pick, to, event) == (m, [])
  {
    if list != [] {
      assert list[|list| - 1] in list && forall x | x in list[..|list| - 1] :: x in list;
      SweepNothing(m, list[..|list| - 1], pick, to, event);
    }
  }

  // ----- The witness --------------------------------------------------------------------

  datatype Witness = Witness(clear: bool, pending: nat, overdue: nat, expired: nat, openObligations: nat,
                             overdueObligations: nat, escalated: nat, riskReviews: nat, compensationReviews: nat,
                             caseReviews: nat, unowned: nat)

  function HasStatus(s: ChainStatus): Chain -> bool { (c: Chain) => c.status == s }
  function IsOpen(): Obligation -> bool { (o: Obligation) => o.status == Open }
  function IsEscalated(): Obligation -> bool { (o: Obligation) => o.status == Escalated }

  function Active(kind: Kind): Obligation -> bool {
    (o: Obligation) => o.kind == kind && (o.status == Open || o.status == Escalated)
  }

  function ResponsibilityWitness(m: Mesh, now: int): Witness {
    var chains, obligations := m.chains.Values(), m.obligations.Values();
    var overdue, expired := |Filter(chains, Overdue(now))|, |Filter(chains, HasStatus(Expired))|;
    var late, escalated := |Filter(obligations, Late(now))|, |Filter(obligations, IsEscalated())|;
    Witness(overdue == 0 && expired == 0 && late == 0 && escalated == 0 && |m.unowned| == 0,
            |Filter(chains, HasStatus(Pending))|, overdue, expired, |Filter(obligations, IsOpen())|, late, escalated,
            |Filter(obligations, Active(RiskReview))|, |Filter(obligations, Active(CompensationReview))|,
            |Filter(obligations, Active(CaseReview))|, |m.unowned|)
  }

  lemma {:induction false} CountAfter<T>(s: seq<T>, f: T -> T, p: T -> bool, before: T -> bool)
    requires forall x | x in s :: before(x) == p(f(x))
    ensures |Filter(Map(s, f), p)| == |Filter(s, before)|
  {
    FilterMap(s, f, p, before);
  }

  function Never<T>(): T -> bool { x => false }

  lemma {:induction false} CountNone<T>(s: seq<T>, p: T -> bool)
    requires forall x | x in s :: !p(x)
    ensures |Filter(s, p)| == 0
  {
    FilterNone(s, p);
  }

  function WasOrOverdue(now: int): Chain -> bool { (c: Chain) => c.status == Expired || Overdue(now)(c) }
  function PendingInTime(now: int): Chain -> bool { (c: Chain) => c.status == Pending && !Overdue(now)(c) }

  lemma ExpiredCounts(all: seq<Chain>, now: int)
    ensures var after, n := Map(all, Swept(Overdue(now), Expired)), |Filter(all, Overdue(now))|;
            && Filter(after, Overdue(now)) == []
            && |Filter(after, HasStatus(Expired))| == |Filter(all, HasStatus(Expired))| + n
            && |Filter(after, HasStatus(Pending))| == |Filter(all, HasStatus(Pending))| - n
  {
    var f := Swept(Overdue(now), Expired);
    FilterMap(all, f, Overdue(now), Never());
    FilterNone(all, Never());
    CountAfter(all, f, HasStatus(Expired), WasOrOverdue(now));
    FilterUnionLength(all, HasStatus(Expired), Overdue(now), WasOrOverdue(now));
    CountAfter(all, f, HasStatus(Pending), PendingInTime(now));
    FilterUnionLength(all, PendingInTime(now), Overdue(now), HasStatus(Pending));
  }

  /** Expiry leaves nothing overdue, moves exactly the overdue chains from pending to expired with one event each,
      and a second sweep at the same instant does nothing. */
  lemma ExpireCompleteAndIdempotent(w: World, m: Mesh, now: int)
    requires Inv(w, m)
    ensures var (after, expired) := Expire(m, now);
            var before, later := ResponsibilityWitness(m, now), ResponsibilityWitness(after, now);
            && |expired| == before.overdue && later.overdue == 0
            && later.expired == before.expired + |expired| && later.pending == before.pending - |expired|
            && after.events == m.events + Map(expired, ExpiredEvent(now))
            && Expire(after, now) == (after, [])
  {
    SweepAll(w, m, Overdue(now), Expired, ExpiredEvent(now));
    ExpiredCounts(m.chains.Values(), now);
    var after := Expire(m, now).0;
    forall c | c in after.chains.Values() ensures !Overdue(now)(c) {
      FilterMember(after.chains.Values(), Overdue(now), c);
    }
    SweepNothing(after, after.chains.Values(), Overdue(now), Expired, ExpiredEvent(now));
  }

  function StaysExpired(tenant: string, command: string): Chain -> bool {
    (c: Chain) => c.status == Expired && !Closable(tenant, command)(c)
  }

  /** Closing removes exactly the matching expired chains from the count, and needs evidence to do anything. */
  lemma CloseExact(w: World, m: Mesh, refs: seq<string>, tenant: string, command: string, now: int)
    requires Inv(w, m)
    ensures var (after, r) := CloseExpired(m, refs, tenant, command, now);
            var before, later := ResponsibilityWitness(m, now), ResponsibilityWitness(after, now);
            && (r.Ok? <==> refs != []) && (r.Err? ==> after == m)
            && (r.Ok? ==>
                  && |r.value| == |Filter(m.chains.Values(), Closable(tenant, command))|
                  && after.events == m.events + Map(r.value, ClosedEvent(now, refs))
                  && later.expired == before.expired - |r.value| && later.overdue == before.overdue
                     && later.pending == before.pending
                  && (tenant == "" && command == "" ==> later.expired == 0))
  {
    if refs != [] {
      SweepAll(w, m, Closable(tenant, command), Denied, ClosedEvent(now, refs));
      var all, f := m.chains.Values(), Swept(Closable(tenant, command), Denied);
      CountAfter(all, f, HasStatus(Expired), StaysExpired(tenant, command));
      FilterUnionLength(all, StaysExpired(tenant, command), Closable(tenant, command), HasStatus(Expired));
      CountAfter(all, f, Overdue(now), Overdue(now));
      CountAfter(all, f, HasStatus(Pending), HasStatus(Pending));
      if tenant == "" && command == "" { CountNone(all, StaysExpired(tenant, command)); }
    }
  }

  /** The two chain sweeps in a row clear every chain debt the witness counts. */
  lemma ExpireThenCloseClearsChains(w: World, m: Mesh, refs: seq<string>, now: int)
    requires Inv(w, m) && refs != []
    ensures var after := CloseExpired(Expire(m, now).0, refs, "", "", now).0;
            ResponsibilityWitness(after, now).overdue == 0 && ResponsibilityWitness(after, now).expired == 0
  {
    ExpireCompleteAndIdempotent(w, m, now);
    assert Step(w, m, ExpireOverdue(now)) == Expire(m, now).0;
    StepKeepsInv(w, m, ExpireOverdue(now));
    CloseExact(w, Expire(m, now).0, refs, "", "", now);
  }

  // ----- The current chain of a command --------------------------------------------------

  /** Some stored chain of the command is picked. */
  ghost predicate SomePicked(m: Mesh, pick: Chain -> bool, command: string) {
    exists id | id in m.chains.at :: PickedOf(pick, command)(m.chains.at[id])
  }

  lemma PickedIff(w: World, m: Mesh, pick: Chain -> bool, command: string)
    requires Inv(w, m)
    ensures var mine := Filter(m.chains.Values(), PickedOf(pick, command));
            && (mine != [] <==> SomePicked(m, pick, command))
            && (mine != [] ==> var last := mine[|mine| - 1];
                               last.chainId in m.chains.at && m.chains.at[last.chainId] == last
                               && PickedOf(pick, command)(last))
  {
    CurrentValues(w, m);
    var all, mine := m.chains.Values(), Filter(m.chains.Values(), PickedOf(pick, command));
    if mine != [] {
      var last := mine[|mine| - 1];
      assert last in mine;
      FilterMember(all, PickedOf(pick, command), last);
    } else {
      forall id | id in m.chains.at ensures !PickedOf(pick, command)(m.chains.at[id]) {
        FilterMember(all, PickedOf(pick, command), m.chains.at[id]);
      }
    }
  }

  lemma SweptAt(w: World, m: Mesh, pick: Chain -> bool, to: ChainStatus, event: Chain -> Event)
    requires Inv(w, m)
    ensures var after := SweepChains(m, m.chains.Values(), pick, to, event).0;
            forall id | id in m.chains.at ::
              id in after.chains.at && after.chains.at[id] == Swept(pick, to)(m.chains.at[id])
  {
    CurrentValues(w, m);
    SweepChainsTable(m, m.chains.Values(), pick, to, event);
  }

  /** The command's current chain is satisfied. */
  ghost predicate Stands(m: Mesh, command: string) {
    ChainFor(m, command).Some? && ChainFor(m, command).value.status == Satisfied
  }

  /** A sweep that never picks a satisfied chain still takes the command away from one, exactly when it picks any
      other chain of that command; the command is then on a chain of the sweep's own status. */
  lemma SweepStandsIff(w: World, m: Mesh, pick: Chain -> bool, to: ChainStatus, event: Chain -> Event, command: string)
    requires Inv(w, m) && Stands(m, command) && to != Satisfied
    requires forall c | pick(c) :: c.status != Satisfied
    ensures var after := SweepChains(m, m.chains.Values(), pick, to, event).0;
            && ChainFor(after, command).Some?
            && (Stands(after, command) <==> !SomePicked(m, pick, command))
            && (!Stands(after, command) ==> ChainFor(after, command).value.status == to)
  {
    PickedIff(w, m, pick, command);
    SweptAt(w, m, pick, to, event);
    SweepChainsIndex(m, m.chains.Values(), pick, to, event, command);
  }

  /** A satisfied command still shows its satisfied chain after the expiry sweep exactly when no chain of that
      command, however old, was overdue. */
  lemma SatisfiedStandsIff(w: World, m: Mesh, now: int, command: string)
    requires Inv(w, m) && Stands(m, command)
    ensures var after := Expire(m, now).0;
            && ChainFor(after, command).Some?
            && (Stands(after, command) <==> !SomePicked(m, Overdue(now), command))
            && (!Stands(after, command) ==> ChainFor(after, command).value.status == Expired)
  {
    SweepStandsIff(w, m, Overdue(now), Expired, ExpiredEvent(now), command);
  }

  // ----- Obligations ---------------------------------------------------------------------

  function Raised(now: int): Obligation -> Obligation {
    (o: Obligation) => if Late(now)(o) then AsEscalated()(o) else o
  }

  ghost predicate RaisedTable(m: Mesh, after: Mesh, list: seq<Obligation>, now: int) {
    after.obligations.keys == m.obligations.keys
    && forall id | id in m.obligations.at ::
         id in after.obligations.at
         && after.obligations.at[id]
            == if m.obligations.at[id] in list then Raised(now)(m.obligations.at[id]) else m.obligations.at[id]
  }

  ghost predicate CurrentObligations(m: Mesh, list: seq<Obligation>) {
    forall o | o in list :: o.obligationId in m.obligations.at && m.obligations.at[o.obligationId] == o
  }

  lemma ListedObligationWith(m: Mesh, front: seq<Obligation>, o: Obligation, id: string)
    requires id in m.obligations.at && m.obligations.at[id].obligationId == id && CurrentObligations(m, front + [o])
    ensures o.obligationId in m.obligations.at && m.obligations.at[o.obligationId] == o
    ensures m.obligations.at[id] in front + [o] <==> m.obligations.at[id] in front || id == o.obligationId
  {
    assert o in front + [o];
  }

  function RaiseIf(before: Mesh, o: Obligation, late: bool, e: Event): Mesh {
    if late then SaveObligation(before, AsEscalated()(o)).(events := before.events + [e]) else before
  }

  lemma RaisedEntry(m: Mesh, before: Mesh, front: seq<Obligation>, o: Obligation, now: int, e: Event, id: string)
    requires RaisedTable(m, before, front, now) && CurrentObligations(m, front + [o])
    requires id in m.obligations.at && m.obligations.at[id].obligationId == id
    ensures var after := RaiseIf(before, o, Late(now)(o), e);
            id in after.obligations.at
            && after.obligations.at[id]
               == if m.obligations.at[id] in front + [o] then Raised(now)(m.obligations.at[id])
               else m.obligations.at[id]
  {
    ListedObligationWith(m, front, o, id);
  }

  lemma SaveRaisedTable(m: Mesh, before: Mesh, front: seq<Obligation>, o: Obligation, now: int, e: Event)
    requires RaisedTable(m, before, front, now) && CurrentObligations(m, front + [o])
    requires forall id | id in m.obligations.at :: m.obligations.at[id].obligationId == id
    ensures RaisedTable(m, RaiseIf(before, o, Late(now)(o), e), front + [o], now)
  {
    assert o in front + [o];
    assert o.obligationId in before.obligations.at;
    var after := RaiseIf(before, o, Late(now)(o), e);
    forall id | id in m.obligations.at
      ensures id in after.obligations.at
      ensures after.obligations.at[id]
              == if m.obligations.at[id] in front + [o] then Raised(now)(m.obligations.at[id]) else m.obligations.at[id]
    {
      RaisedEntry(m, before, front, o, now, e, id);
    }
  }

  lemma {:induction false} SweepObligationsTable(w: World, m: Mesh, list: seq<Obligation>, now: int)
    requires CurrentObligations(m, list)
    requires forall id | id in m.obligations.at :: m.obligations.at[id].obligationId == id
    ensures RaisedTable(m, SweepObligations(w, m, list, now).0, list, now)
  {
    if list != [] {
      var front, o := list[..|list| - 1], list[|list| - 1];
      assert list == front + [o];
      SweepObligationsTable(w, m, front, now);
      var before := SweepObligations(w, m, front, now).0;
      SaveRaisedTable(m, before, front, o, now, EscalatedEvent(w, before, now)(AsEscalated()(o)));
    }
  }

  lemma {:induction false} SweepObligationsReturns(w: World, m: Mesh, list: seq<Obligation>, now: int)
    ensures var (after, done) := SweepObligations(w, m, list, now);
            && done == Map(Filter(list, Late(now)), AsEscalated())
            && after.events == m.events + Map(done, EscalatedEvent(w, m, now))
  {
    if list != [] {
      var front, o := list[..|list| - 1], list[|list| - 1];
      SweepObligationsReturns(w, m, front, now);
      if Late(now)(o) { EscalateOneReturns(w, m, list, now); }
    }
  }

  lemma EscalateOneReturns(w: World, m: Mesh, list: seq<Obligation>, now: int)
    requires list != [] && Late(now)(list[|list| - 1])
    ensures var front, u := list[..|list| - 1], AsEscalated()(list[|list| - 1]);
            var (before, done) := SweepObligations(w, m, front, now);
            && SweepObligations(w, m, list, now).1 == done + [u]
            && SweepObligations(w, m, list, now).0.events == before.events + [EscalatedEvent(w, m, now)(u)]
            && Map(Filter(list, Late(now)), AsEscalated()) == Map(Filter(front, Late(now)), AsEscalated()) + [u]
            && Map(done + [u], EscalatedEvent(w, m, now))
               == Map(done, EscalatedEvent(w, m, now)) + [EscalatedEvent(w, m, now)(u)]
  {
    var front, u := list[..|list| - 1], AsEscalated()(list[|list| - 1]);
    SameEvent(w, m, front, now);
    MapConcat(Filter(front, Late(now)), [list[|list| - 1]], AsEscalated());
    MapConcat(SweepObligations(w, m, front, now).1, [u], EscalatedEvent(w, m, now));
  }

  /** The route of an escalation does not depend on the sweep under way. */
  lemma SameEvent(w: World, m: Mesh, list: seq<Obligation>, now: int)
    ensures EscalatedEvent(w, SweepObligations(w, m, list, now).0, now) == EscalatedEvent(w, m, now)
  {
    SweepObligationsShape(w, m, list, now);
  }

  lemma {:induction false} EscalateNothing(w: World, m: Mesh, list: seq<Obligation>, now: int)
    requires forall o | o in list :: !Late(now)(o)
    ensures SweepObligations(w, m, list, now) == (m, [])
  {
    if list != [] {
      assert list[|list| - 1] in list && forall x | x in list[..|list| - 1] :: x in list;
      EscalateNothing(w, m, list[..|list| - 1], now);
    }
  }

  lemma EscalateAll(w: World, m: Mesh, now: int)
    requires Inv(w, m)
    ensures var (after, done) := Escalate(w, m, now);
            && after.obligations.Values() == Map(m.obligations.Values(), Raised(now))
            && after.chains == m.chains && after.unowned == m.unowned
  {
    ValuesOk(w, m);
    var all, after := m.obligations.Values(), Escalate(w, m, now).0;
    SweepObligationsTable(w, m, all, now);
    SweepObligationsShape(w, m, all, now);
    forall i | 0 <= i < |m.obligations.keys| ensures after.obligations.Values()[i] == Map(all, Raised(now))[i] {
      assert m.obligations.keys[i] in m.obligations.keys;
      assert all[i] == m.obligations.at[m.obligations.keys[i]] && all[i] in all;
    }
  }

  function WasOrLate(now: int): Obligation -> bool { (o: Obligation) => o.status == Escalated || Late(now)(o) }
  function OpenInTime(now: int): Obligation -> bool { (o: Obligation) => o.status == Open && !Late(now)(o) }

  lemma RaisedCounts(all: seq<Obligation>, now: int)
    ensures var after, n := Map(all, Raised(now)), |Filter(all, Late(now))|;
            && Filter(after, Late(now)) == []
            && |Filter(after, IsEscalated())| == |Filter(all, IsEscalated())| + n
            && |Filter(after, IsOpen())| == |Filter(all, IsOpen())| - n
            && forall k :: |Filter(after, Active(k))| == |Filter(all, Active(k))|
  {
    var f := Raised(now);
    FilterMap(all, f, Late(now), Never());
    FilterNone(all, Never());
    CountAfter(all, f, IsEscalated(), WasOrLate(now));
    FilterUnionLength(all, IsEscalated(), Late(now), WasOrLate(now));
    CountAfter(all, f, IsOpen(), OpenInTime(now));
    FilterUnionLength(all, OpenInTime(now), Late(now), IsOpen());
    forall k ensures |Filter(Map(all, f), Active(k))| == |Filter(all, Active(k))| {
      CountAfter(all, f, Active(k), Active(k));
    }
  }

  /** Escalation leaves nothing overdue, raises the escalated count by exactly the number returned with one event
      each, and a second sweep at the same instant changes nothing. */
  lemma EscalateCompleteAndIdempotent(w: World, m: Mesh, now: int)
    requires Inv(w, m)
    ensures var (after, escalated) := Escalate(w, m, now);
            var before, later := ResponsibilityWitness(m, now), ResponsibilityWitness(after, now);
            && |escalated| == before.overdueObligations && later.overdueObligations == 0
            && later.escalated == before.escalated + |escalated|
               && later.openObligations == before.openObligations - |escalated|
            && later.riskReviews == before.riskReviews && later.compensationReviews == before.compensationReviews
            && later.caseReviews == before.caseReviews
            && after.events == m.events + Map(escalated, EscalatedEvent(w, m, now))
            && Escalate(w, after, now) == (after, [])
  {
    EscalateAll(w, m, now);
    SweepObligationsReturns(w, m, m.obligations.Values(), now);
    var after := Escalate(w, m, now).0;
    RaisedCounts(m.obligations.Values(), now);
    forall o | o in after.obligations.Values() ensures !Late(now)(o) {
      FilterMember(after.obligations.Values(), Late(now), o);
    }
    EscalateNothing(w, after, after.obligations.Values(), now);
  }
}
