/** Obligations over whole runs: the per-command index against the full table, and evidence for what is satisfied. */
module AuthorityObligations {
  import opened Collections
  import opened AuthorityMesh
  import opened AuthorityRuns

  function Belongs(table: Dict<string, Obligation>, command: string): string -> bool {
    id => id in table.at && table.at[id].commandId == command
  }

  /** The secondary index lists exactly the stored ids of each command, in storing order. */
  ghost predicate IndexMatches(m: Mesh) {
    forall c :: IdsFor(m, c) == Filter(m.obligations.keys, Belongs(m.obligations, c))
  }

  lemma SameObligationsSameIndex(m: Mesh, after: Mesh)
    requires m.obligations == after.obligations && m.commandObligations == after.commandObligations
    ensures IndexMatches(m) <==> IndexMatches(after)
  {
    assert forall c :: IdsFor(m, c) == IdsFor(after, c);
  }

  lemma IndexAfterSave(m: Mesh, o: Obligation, c: string)
    requires IdsFor(m, c) == Filter(m.obligations.keys, Belongs(m.obligations, c))
    requires o.obligationId in m.obligations.at ==> m.obligations.at[o.obligationId].commandId == o.commandId
    ensures IdsFor(SaveObligation(m, o), c)
            == Filter(SaveObligation(m, o).obligations.keys, Belongs(SaveObligation(m, o).obligations, c))
  {
    var id, keys, table := o.obligationId, m.obligations.keys, SaveObligation(m, o).obligations;
    FilterExt(keys, Belongs(m.obligations, c), Belongs(table, c));
    FilterMember(keys, Belongs(m.obligations, c), id);
    if id !in m.obligations.at { assert (keys + [id])[..|keys|] == keys; }
  }

  lemma SaveObligationKeepsIndex(m: Mesh, o: Obligation)
    requires IndexMatches(m)
    requires o.obligationId in m.obligations.at ==> m.obligations.at[o.obligationId].commandId == o.commandId
    ensures IndexMatches(SaveObligation(m, o))
  {
    var after := SaveObligation(m, o);
    forall c ensures IdsFor(after, c) == Filter(after.obligations.keys, Belongs(after.obligations, c)) {
      assert IdsFor(m, c) == Filter(m.obligations.keys, Belongs(m.obligations, c));
      IndexAfterSave(m, o, c);
    }
  }

  /** Nothing but statuses, events and the index differs. */
  ghost predicate OnlyObligationStatusDiffers(m: Mesh, after: Mesh) {
    && after == m.(obligations := after.obligations, commandObligations := after.commandObligations,
                   events := after.events)
    && after.obligations.keys == m.obligations.keys
    && forall id | id in after.obligations.at ::
         id in m.obligations.at
         && after.obligations.at[id] == m.obligations.at[id].(status := after.obligations.at[id].status)
  }

  lemma EscalateOne(m: Mesh, before: Mesh, o: Obligation, e: Event)
    requires OnlyObligationStatusDiffers(m, before) && o.obligationId in m.obligations.at
             && m.obligations.at[o.obligationId] == o
    ensures OnlyObligationStatusDiffers(m, SaveObligation(before, AsEscalated()(o)).(events := before.events + [e]))
  {
    assert o.obligationId in before.obligations.keys;
  }

  lemma EscalateOneKeepsIndex(m: Mesh, before: Mesh, o: Obligation, e: Event)
    requires OnlyObligationStatusDiffers(m, before) && o.obligationId in m.obligations.at
             && m.obligations.at[o.obligationId] == o
    requires IndexMatches(before)
    ensures IndexMatches(SaveObligation(before, AsEscalated()(o)).(events := before.events + [e]))
  {
    assert o.obligationId in before.obligations.keys;
    SaveObligationKeepsIndex(before, AsEscalated()(o));
    SameObligationsSameIndex(SaveObligation(before, AsEscalated()(o)),
                             SaveObligation(before, AsEscalated()(o)).(events := before.events + [e]));
  }

  lemma {:induction false} SweepObligationsOnlyStatus(w: World, m: Mesh, list: seq<Obligation>, now: int)
    requires forall o | o in list :: o.obligationId in m.obligations.at && m.obligations.at[o.obligationId] == o
    ensures OnlyObligationStatusDiffers(m, SweepObligations(w, m, list, now).0)
    ensures IndexMatches(m) ==> IndexMatches(SweepObligations(w, m, list, now).0)
  {
    if list != [] {
      var front, o := list[..|list| - 1], list[|list| - 1];
      assert o in list && forall x | x in front :: x in list;
      SweepObligationsOnlyStatus(w, m, front, now);
      var before := SweepObligations(w, m, front, now).0;
      EscalateOne(m, before, o, EscalatedEvent(w, before, now)(AsEscalated()(o)));
      if IndexMatches(m) && Late(now)(o) {
        EscalateOneKeepsIndex(m, before, o, EscalatedEvent(w, before, now)(AsEscalated()(o)));
      }
    }
  }

  function OpenedKeys(w: World, m: Mesh, op: Op): set<ObligationKey> {
    if !op.OpenPostClosure? then {}
    else
      match Owed(w, m, op.command, op.certificate, op.now).1
      case Ok(Some(o)) => {ObligationKeyOf(o)}
      case _ => {}
  }

  /** Every input the run's obligation ids were hashed from. */
  function ObligationKeys(w: World, ops: seq<Op>): set<ObligationKey> {
    if ops == [] then {}
    else ObligationKeys(w, ops[..|ops| - 1]) + OpenedKeys(w, Run(w, ops[..|ops| - 1]), ops[|ops| - 1])
  }

  ghost predicate KeysKnown(m: Mesh, keys: set<ObligationKey>) {
    forall id | id in m.obligations.at :: ObligationKeyOf(m.obligations.at[id]) in keys
  }

  lemma EscalateOnlyStatus(w: World, m: Mesh, now: int)
    requires Inv(w, m)
    ensures OnlyObligationStatusDiffers(m, Escalate(w, m, now).0)
            && (IndexMatches(m) ==> IndexMatches(Escalate(w, m, now).0))
  {
    ValuesOk(w, m);
    SweepObligationsOnlyStatus(w, m, m.obligations.Values(), now);
  }

  lemma StepKeepsIndex(w: World, m: Mesh, op: Op, keys: set<ObligationKey>)
    requires Inv(w, m) && IndexMatches(m) && KeysKnown(m, keys)
    requires CollisionFree(w.obligationId, keys) && OpenedKeys(w, m, op) <= keys
    ensures IndexMatches(Step(w, m, op)) && KeysKnown(Step(w, m, op), keys)
  {
    match op
    case OpenPostClosure(command, cert, now) => OpenKeepsIndex(w, m, command, cert, now, keys);
    case SatisfyObligation(id, refs) => SatisfyKeepsIndex(w, m, id, refs, keys);
    case EscalateOverdue(now) => EscalateKeepsIndex(w, m, now, keys);
    case _ =>
      StepFrame(w, m, op);
      SameObligationsSameIndex(m, Step(w, m, op));
  }

  lemma SatisfyKeepsIndex(w: World, m: Mesh, id: string, refs: seq<string>, keys: set<ObligationKey>)
    requires Inv(w, m) && IndexMatches(m) && KeysKnown(m, keys)
    ensures IndexMatches(Satisfy(m, id, refs).0) && KeysKnown(Satisfy(m, id, refs).0, keys)
  {
    if Satisfy(m, id, refs).1.Ok? { SaveObligationKeepsIndex(m, m.obligations.at[id].(status := Fulfilled)); }
  }

  lemma EscalateKeepsIndex(w: World, m: Mesh, now: int, keys: set<ObligationKey>)
    requires Inv(w, m) && IndexMatches(m) && KeysKnown(m, keys)
    ensures IndexMatches(Escalate(w, m, now).0) && KeysKnown(Escalate(w, m, now).0, keys)
  {
    EscalateOnlyStatus(w, m, now);
  }

  lemma OpenKeepsIndex(w: World, m: Mesh, command: string, cert: Certificate, now: int, keys: set<ObligationKey>)
    requires Inv(w, m) && IndexMatches(m) && KeysKnown(m, keys)
    requires CollisionFree(w.obligationId, keys) && OpenedKeys(w, m, OpenPostClosure(command, cert, now)) <= keys
    ensures var after := OpenObligations(w, m, command, cert, now).0; IndexMatches(after) && KeysKnown(after, keys)
  {
    OwedShape(w, m, command, cert, now);
    var (noted, owed) := Owed(w, m, command, cert, now);
    SameObligationsSameIndex(m, noted);
    if owed.Ok? && owed.value.Some? {
      var o := owed.value.value;
      assert ObligationKeyOf(o) in OpenedKeys(w, m, OpenPostClosure(command, cert, now));
      SaveObligationKeepsIndex(noted, o);
    }
  }

  lemma {:induction false} RunKeepsIndex(w: World, ops: seq<Op>, keys: set<ObligationKey>)
    requires ObligationKeys(w, ops) <= keys && CollisionFree(w.obligationId, keys)
    ensures IndexMatches(Run(w, ops)) && KeysKnown(Run(w, ops), keys)
  {
    if ops != [] {
      RunKeepsIndex(w, ops[..|ops| - 1], keys);
      RunKeepsInv(w, ops[..|ops| - 1]);
      StepKeepsIndex(w, Run(w, ops[..|ops| - 1]), ops[|ops| - 1], keys);
    }
  }

  function OfCommand(command: string): Obligation -> bool { (o: Obligation) => o.commandId == command }

  function Stored(at: map<string, Obligation>, ids: seq<string>): (r: seq<Obligation>)
    requires forall id | id in ids :: id in at
    ensures |r| == |ids| && forall i | 0 <= i < |ids| :: r[i] == at[ids[i]]
  {
    seq(|ids|, i requires 0 <= i < |ids| => assert ids[i] in ids; at[ids[i]])
  }

  lemma {:induction false} StoredFilter(table: Dict<string, Obligation>, ids: seq<string>, command: string)
    requires forall id | id in ids :: id in table.at
    ensures forall id | id in Filter(ids, Belongs(table, command)) :: id in table.at
    ensures Stored(table.at, Filter(ids, Belongs(table, command))) == Filter(Stored(table.at, ids), OfCommand(command))
  {
    if ids != [] {
      var front, last := ids[..|ids| - 1], ids[|ids| - 1];
      assert last in ids && forall id | id in front :: id in ids;
      StoredFilter(table, front, command);
      var kept := Filter(front, Belongs(table, command));
      assert ids == front + [last];
      StoredNext(table.at, front, last);
      FilterAppend(Stored(table.at, front), [table.at[last]], OfCommand(command));
      assert [table.at[last]][..0] == [];
      if Belongs(table, command)(last) { StoredNext(table.at, kept, last); }
    }
  }

  lemma StoredNext(at: map<string, Obligation>, ids: seq<string>, id: string)
    requires id in at && forall x | x in ids :: x in at
    ensures Stored(at, ids + [id]) == Stored(at, ids) + [at[id]]
  {
  }

  lemma ListedIsFilter(m: Mesh, command: string)
    requires IndexStored(m) && IndexMatches(m) && command != ""
    ensures ListObligations(m, command) == Filter(m.obligations.Values(), OfCommand(command))
  {
    StoredFilter(m.obligations, m.obligations.keys, command);
    assert Stored(m.obligations.at, m.obligations.keys) == m.obligations.Values();
    assert ListObligations(m, command) == Stored(m.obligations.at, IdsFor(m, command));
  }

  /** Looking obligations up by command is the same as filtering the full list, order included. */
  lemma IndexEqualsFilter(w: World, ops: seq<Op>, keys: set<ObligationKey>, command: string)
    requires ObligationKeys(w, ops) <= keys && CollisionFree(w.obligationId, keys) && command != ""
    ensures var m := Run(w, ops);
            IndexStored(m) && ListObligations(m, command) == Filter(ListObligations(m, ""), OfCommand(command))
  {
    RunKeepsInv(w, ops);
    RunKeepsIndex(w, ops, keys);
    ListedIsFilter(Run(w, ops), command);
  }

  /** An obligation that may be saved: its index is in order, and its id is new or its own command's. */
  ghost predicate Savable(m: Mesh, o: Obligation) {
    && IndexStored(m) && IndexMatches(m) && o.commandId != ""
    && (o.obligationId in m.obligations.at ==> m.obligations.at[o.obligationId].commandId == o.commandId)
  }

  /** What readers see after a save: a new obligation at the end of its command's list, a known one in its old place,
      and every other command's list as before. */
  ghost predicate ListedAfter(m: Mesh, after: Mesh, o: Obligation)
    requires IndexStored(m)
  {
    && IndexStored(after) && IndexMatches(after)
    && (forall k | k != o.commandId && k != "" :: ListObligations(after, k) == ListObligations(m, k))
    && (o.obligationId !in m.obligations.at
        ==> ListObligations(after, o.commandId) == ListObligations(m, o.commandId) + [o])
    && (o.obligationId in m.obligations.at
        ==> ListObligations(after, o.commandId) == Replaced(m, IdsFor(m, o.commandId), o))
  }

  /** The stored obligations of `ids`, with `o` in the place of its id. */
  ghost function Replaced(m: Mesh, ids: seq<string>, o: Obligation): seq<Obligation> {
    seq(|ids|, i requires 0 <= i < |ids| =>
        if ids[i] in m.obligations.at && ids[i] != o.obligationId then m.obligations.at[ids[i]] else o)
  }

  lemma SavedObligationListed(m: Mesh, o: Obligation)
    requires Savable(m, o)
    ensures ListedAfter(m, SaveObligation(m, o), o)
  {
    SaveObligationKeepsIndex(m, o);
    SavedStaysStored(m, o);
    forall k | k != o.commandId && k != "" ensures ListObligations(SaveObligation(m, o), k) == ListObligations(m, k) {
      OthersListed(m, o, k);
    }
    if o.obligationId in m.obligations.at { KnownListed(m, o); } else { NewListed(m, o); }
  }

  lemma OthersListed(m: Mesh, o: Obligation, k: string)
    requires Savable(m, o) && IndexStored(SaveObligation(m, o)) && k != o.commandId && k != ""
    ensures ListObligations(SaveObligation(m, o), k) == ListObligations(m, k)
  {
    FilterMember(m.obligations.keys, Belongs(m.obligations, k), o.obligationId);
    assert IdsFor(m, k) == Filter(m.obligations.keys, Belongs(m.obligations, k));
    assert IdsFor(SaveObligation(m, o), k) == IdsFor(m, k);
  }

  lemma NewListed(m: Mesh, o: Obligation)
    requires Savable(m, o) && IndexStored(SaveObligation(m, o)) && o.obligationId !in m.obligations.at
    ensures ListObligations(SaveObligation(m, o), o.commandId) == ListObligations(m, o.commandId) + [o]
  {
    FilterMember(m.obligations.keys, Belongs(m.obligations, o.commandId), o.obligationId);
    assert IdsFor(m, o.commandId) == Filter(m.obligations.keys, Belongs(m.obligations, o.commandId));
    assert IdsFor(SaveObligation(m, o), o.commandId) == IdsFor(m, o.commandId) + [o.obligationId];
  }

  lemma KnownListed(m: Mesh, o: Obligation)
    requires Savable(m, o) && IndexStored(SaveObligation(m, o)) && o.obligationId in m.obligations.at
    ensures ListObligations(SaveObligation(m, o), o.commandId) == Replaced(m, IdsFor(m, o.commandId), o)
  {
    FilterMember(m.obligations.keys, Belongs(m.obligations, o.commandId), o.obligationId);
    assert IdsFor(m, o.commandId) == Filter(m.obligations.keys, Belongs(m.obligations, o.commandId));
    assert IdsFor(SaveObligation(m, o), o.commandId) == IdsFor(m, o.commandId);
  }

  lemma SavedStaysStored(m: Mesh, o: Obligation)
    requires IndexStored(m)
    ensures IndexStored(SaveObligation(m, o))
  {
    var after := SaveObligation(m, o);
    forall c | c in after.commandObligations
      ensures forall id | id in after.commandObligations[c] :: id in after.obligations.at {
      if c in m.commandObligations { assert forall id | id in m.commandObligations[c] :: id in m.obligations.at; }
    }
  }

  // ----- Evidence -----------------------------------------------------------------------

  ghost predicate Covers(refs: seq<string>, required: seq<string>) {
    forall name | name in required :: RefSatisfies(name, refs)
  }

  /** Satisfaction succeeds exactly on a live obligation whose every required evidence is referenced. */
  lemma SatisfyIff(m: Mesh, id: string, refs: seq<string>)
    ensures Satisfy(m, id, refs).1.Ok? <==>
              && id in m.obligations.at && (m.obligations.at[id].status == Open
                                            || m.obligations.at[id].status == Escalated)
              && Covers(refs, m.obligations.at[id].evidenceRequired)
    ensures Satisfy(m, id, refs).1.Err? ==> Satisfy(m, id, refs).0 == m
  {
    if id in m.obligations.at {
      var required := m.obligations.at[id].evidenceRequired;
      forall name ensures name in Filter(required, Unmet(refs)) <==> name in required && !RefSatisfies(name, refs) {
        FilterMember(required, Unmet(refs), name);
      }
      if Filter(required, Unmet(refs)) == [] {
        assert forall name | name in required :: name !in Filter(required, Unmet(refs));
        if required != [] { assert RefSatisfies(required[0], refs); }
      } else {
        var name := Filter(required, Unmet(refs))[0];
        assert name in Filter(required, Unmet(refs));
      }
    }
  }

  ghost predicate FulfilledAt(ops: seq<Op>, i: nat, o: Obligation) {
    i < |ops| && ops[i].SatisfyObligation? && ops[i].id == o.obligationId && Covers(ops[i].refs, o.evidenceRequired)
  }

  lemma OpenedIsOpen(w: World, m: Mesh, command: string, cert: Certificate, now: int, id: string)
    ensures var after := OpenObligations(w, m, command, cert, now).0;
            id in after.obligations.at ==>
              after.obligations.at[id].status == Open
              || (id in m.obligations.at && m.obligations.at[id] == after.obligations.at[id])
  {
    OwedShape(w, m, command, cert, now);
  }

  lemma EscalateLeavesFulfilled(w: World, m: Mesh, now: int, id: string)
    requires Inv(w, m) && id in Escalate(w, m, now).0.obligations.at
             && Escalate(w, m, now).0.obligations.at[id].status == Fulfilled
    ensures id in m.obligations.at && m.obligations.at[id] == Escalate(w, m, now).0.obligations.at[id]
  {
    ValuesOk(w, m);
    SweepLeavesFulfilled(w, m, m.obligations.Values(), now, id);
  }

  lemma FulfilmentComesFrom(w: World, m: Mesh, op: Op, id: string)
    requires Inv(w, m)
    requires id in Step(w, m, op).obligations.at && Step(w, m, op).obligations.at[id].status == Fulfilled
    ensures var o := Step(w, m, op).obligations.at[id];
            (id in m.obligations.at && m.obligations.at[id] == o) || FulfilledAt([op], 0, o)
  {
    match op
    case OpenPostClosure(command, cert, now) => OpenedIsOpen(w, m, command, cert, now, id);
    case SatisfyObligation(target, refs) => SatisfyIff(m, target, refs);
    case EscalateOverdue(now) => EscalateLeavesFulfilled(w, m, now, id);
    case _ => StepFrame(w, m, op);
  }

  lemma {:induction false} SweepLeavesFulfilled(w: World, m: Mesh, list: seq<Obligation>, now: int, id: string)
    requires id in SweepObligations(w, m, list, now).0.obligations.at
    requires forall o | o in list :: o.obligationId in m.obligations.at
    ensures SweepObligations(w, m, list, now).0.obligations.at[id].status == Fulfilled ==>
              id in m.obligations.at && m.obligations.at[id] == SweepObligations(w, m, list, now).0.obligations.at[id]
  {
    if list != [] {
      assert forall x | x in list[..|list| - 1] :: x in list;
      if id in SweepObligations(w, m, list[..|list| - 1], now).0.obligations.at {
        SweepLeavesFulfilled(w, m, list[..|list| - 1], now, id);
      }
    }
  }

  /** Every obligation recorded as satisfied was satisfied by a call naming all its required evidence. */
  lemma {:induction false} SatisfiedOnEvidence(w: World, ops: seq<Op>, id: string)
    requires id in Run(w, ops).obligations.at && Run(w, ops).obligations.at[id].status == Fulfilled
    ensures exists i: nat :: FulfilledAt(ops, i, Run(w, ops).obligations.at[id])
  {
    if ops != [] {
      var front, last := ops[..|ops| - 1], |ops| - 1;
      var o := Run(w, ops).obligations.at[id];
      RunKeepsInv(w, front);
      FulfilmentComesFrom(w, Run(w, front), ops[last], id);
      if FulfilledAt([ops[last]], 0, o) {
        assert FulfilledAt(ops, last, o);
      } else {
        SatisfiedOnEvidence(w, front, id);
        var i: nat :| FulfilledAt(front, i, o);
        assert FulfilledAt(ops, i, o);
      }
    }
  }
}
