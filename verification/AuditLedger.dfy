/** The ledger the auditor reads, as the code builds it: commands created and moved from state to state, every move
    witnessed by an event. Such a ledger passes the auditor's chain and replay checks. */
module AuditLedger {
  import opened Collections
  import opened AuditTrace

  /** The live state of every command and the log. */
  datatype Ledger = Ledger(states: map<string, CommandState>, events: seq<CommandEvent>)

  const EMPTY := Ledger(map[], [])

  /** A call with what its event says; the ledger itself fills in hashes, and the states it knows. */
  datatype Op = Create(draft: CommandEvent) | Transition(draft: CommandEvent)

  function Step(hash: Hasher, l: Ledger, op: Op): Ledger {
    var id := op.draft.commandId;
    match op
    case Create(draft) =>
      Ledger(l.states[id := RECEIVED], Append(hash, l.events, draft.(previousState := RECEIVED, nextState := RECEIVED)))
    case Transition(draft) =>
      if id !in l.states then l
      else Ledger(l.states[id := draft.nextState], Append(hash, l.events, draft.(previousState := l.states[id])))
  }

  ghost function Run(hash: Hasher, ops: seq<Op>): Ledger {
    if ops == [] then EMPTY else Step(hash, Run(hash, ops[..|ops| - 1]), ops[|ops| - 1])
  }

  function OfCommand(id: string): CommandEvent -> bool { (e: CommandEvent) => e.commandId == id }

  /** events_for: the log as one command sees it. */
  function EventsFor(l: Ledger, id: string): seq<CommandEvent> { Filter(l.events, OfCommand(id)) }

  /** The command's events walk to its live state; an unknown command has none. */
  ghost predicate ReplaysAs(l: Ledger, id: string) {
    if id in l.states then Replays(EventsFor(l, id), l.states[id]) else EventsFor(l, id) == []
  }

  ghost predicate AllReplay(l: Ledger) { forall id :: ReplaysAs(l, id) }

  lemma {:induction false} LedgerIntact(hash: Hasher, ops: seq<Op>)
    ensures Intact(hash, Run(hash, ops).events)
  {
    if ops != [] {
      var l, op := Run(hash, ops[..|ops| - 1]), ops[|ops| - 1];
      LedgerIntact(hash, ops[..|ops| - 1]);
      match op
      case Create(draft) => AppendKeepsIntact(hash, l.events, draft.(previousState := RECEIVED, nextState := RECEIVED));
      case Transition(draft) =>
        if draft.commandId in l.states {
          AppendKeepsIntact(hash, l.events, draft.(previousState := l.states[draft.commandId]));
        }
    }
  }

  /** One more event is seen by its own command and by no other. */
  lemma SeenByItsCommand(hash: Hasher, l: Ledger, draft: CommandEvent, states: map<string, CommandState>, id: string)
    ensures var after := Ledger(states, Append(hash, l.events, draft));
            if id == draft.commandId
            then exists e :: EventsFor(after, id) == EventsFor(l, id) + [e]
                             && e.previousState == draft.previousState && e.nextState == draft.nextState
            else EventsFor(after, id) == EventsFor(l, id)
  {
    var all := Append(hash, l.events, draft);
    var e := all[|l.events|];
    assert all == l.events + [e];
    FilterAppend(l.events, [e], OfCommand(id));
    assert [e][..0] == [];
    assert Filter([e], OfCommand(id)) == if e.commandId == id then [e] else [];
  }

  /** A walk goes on with one more event exactly when that event starts where the walk has arrived. */
  lemma OneMoreReplays(events: seq<CommandEvent>, live: CommandState, e: CommandEvent)
    requires Replays(events, live)
    ensures Replays(events + [e], e.nextState) <==> e.previousState == live
  {
    var more := events + [e];
    forall i | 0 <= i < |events| ensures Continues(more, i) { assert Continues(events, i); }
    assert Continues(more, |events|) <==> e.previousState == live;
  }

  lemma FirstReplays(e: CommandEvent)
    requires e.previousState == RECEIVED && e.nextState == RECEIVED
    ensures Replays([e], RECEIVED)
  {
    assert Continues([e], 0);
  }

  /** Creating a command anew, or one that has not moved yet. */
  predicate CreatesUnmoved(l: Ledger, op: Op) {
    op.Create? && op.draft.commandId in l.states ==> l.states[op.draft.commandId] == RECEIVED
  }

  lemma OwnReplayIff(hash: Hasher, l: Ledger, op: Op)
    requires ReplaysAs(l, op.draft.commandId)
    ensures ReplaysAs(Step(hash, l, op), op.draft.commandId) <==> CreatesUnmoved(l, op)
  {
    var id, draft := op.draft.commandId, op.draft;
    if op.Create? {
      var received := draft.(previousState := RECEIVED, nextState := RECEIVED);
      SeenByItsCommand(hash, l, received, l.states[id := RECEIVED], id);
      var e :| EventsFor(Step(hash, l, op), id) == EventsFor(l, id) + [e] && e.previousState == RECEIVED
               && e.nextState == RECEIVED;
      if id in l.states { OneMoreReplays(EventsFor(l, id), l.states[id], e); } else { FirstReplays(e); }
    } else if id in l.states {
      SeenByItsCommand(hash, l, draft.(previousState := l.states[id]), l.states[id := draft.nextState], id);
      var e :| EventsFor(Step(hash, l, op), id) == EventsFor(l, id) + [e]
               && e.previousState == l.states[id] && e.nextState == draft.nextState;
      OneMoreReplays(EventsFor(l, id), l.states[id], e);
    }
  }

  lemma OthersReplay(hash: Hasher, l: Ledger, op: Op, id: string)
    requires id != op.draft.commandId
    ensures ReplaysAs(Step(hash, l, op), id) <==> ReplaysAs(l, id)
  {
    var own, draft := op.draft.commandId, op.draft;
    if op.Create? {
      SeenByItsCommand(hash, l, draft.(previousState := RECEIVED, nextState := RECEIVED), l.states[own := RECEIVED],
                       id);
    } else if own in l.states {
      SeenByItsCommand(hash, l, draft.(previousState := l.states[own]), l.states[own := draft.nextState], id);
    }
  }

  /** A call keeps every command replaying to its live state exactly when it does not create again a command that has
      moved on. */
  lemma StepReplaysIff(hash: Hasher, l: Ledger, op: Op)
    requires AllReplay(l)
    ensures AllReplay(Step(hash, l, op)) <==> CreatesUnmoved(l, op)
  {
    assert ReplaysAs(l, op.draft.commandId);
    OwnReplayIff(hash, l, op);
    if CreatesUnmoved(l, op) {
      forall id ensures ReplaysAs(Step(hash, l, op), id) {
        assert ReplaysAs(l, id);
        if id != op.draft.commandId { OthersReplay(hash, l, op, id); }
      }
    }
  }

  /** Every command is created under an id never used before. */
  ghost predicate FreshIds(hash: Hasher, ops: seq<Op>) {
    forall i | 0 <= i < |ops| && ops[i].Create? :: ops[i].draft.commandId !in Run(hash, ops[..i]).states
  }

  lemma FreshFront(hash: Hasher, ops: seq<Op>)
    requires FreshIds(hash, ops) && ops != []
    ensures FreshIds(hash, ops[..|ops| - 1])
    ensures ops[|ops| - 1].Create? ==> ops[|ops| - 1].draft.commandId !in Run(hash, ops[..|ops| - 1]).states
  {
    var front := ops[..|ops| - 1];
    forall i | 0 <= i < |front| && front[i].Create? ensures front[i].draft.commandId !in Run(hash, front[..i]).states {
      assert front[..i] == ops[..i] && front[i] == ops[i];
    }
  }

  /** With fresh ids, in every run every command replays to its live state, so the auditor finds neither gap nor
      divergence. */
  lemma {:induction false} LedgerReplays(hash: Hasher, ops: seq<Op>)
    requires FreshIds(hash, ops)
    ensures AllReplay(Run(hash, ops))
  {
    if ops != [] {
      FreshFront(hash, ops);
      LedgerReplays(hash, ops[..|ops| - 1]);
      StepReplaysIff(hash, Run(hash, ops[..|ops| - 1]), ops[|ops| - 1]);
    } else {
      forall id ensures ReplaysAs(EMPTY, id) {}
    }
  }
}
