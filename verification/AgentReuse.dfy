/** What reusing an agent id costs: exactly when storing an agent keeps authority inherited, ancestries rooted and
    accepted tasks in scope, in one call and throughout a run. */
module AgentReuse {
  import opened Collections
  import opened Ordering
  import opened AgentRuntime

  // ----- Inherited authority ----------------------------------------------------------

  /** Storing an agent keeps every child inside its parent exactly when the children already stored under that id fit
      inside the newcomer. */
  lemma OverwriteKeepsAttenuationIff(r: Runtime, op: Op)
    requires Attenuated(r.agents) && NewAgent(r, op).Some?
    ensures Attenuated(Step(r, op).agents) <==> ChildrenFit(r.agents, NewAgent(r, op).value)
  {
    NewAgentShape(r, op);
    OverwriteIff(r.agents, NewAgent(r, op).value);
  }

  ghost predicate ChildrenFit(agents: map<string, Identity>, a: Identity) {
    forall id | id in agents && id != a.agentId && agents[id].parentAgentId == a.agentId :: Within(agents[id], a)
  }

  lemma OverwriteIff(agents: map<string, Identity>, a: Identity)
    requires Attenuated(agents) && a.agentId != ""
    requires a.parentAgentId == "" || (a.parentAgentId in agents && Within(a, agents[a.parentAgentId]))
    ensures Attenuated(agents[a.agentId := a]) <==> ChildrenFit(agents, a)
  {
    var after := agents[a.agentId := a];
    if ChildrenFit(agents, a) {
      forall id | id in after ensures ParentBound(after, id) {
        if id != a.agentId { assert ParentBound(agents, id); }
      }
    } else {
      var id :| id in agents && id != a.agentId && agents[id].parentAgentId == a.agentId && !Within(agents[id], a);
      assert !ParentBound(after, id);
    }
  }

  // ----- Rooted ancestries ------------------------------------------------------------

  /** Following parents from `id` ends at a root. */
  ghost predicate Rooted(agents: map<string, Identity>, id: string) { exists n: nat :: RootAt(agents, id, n) }

  ghost predicate RootAt(agents: map<string, Identity>, id: string, n: nat) {
    Above(agents, id, n).Some? && agents[Above(agents, id, n).value].parentAgentId == ""
  }

  ghost predicate AllRooted(agents: map<string, Identity>) { forall id | id in agents :: Rooted(agents, id) }

  /** `x` is met when following parents from `y`, `y` itself included. */
  ghost predicate IsAbove(agents: map<string, Identity>, x: string, y: string) {
    exists n: nat :: Above(agents, y, n) == Some(x)
  }

  lemma {:induction false} AboveAdd(agents: map<string, Identity>, id: string, m: nat, n: nat)
    requires Above(agents, id, m).Some?
    ensures Above(agents, id, m + n) == Above(agents, Above(agents, id, m).value, n)
    decreases m
  {
    if m > 0 { AboveAdd(agents, agents[id].parentAgentId, m - 1, n); }
  }

  lemma RootedByParent(agents: map<string, Identity>, id: string)
    requires id in agents && agents[id].parentAgentId != "" && Rooted(agents, agents[id].parentAgentId)
    ensures Rooted(agents, id)
  {
    var n: nat :| RootAt(agents, agents[id].parentAgentId, n);
    assert RootAt(agents, id, n + 1);
  }

  /** A cycle of parents meets no root. */
  lemma {:induction false} CycleHasNoRoot(agents: map<string, Identity>, x: string, c: nat, n: nat)
    requires c > 0 && Above(agents, x, c) == Some(x)
    ensures !RootAt(agents, x, n)
    decreases n
  {
    if n >= c {
      AboveAdd(agents, x, c, n - c);
      CycleHasNoRoot(agents, x, c, n - c);
    } else if Above(agents, x, n).Some? {
      AboveAdd(agents, x, n, c - n);
    }
  }

  /** Going up to the overwritten id takes no longer afterwards. */
  lemma {:induction false} StillAbove(agents: map<string, Identity>, a: Identity, id: string, k: nat) returns (j: nat)
    requires Above(agents, id, k) == Some(a.agentId)
    ensures Above(agents[a.agentId := a], id, j) == Some(a.agentId)
    decreases k
  {
    if id == a.agentId { return 0; }
    j := StillAbove(agents, a, agents[id].parentAgentId, k - 1);
    j := j + 1;
  }

  lemma {:induction false} RootedAvoiding(agents: map<string, Identity>, a: Identity, id: string, n: nat)
    requires RootAt(agents, id, n) && !IsAbove(agents, a.agentId, id)
    ensures Rooted(agents[a.agentId := a], id)
    decreases n
  {
    assert Above(agents, id, 0) == Some(id);
    var after := agents[a.agentId := a];
    if n == 0 {
      assert RootAt(after, id, 0);
    } else {
      var p := agents[id].parentAgentId;
      forall m: nat ensures Above(agents, p, m) != Some(a.agentId) {
        assert Above(agents, id, m + 1) == Above(agents, p, m);
      }
      RootedAvoiding(agents, a, p, n - 1);
      RootedByParent(after, id);
    }
  }

  lemma {:induction false} RootedAfter(agents: map<string, Identity>, a: Identity, id: string, n: nat)
    requires RootAt(agents, id, n) && Rooted(agents[a.agentId := a], a.agentId)
    ensures Rooted(agents[a.agentId := a], id)
    decreases n
  {
    var after := agents[a.agentId := a];
    if id != a.agentId {
      if n == 0 {
        assert RootAt(after, id, 0);
      } else {
        RootedAfter(agents, a, agents[id].parentAgentId, n - 1);
        RootedByParent(after, id);
      }
    }
  }

  /** Storing an agent keeps every ancestry rooted exactly when its id is not met above its own parent. */
  lemma StoreKeepsRootsIff(agents: map<string, Identity>, a: Identity)
    requires AllRooted(agents) && a.agentId != "" && (a.parentAgentId == "" || a.parentAgentId in agents)
    ensures AllRooted(agents[a.agentId := a]) <==> a.parentAgentId == "" || !IsAbove(agents, a.agentId, a.parentAgentId)
  {
    var after, p := agents[a.agentId := a], a.parentAgentId;
    if p != "" && IsAbove(agents, a.agentId, p) {
      var k: nat :| Above(agents, p, k) == Some(a.agentId);
      var j := StillAbove(agents, a, p, k);
      assert Above(after, a.agentId, j + 1) == Some(a.agentId);
      forall n: nat ensures !RootAt(after, a.agentId, n) { CycleHasNoRoot(after, a.agentId, j + 1, n); }
      assert a.agentId in after && !Rooted(after, a.agentId);
    } else {
      NewcomerRooted(agents, a);
      forall id | id in after ensures Rooted(after, id) {
        if id != a.agentId {
          var n: nat :| RootAt(agents, id, n);
          RootedAfter(agents, a, id, n);
        }
      }
    }
  }

  lemma NewcomerRooted(agents: map<string, Identity>, a: Identity)
    requires AllRooted(agents) && (a.parentAgentId == "" || a.parentAgentId in agents)
    requires a.parentAgentId == "" || !IsAbove(agents, a.agentId, a.parentAgentId)
    ensures Rooted(agents[a.agentId := a], a.agentId)
  {
    var after, p := agents[a.agentId := a], a.parentAgentId;
    if p == "" {
      assert RootAt(after, a.agentId, 0);
    } else {
      var n: nat :| RootAt(agents, p, n);
      RootedAvoiding(agents, a, p, n);
      RootedByParent(after, a.agentId);
    }
  }

  /** The same of a call: registering or spawning over an id loses roots exactly when that id is an ancestor of the
      parent. */
  lemma OverwriteKeepsRootsIff(r: Runtime, op: Op)
    requires AllRooted(r.agents) && NewAgent(r, op).Some?
    ensures var a := NewAgent(r, op).value;
            AllRooted(Step(r, op).agents) <==> a.parentAgentId == "" || !IsAbove(r.agents, a.agentId, a.parentAgentId)
  {
    NewAgentShape(r, op);
    StoreKeepsRootsIff(r.agents, NewAgent(r, op).value);
  }

  /** A lineage that ends in its own beginning: storing a parent again under one of its descendants, with the
      authority it had, breaks no scope and leaves its line without a root. */
  lemma ReusedAncestorHasNoRoot(r: Runtime, op: Op)
    requires Attenuated(r.agents) && AllRooted(r.agents) && NewAgent(r, op).Some?
    requires var a := NewAgent(r, op).value;
             && a.parentAgentId != "" && IsAbove(r.agents, a.agentId, a.parentAgentId)
             && a.agentId in r.agents && Within(r.agents[a.agentId], a)
    ensures Attenuated(Step(r, op).agents) && !AllRooted(Step(r, op).agents)
  {
    var a := NewAgent(r, op).value;
    NewAgentShape(r, op);
    SameOrMoreFits(r.agents, a);
    OverwriteKeepsAttenuationIff(r, op);
    OverwriteKeepsRootsIff(r, op);
  }

  lemma SameOrMoreFits(agents: map<string, Identity>, a: Identity)
    requires Attenuated(agents) && a.agentId in agents && a.agentId != "" && Within(agents[a.agentId], a)
    ensures ChildrenFit(agents, a)
  {
    forall id | id in agents && id != a.agentId && agents[id].parentAgentId == a.agentId
      ensures Within(agents[id], a)
    {
      assert ParentBound(agents, id);
    }
  }

  /** An agent that says `w` wherever a text is asked for. */
  function Member(id: string, parent: string, w: string): Identity {
    Identity(id, w, w, Active, [w], [w], 0, parent, w, [w])
  }

  function Joining(id: string, parent: string, w: string): Op {
    Spawn(SpawnRequest(parent, id, w, w, [w], [w], 0, w, w, [w]), w)
  }

  ghost predicate Word(w: string) { !Blank(w) && Normalized([w]) == [w] && w !in FORBIDDEN_AUTHORITY_CAPABILITIES }

  lemma OneLetter(c: char)
    requires !IsSpace(c)
    ensures Word([c])
  {
    NormalizedLetter(c);
    Allowed([c]);
  }

  lemma Allowed(w: string)
    requires |w| == 1
    ensures w !in FORBIDDEN_AUTHORITY_CAPABILITIES
  {
  }

  lemma MemberIsMade(id: string, parent: string, w: string)
    requires !Blank(id) && Word(w)
    ensures MakeIdentity(Member(id, parent, w)) == Ok(Member(id, parent, w))
  {
  }

  lemma MemberJoins(r: Runtime, id: string, parent: string, grand: string, w: string)
    requires parent in r.agents && r.agents[parent] == Member(parent, grand, w) && !Blank(id) && Word(w)
    ensures NewAgent(r, Joining(id, parent, w)) == Some(Member(id, parent, w))
    ensures Step(r, Joining(id, parent, w)).agents == r.agents[id := Member(id, parent, w)]
  {
    MemberIsMade(id, parent, w);
  }

  lemma RootJoins(id: string, w: string)
    requires !Blank(id) && Word(w)
    ensures Step(EMPTY, RegisterRoot(Member(id, "", w))).agents == map[id := Member(id, "", w)]
  {
    MemberIsMade(id, "", w);
  }

  ghost predicate Line(agents: map<string, Identity>, a: string, b: string, c: string, w: string) {
    agents == map[a := Member(a, "", w), b := Member(b, a, w), c := Member(c, b, w)]
  }

  ghost function ThreeJoined(a: string, b: string, c: string, w: string): Runtime {
    Step(Step(Step(EMPTY, RegisterRoot(Member(a, "", w))), Joining(b, a, w)), Joining(c, b, w))
  }

  lemma ThreeInLine(a: string, b: string, c: string, w: string)
    requires Distinct([a, b, c]) && !Blank(a) && !Blank(b) && !Blank(c) && Word(w)
    ensures Line(ThreeJoined(a, b, c, w).agents, a, b, c, w)
  {
    var ids := [a, b, c];
    assert ids[0] != ids[1] && ids[1] != ids[2] && ids[0] != ids[2];
    RootJoins(a, w);
    var one := Step(EMPTY, RegisterRoot(Member(a, "", w)));
    MemberJoins(one, b, a, "", w);
    MemberJoins(Step(one, Joining(b, a, w)), c, b, a, w);
  }

  /** A root, its child, its grandchild, and the root's id spawned again below the grandchild. */
  lemma LineageClosesOnItself(a: string, b: string, c: string, w: string)
    requires Distinct([a, b, c]) && !Blank(a) && !Blank(b) && !Blank(c) && Word(w)
    ensures var three := ThreeJoined(a, b, c, w); var closed := Step(three, Joining(a, c, w));
            && AllRooted(three.agents) && Attenuated(three.agents)
            && Attenuated(closed.agents) && !AllRooted(closed.agents)
  {
    ThreeInLine(a, b, c, w);
    LineStands(ThreeJoined(a, b, c, w).agents, a, b, c, w);
    LineCloses(ThreeJoined(a, b, c, w), a, b, c, w);
  }

  lemma LineCloses(r: Runtime, a: string, b: string, c: string, w: string)
    requires Distinct([a, b, c]) && !Blank(a) && !Blank(b) && !Blank(c) && Word(w)
    requires Line(r.agents, a, b, c, w)
    ensures Attenuated(Step(r, Joining(a, c, w)).agents) && !AllRooted(Step(r, Joining(a, c, w)).agents)
  {
    LineStands(r.agents, a, b, c, w);
    assert r.agents[c] == Member(c, b, w) && Within(r.agents[a], Member(a, c, w));
    MemberJoins(r, a, c, b, w);
    ReusedAncestorHasNoRoot(r, Joining(a, c, w));
  }

  lemma LineStands(agents: map<string, Identity>, a: string, b: string, c: string, w: string)
    requires Distinct([a, b, c]) && a != "" && b != "" && c != "" && Line(agents, a, b, c, w)
    ensures AllRooted(agents) && Attenuated(agents) && IsAbove(agents, a, c) && a in agents && c in agents
    ensures agents[a] == Member(a, "", w) && agents[c] == Member(c, b, w)
  {
    var ids := [a, b, c];
    assert ids[0] != ids[1] && ids[1] != ids[2] && ids[0] != ids[2];
    assert RootAt(agents, a, 0);
    assert RootAt(agents, b, 1);
    assert Above(agents, c, 2) == Some(a) && RootAt(agents, c, 2);
  }

  /** An agent spawned under its own id becomes its own parent. */
  lemma SpawnUnderItself(id: string, w: string)
    requires !Blank(id) && Word(w)
    ensures var one := Step(EMPTY, RegisterRoot(Member(id, "", w)));
            AllRooted(one.agents) && !AllRooted(Step(one, Joining(id, id, w)).agents)
  {
    var one := Step(EMPTY, RegisterRoot(Member(id, "", w)));
    RootJoins(id, w);
    MemberJoins(one, id, id, "", w);
    assert RootAt(one.agents, id, 0) && Above(one.agents, id, 0) == Some(id);
    OverwriteKeepsRootsIff(one, Joining(id, id, w));
  }

  /** Such lines exist. */
  lemma LetterLine()
    ensures Word("x") && Distinct(["a", "b", "c"]) && !Blank("a") && !Blank("b") && !Blank("c")
  {
    OneLetter('x');
    OneLetter('a');
    OneLetter('b');
    OneLetter('c');
    assert "a"[0] != "b"[0] && "b"[0] != "c"[0] && "a"[0] != "c"[0];
  }

  // ----- Accepted tasks ------------------------------------------------------------------

  ghost predicate TaskFits(t: Task, a: Identity) {
    t.capability in a.capabilityScope && t.budgetCents <= a.budgetCents && t.tenantId == a.tenantId
  }

  /** The accepted tasks already given out under the newcomer's id fit inside it. */
  ghost predicate TasksFit(r: Runtime, a: Identity) {
    forall t | t in r.tasks && r.tasks[t].status == Accepted && r.tasks[t].agentId == a.agentId ::
      TaskFits(r.tasks[t], a)
  }

  lemma StoreKeepsTasksIff(r: Runtime, a: Identity)
    requires TasksInScope(r)
    ensures TasksInScope(r.(agents := r.agents[a.agentId := a])) <==> TasksFit(r, a)
  {
    var after := r.(agents := r.agents[a.agentId := a]);
    if !TasksFit(r, a) {
      var t :| t in r.tasks && r.tasks[t].status == Accepted && r.tasks[t].agentId == a.agentId
               && !TaskFits(r.tasks[t], a);
      assert after.agents[after.tasks[t].agentId] == a;
    }
  }

  lemma TasksSeeAgentsOnly(r: Runtime, after: Runtime)
    requires after.tasks == r.tasks && after.agents == r.agents
    ensures TasksInScope(after) <==> TasksInScope(r)
  {
  }

  /** A call keeps accepted tasks inside their agents' scopes exactly when an agent it stores still covers its own. */
  lemma StepKeepsTasksIff(r: Runtime, op: Op)
    requires TasksInScope(r)
    ensures TasksInScope(Step(r, op)) <==> (NewAgent(r, op).Some? ==> TasksFit(r, NewAgent(r, op).value))
  {
    if NewAgent(r, op).Some? {
      NewAgentShape(r, op);
      var a := NewAgent(r, op).value;
      StoreKeepsTasksIff(r, a);
      TasksSeeAgentsOnly(r.(agents := r.agents[a.agentId := a]), Step(r, op));
    } else {
      StepTasksInScope(r, op);
    }
  }

  // ----- Whole runs -----------------------------------------------------------------------

  ghost predicate Orderly(r: Runtime) { Attenuated(r.agents) && AllRooted(r.agents) && TasksInScope(r) }

  /** What an agent stored under a used id must satisfy. */
  ghost predicate StoresOrderly(r: Runtime, op: Op) {
    NewAgent(r, op).Some? ==>
      var a := NewAgent(r, op).value;
      && ChildrenFit(r.agents, a) && TasksFit(r, a)
      && (a.parentAgentId == "" || !IsAbove(r.agents, a.agentId, a.parentAgentId))
  }

  lemma StepOrderlyIff(r: Runtime, op: Op)
    requires Orderly(r)
    ensures Orderly(Step(r, op)) <==> StoresOrderly(r, op)
  {
    StepKeepsTasksIff(r, op);
    if NewAgent(r, op).Some? {
      OverwriteKeepsAttenuationIff(r, op);
      OverwriteKeepsRootsIff(r, op);
    } else {
      NewAgentShape(r, op);
    }
  }

  ghost function OrderlyAlong(ops: seq<Op>): (r: seq<bool>)
    ensures |r| == |ops| + 1 && forall i | 0 <= i <= |ops| :: r[i] == Orderly(Run(ops[..i]))
  {
    seq(|ops| + 1, i requires 0 <= i <= |ops| => Orderly(Run(ops[..i])))
  }

  ghost function StoresAlong(ops: seq<Op>): (r: seq<bool>)
    ensures |r| == |ops| && forall i | 0 <= i < |ops| :: r[i] == StoresOrderly(Run(ops[..i]), ops[i])
  {
    seq(|ops|, i requires 0 <= i < |ops| => StoresOrderly(Run(ops[..i]), ops[i]))
  }

  lemma NextOrderlyIff(ops: seq<Op>, i: nat)
    requires i < |ops| && Orderly(Run(ops[..i]))
    ensures Orderly(Run(ops[..i + 1])) <==> StoresOrderly(Run(ops[..i]), ops[i])
  {
    PrefixNext(ops, i);
    RunMore(ops[..i], ops[i]);
    StepOrderlyIff(Run(ops[..i]), ops[i]);
  }

  lemma OrderlyAtStart(ops: seq<Op>)
    ensures OrderlyAlong(ops)[0]
  {
    assert ops[..0] == [] && Run(ops[..0]) == EMPTY;
  }

  lemma OrderlyStepByStep(ops: seq<Op>)
    ensures forall i | 0 <= i < |ops| && OrderlyAlong(ops)[i] :: OrderlyAlong(ops)[i + 1] == StoresAlong(ops)[i]
  {
    forall i | 0 <= i < |ops| && OrderlyAlong(ops)[i] ensures OrderlyAlong(ops)[i + 1] == StoresAlong(ops)[i] {
      NextOrderlyIff(ops, i);
    }
  }

  /** Through a whole run, ids reused or not: authority stays inherited, ancestries rooted and accepted tasks in scope
      at every point exactly when each stored agent covers the children and tasks already under its id and that id is
      not above its parent. */
  lemma OrderlyThroughoutIff(ops: seq<Op>)
    ensures (forall i | 0 <= i <= |ops| :: OrderlyAlong(ops)[i]) <==> (forall i | 0 <= i < |ops| :: StoresAlong(ops)[i])
  {
    OrderlyAtStart(ops);
    OrderlyStepByStep(ops);
    ThroughoutIff(OrderlyAlong(ops), StoresAlong(ops), 0);
  }
}
