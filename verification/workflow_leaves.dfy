/** Exactly which unlock leaves keep LOCKED on unmet dependencies. */
module WorkflowLeaves {
  import opened Wrappers
  import opened WorkflowModel
  import opened Unlock
  import opened UnlockLeaves
  import opened WorkflowSpec
  import opened UnlockPasses
  import opened WorkflowInvariants
  import opened WorkflowStart

  /** The leaf puts one of the tests, to any template. */
  ghost predicate TestedBy(l: UnlockCondition, cs: set<UnlockCondition>) {
    exists c | c in cs :: c.state == l.state && c.outcome == l.outcome
  }

  ghost predicate TemplateTests(ts: seq<NodeTemplate>, cs: set<UnlockCondition>) {
    var byID := TemplateByID(ts);
    forall i, l | i in byID && byID[i].unlock.Some? && l in Leaves(byID[i].unlock.value) :: TestedBy(l, cs)
  }

  /** With these tests LOCKED is exact throughout every run that strands no node. */
  ghost predicate KeepsLocked(cs: set<UnlockCondition>) {
    forall wid, ts, ids, es |
      Creatable(ts, ids) && TemplateTests(ts, cs) && RunOf(Start(wid, ts, ids), es)
      && NoneStranded(Start(wid, ts, ids), es, |es|) ::
      LockedUpTo(Start(wid, ts, ids), es, |es|)
  }

  lemma ProgressTests(ts: seq<NodeTemplate>, cs: set<UnlockCondition>)
    requires TemplateTests(ts, cs) && forall c | c in cs :: ProgressLeaf(c)
    ensures ProgressLeaves(ts)
  {
    var byID := TemplateByID(ts);
    forall i, l | i in byID && byID[i].unlock.Some? && l in Leaves(byID[i].unlock.value) ensures ProgressLeaf(l) {
      assert TestedBy(l, cs);
      var c :| c in cs && c.state == l.state && c.outcome == l.outcome;
    }
  }

  // ---- Two templates that fail ----------------------------------------------------------------

  function Waits(on: string, nodeID: Option<string>, state: string): UnlockConfig {
    UnlockConfig([], Some(UnlockExpression([], [], on, nodeID, Some(state), None)))
  }

  /** A free task x, and a task y that waits for the state of one of the two. */
  function TwoTasks(on: string, state: string): seq<NodeTemplate> {
    [NodeTemplate("x", TaskNode, [], None), NodeTemplate("y", TaskNode, [], Some(Waits(on, None, state)))]
  }

  function TwoStarted(wid: string, on: string, state: string): NodeMap {
    map["x" := Node("x", wid, "x", Ready, None, None, [], None),
        "y" := Node("y", wid, "y", Locked, None, None, [], Some(Waits(on, Some(on), state)))]
  }

  lemma TwoMaps(on: string, state: string)
    ensures var ts := TwoTasks(on, state);
      && TemplateByID(ts) == map["x" := ts[0], "y" := ts[1]]
      && InstanceByTemplate(ts, ["x", "y"]) == map["x" := "x", "y" := "y"]
  {
    var ts := TwoTasks(on, state);
    var a := [] + [ts[0]];
    TemplateByIDNext([], ts[0]);
    TemplateByIDNext(a, ts[1]);
    InstanceNext([], [], ts[0], "x");
    InstanceNext(a, [] + ["x"], ts[1], "y");
    assert a + [ts[1]] == ts && [] + ["x"] + ["y"] == ["x", "y"];
  }

  lemma WaitsResolved(on: string, state: string, inst: Instances)
    requires on != "" && on in inst && ValidConfig(Waits(on, None, state))
    ensures MappedConfig(Waits(on, None, state), inst)
    ensures ResolvedConfig(Waits(on, None, state), inst) == Waits(on, Some(inst[on]), state)
  {
    var r := ResolvedExpression(Waits(on, None, state).expression.value, inst);
    assert r.anyOf == [] && r.allOf == [];
  }

  lemma TwoCreated(wid: string, on: string, state: string)
    requires (on == "x" || on == "y") && ValidConfig(Waits(on, None, state))
    ensures var ts, ids := TwoTasks(on, state), ["x", "y"];
      && Creatable(ts, ids)
      && CreatedNode(0, wid, ts, ids) == TwoStarted(wid, on, state)["x"]
      && CreatedNode(1, wid, ts, ids) == TwoStarted(wid, on, state)["y"]
      && TemplateByID(ts)["x"] == ts[0] && TemplateByID(ts)["y"] == ts[1]
  {
    TwoMaps(on, state);
    WaitsResolved(on, state, InstanceByTemplate(TwoTasks(on, state), ["x", "y"]));
  }

  lemma TwoStart(wid: string, on: string, state: string)
    returns (ts: seq<NodeTemplate>, ids: seq<string>, w: Workflow)
    requires (on == "x" || on == "y") && ValidConfig(Waits(on, None, state))
    ensures ts == TwoTasks(on, state) && Creatable(ts, ids) && w == Start(wid, ts, ids)
    ensures w.nodes == TwoStarted(wid, on, state) && Enumerates(ids, w.nodes.Keys)
  {
    ts, ids := TwoTasks(on, state), ["x", "y"];
    TwoCreated(wid, on, state);
    w := Start(wid, ts, ids);
    assert InitialNodes(0, wid, ts, ids) == map[];
    assert InitialNodes(1, wid, ts, ids) == map["x" := CreatedNode(0, wid, ts, ids)];
  }

  lemma TwoTests(on: string, c: UnlockCondition)
    requires c.state.Some? && c.outcome.None?
    ensures TemplateTests(TwoTasks(on, c.state.value), {c})
  {
    TwoMaps(on, c.state.value);
    assert Leaves(Waits(on, None, c.state.value)) == {UnlockCondition(on, None, c.state, None)};
  }

  /** The second task is LOCKED although the other node is in the state it waits for. */
  lemma LockedThoughThere(wid: string, on: string, state: string, nodes: NodeMap)
    requires on in nodes && nodes[on].state.Name() == state
    requires "y" in nodes && nodes["y"] == TwoStarted(wid, on, state)["y"]
    ensures !LockedIffUnmet(nodes)
  {
    assert AreDependenciesMet(nodes["y"], nodes);
  }

  lemma MoreTemplateTests(ts: seq<NodeTemplate>, c: UnlockCondition, cs: set<UnlockCondition>)
    requires TemplateTests(ts, {c}) && c in cs
    ensures TemplateTests(ts, cs)
  {
    var byID := TemplateByID(ts);
    forall i, l | i in byID && byID[i].unlock.Some? && l in Leaves(byID[i].unlock.value) ensures TestedBy(l, cs) {
      assert TestedBy(l, {c});
    }
  }

  lemma NotKept(ts: seq<NodeTemplate>, ids: seq<string>, es: seq<Event>, cs: set<UnlockCondition>)
    requires Creatable(ts, ids) && TemplateTests(ts, cs) && RunOf(Start("w", ts, ids), es)
    requires NoneStranded(Start("w", ts, ids), es, |es|) && !LockedUpTo(Start("w", ts, ids), es, |es|)
    ensures !KeepsLocked(cs)
  {
  }

  /** Tests of LOCKED and READY hold at the start of a node that starts LOCKED. */
  lemma FailsAtStart(c: UnlockCondition, cs: set<UnlockCondition>)
    requires c in cs && ValidCondition(c) && c.outcome.None? && (c.state == Some("LOCKED") || c.state == Some("READY"))
    ensures !KeepsLocked(cs)
  {
    var on := if c.state == Some("LOCKED") then "y" else "x";
    var ts, ids, w := TwoStart("w", on, c.state.value);
    TwoTests(on, c);
    MoreTemplateTests(ts, c, cs);
    LockedThoughThere("w", on, c.state.value, w.nodes);
    assert !LockedAt(w, [], 0);
    NotKept(ts, ids, [], cs);
  }

  lemma Reported(w: Workflow, wid: string, state: string, s: NodeState, order: seq<string>)
    requires w.nodes == TwoStarted(wid, "x", state) && (s.Failed? || s.InProgress?) && s.Name() == state
    ensures var e := Event(Update("x", s, None, None), order);
      !Strands(w, e.update) && !LockedIffUnmet(Step(w, e).nodes)
  {
    LockedThoughThere(wid, "x", state, Step(w, Event(Update("x", s, None, None), order)).nodes);
  }

  lemma StrandedByNobody(s: Workflow, e: Event)
    requires !Strands(s, e.update) && !LockedIffUnmet(Step(s, e).nodes)
    ensures NoneStranded(s, [e], 1) && !LockedUpTo(s, [e], 1)
  {
    var es := [e];
    RunSnoc(s, es, 0);
    assert es[..0] == [] && es[..1] == es;
    assert !StrandsAt(s, es, 0) && !LockedAt(s, es, 1);
  }

  /** Tests of IN_PROGRESS and FAILED come to hold in a step that unlocks nothing. */
  lemma FailsAfterReport(c: UnlockCondition, cs: set<UnlockCondition>)
    requires c in cs && ValidCondition(c) && c.outcome.None?
    requires c.state == Some("IN_PROGRESS") || c.state == Some("FAILED")
    ensures !KeepsLocked(cs)
  {
    var ts, ids, w := TwoStart("w", "x", c.state.value);
    TwoTests("x", c);
    MoreTemplateTests(ts, c, cs);
    var s := if c.state == Some("FAILED") then Failed else InProgress;
    Reported(w, "w", c.state.value, s, ids);
    StrandedByNobody(w, Event(Update("x", s, None, None), ids));
    NotKept(ts, ids, [Event(Update("x", s, None, None), ids)], cs);
  }

  /**
   * LOCKED stays exact for all templates with the given tests exactly when no test without an outcome is
   * for LOCKED, READY, IN_PROGRESS or FAILED.
   */
  lemma KeepsLockedExact(cs: set<UnlockCondition>)
    requires forall c | c in cs :: ValidCondition(c)
    ensures KeepsLocked(cs) <==> forall c | c in cs :: ProgressLeaf(c)
  {
    if forall c | c in cs :: ProgressLeaf(c) {
      forall wid, ts, ids, es |
        Creatable(ts, ids) && TemplateTests(ts, cs) && RunOf(Start(wid, ts, ids), es)
        && NoneStranded(Start(wid, ts, ids), es, |es|)
        ensures LockedUpTo(Start(wid, ts, ids), es, |es|)
      {
        ProgressTests(ts, cs);
        AlwaysLockedExact(wid, ts, ids, es);
      }
    } else {
      var c :| c in cs && !ProgressLeaf(c);
      if c.state == Some("LOCKED") || c.state == Some("READY") {
        FailsAtStart(c, cs);
      } else {
        FailsAfterReport(c, cs);
      }
    }
  }
}
