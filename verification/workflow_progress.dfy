/** Acyclic workflows get stuck only on outcomes, and can be finished when no leaf tests one. */
module WorkflowProgress {
  import opened Wrappers
  import opened WorkflowModel
  import opened Unlock
  import opened UnlockLeaves
  import opened WorkflowSpec
  import opened UnlockPasses
  import opened WorkflowInvariants

  /** Dependencies exist and descend in rank; ranks are given to templates. */
  ghost predicate Ranked(nodes: NodeMap, rank: string -> nat) {
    forall k, p | k in nodes && p in Predecessors(nodes[k]) ::
      p in nodes && rank(nodes[p].templateID) < rank(nodes[k].templateID)
  }

  /** Unlock leaves ask for completion, whatever the outcome. */
  ghost predicate OutcomeBlind(nodes: NodeMap) {
    forall k, c | k in nodes && nodes[k].unlock.Some? && c in Leaves(nodes[k].unlock.value) ::
      c.state == Some("COMPLETED") && c.outcome.None?
  }

  ghost function Incomplete(nodes: NodeMap): set<string> {
    set k | k in nodes && !nodes[k].state.Completed?
  }

  ghost predicate Live(w: Workflow, rank: string -> nat) {
    WellFormed(w) && Progressive(w) && LockedIffUnmet(w.nodes) && Ranked(w.nodes, rank)
  }

  /** The end node starts LOCKED, so no task is registered for it. */
  ghost predicate EndGated(w: Workflow) {
    ActivatedOnce(w) && (w.endNodeID.Some? ==> IsGatedEnd(w, w.endNodeID.value))
  }

  lemma GraphKeepsRanks(m: NodeMap, n: NodeMap, rank: string -> nat)
    requires SameGraph(m, n) && Ranked(m, rank)
    ensures Ranked(n, rank)
    ensures OutcomeBlind(m) ==> OutcomeBlind(n)
  {
    forall k, p | k in n && p in Predecessors(n[k])
      ensures p in n && rank(n[p].templateID) < rank(n[k].templateID)
    {
      assert p in Predecessors(m[k]);
    }
  }

  lemma StepLive(w: Workflow, e: Event, rank: string -> nat)
    requires Live(w, rank) && Enumerates(e.order, w.nodes.Keys)
    ensures Live(Step(w, e), rank)
    ensures OutcomeBlind(w.nodes) ==> OutcomeBlind(Step(w, e).nodes)
  {
    StepForward(w, e);
    StepWellFormed(w, e);
    StepProgressive(w, e);
    StepLockedIffUnmet(w, e);
    GraphKeepsRanks(w.nodes, Step(w, e).nodes, rank);
  }

  lemma {:induction false} RunLive(w: Workflow, es: seq<Event>, rank: string -> nat)
    requires Live(w, rank) && RunOf(w, es)
    ensures Live(Run(w, es), rank)
    ensures OutcomeBlind(w.nodes) ==> OutcomeBlind(Run(w, es).nodes)
    decreases |es|
  {
    if es != [] {
      StepLive(w, es[0], rank);
      StepForward(w, es[0]);
      RunLive(Step(w, es[0]), es[1..], rank);
    }
  }

  /** The leaf does not hold of its completed node: it tests another outcome, or a state no node has. */
  ghost predicate Refuses(c: UnlockCondition, nodes: NodeMap) {
    && c.nodeID.Some? && c.nodeID.value in nodes
    && ((c.state.Some? && c.state.value != "COMPLETED")
        || (c.outcome.Some? && nodes[c.nodeID.value].outcome != c.outcome))
  }

  /** All that the node waits for is complete, and one of its leaves does not hold of that. */
  ghost predicate Refused(nodes: NodeMap, k: string) {
    && k in nodes && nodes[k].state.Locked?
    && (forall p | p in Predecessors(nodes[k]) :: p in nodes && nodes[p].state.Completed?)
    && nodes[k].unlock.Some? && exists c | c in Leaves(nodes[k].unlock.value) :: Refuses(c, nodes)
  }

  /** With everything it waits for complete, a node is unlocked unless a leaf refuses what is there. */
  lemma MetWhenAllCompleted(node: Node, nodes: NodeMap)
    requires node.unlock.Some? ==> ValidConfig(node.unlock.value) && NodeIDsSet(Leaves(node.unlock.value))
    requires forall p | p in Predecessors(node) :: p in nodes && nodes[p].state.Completed?
    ensures AreDependenciesMet(node, nodes)
         || (node.unlock.Some? && exists c | c in Leaves(node.unlock.value) :: Refuses(c, nodes))
  {
    match node.unlock
    case Some(uc) =>
      if forall c | c in Leaves(uc) :: !Refuses(c, nodes) {
        forall c | c in Leaves(uc) ensures EvaluateCondition(c, nodes) == Some(true) {
          assert c.nodeID.value in Predecessors(node);
        }
        EvaluateUniform(uc, nodes, true);
      }
    case None =>
      assert forall d | d in node.dependsOn :: d in Predecessors(node);
  }

  /** Following incomplete dependencies downwards ends at a node whose dependencies are all complete. */
  lemma {:induction false} LowestIncomplete(nodes: NodeMap, rank: string -> nat, k: string) returns (low: string)
    requires Ranked(nodes, rank) && k in Incomplete(nodes)
    ensures low in Incomplete(nodes)
    ensures forall p | p in Predecessors(nodes[low]) :: p in nodes && nodes[p].state.Completed?
    decreases rank(nodes[k].templateID)
  {
    if p :| p in Predecessors(nodes[k]) && p in Incomplete(nodes) {
      low := LowestIncomplete(nodes, rank, p);
    } else {
      low := k;
      forall p | p in Predecessors(nodes[k]) ensures p in nodes && nodes[p].state.Completed? {
        assert p in nodes && p !in Incomplete(nodes);
      }
    }
  }

  predicate Actionable(s: NodeState) {
    s.Ready? || s.InProgress? || s.Failed?
  }

  /** While anything is incomplete, some node can be acted on or is refused. */
  lemma LowestActs(w: Workflow, rank: string -> nat) returns (k: string)
    requires Live(w, rank) && Incomplete(w.nodes) != {}
    ensures k in Incomplete(w.nodes)
    ensures Actionable(w.nodes[k].state) || Refused(w.nodes, k)
    ensures OutcomeBlind(w.nodes) ==> Actionable(w.nodes[k].state)
  {
    var any :| any in Incomplete(w.nodes);
    k := LowestIncomplete(w.nodes, rank, any);
    MetWhenAllCompleted(w.nodes[k], w.nodes);
  }

  /**
   * While anything is incomplete, some node other than the end node can be acted on, unless a LOCKED node
   * is refused by what it waited for.
   */
  lemma DeadlockFree(w: Workflow, rank: string -> nat) returns (k: string)
    requires Live(w, rank) && EndGated(w) && Incomplete(w.nodes) != {}
    ensures k in w.nodes
    ensures (Actionable(w.nodes[k].state) && w.endNodeID != Some(k)) || Refused(w.nodes, k)
    ensures OutcomeBlind(w.nodes) ==> Actionable(w.nodes[k].state) && w.endNodeID != Some(k)
  {
    k := LowestActs(w, rank);
    if w.endNodeID == Some(k) {
      assert IsGatedEnd(w, k);
    }
  }

  /** A node once refused stays LOCKED in every run: the workflow never completes all its nodes. */
  lemma RefusedForever(w: Workflow, rank: string -> nat, k: string, es: seq<Event>)
    requires Live(w, rank) && RunOf(w, es) && Refused(w.nodes, k)
    ensures Refused(Run(w, es).nodes, k) && Incomplete(Run(w, es).nodes) != {}
  {
    var n := Run(w, es).nodes;
    RunForward(w, es);
    RunLive(w, es, rank);
    assert ProgressNode(n[k]);
    MetAdvances(n[k], n, w.nodes);
    SameDependencies(w.nodes[k], n[k], w.nodes);
    assert k in Incomplete(n);
  }

  /** A completion of an incomplete node strictly shrinks the set of incomplete nodes. */
  lemma CompletionShrinks(w: Workflow, e: Event)
    requires Completes(w, e.update)
    ensures Incomplete(Step(w, e).nodes) < Incomplete(w.nodes)
  {
    StepForward(w, e);
    StepCompletes(w, e);
    var u := e.update;
    CompletionCases(w.nodes, u, w.endNodeID, e.order, u.nodeID);
    assert u.nodeID in Incomplete(w.nodes) && u.nodeID !in Incomplete(Step(w, e).nodes);
  }

  /** When every task node is complete so is the end node, and the workflow is finished. */
  lemma TasksDoneMeansFinished(w: Workflow, rank: string -> nat)
    requires Live(w, rank) && EndGated(w) && OutcomeBlind(w.nodes)
    requires forall k | k in w.nodes && w.endNodeID != Some(k) :: w.nodes[k].state.Completed?
    ensures Incomplete(w.nodes) == {} && Finished(w.nodes, w.endNodeID)
  {
    if Incomplete(w.nodes) != {} {
      var k := DeadlockFree(w, rank);
      assert false;
    }
    assert forall k | k in w.nodes :: k !in Incomplete(w.nodes);
  }

  lemma {:induction false} Enumeration(keys: set<string>) returns (order: seq<string>)
    ensures Enumerates(order, keys)
    decreases keys
  {
    if keys == {} {
      order := [];
    } else {
      var k :| k in keys;
      var rest := Enumeration(keys - {k});
      order := [k] + rest;
    }
  }

  lemma Restart(w: Workflow, k: string, order: seq<string>)
    requires WellFormed(w) && k in w.nodes && w.nodes[k].state.Failed?
    ensures var w' := Step(w, Event(Update(k, InProgress, None, None), order));
      && WellFormed(w') && Completes(w', Update(k, Completed, None, None))
      && Incomplete(w'.nodes) == Incomplete(w.nodes)
  {
    StepWellFormed(w, Event(Update(k, InProgress, None, None), order));
  }

  /** Completing one actionable node, restarting it first if it has failed. */
  lemma CompleteOne(w: Workflow, k: string) returns (es: seq<Event>)
    requires WellFormed(w) && k in w.nodes
    requires Actionable(w.nodes[k].state)
    ensures RunOf(w, es) && |es| <= 2
    ensures Incomplete(Run(w, es).nodes) < Incomplete(w.nodes)
    ensures Incomplete(Run(w, es).nodes) == {} ==> Run(w, es).status.StatusCompleted?
  {
    var order := Enumeration(w.nodes.Keys);
    var done := Event(Update(k, Completed, None, None), order);
    if w.nodes[k].state.Failed? {
      var restart := Event(Update(k, InProgress, None, None), order);
      Restart(w, k, order);
      LastStep(Step(w, restart), done);
      RunAppend(w, [restart], [done]);
      RunOne(w, restart);
      es := [restart] + [done];
    } else {
      LastStep(w, done);
      es := [done];
    }
  }

  lemma RunOne(w: Workflow, e: Event)
    ensures Run(w, [e]) == Step(w, e)
  {
    assert [e][1..] == [];
  }

  lemma LastStep(w: Workflow, e: Event)
    requires WellFormed(w) && Completes(w, e.update)
    ensures Run(w, [e]) == Step(w, e)
    ensures Incomplete(Step(w, e).nodes) < Incomplete(w.nodes)
    ensures Incomplete(Step(w, e).nodes) == {} ==> Step(w, e).status.StatusCompleted?
  {
    RunOne(w, e);
    CompletionShrinks(w, e);
    StepWellFormed(w, e);
    StepForward(w, e);
    if Incomplete(Step(w, e).nodes) == {} {
      assert forall k | k in Step(w, e).nodes :: k !in Incomplete(Step(w, e).nodes);
      assert Finished(Step(w, e).nodes, w.endNodeID);
    }
  }

  /** When no leaf tests an outcome, some run finishes the workflow from every live state, failed tasks included. */
  lemma {:induction false} CanFinish(w: Workflow, rank: string -> nat) returns (es: seq<Event>)
    requires Live(w, rank) && OutcomeBlind(w.nodes) && (Incomplete(w.nodes) == {} ==> w.status.StatusCompleted?)
    ensures RunOf(w, es) && |es| <= 2 * |Incomplete(w.nodes)|
    ensures Incomplete(Run(w, es).nodes) == {} && Run(w, es).status.StatusCompleted?
    decreases Incomplete(w.nodes)
  {
    if Incomplete(w.nodes) == {} {
      es := [];
    } else {
      var k := LowestActs(w, rank);
      var first := CompleteOne(w, k);
      RunLive(w, first, rank);
      RunForward(w, first);
      var w' := Run(w, first);
      ProperSubsetSmaller(Incomplete(w'.nodes), Incomplete(w.nodes));
      var rest := CanFinish(w', rank);
      RunAppend(w, first, rest);
      es := first + rest;
    }
  }

  lemma ProperSubsetSmaller(a: set<string>, b: set<string>)
    requires a < b
    ensures |a| + 1 <= |b|
  {
    assert b == a + (b - a);
    if b - a == {} {
      assert false;
    }
  }
}
