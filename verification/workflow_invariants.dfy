/** Invariants of every run of a workflow instance. */
module WorkflowInvariants {
  import opened Wrappers
  import opened WorkflowModel
  import opened UnlockLeaves
  import opened WorkflowSpec
  import opened UnlockPasses

  // ---- The part of a node that never changes --------------------------------------------------

  ghost predicate SameGraph(m: NodeMap, n: NodeMap) {
    && n.Keys == m.Keys
    && forall k | k in m ::
      && n[k].id == m[k].id && n[k].workflowID == m[k].workflowID && n[k].templateID == m[k].templateID
      && n[k].dependsOn == m[k].dependsOn && n[k].unlock == m[k].unlock
  }

  /** Completed nodes are left alone, and no node goes back to LOCKED. */
  ghost predicate Forward(m: NodeMap, n: NodeMap) {
    && SameGraph(m, n)
    && (forall k | k in m && m[k].state.Completed? :: n[k] == m[k])
    && (forall k | k in m && !m[k].state.Locked? :: !n[k].state.Locked?)
  }

  /** b is a in a later state. */
  ghost predicate NodeForward(a: Node, b: Node) {
    && b.id == a.id && b.workflowID == a.workflowID && b.templateID == a.templateID
    && b.dependsOn == a.dependsOn && b.unlock == a.unlock
    && (a.state.Completed? ==> b == a) && (!a.state.Locked? ==> !b.state.Locked?)
  }

  lemma CompletionForward(nodes: NodeMap, u: Update, end: Option<string>, order: seq<string>)
    requires u.nodeID in nodes && CanComplete(nodes[u.nodeID].state)
    ensures CompleteNode(nodes, u, end, order).Keys == nodes.Keys
    ensures forall k | k in nodes :: NodeForward(nodes[k], CompleteNode(nodes, u, end, order)[k])
  {
    forall k | k in nodes ensures NodeForward(nodes[k], CompleteNode(nodes, u, end, order)[k]) {
      CompletionCases(nodes, u, end, order, k);
    }
  }

  lemma StepForward(w: Workflow, e: Event)
    ensures Forward(w.nodes, Step(w, e).nodes)
    ensures Step(w, e).endNodeID == w.endNodeID
  {
    var u := e.update;
    if Accepts(w.nodes, u) && u.state.Completed? && !w.nodes[u.nodeID].state.Completed? {
      CompletionForward(w.nodes, u, w.endNodeID, e.order);
    }
  }

  lemma {:induction false} RunForward(w: Workflow, es: seq<Event>)
    ensures Forward(w.nodes, Run(w, es).nodes)
    ensures Run(w, es).endNodeID == w.endNodeID
    decreases |es|
  {
    if es != [] {
      StepForward(w, es[0]);
      RunForward(Step(w, es[0]), es[1..]);
    }
  }

  lemma {:induction false} RunAppend(w: Workflow, es: seq<Event>, es': seq<Event>)
    ensures Run(w, es + es') == Run(Run(w, es), es')
    decreases |es|
  {
    if es == [] {
      assert [] + es' == es';
    } else {
      assert (es + es')[1..] == es[1..] + es';
      RunAppend(Step(w, es[0]), es[1..], es');
    }
  }

  // ---- Well-formed instances ------------------------------------------------------------------

  ghost predicate WellFormed(w: Workflow) {
    && (forall k | k in w.nodes :: w.nodes[k].id == k)
    && Evaluable(w.nodes)
    && (forall k | k in w.nodes && w.nodes[k].outcome.Some? :: w.nodes[k].state.Completed?)
    && (w.endNodeID.Some? ==> w.endNodeID.value in w.nodes)
  }

  lemma StepWellFormed(w: Workflow, e: Event)
    requires WellFormed(w)
    ensures WellFormed(Step(w, e))
  {
    StepForward(w, e);
    StepOutcomes(w, e);
  }

  lemma StepOutcomes(w: Workflow, e: Event)
    requires forall k | k in w.nodes && w.nodes[k].outcome.Some? :: w.nodes[k].state.Completed?
    ensures forall k | k in Step(w, e).nodes && Step(w, e).nodes[k].outcome.Some? ::
      Step(w, e).nodes[k].state.Completed?
  {
    var u := e.update;
    if Accepts(w.nodes, u) && u.state.Completed? && !w.nodes[u.nodeID].state.Completed? {
      forall k | k in w.nodes
        ensures Step(w, e).nodes[k].outcome.Some? ==> Step(w, e).nodes[k].state.Completed?
      {
        CompletionCases(w.nodes, u, w.endNodeID, e.order, k);
      }
    }
  }

  // ---- LOCKED exactly while the dependencies are unmet ----------------------------------------

  /** The nodes whose state a node's dependencies read. */
  ghost function Predecessors(node: Node): set<string> {
    match node.unlock
    case Some(uc) => set c | c in Leaves(uc) && c.nodeID.Some? :: c.nodeID.value
    case None => set d | d in node.dependsOn
  }

  ghost predicate ProgressNode(node: Node) {
    node.unlock.Some? ==>
      && NodeIDsSet(Leaves(node.unlock.value))
      && forall c | c in Leaves(node.unlock.value) :: ProgressLeaf(c)
  }

  /** What the graph must satisfy: only completions change leaves, and nothing reads the end node. */
  ghost predicate Progressive(w: Workflow) {
    && (forall k | k in w.nodes :: ProgressNode(w.nodes[k]))
    && (w.endNodeID.Some? ==> forall k | k in w.nodes :: w.endNodeID.value !in Predecessors(w.nodes[k]))
  }

  ghost predicate LockedIffUnmet(nodes: NodeMap) {
    forall k | k in nodes :: nodes[k].state.Locked? <==> !AreDependenciesMet(nodes[k], nodes)
  }

  /** On the given nodes, n has every completion of m, with the same outcome. */
  ghost predicate Advances(m: NodeMap, n: NodeMap, on: set<string>) {
    forall k | k in on && k in m ::
      && k in n
      && (m[k].state.Completed? ==> n[k].state.Completed? && n[k].outcome == m[k].outcome)
      && (m[k].outcome.Some? ==> m[k].state.Completed?)
  }

  lemma MetAdvances(node: Node, m: NodeMap, n: NodeMap)
    requires ProgressNode(node) && Advances(m, n, Predecessors(node))
    ensures AreDependenciesMet(node, m) ==> AreDependenciesMet(node, n)
  {
    match node.unlock
    case Some(uc) =>
      forall c | c in Leaves(uc) && True(c, m) ensures True(c, n) {
        assert c.nodeID.value in Predecessors(node) && ProgressLeaf(c);
        TrueWhenCompleted(c, m);
      }
      EvaluateMonotone(uc, m, n);
    case None =>
      assert forall d | d in node.dependsOn :: d in Predecessors(node);
  }

  /** A leaf that tests anything at all holds only of a completed node. */
  lemma TrueWhenCompleted(c: UnlockCondition, m: NodeMap)
    requires ProgressLeaf(c) && True(c, m)
    requires m[c.nodeID.value].outcome.Some? ==> m[c.nodeID.value].state.Completed?
    ensures c.state.Some? || c.outcome.Some? ==> m[c.nodeID.value].state.Completed?
  {
  }

  ghost predicate ProgressNodes(nodes: NodeMap) {
    forall k | k in nodes :: ProgressNode(nodes[k])
  }

  /** The completion of a node also closes the end node. */
  predicate Closes(w: Workflow, u: Update)
    requires u.nodeID in w.nodes
  {
    var m := MarkCompleted(w.nodes, u);
    && w.endNodeID.Some? && w.endNodeID.value in m
    && (m[w.endNodeID.value].state.Ready? || Unlocks(w.endNodeID.value, m))
  }

  /** The nodes once the given one, and with it perhaps the end node, are complete. */
  function Closed(w: Workflow, u: Update): NodeMap
    requires u.nodeID in w.nodes
  {
    var m := MarkCompleted(w.nodes, u);
    if Closes(w, u) then m[w.endNodeID.value := m[w.endNodeID.value].(state := Completed)] else m
  }

  /** A LOCKED node whose dependencies come to hold only because the end node is closed. */
  predicate Stranded(w: Workflow, u: Update, k: string)
    requires u.nodeID in w.nodes
  {
    var m := MarkCompleted(w.nodes, u);
    && Closes(w, u) && k in m && m[k].state.Locked?
    && !AreDependenciesMet(m[k], m) && AreDependenciesMet(m[k], Closed(w, u))
  }

  ghost predicate Strands(w: Workflow, u: Update) {
    Completes(w, u) && exists k | k in w.nodes :: Stranded(w, u, k)
  }

  ghost predicate Completes(w: Workflow, u: Update) {
    && u.nodeID in w.nodes && u.state.Completed? && CanComplete(w.nodes[u.nodeID].state)
  }

  /** Both maps have the same completions, with the same outcomes, and outcomes only there. */
  ghost predicate SameProgress(m: NodeMap, n: NodeMap) {
    && n.Keys == m.Keys
    && forall k | k in m ::
      && n[k].outcome == m[k].outcome
      && (n[k].state.Completed? <==> m[k].state.Completed?)
      && (m[k].outcome.Some? ==> m[k].state.Completed?)
  }

  lemma SameProgressSameMet(node: Node, m: NodeMap, n: NodeMap)
    requires ProgressNode(node) && SameProgress(m, n)
    ensures AreDependenciesMet(node, m) == AreDependenciesMet(node, n)
  {
    MetAdvances(node, m, n);
    MetAdvances(node, n, m);
  }

  lemma ProgressIsStable(m: NodeMap)
    requires ProgressNodes(m) && forall k | k in m && m[k].outcome.Some? :: m[k].state.Completed?
    ensures Stable(m)
  {
    forall k, n | k in m && OnlyUnlocked(m, n) ensures AreDependenciesMet(m[k], n) == AreDependenciesMet(m[k], m) {
      assert ProgressNode(m[k]);
      MetAdvances(m[k], m, n);
      MetAdvances(m[k], n, m);
    }
  }

  lemma MarkedWellFormed(w: Workflow, u: Update)
    requires WellFormed(w) && ProgressNodes(w.nodes) && Completes(w, u)
    ensures var m := MarkCompleted(w.nodes, u);
      && ProgressNodes(m) && Stable(m) && Evaluable(m)
      && (forall k | k in m && m[k].outcome.Some? :: m[k].state.Completed?)
  {
    var m := MarkCompleted(w.nodes, u);
    forall k | k in m ensures ProgressNode(m[k]) {
      assert ProgressNode(w.nodes[k]);
    }
    ProgressIsStable(m);
  }

  /** What a completion leaves in each node, in terms of the nodes before the pass. */
  lemma CompletionExact(w: Workflow, u: Update, order: seq<string>, k: string)
    requires WellFormed(w) && ProgressNodes(w.nodes) && Completes(w, u) && Enumerates(order, w.nodes.Keys)
    requires k in w.nodes
    ensures var m := MarkCompleted(w.nodes, u);
      CompleteNode(w.nodes, u, w.endNodeID, order)[k] ==
      if Closes(w, u) && w.endNodeID == Some(k) then m[k].(state := Completed)
      else if Unlocks(k, m) then m[k].(state := Ready)
      else m[k]
  {
    var m := MarkCompleted(w.nodes, u);
    MarkedWellFormed(w, u);
    StablePassExact(order, m, k);
    if w.endNodeID.Some? {
      StablePassExact(order, m, w.endNodeID.value);
    }
  }

  lemma CompletionProgress(w: Workflow, u: Update, order: seq<string>)
    requires WellFormed(w) && ProgressNodes(w.nodes) && Completes(w, u) && Enumerates(order, w.nodes.Keys)
    ensures SameProgress(Closed(w, u), CompleteNode(w.nodes, u, w.endNodeID, order))
  {
    var m, c, r := MarkCompleted(w.nodes, u), Closed(w, u), CompleteNode(w.nodes, u, w.endNodeID, order);
    MarkedWellFormed(w, u);
    forall k | k in w.nodes
      ensures r[k].outcome == c[k].outcome && (r[k].state.Completed? <==> c[k].state.Completed?)
      ensures c[k].outcome.Some? ==> c[k].state.Completed?
    {
      CompletionExact(w, u, order, k);
      assert m[k].outcome.Some? ==> m[k].state.Completed?;
    }
  }

  /** What was met before a completion is met after it. */
  lemma CompletionKeepsMet(w: Workflow, u: Update, k: string)
    requires WellFormed(w) && ProgressNodes(w.nodes) && Completes(w, u) && k in w.nodes
    ensures var m := MarkCompleted(w.nodes, u);
      && (AreDependenciesMet(w.nodes[k], w.nodes) ==> AreDependenciesMet(w.nodes[k], m))
      && (AreDependenciesMet(w.nodes[k], m) ==> AreDependenciesMet(w.nodes[k], Closed(w, u)))
  {
    MarkedWellFormed(w, u);
    MetAdvances(w.nodes[k], w.nodes, MarkCompleted(w.nodes, u));
    MetAdvances(w.nodes[k], MarkCompleted(w.nodes, u), Closed(w, u));
  }

  /** A node comes out LOCKED exactly on unmet dependencies, unless it is stranded. */
  lemma CompletionLockedIffUnmet(w: Workflow, u: Update, order: seq<string>, k: string)
    requires WellFormed(w) && ProgressNodes(w.nodes) && LockedIffUnmet(w.nodes) && Enumerates(order, w.nodes.Keys)
    requires Completes(w, u) && k in w.nodes
    ensures var r := CompleteNode(w.nodes, u, w.endNodeID, order);
      (r[k].state.Locked? <==> !AreDependenciesMet(r[k], r)) <==> !Stranded(w, u, k)
  {
    var m, r := MarkCompleted(w.nodes, u), CompleteNode(w.nodes, u, w.endNodeID, order);
    CompletionExact(w, u, order, k);
    CompletionProgress(w, u, order);
    CompletionKeepsMet(w, u, k);
    SameProgressSameMet(w.nodes[k], Closed(w, u), r);
    assert AreDependenciesMet(r[k], r) == AreDependenciesMet(w.nodes[k], r);
    assert AreDependenciesMet(m[k], m) == AreDependenciesMet(w.nodes[k], m);
    assert AreDependenciesMet(m[k], Closed(w, u)) == AreDependenciesMet(w.nodes[k], Closed(w, u));
  }

  /** While nothing reads the end node, closing it strands nobody. */
  lemma ProgressiveStrandsNothing(w: Workflow, u: Update)
    requires WellFormed(w) && Progressive(w)
    ensures !Strands(w, u)
  {
    if Completes(w, u) {
      MarkedWellFormed(w, u);
      forall k | k in w.nodes ensures !Stranded(w, u, k) {
        MetAdvances(w.nodes[k], Closed(w, u), MarkCompleted(w.nodes, u));
        NodeUnchangedDependencies(w.nodes[k], MarkCompleted(w.nodes, u)[k], Closed(w, u));
        NodeUnchangedDependencies(w.nodes[k], MarkCompleted(w.nodes, u)[k], MarkCompleted(w.nodes, u));
      }
    }
  }

  lemma NodeUnchangedDependencies(a: Node, b: Node, nodes: NodeMap)
    requires a.dependsOn == b.dependsOn && a.unlock == b.unlock
    ensures AreDependenciesMet(a, nodes) == AreDependenciesMet(b, nodes)
  {
  }

  /** Changes that neither complete a node nor move one in or out of LOCKED. */
  ghost predicate Sideways(m: NodeMap, n: NodeMap) {
    && SameGraph(m, n)
    && forall k | k in m ::
      && n[k].outcome == m[k].outcome
      && (n[k].state.Completed? <==> m[k].state.Completed?)
      && (n[k].state.Locked? <==> m[k].state.Locked?)
  }

  lemma SidewaysLockedIffUnmet(w: Workflow, n: NodeMap, k: string)
    requires WellFormed(w) && ProgressNodes(w.nodes) && LockedIffUnmet(w.nodes) && Sideways(w.nodes, n) && k in n
    ensures n[k].state.Locked? <==> !AreDependenciesMet(n[k], n)
  {
    assert ProgressNode(w.nodes[k]);
    MetAdvances(w.nodes[k], w.nodes, n);
    MetAdvances(w.nodes[k], n, w.nodes);
    assert AreDependenciesMet(n[k], n) == AreDependenciesMet(w.nodes[k], n);
  }

  lemma StepCompletes(w: Workflow, e: Event)
    requires Completes(w, e.update)
    ensures Step(w, e).nodes == CompleteNode(w.nodes, e.update, w.endNodeID, e.order)
    ensures Step(w, e).activated == w.activated + NewReadyIDs(w.nodes, e.update, w.endNodeID, e.order)
  {
  }

  lemma StepSideways(w: Workflow, e: Event)
    requires !Completes(w, e.update)
    ensures Sideways(w.nodes, Step(w, e).nodes)
    ensures Step(w, e).activated == w.activated
  {
    var u, w' := e.update, Step(w, e);
    if Accepts(w.nodes, u) && !u.state.Completed? {
      var node := w.nodes[u.nodeID];
      assert w' == w || (w'.nodes == w.nodes[u.nodeID := w'.nodes[u.nodeID]] && w'.activated == w.activated);
    }
  }

  /** A step keeps LOCKED exactly on unmet dependencies exactly when it strands no node. */
  lemma StepLockedExact(w: Workflow, e: Event)
    requires WellFormed(w) && ProgressNodes(w.nodes) && LockedIffUnmet(w.nodes) && Enumerates(e.order, w.nodes.Keys)
    ensures LockedIffUnmet(Step(w, e).nodes) <==> !Strands(w, e.update)
  {
    var u, n := e.update, Step(w, e).nodes;
    if Completes(w, u) {
      StepCompletes(w, e);
      StepForward(w, e);
      forall k | k in n ensures (n[k].state.Locked? <==> !AreDependenciesMet(n[k], n)) <==> !Stranded(w, u, k) {
        CompletionLockedIffUnmet(w, u, e.order, k);
      }
    } else {
      StepSideways(w, e);
      forall k | k in n ensures n[k].state.Locked? <==> !AreDependenciesMet(n[k], n) {
        SidewaysLockedIffUnmet(w, n, k);
      }
    }
  }

  lemma StepLockedIffUnmet(w: Workflow, e: Event)
    requires WellFormed(w) && Progressive(w) && LockedIffUnmet(w.nodes) && Enumerates(e.order, w.nodes.Keys)
    ensures LockedIffUnmet(Step(w, e).nodes)
  {
    ProgressiveStrandsNothing(w, e.update);
    StepLockedExact(w, e);
  }

  lemma StepProgressNodes(w: Workflow, e: Event)
    requires ProgressNodes(w.nodes)
    ensures ProgressNodes(Step(w, e).nodes)
  {
    StepForward(w, e);
    var r := Step(w, e).nodes;
    forall k | k in r ensures ProgressNode(r[k]) {
      assert ProgressNode(w.nodes[k]);
    }
  }

  lemma StepProgressive(w: Workflow, e: Event)
    requires Progressive(w)
    ensures Progressive(Step(w, e))
  {
    StepForward(w, e);
    var r := Step(w, e).nodes;
    forall k | k in r ensures ProgressNode(r[k]) && Predecessors(r[k]) == Predecessors(w.nodes[k]) {
      assert ProgressNode(w.nodes[k]);
    }
  }

  /** No premature unlock and no lost unlock, after any run. */
  lemma {:induction false} RunLockedIffUnmet(w: Workflow, es: seq<Event>)
    requires WellFormed(w) && Progressive(w) && LockedIffUnmet(w.nodes) && RunOf(w, es)
    ensures WellFormed(Run(w, es)) && Progressive(Run(w, es)) && LockedIffUnmet(Run(w, es).nodes)
    decreases |es|
  {
    if es != [] {
      StepWellFormed(w, es[0]);
      StepProgressive(w, es[0]);
      StepLockedIffUnmet(w, es[0]);
      StepForward(w, es[0]);
      RunLockedIffUnmet(Step(w, es[0]), es[1..]);
    }
  }

  // ---- No premature unlock, whatever depends on the end node ----------------------------------

  ghost predicate UnlockedMet(nodes: NodeMap) {
    forall k | k in nodes && !nodes[k].state.Locked? :: AreDependenciesMet(nodes[k], nodes)
  }

  lemma CompletionUnlockedMet(w: Workflow, u: Update, order: seq<string>, k: string)
    requires WellFormed(w) && ProgressNodes(w.nodes) && UnlockedMet(w.nodes) && Enumerates(order, w.nodes.Keys)
    requires Completes(w, u) && k in w.nodes
    ensures var r := CompleteNode(w.nodes, u, w.endNodeID, order);
      r[k].state.Locked? || AreDependenciesMet(r[k], r)
  {
    var m, r := MarkCompleted(w.nodes, u), CompleteNode(w.nodes, u, w.endNodeID, order);
    CompletionExact(w, u, order, k);
    CompletionProgress(w, u, order);
    CompletionKeepsMet(w, u, k);
    SameProgressSameMet(w.nodes[k], Closed(w, u), r);
    NodeUnchangedDependencies(w.nodes[k], r[k], r);
    NodeUnchangedDependencies(w.nodes[k], m[k], m);
  }

  lemma StepUnlockedMet(w: Workflow, e: Event)
    requires WellFormed(w) && ProgressNodes(w.nodes) && UnlockedMet(w.nodes) && Enumerates(e.order, w.nodes.Keys)
    ensures UnlockedMet(Step(w, e).nodes)
  {
    var u, n := e.update, Step(w, e).nodes;
    StepForward(w, e);
    if Completes(w, u) {
      StepCompletes(w, e);
      forall k | k in n && !n[k].state.Locked? ensures AreDependenciesMet(n[k], n) {
        CompletionUnlockedMet(w, u, e.order, k);
      }
    } else {
      StepSideways(w, e);
      forall k | k in n && !n[k].state.Locked? ensures AreDependenciesMet(n[k], n) {
        MetAdvances(w.nodes[k], w.nodes, n);
        NodeUnchangedDependencies(w.nodes[k], n[k], n);
      }
    }
  }

  /** After any run a node that has left LOCKED has its dependencies met. */
  lemma {:induction false} RunUnlockedMet(w: Workflow, es: seq<Event>)
    requires WellFormed(w) && ProgressNodes(w.nodes) && UnlockedMet(w.nodes) && RunOf(w, es)
    ensures UnlockedMet(Run(w, es).nodes)
    decreases |es|
  {
    if es != [] {
      StepWellFormed(w, es[0]);
      StepProgressNodes(w, es[0]);
      StepUnlockedMet(w, es[0]);
      StepForward(w, es[0]);
      RunUnlockedMet(Step(w, es[0]), es[1..]);
    }
  }

  // ---- Which runs keep LOCKED exact -----------------------------------------------------------

  lemma RunSnoc(w: Workflow, es: seq<Event>, i: nat)
    requires i < |es|
    ensures Run(w, es[..i + 1]) == Step(Run(w, es[..i]), es[i])
  {
    var s := Run(w, es[..i]);
    assert es[..i + 1] == es[..i] + [es[i]];
    RunAppend(w, es[..i], [es[i]]);
    assert [es[i]][1..] == [];
    assert Run(s, [es[i]]) == Run(Step(s, es[i]), []);
  }

  ghost predicate LockedAt(w: Workflow, es: seq<Event>, i: nat)
    requires i <= |es|
  {
    LockedIffUnmet(Run(w, es[..i]).nodes)
  }

  ghost predicate StrandsAt(w: Workflow, es: seq<Event>, i: nat)
    requires i < |es|
  {
    Strands(Run(w, es[..i]), es[i].update)
  }

  lemma NextLockedExact(w: Workflow, es: seq<Event>, n: nat)
    requires n < |es| && RunOf(w, es)
    requires WellFormed(Run(w, es[..n])) && ProgressNodes(Run(w, es[..n]).nodes)
    ensures WellFormed(Run(w, es[..n + 1])) && ProgressNodes(Run(w, es[..n + 1]).nodes)
    ensures LockedAt(w, es, n) ==> (LockedAt(w, es, n + 1) <==> !StrandsAt(w, es, n))
  {
    var v, e := Run(w, es[..n]), es[n];
    RunSnoc(w, es, n);
    RunForward(w, es[..n]);
    StepWellFormed(v, e);
    StepProgressNodes(v, e);
    if LockedIffUnmet(v.nodes) {
      StepLockedExact(v, e);
    }
  }

  /** LOCKED is exact in the first n + 1 states. */
  ghost predicate LockedUpTo(w: Workflow, es: seq<Event>, n: nat)
    requires n <= |es|
  {
    forall i | 0 <= i <= n :: LockedAt(w, es, i)
  }

  /** None of the first n events strands a node. */
  ghost predicate NoneStranded(w: Workflow, es: seq<Event>, n: nat)
    requires n <= |es|
  {
    forall i | 0 <= i < n :: !StrandsAt(w, es, i)
  }

  lemma UpToNext(w: Workflow, es: seq<Event>, n: nat)
    requires n < |es|
    ensures LockedUpTo(w, es, n + 1) <==> LockedUpTo(w, es, n) && LockedAt(w, es, n + 1)
    ensures NoneStranded(w, es, n + 1) <==> NoneStranded(w, es, n) && !StrandsAt(w, es, n)
    ensures LockedUpTo(w, es, n) ==> LockedAt(w, es, n)
  {
  }

  lemma {:induction false} PrefixLockedExact(w: Workflow, es: seq<Event>, n: nat)
    requires WellFormed(w) && ProgressNodes(w.nodes) && LockedIffUnmet(w.nodes) && RunOf(w, es) && n <= |es|
    ensures LockedUpTo(w, es, n) <==> NoneStranded(w, es, n)
    ensures WellFormed(Run(w, es[..n])) && ProgressNodes(Run(w, es[..n]).nodes)
    decreases n
  {
    if n == 0 {
      assert es[..0] == [];
    } else {
      PrefixLockedExact(w, es, n - 1);
      NextLockedExact(w, es, n - 1);
      UpToNext(w, es, n - 1);
    }
  }

  /** Exactly the runs that never strand a node have LOCKED on unmet dependencies in all their states. */
  lemma RunLockedExact(w: Workflow, es: seq<Event>)
    requires WellFormed(w) && ProgressNodes(w.nodes) && LockedIffUnmet(w.nodes) && RunOf(w, es)
    ensures LockedUpTo(w, es, |es|) <==> NoneStranded(w, es, |es|)
  {
    PrefixLockedExact(w, es, |es|);
  }

  // ---- Every node is activated exactly once ---------------------------------------------------

  /** The node starts LOCKED: it has an unlock configuration or a dependency. */
  predicate Gated(node: Node) {
    node.unlock.Some? || node.dependsOn != []
  }

  predicate IsGatedEnd(w: Workflow, k: string) {
    w.endNodeID == Some(k) && k in w.nodes && Gated(w.nodes[k])
  }

  /** Handed over: each node that has left LOCKED, once, except a gated end node. */
  ghost predicate ActivatedOnce(w: Workflow) {
    && (forall k | k in w.nodes && w.nodes[k].state.Locked? :: Gated(w.nodes[k]))
    && (forall k :: multiset(w.activated)[k] ==
          if k in w.nodes && !w.nodes[k].state.Locked? && !IsGatedEnd(w, k) then 1 else 0)
    && (forall k | IsGatedEnd(w, k) :: w.nodes[k].state.Locked? || w.nodes[k].state.Completed?)
  }

  lemma CompletionActivatedOnce(w: Workflow, u: Update, order: seq<string>, k: string)
    requires ActivatedOnce(w) && NoDuplicates(order)
    requires u.nodeID in w.nodes && CanComplete(w.nodes[u.nodeID].state)
    ensures var r := CompleteNode(w.nodes, u, w.endNodeID, order);
      && multiset(w.activated + NewReadyIDs(w.nodes, u, w.endNodeID, order))[k]
         == (if k in r && !r[k].state.Locked? && !IsGatedEnd(w, k) then 1 else 0)
      && (IsGatedEnd(w, k) ==> r[k].state.Locked? || r[k].state.Completed?)
  {
    NewReadyExact(w.nodes, u, w.endNodeID, order, k);
    if k in w.nodes {
      CompletionCases(w.nodes, u, w.endNodeID, order, k);
    }
  }

  lemma StepActivatedOnce(w: Workflow, e: Event)
    requires ActivatedOnce(w) && Enumerates(e.order, w.nodes.Keys)
    ensures ActivatedOnce(Step(w, e))
  {
    var u, w' := e.update, Step(w, e);
    StepForward(w, e);
    assert forall k :: IsGatedEnd(w', k) <==> IsGatedEnd(w, k);
    if Completes(w, u) {
      StepCompletes(w, e);
      forall k
        ensures multiset(w'.activated)[k] ==
                if k in w'.nodes && !w'.nodes[k].state.Locked? && !IsGatedEnd(w', k) then 1 else 0
        ensures IsGatedEnd(w', k) ==> w'.nodes[k].state.Locked? || w'.nodes[k].state.Completed?
      {
        CompletionActivatedOnce(w, u, e.order, k);
      }
    } else {
      StepSideways(w, e);
      forall k | IsGatedEnd(w, k) ensures w'.nodes[k].state.Locked? || w'.nodes[k].state.Completed? {
        assert w.nodes[k].state.Locked? || w.nodes[k].state.Completed?;
      }
    }
  }

  lemma {:induction false} RunActivatedOnce(w: Workflow, es: seq<Event>)
    requires ActivatedOnce(w) && RunOf(w, es)
    ensures ActivatedOnce(Run(w, es))
    decreases |es|
  {
    if es != [] {
      StepActivatedOnce(w, es[0]);
      StepForward(w, es[0]);
      RunActivatedOnce(Step(w, es[0]), es[1..]);
    }
  }

  // ---- Completion of the workflow -------------------------------------------------------------

  /** Nodes with a plain dependency list leave LOCKED only when the whole list is COMPLETED. */
  ghost predicate PlainMet(nodes: NodeMap) {
    forall k | k in nodes && !nodes[k].state.Locked? && nodes[k].unlock.None? ::
      AreDependenciesMet(nodes[k], nodes)
  }

  lemma {:induction false} UnlockPassPlain(order: seq<string>, m: NodeMap)
    requires PlainMet(m)
    ensures PlainMet(UnlockPass(order, m))
    decreases |order|
  {
    if order != [] {
      UnlockPassPlain(order[1..], if Unlocks(order[0], m) then m[order[0] := m[order[0]].(state := Ready)] else m);
    }
  }

  lemma StepPlainMet(w: Workflow, e: Event)
    requires PlainMet(w.nodes)
    ensures PlainMet(Step(w, e).nodes)
  {
    var u := e.update;
    if Accepts(w.nodes, u) && u.state.Completed? && !w.nodes[u.nodeID].state.Completed? {
      UnlockPassPlain(e.order, MarkCompleted(w.nodes, u));
    }
  }

  /** Finished, and the end node's own plain dependencies are finished too. */
  ghost predicate FinishedSoundly(w: Workflow) {
    && Finished(w.nodes, w.endNodeID)
    && (w.endNodeID.Some? && w.nodes[w.endNodeID.value].unlock.None? ==>
          forall d | d in w.nodes[w.endNodeID.value].dependsOn :: d in w.nodes && w.nodes[d].state.Completed?)
  }

  /** Once the status has been set to COMPLETED the workflow stays finished, whatever happens later. */
  lemma {:induction false} CompletionSound(w: Workflow, es: seq<Event>, later: seq<Event>)
    requires PlainMet(w.nodes) && (w.status.StatusCompleted? ==> FinishedSoundly(w))
    ensures Run(w, es).status.StatusCompleted? ==> FinishedSoundly(Run(w, es + later))
    decreases |es|
  {
    if es == [] {
      assert es + later == later;
      RunForward(w, later);
    } else {
      StepPlainMet(w, es[0]);
      StepForward(w, es[0]);
      CompletionSound(Step(w, es[0]), es[1..], later);
      assert (es + later)[1..] == es[1..] + later;
    }
  }

  /** The report of a failure that sets the status. */
  predicate Fails(w: Workflow, u: Update) {
    u.nodeID in w.nodes && u.state.Failed? && CanFail(w.nodes[u.nodeID].state)
  }

  /** The completion sets the status. */
  predicate Finishes(w: Workflow, e: Event) {
    && e.update.nodeID in w.nodes && e.update.state.Completed? && CanComplete(w.nodes[e.update.nodeID].state)
    && Finished(Step(w, e).nodes, w.endNodeID)
  }

  /** The last event of the run that set the status was a failure. */
  predicate FailedLast(w: Workflow, es: seq<Event>) {
    es != [] &&
    var v, e := Run(w, es[..|es| - 1]), es[|es| - 1];
    Fails(v, e.update) || (!Finishes(v, e) && FailedLast(w, es[..|es| - 1]))
  }

  ghost predicate StatusExact(w: Workflow, failed: bool) {
    && (w.status.StatusFailed? <==> failed)
    && (w.status.StatusCompleted? <==> Finished(w.nodes, w.endNodeID) && !failed)
  }

  lemma FinishedForward(m: NodeMap, n: NodeMap, end: Option<string>)
    requires Forward(m, n) && Finished(m, end)
    ensures Finished(n, end)
  {
  }

  lemma SidewaysFinished(m: NodeMap, n: NodeMap, end: Option<string>)
    requires Sideways(m, n)
    ensures Finished(m, end) == Finished(n, end)
  {
  }

  lemma StepStatusExact(w: Workflow, e: Event, failed: bool)
    requires StatusExact(w, failed)
    ensures StatusExact(Step(w, e), Fails(w, e.update) || (!Finishes(w, e) && failed))
  {
    StepForward(w, e);
    if Completes(w, e.update) {
      if Finished(w.nodes, w.endNodeID) {
        FinishedForward(w.nodes, Step(w, e).nodes, w.endNodeID);
      }
    } else {
      StepSideways(w, e);
      SidewaysFinished(w.nodes, Step(w, e).nodes, w.endNodeID);
    }
  }

  /** The status is FAILED after a failure, COMPLETED when the workflow is finished after all failures. */
  lemma {:induction false} RunStatusExact(w: Workflow, es: seq<Event>)
    requires w.status.StatusInProgress? && !Finished(w.nodes, w.endNodeID)
    ensures StatusExact(Run(w, es), FailedLast(w, es))
    decreases |es|
  {
    if es != [] {
      var n := |es| - 1;
      RunStatusExact(w, es[..n]);
      RunForward(w, es[..n]);
      RunSnoc(w, es, n);
      assert es[..n + 1] == es;
      StepStatusExact(Run(w, es[..n]), es[n], FailedLast(w, es[..n]));
    }
  }

  lemma {:induction false} NoFailureLast(w: Workflow, es: seq<Event>)
    requires forall e | e in es :: !e.update.state.Failed?
    ensures !FailedLast(w, es)
  {
    if es != [] {
      assert es[|es| - 1] in es;
      NoFailureLast(w, es[..|es| - 1]);
    }
  }
}
