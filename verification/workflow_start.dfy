/** The state built from templates satisfies every invariant, so the invariants hold of every run. */
module WorkflowStart {
  import opened Wrappers
  import opened WorkflowModel
  import opened Unlock
  import opened UnlockLeaves
  import opened WorkflowSpec
  import opened UnlockPasses
  import opened WorkflowInvariants
  import opened WorkflowProgress

  // ---- What the templates must satisfy --------------------------------------------------------

  ghost function TemplatePredecessors(t: NodeTemplate): set<string> {
    match t.unlock
    case Some(uc) => set c | c in Leaves(uc) :: c.nodeTemplateID
    case None => set d | d in t.dependsOn
  }

  /** Leaves are changed by completions only. */
  ghost predicate ProgressLeaves(ts: seq<NodeTemplate>) {
    var byID := TemplateByID(ts);
    forall i, c | i in byID && byID[i].unlock.Some? && c in Leaves(byID[i].unlock.value) :: ProgressLeaf(c)
  }

  /** And nothing depends on an end node. */
  ghost predicate ProgressTemplates(ts: seq<NodeTemplate>) {
    var byID := TemplateByID(ts);
    && ProgressLeaves(ts)
    && (forall i, p | i in byID && p in TemplatePredecessors(byID[i]) && p in byID :: byID[p].nodeType.TaskNode?)
  }

  ghost predicate RankedTemplates(ts: seq<NodeTemplate>, rank: string -> nat) {
    var byID := TemplateByID(ts);
    forall i, p | i in byID && p in TemplatePredecessors(byID[i]) && p in byID :: rank(p) < rank(i)
  }

  /** Leaves ask for completion, whatever the outcome. */
  ghost predicate OutcomeBlindTemplates(ts: seq<NodeTemplate>) {
    var byID := TemplateByID(ts);
    forall i, c | i in byID && byID[i].unlock.Some? && c in Leaves(byID[i].unlock.value) ::
      c.state == Some("COMPLETED") && c.outcome.None?
  }

  ghost predicate Creatable(ts: seq<NodeTemplate>, ids: seq<string>) {
    |ids| == |ts| && NoDuplicates(ids) && Startable(ts, ids)
  }

  // ---- Lookups --------------------------------------------------------------------------------

  lemma {:induction false} TemplateByIDExact(ts: seq<NodeTemplate>)
    ensures forall t | t in TemplateByID(ts) :: TemplateByID(ts)[t].id == t
    ensures forall i | 0 <= i < |ts| :: ts[i].id in TemplateByID(ts)
  {
    if ts != [] {
      TemplateByIDExact(ts[..|ts| - 1]);
    }
  }

  lemma {:induction false} InstanceExact(ts: seq<NodeTemplate>, ids: seq<string>, t: string)
    requires |ids| == |ts|
    ensures t in InstanceByTemplate(ts, ids) <==> t in TemplateByID(ts)
    ensures t in InstanceByTemplate(ts, ids) ==>
              exists j | 0 <= j < |ts| :: ts[j].id == t && ids[j] == InstanceByTemplate(ts, ids)[t]
  {
    if ts != [] {
      var n := |ts| - 1;
      InstanceExact(ts[..n], ids[..n], t);
      if t in InstanceByTemplate(ts, ids) {
        if t == ts[n].id {
          assert ts[n].id == t && ids[n] == InstanceByTemplate(ts, ids)[t];
        } else {
          var j :| 0 <= j < n && ts[..n][j].id == t && ids[..n][j] == InstanceByTemplate(ts[..n], ids[..n])[t];
          assert ts[j].id == t && ids[j] == InstanceByTemplate(ts, ids)[t];
        }
      }
    }
  }

  lemma {:induction false} ResolvedDependency(deps: seq<string>, inst: Instances, d: string)
    requires d in ResolveDependencies(deps, inst)
    ensures exists t | t in deps :: t in inst && inst[t] == d
  {
    if deps[0] in inst && inst[deps[0]] == d {
      assert deps[0] in deps;
    } else {
      ResolvedDependency(deps[1..], inst, d);
      var t :| t in deps[1..] && t in inst && inst[t] == d;
      assert t in deps;
    }
  }

  lemma {:induction false} InitialNodesExact(n: nat, wid: string, ts: seq<NodeTemplate>, ids: seq<string>)
    requires Creatable(ts, ids) && n <= |ts|
    ensures forall i | 0 <= i < n ::
              && ids[i] in InitialNodes(n, wid, ts, ids)
              && InitialNodes(n, wid, ts, ids)[ids[i]] == CreatedNode(i, wid, ts, ids)
    ensures forall k | k in InitialNodes(n, wid, ts, ids) :: exists i | 0 <= i < n :: ids[i] == k
  {
    if n > 0 {
      InitialNodesExact(n - 1, wid, ts, ids);
      assert forall i | 0 <= i < n - 1 :: ids[i] != ids[n - 1];
      assert ids[n - 1] == ids[n - 1];
    }
  }

  lemma IndexOf(wid: string, ts: seq<NodeTemplate>, ids: seq<string>, k: string) returns (i: nat)
    requires Creatable(ts, ids) && k in Start(wid, ts, ids).nodes
    ensures i < |ts| && ids[i] == k
    ensures Start(wid, ts, ids).nodes[k] == CreatedNode(i, wid, ts, ids)
  {
    InitialNodesExact(|ts|, wid, ts, ids);
    i :| 0 <= i < |ts| && ids[i] == k;
  }

  lemma {:induction false} InitialEndExact(n: nat, ts: seq<NodeTemplate>, ids: seq<string>)
    requires |ids| == |ts| && n <= |ts| && forall i | 0 <= i < |ts| :: ts[i].id in TemplateByID(ts)
    ensures InitialEnd(n, ts, ids).Some? ==>
              exists i | 0 <= i < n :: ids[i] == InitialEnd(n, ts, ids).value
                                       && TemplateByID(ts)[ts[i].id].nodeType.EndNode?
  {
    if n > 0 && !TemplateByID(ts)[ts[n - 1].id].nodeType.EndNode? {
      InitialEndExact(n - 1, ts, ids);
    } else if n > 0 {
      assert ids[n - 1] == InitialEnd(n, ts, ids).value;
    }
  }

  lemma EndNodeType(ts: seq<NodeTemplate>, ids: seq<string>, j: nat)
    requires |ids| == |ts| && NoDuplicates(ids) && forall i | 0 <= i < |ts| :: ts[i].id in TemplateByID(ts)
    requires j < |ts| && InitialEnd(|ts|, ts, ids) == Some(ids[j])
    ensures TemplateByID(ts)[ts[j].id].nodeType.EndNode?
  {
    InitialEndExact(|ts|, ts, ids);
    var e :| 0 <= e < |ts| && ids[e] == ids[j] && TemplateByID(ts)[ts[e].id].nodeType.EndNode?;
    assert e == j;
  }

  /** The i-th row has that id and starts READY. */
  predicate ReadyRow(wid: string, ts: seq<NodeTemplate>, ids: seq<string>, i: nat, k: string)
    requires |ids| == |ts| && Startable(ts, ids) && i < |ts|
  {
    ids[i] == k && CreatedNode(i, wid, ts, ids).state.Ready?
  }

  lemma ReadyRowOnce(n: nat, wid: string, ts: seq<NodeTemplate>, ids: seq<string>, k: string)
    requires Creatable(ts, ids) && n < |ts| && ReadyRow(wid, ts, ids, n, k)
    ensures forall i | 0 <= i < n :: !ReadyRow(wid, ts, ids, i, k)
  {
  }

  lemma InitialReadyNext(n: nat, wid: string, ts: seq<NodeTemplate>, ids: seq<string>, k: string)
    requires Creatable(ts, ids) && n < |ts|
    ensures multiset(InitialReady(n + 1, wid, ts, ids))[k] ==
            multiset(InitialReady(n, wid, ts, ids))[k] + if ReadyRow(wid, ts, ids, n, k) then 1 else 0
  {
    var last := if CreatedNode(n, wid, ts, ids).state.Ready? then [ids[n]] else [];
    assert InitialReady(n + 1, wid, ts, ids) == InitialReady(n, wid, ts, ids) + last;
    assert multiset(last)[k] == if ReadyRow(wid, ts, ids, n, k) then 1 else 0;
  }

  ghost predicate ReadyAmong(n: nat, wid: string, ts: seq<NodeTemplate>, ids: seq<string>, k: string)
    requires |ids| == |ts| && Startable(ts, ids) && n <= |ts|
  {
    exists i | 0 <= i < n :: ReadyRow(wid, ts, ids, i, k)
  }

  lemma ReadyAmongNext(n: nat, wid: string, ts: seq<NodeTemplate>, ids: seq<string>, k: string)
    requires Creatable(ts, ids) && n < |ts|
    ensures ReadyAmong(n + 1, wid, ts, ids, k) <==> ReadyAmong(n, wid, ts, ids, k) || ReadyRow(wid, ts, ids, n, k)
    ensures ReadyRow(wid, ts, ids, n, k) ==> !ReadyAmong(n, wid, ts, ids, k)
  {
    if ReadyRow(wid, ts, ids, n, k) {
      ReadyRowOnce(n, wid, ts, ids, k);
    }
  }

  ghost predicate CountsReady(n: nat, wid: string, ts: seq<NodeTemplate>, ids: seq<string>, k: string)
    requires Creatable(ts, ids) && n <= |ts|
  {
    multiset(InitialReady(n, wid, ts, ids))[k] == if ReadyAmong(n, wid, ts, ids, k) then 1 else 0
  }

  lemma NoneReadyYet(wid: string, ts: seq<NodeTemplate>, ids: seq<string>, k: string)
    requires Creatable(ts, ids)
    ensures CountsReady(0, wid, ts, ids, k)
  {
  }

  lemma CountsReadyNext(n: nat, wid: string, ts: seq<NodeTemplate>, ids: seq<string>, k: string)
    requires Creatable(ts, ids) && n < |ts| && CountsReady(n, wid, ts, ids, k)
    ensures CountsReady(n + 1, wid, ts, ids, k)
  {
    InitialReadyNext(n, wid, ts, ids, k);
    ReadyAmongNext(n, wid, ts, ids, k);
  }

  lemma {:induction false} InitialReadyExact(
      n: nat, wid: string, ts: seq<NodeTemplate>, ids: seq<string>, k: string)
    requires Creatable(ts, ids) && n <= |ts|
    ensures CountsReady(n, wid, ts, ids, k)
  {
    if n == 0 {
      NoneReadyYet(wid, ts, ids, k);
    } else {
      var m: nat := n - 1;
      InitialReadyExact(m, wid, ts, ids, k);
      assert CountsReady(m + 1, wid, ts, ids, k) by {
        CountsReadyNext(m, wid, ts, ids, k);
      }
    }
  }

  // ---- One created node -----------------------------------------------------------------------

  /** Every node a created node reads is the instance of a template its own template reads. */
  lemma CreatedPredecessors(i: nat, wid: string, ts: seq<NodeTemplate>, ids: seq<string>, p: string)
    returns (j: nat)
    requires Creatable(ts, ids) && i < |ts| && p in Predecessors(CreatedNode(i, wid, ts, ids))
    ensures j < |ts| && ids[j] == p && ts[j].id in TemplatePredecessors(TemplateByID(ts)[ts[i].id])
  {
    var t, inst := TemplateByID(ts)[ts[i].id], InstanceByTemplate(ts, ids);
    var tp: string;
    match t.unlock {
      case Some(uc) =>
        ResolvedConfigLeaves(uc, inst);
        var r :| r in Leaves(ResolvedConfig(uc, inst)) && r.nodeID == Some(p);
        var c :| c in Leaves(uc) && c.nodeTemplateID in inst && r == ResolvedCondition(c, inst);
        tp := c.nodeTemplateID;
        assert r.nodeID.value == p && ResolvedCondition(c, inst).nodeID.value == inst[tp];
      case None =>
        ResolvedDependency(t.dependsOn, inst, p);
        tp :| tp in t.dependsOn && tp in inst && inst[tp] == p;
    }
    assert tp in inst && inst[tp] == p;
    InstanceExact(ts, ids, tp);
    j :| 0 <= j < |ts| && ts[j].id == tp && ids[j] == p;
  }

  lemma CreatedLeaves(i: nat, wid: string, ts: seq<NodeTemplate>, ids: seq<string>)
    requires Creatable(ts, ids) && i < |ts|
    ensures var node := CreatedNode(i, wid, ts, ids);
      var t := TemplateByID(ts)[ts[i].id];
      node.unlock.Some? ==>
        && t.unlock.Some? && ValidConfig(node.unlock.value) && NodeIDsSet(Leaves(node.unlock.value))
        && forall r | r in Leaves(node.unlock.value) ::
             exists c | c in Leaves(t.unlock.value) :: r.state == c.state && r.outcome == c.outcome
  {
    var t, inst := TemplateByID(ts)[ts[i].id], InstanceByTemplate(ts, ids);
    if t.unlock.Some? {
      ResolvedConfigLeaves(t.unlock.value, inst);
      ResolutionPreservesMeaning(t.unlock.value, inst, map[]);
      forall r | r in Leaves(ResolvedConfig(t.unlock.value, inst))
        ensures exists c | c in Leaves(t.unlock.value) :: r.state == c.state && r.outcome == c.outcome
      {
        var c :| c in Leaves(t.unlock.value) && c.nodeTemplateID in inst && r == ResolvedCondition(c, inst);
      }
    }
  }

  // ---- The started workflow -------------------------------------------------------------------

  lemma StartWellFormed(wid: string, ts: seq<NodeTemplate>, ids: seq<string>)
    requires Creatable(ts, ids)
    ensures WellFormed(Start(wid, ts, ids))
    ensures forall k | k in Start(wid, ts, ids).nodes :: !Start(wid, ts, ids).nodes[k].state.Completed?
  {
    var w := Start(wid, ts, ids);
    forall k | k in w.nodes
      ensures w.nodes[k].id == k && w.nodes[k].outcome.None? && !w.nodes[k].state.Completed?
      ensures w.nodes[k].unlock.Some? ==>
                ValidConfig(w.nodes[k].unlock.value) && NodeIDsSet(Leaves(w.nodes[k].unlock.value))
    {
      var i := IndexOf(wid, ts, ids, k);
      CreatedLeaves(i, wid, ts, ids);
    }
    InitialEndExact(|ts|, ts, ids);
    InitialNodesExact(|ts|, wid, ts, ids);
  }

  lemma StartNodeState(wid: string, ts: seq<NodeTemplate>, ids: seq<string>, k: string)
    requires Creatable(ts, ids) && k in Start(wid, ts, ids).nodes
    ensures var node := Start(wid, ts, ids).nodes[k];
      && node.state == (if Gated(node) then Locked else Ready)
      && (node.state.Ready? <==> exists i | 0 <= i < |ts| :: ReadyRow(wid, ts, ids, i, k))
  {
    var i := IndexOf(wid, ts, ids, k);
    assert ReadyRow(wid, ts, ids, i, k) <==> Start(wid, ts, ids).nodes[k].state.Ready?;
  }

  lemma NoRowNoReady(wid: string, ts: seq<NodeTemplate>, ids: seq<string>, k: string)
    requires Creatable(ts, ids) && k !in Start(wid, ts, ids).nodes
    ensures forall i | 0 <= i < |ts| :: !ReadyRow(wid, ts, ids, i, k)
  {
    InitialNodesExact(|ts|, wid, ts, ids);
  }

  /** The nodes handed over at the start are exactly those that start READY. */
  lemma StartActivatedOnce(wid: string, ts: seq<NodeTemplate>, ids: seq<string>)
    requires Creatable(ts, ids)
    ensures ActivatedOnce(Start(wid, ts, ids))
  {
    var w := Start(wid, ts, ids);
    forall k | k in w.nodes ensures w.nodes[k].state == if Gated(w.nodes[k]) then Locked else Ready {
      StartNodeState(wid, ts, ids, k);
    }
    forall k
      ensures multiset(w.activated)[k] ==
              if k in w.nodes && !w.nodes[k].state.Locked? && !IsGatedEnd(w, k) then 1 else 0
    {
      InitialReadyExact(|ts|, wid, ts, ids, k);
      if k in w.nodes {
        StartNodeState(wid, ts, ids, k);
      } else {
        NoRowNoReady(wid, ts, ids, k);
      }
    }
  }

  lemma StartPlainMet(wid: string, ts: seq<NodeTemplate>, ids: seq<string>)
    requires Creatable(ts, ids)
    ensures PlainMet(Start(wid, ts, ids).nodes)
  {
    var w := Start(wid, ts, ids);
    forall k | k in w.nodes && !w.nodes[k].state.Locked? && w.nodes[k].unlock.None?
      ensures AreDependenciesMet(w.nodes[k], w.nodes)
    {
      var i := IndexOf(wid, ts, ids, k);
    }
  }

  lemma StartProgressNodes(wid: string, ts: seq<NodeTemplate>, ids: seq<string>)
    requires Creatable(ts, ids) && ProgressLeaves(ts)
    ensures ProgressNodes(Start(wid, ts, ids).nodes)
  {
    var w := Start(wid, ts, ids);
    TemplateByIDExact(ts);
    forall k | k in w.nodes ensures ProgressNode(w.nodes[k]) {
      var i := IndexOf(wid, ts, ids, k);
      CreatedLeaves(i, wid, ts, ids);
      if w.nodes[k].unlock.Some? {
        forall r | r in Leaves(w.nodes[k].unlock.value) ensures ProgressLeaf(r) {
          var t := TemplateByID(ts)[ts[i].id];
          var c :| c in Leaves(t.unlock.value) && r.state == c.state && r.outcome == c.outcome;
          assert ProgressLeaf(c);
        }
      }
    }
  }

  lemma StartProgressive(wid: string, ts: seq<NodeTemplate>, ids: seq<string>)
    requires Creatable(ts, ids) && ProgressTemplates(ts)
    ensures Progressive(Start(wid, ts, ids))
  {
    var w := Start(wid, ts, ids);
    StartProgressNodes(wid, ts, ids);
    TemplateByIDExact(ts);
    forall k | k in w.nodes ensures w.endNodeID.Some? ==> w.endNodeID.value !in Predecessors(w.nodes[k]) {
      var i := IndexOf(wid, ts, ids, k);
      if w.endNodeID.Some? && w.endNodeID.value in Predecessors(w.nodes[k]) {
        var j := CreatedPredecessors(i, wid, ts, ids, w.endNodeID.value);
        EndNodeType(ts, ids, j);
        assert false;
      }
    }
  }

  lemma StartLockedIffUnmet(wid: string, ts: seq<NodeTemplate>, ids: seq<string>)
    requires Creatable(ts, ids) && ProgressLeaves(ts)
    ensures LockedIffUnmet(Start(wid, ts, ids).nodes)
  {
    var w := Start(wid, ts, ids);
    StartWellFormed(wid, ts, ids);
    StartProgressNodes(wid, ts, ids);
    forall k | k in w.nodes ensures w.nodes[k].state.Locked? <==> !AreDependenciesMet(w.nodes[k], w.nodes) {
      var i := IndexOf(wid, ts, ids, k);
      NothingMetYet(w, k);
      CreatedDependenciesExist(i, wid, ts, ids);
    }
  }

  lemma CreatedDependenciesExist(i: nat, wid: string, ts: seq<NodeTemplate>, ids: seq<string>)
    requires Creatable(ts, ids) && i < |ts|
    ensures forall p | p in Predecessors(CreatedNode(i, wid, ts, ids)) :: p in Start(wid, ts, ids).nodes
  {
    InitialNodesExact(|ts|, wid, ts, ids);
    forall p | p in Predecessors(CreatedNode(i, wid, ts, ids)) ensures p in Start(wid, ts, ids).nodes {
      var j := CreatedPredecessors(i, wid, ts, ids, p);
    }
  }

  /** Before anything is completed only an ungated node has its dependencies met. */
  lemma NothingMetYet(w: Workflow, k: string)
    requires WellFormed(w) && k in w.nodes && ProgressNode(w.nodes[k])
    requires forall j | j in w.nodes :: !w.nodes[j].state.Completed?
    ensures Gated(w.nodes[k]) ==> !AreDependenciesMet(w.nodes[k], w.nodes)
  {
    match w.nodes[k].unlock
    case Some(uc) =>
      forall c | c in Leaves(uc) ensures EvaluateCondition(c, w.nodes) == Some(false) {
        LeavesTestSomething(uc, c);
        assert ProgressLeaf(c);
        if True(c, w.nodes) {
          TrueWhenCompleted(c, w.nodes);
        }
      }
      EvaluateUniform(uc, w.nodes, false);
    case None =>
      if w.nodes[k].dependsOn != [] {
        assert w.nodes[k].dependsOn[0] in w.nodes[k].dependsOn;
      }
  }

  lemma LeavesTestSomething(uc: UnlockConfig, c: UnlockCondition)
    requires ValidConfig(uc) && c in Leaves(uc)
    ensures c.state.Some? || c.outcome.Some?
  {
    match uc.expression
    case Some(e) => ExpressionLeavesTestSomething(e, c);
    case None =>
      var g :| g in uc.anyOf && c in g.allOf;
      assert ValidGroup(g) && ValidCondition(c);
  }

  lemma {:induction false} ExpressionLeavesTestSomething(e: UnlockExpression, c: UnlockCondition)
    requires ValidExpression(e) && c in ExpressionLeaves(e)
    ensures c.state.Some? || c.outcome.Some?
    decreases e, 1
  {
    if |e.anyOf| > 0 {
      ListLeavesTestSomething(e.anyOf, c);
    } else if |e.allOf| > 0 {
      ListLeavesTestSomething(e.allOf, c);
    }
  }

  lemma {:induction false} ListLeavesTestSomething(es: seq<UnlockExpression>, c: UnlockCondition)
    requires (forall e | e in es :: ValidExpression(e)) && c in LeavesOfAll(es)
    ensures c.state.Some? || c.outcome.Some?
    decreases es, 0
  {
    if c in ExpressionLeaves(es[0]) {
      ExpressionLeavesTestSomething(es[0], c);
    } else {
      ListLeavesTestSomething(es[1..], c);
    }
  }

  lemma StartRanked(wid: string, ts: seq<NodeTemplate>, ids: seq<string>, rank: string -> nat)
    requires Creatable(ts, ids) && RankedTemplates(ts, rank)
    ensures Ranked(Start(wid, ts, ids).nodes, rank)
    ensures OutcomeBlindTemplates(ts) ==> OutcomeBlind(Start(wid, ts, ids).nodes)
  {
    var w := Start(wid, ts, ids);
    TemplateByIDExact(ts);
    InitialNodesExact(|ts|, wid, ts, ids);
    forall k, p | k in w.nodes && p in Predecessors(w.nodes[k])
      ensures p in w.nodes && rank(w.nodes[p].templateID) < rank(w.nodes[k].templateID)
    {
      var i := IndexOf(wid, ts, ids, k);
      var j := CreatedPredecessors(i, wid, ts, ids, p);
    }
    forall k, r | OutcomeBlindTemplates(ts) && k in w.nodes && w.nodes[k].unlock.Some?
      && r in Leaves(w.nodes[k].unlock.value)
      ensures r.state == Some("COMPLETED") && r.outcome.None?
    {
      var i := IndexOf(wid, ts, ids, k);
      CreatedLeaves(i, wid, ts, ids);
    }
  }

  // ---- Main results, from the templates to every run ------------------------------------------

  /** In every reachable state a node is LOCKED exactly when its dependencies are unmet. */
  lemma AlwaysLockedIffUnmet(wid: string, ts: seq<NodeTemplate>, ids: seq<string>, es: seq<Event>)
    requires Creatable(ts, ids) && ProgressTemplates(ts) && RunOf(Start(wid, ts, ids), es)
    ensures LockedIffUnmet(Run(Start(wid, ts, ids), es).nodes)
  {
    StartWellFormed(wid, ts, ids);
    StartProgressive(wid, ts, ids);
    StartLockedIffUnmet(wid, ts, ids);
    RunLockedIffUnmet(Start(wid, ts, ids), es);
  }

  /** Without a condition on the end node: exactly the runs that never strand a node. */
  lemma AlwaysLockedExact(wid: string, ts: seq<NodeTemplate>, ids: seq<string>, es: seq<Event>)
    requires Creatable(ts, ids) && ProgressLeaves(ts) && RunOf(Start(wid, ts, ids), es)
    ensures var w := Start(wid, ts, ids); LockedUpTo(w, es, |es|) <==> NoneStranded(w, es, |es|)
  {
    StartWellFormed(wid, ts, ids);
    StartProgressNodes(wid, ts, ids);
    StartLockedIffUnmet(wid, ts, ids);
    RunLockedExact(Start(wid, ts, ids), es);
  }

  /** Over the whole run each unlocked node is handed to the task manager exactly once. */
  lemma AlwaysActivatedOnce(wid: string, ts: seq<NodeTemplate>, ids: seq<string>, es: seq<Event>)
    requires Creatable(ts, ids) && RunOf(Start(wid, ts, ids), es)
    ensures ActivatedOnce(Run(Start(wid, ts, ids), es))
  {
    StartActivatedOnce(wid, ts, ids);
    RunActivatedOnce(Start(wid, ts, ids), es);
  }

  /** In every reachable state a node that has left LOCKED has its dependencies met. */
  lemma AlwaysUnlockedMet(wid: string, ts: seq<NodeTemplate>, ids: seq<string>, es: seq<Event>)
    requires Creatable(ts, ids) && ProgressLeaves(ts) && RunOf(Start(wid, ts, ids), es)
    ensures UnlockedMet(Run(Start(wid, ts, ids), es).nodes)
  {
    StartWellFormed(wid, ts, ids);
    StartProgressNodes(wid, ts, ids);
    StartLockedIffUnmet(wid, ts, ids);
    RunUnlockedMet(Start(wid, ts, ids), es);
  }

  /** A status once COMPLETED is never wrong again, and the status is exact up to the last failure or completion. */
  lemma AlwaysSoundStatus(
      wid: string, ts: seq<NodeTemplate>, ids: seq<string>, es: seq<Event>, later: seq<Event>)
    requires Creatable(ts, ids)
    ensures var w := Start(wid, ts, ids);
      && (Run(w, es).status.StatusCompleted? ==> FinishedSoundly(Run(w, es + later)))
      && (ts != [] ==>
            && (Run(w, es).status.StatusFailed? <==> FailedLast(w, es))
            && (Run(w, es).status.StatusCompleted? <==>
                  Finished(Run(w, es).nodes, w.endNodeID) && !FailedLast(w, es)))
      && (ts != [] && (forall e | e in es :: !e.update.state.Failed?) ==>
            (Run(w, es).status.StatusCompleted? <==> Finished(Run(w, es).nodes, w.endNodeID)))
  {
    var w := Start(wid, ts, ids);
    StartWellFormed(wid, ts, ids);
    StartPlainMet(wid, ts, ids);
    CompletionSound(w, es, later);
    if ts != [] {
      InitialNodesExact(|ts|, wid, ts, ids);
      assert ids[0] in w.nodes;
      RunStatusExact(w, es);
      RunForward(w, es);
      if forall e | e in es :: !e.update.state.Failed? {
        NoFailureLast(w, es);
      }
    }
  }

  /** Whatever gates the end node, a configuration included, holds in every state after the status is COMPLETED. */
  lemma AlwaysSoundEnd(wid: string, ts: seq<NodeTemplate>, ids: seq<string>, es: seq<Event>, later: seq<Event>)
    requires Creatable(ts, ids) && ProgressLeaves(ts) && RunOf(Start(wid, ts, ids), es + later)
    ensures var w := Start(wid, ts, ids);
      var v := Run(w, es + later);
      Run(w, es).status.StatusCompleted? && w.endNodeID.Some? ==>
        var end := w.endNodeID.value;
        end in v.nodes && v.nodes[end].state.Completed? && AreDependenciesMet(v.nodes[end], v.nodes)
  {
    AlwaysSoundStatus(wid, ts, ids, es, later);
    RunForward(Start(wid, ts, ids), es + later);
    AlwaysUnlockedMet(wid, ts, ids, es + later);
  }

  /** In every reachable incomplete state of an acyclic workflow a node can be acted on, or one is refused. */
  lemma AlwaysDeadlockFree(
      wid: string, ts: seq<NodeTemplate>, ids: seq<string>, es: seq<Event>, rank: string -> nat)
    returns (k: string)
    requires Creatable(ts, ids) && ProgressTemplates(ts) && RankedTemplates(ts, rank)
    requires RunOf(Start(wid, ts, ids), es) && Incomplete(Run(Start(wid, ts, ids), es).nodes) != {}
    ensures var w := Run(Start(wid, ts, ids), es);
      && k in Incomplete(w.nodes) && (Actionable(w.nodes[k].state) || Refused(w.nodes, k))
      && (Actionable(w.nodes[k].state) && w.endNodeID == Some(k) ==> !Gated(w.nodes[k]))
      && (OutcomeBlindTemplates(ts) ==> Actionable(w.nodes[k].state))
  {
    var w := Start(wid, ts, ids);
    StartWellFormed(wid, ts, ids);
    StartProgressive(wid, ts, ids);
    StartLockedIffUnmet(wid, ts, ids);
    StartRanked(wid, ts, ids, rank);
    RunLive(w, es, rank);
    AlwaysActivatedOnce(wid, ts, ids, es);
    k := LowestActs(Run(w, es), rank);
    if Run(w, es).endNodeID == Some(k) && Gated(Run(w, es).nodes[k]) {
      assert IsGatedEnd(Run(w, es), k);
    }
  }

  /** From every reachable state of an acyclic workflow whose leaves test no outcome, some further run completes it. */
  lemma AlwaysFinishable(
      wid: string, ts: seq<NodeTemplate>, ids: seq<string>, es: seq<Event>, rank: string -> nat)
    returns (rest: seq<Event>)
    requires Creatable(ts, ids) && ts != [] && ProgressTemplates(ts)
    requires RankedTemplates(ts, rank) && OutcomeBlindTemplates(ts)
    requires RunOf(Start(wid, ts, ids), es)
    ensures RunOf(Start(wid, ts, ids), es + rest)
    ensures |rest| <= 2 * |Incomplete(Run(Start(wid, ts, ids), es).nodes)|
    ensures var w := Run(Start(wid, ts, ids), es + rest);
      Incomplete(w.nodes) == {} && w.status.StatusCompleted?
  {
    var w := Start(wid, ts, ids);
    StartWellFormed(wid, ts, ids);
    StartProgressive(wid, ts, ids);
    StartLockedIffUnmet(wid, ts, ids);
    StartRanked(wid, ts, ids, rank);
    RunLive(w, es, rank);
    RunForward(w, es);
    InitialNodesExact(|ts|, wid, ts, ids);
    assert ids[0] in w.nodes && ids[0] in Incomplete(w.nodes);
    RunAllDone(w, es);
    rest := CanFinish(Run(w, es), rank);
    RunAppend(w, es, rest);
  }

  lemma {:induction false} RunAllDone(w: Workflow, es: seq<Event>)
    requires WellFormed(w) && (Incomplete(w.nodes) == {} ==> w.status.StatusCompleted?)
    ensures Incomplete(Run(w, es).nodes) == {} ==> Run(w, es).status.StatusCompleted?
    decreases |es|
  {
    if es != [] {
      var e, w' := es[0], Step(w, es[0]);
      StepForward(w, e);
      StepWellFormed(w, e);
      if Completes(w, e.update) {
        LastStep(w, e);
      } else {
        StepSideways(w, e);
        assert Incomplete(w'.nodes) == Incomplete(w.nodes);
        if Incomplete(w.nodes) == {} {
          StepKeepsStatus(w, e);
        }
      }
      RunAllDone(w', es[1..]);
    }
  }

  lemma StepKeepsStatus(w: Workflow, e: Event)
    requires WellFormed(w) && !Completes(w, e.update) && Incomplete(w.nodes) == {}
    ensures Step(w, e).status == w.status
  {
    if e.update.nodeID in w.nodes {
      assert e.update.nodeID !in Incomplete(w.nodes);
    }
  }

  // ---- A node that waits for the end node ----------------------------------------------------

  /** A task t, an end node e that depends on it, and a task x that depends on the end node. */
  function AfterTheEnd(t: string, e: string, x: string): seq<NodeTemplate> {
    [NodeTemplate(t, TaskNode, [], None), NodeTemplate(e, EndNode, [t], None), NodeTemplate(x, TaskNode, [e], None)]
  }

  lemma TemplateByIDNext(ts: seq<NodeTemplate>, t: NodeTemplate)
    ensures TemplateByID(ts + [t]) == TemplateByID(ts)[t.id := t]
  {
    assert (ts + [t])[..|ts|] == ts;
  }

  lemma InstanceNext(ts: seq<NodeTemplate>, ids: seq<string>, t: NodeTemplate, id: string)
    requires |ids| == |ts|
    ensures InstanceByTemplate(ts + [t], ids + [id]) == InstanceByTemplate(ts, ids)[t.id := id]
  {
    assert (ts + [t])[..|ts|] == ts && (ids + [id])[..|ids|] == ids;
  }

  lemma AfterTheEndMaps(t: string, e: string, x: string)
    requires t != e && e != x && t != x
    ensures var ts, ids := AfterTheEnd(t, e, x), [t, e, x];
      && TemplateByID(ts) == map[t := ts[0], e := ts[1], x := ts[2]]
      && InstanceByTemplate(ts, ids) == map[t := t, e := e, x := x]
  {
    var ts := AfterTheEnd(t, e, x);
    var a, b := [] + [ts[0]], [] + [ts[0]] + [ts[1]];
    TemplateByIDNext([], ts[0]);
    TemplateByIDNext(a, ts[1]);
    TemplateByIDNext(b, ts[2]);
    InstanceNext([], [], ts[0], t);
    InstanceNext(a, [] + [t], ts[1], e);
    InstanceNext(b, [] + [t] + [e], ts[2], x);
    assert b + [ts[2]] == ts && [] + [t] + [e] + [x] == [t, e, x];
  }

  lemma ResolveOne(dep: string, inst: Instances)
    requires dep in inst
    ensures ResolveDependencies([dep], inst) == [inst[dep]]
  {
    assert [dep][1..] == [];
  }

  lemma AfterTheEndCreated(wid: string, t: string, e: string, x: string)
    requires t != e && e != x && t != x
    ensures var ts, ids := AfterTheEnd(t, e, x), [t, e, x];
      && Creatable(ts, ids) && ProgressLeaves(ts)
      && CreatedNode(0, wid, ts, ids) == Node(t, wid, t, Ready, None, None, [], None)
      && CreatedNode(1, wid, ts, ids) == Node(e, wid, e, Locked, None, None, [t], None)
      && CreatedNode(2, wid, ts, ids) == Node(x, wid, x, Locked, None, None, [e], None)
      && TemplateByID(ts)[e] == ts[1] && TemplateByID(ts)[x] == ts[2]
  {
    var ts, ids := AfterTheEnd(t, e, x), [t, e, x];
    AfterTheEndMaps(t, e, x);
    var inst := InstanceByTemplate(ts, ids);
    ResolveOne(t, inst);
    ResolveOne(e, inst);
  }

  lemma AfterTheEndNodes(wid: string, t: string, e: string, x: string)
    requires t != e && e != x && t != x
    ensures var ts, ids := AfterTheEnd(t, e, x), [t, e, x];
      && Creatable(ts, ids) && ProgressLeaves(ts)
      && var w := Start(wid, ts, ids);
        && w.endNodeID == Some(e)
        && w.nodes == map[t := Node(t, wid, t, Ready, None, None, [], None),
                          e := Node(e, wid, e, Locked, None, None, [t], None),
                          x := Node(x, wid, x, Locked, None, None, [e], None)]
  {
    var ts, ids := AfterTheEnd(t, e, x), [t, e, x];
    AfterTheEndCreated(wid, t, e, x);
    assert InitialNodes(0, wid, ts, ids) == map[];
    assert InitialNodes(1, wid, ts, ids) == map[t := CreatedNode(0, wid, ts, ids)];
    assert InitialNodes(2, wid, ts, ids) == InitialNodes(1, wid, ts, ids)[e := CreatedNode(1, wid, ts, ids)];
    assert InitialEnd(2, ts, ids) == Some(e) && InitialEnd(3, ts, ids) == InitialEnd(2, ts, ids);
  }

  lemma AfterTheEndStrands(w: Workflow, wid: string, t: string, e: string, x: string, u: Update)
    requires t != e && e != x && t != x && u == Update(t, Completed, None, None)
    requires w.endNodeID == Some(e)
    requires w.nodes == map[t := Node(t, wid, t, Ready, None, None, [], None),
                            e := Node(e, wid, e, Locked, None, None, [t], None),
                            x := Node(x, wid, x, Locked, None, None, [e], None)]
    ensures Stranded(w, u, x)
  {
    assert e in MarkCompleted(w.nodes, u)[x].dependsOn;
  }

  /** Completing t closes the end node and leaves x LOCKED with its dependency met. */
  lemma LockedThoughMet(wid: string, t: string, e: string, x: string)
    requires t != e && e != x && t != x
    ensures var ts, ids := AfterTheEnd(t, e, x), [t, e, x];
      && Creatable(ts, ids)
      && var w, es := Start(wid, ts, ids), [Event(Update(t, Completed, None, None), ids)];
        RunOf(w, es) && !LockedIffUnmet(Run(w, es).nodes)
  {
    var ts, ids := AfterTheEnd(t, e, x), [t, e, x];
    AfterTheEndNodes(wid, t, e, x);
    var w, ev := Start(wid, ts, ids), Event(Update(t, Completed, None, None), ids);
    assert Enumerates(ids, w.nodes.Keys);
    StartWellFormed(wid, ts, ids);
    StartProgressNodes(wid, ts, ids);
    StartLockedIffUnmet(wid, ts, ids);
    AfterTheEndStrands(w, wid, t, e, x, ev.update);
    StepLockedExact(w, ev);
    assert [ev][1..] == [];
    assert Run(w, [ev]) == Run(Step(w, ev), []);
  }
}
