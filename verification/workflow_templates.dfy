/** What a run means in terms of the templates it was started from. */
module WorkflowTemplates {
  import opened Wrappers
  import opened WorkflowModel
  import opened Unlock
  import opened WorkflowSpec
  import opened UnlockPasses
  import opened WorkflowInvariants
  import opened WorkflowStart

  // ---- The node and the template of an id -----------------------------------------------------

  /** The m-th of the templates is the last one with that id. */
  ghost predicate LastWithID(ts: seq<NodeTemplate>, t: string, m: nat) {
    m < |ts| && ts[m].id == t && forall j | m < j < |ts| :: ts[j].id != t
  }

  lemma {:induction false} LookupLast(ts: seq<NodeTemplate>, ids: seq<string>, t: string, m: nat)
    requires |ids| == |ts| && LastWithID(ts, t, m)
    ensures t in TemplateByID(ts) && TemplateByID(ts)[t] == ts[m]
    ensures t in InstanceByTemplate(ts, ids) && InstanceByTemplate(ts, ids)[t] == ids[m]
    decreases |ts|
  {
    var n := |ts| - 1;
    if m < n {
      assert ts[..n][m] == ts[m] && forall j | m < j < n :: ts[..n][j] == ts[j];
      LookupLast(ts[..n], ids[..n], t, m);
      assert ts[n].id != t;
    }
  }

  lemma {:induction false} LookupNone(ts: seq<NodeTemplate>, ids: seq<string>, t: string)
    requires |ids| == |ts| && forall j | 0 <= j < |ts| :: ts[j].id != t
    ensures t !in TemplateByID(ts) && t !in InstanceByTemplate(ts, ids)
  {
    if ts != [] {
      LookupNone(ts[..|ts| - 1], ids[..|ts| - 1], t);
    }
  }

  lemma {:induction false} FindLast(ts: seq<NodeTemplate>, t: string) returns (m: nat)
    requires exists j | 0 <= j < |ts| :: ts[j].id == t
    ensures LastWithID(ts, t, m)
  {
    var n := |ts| - 1;
    if ts[n].id == t {
      m := n;
    } else {
      var j :| 0 <= j < |ts| && ts[j].id == t;
      assert ts[..n][j].id == t;
      m := FindLast(ts[..n], t);
      forall j | m < j < |ts| ensures ts[j].id != t {
        if j < n {
          assert ts[..n][j] == ts[j];
        }
      }
    }
  }

  /** The template with this id has a node, which has that id. */
  ghost predicate NodeOf(ts: seq<NodeTemplate>, ids: seq<string>, t: string, id: string)
    requires |ids| == |ts|
  {
    exists m | 0 <= m < |ts| :: LastWithID(ts, t, m) && ids[m] == id
  }

  lemma NodeOfExact(ts: seq<NodeTemplate>, ids: seq<string>, t: string, id: string)
    requires |ids| == |ts|
    ensures NodeOf(ts, ids, t, id) <==> t in InstanceByTemplate(ts, ids) && InstanceByTemplate(ts, ids)[t] == id
  {
    if j :| 0 <= j < |ts| && ts[j].id == t {
      var m := FindLast(ts, t);
      LookupLast(ts, ids, t, m);
      if NodeOf(ts, ids, t, id) {
        var m' :| 0 <= m' < |ts| && LastWithID(ts, t, m') && ids[m'] == id;
        LookupLast(ts, ids, t, m');
      }
    } else {
      LookupNone(ts, ids, t);
    }
  }

  // ---- The dependencies of a created node -----------------------------------------------------

  ghost predicate Increasing(at: seq<nat>, n: nat) {
    && (forall j | 0 <= j < |at| :: at[j] < n)
    && (forall j, k | 0 <= j < k < |at| :: at[j] < at[k])
  }

  /** The j-th of the nodes is that of the entry at the j-th position. */
  ghost predicate NodesAt(
      ts: seq<NodeTemplate>, ids: seq<string>, deps: seq<string>, at: seq<nat>, nodes: seq<string>)
    requires |ids| == |ts| && Increasing(at, |deps|)
  {
    |nodes| == |at| && forall j | 0 <= j < |at| :: NodeOf(ts, ids, deps[at[j]], nodes[j])
  }

  ghost predicate AllAt(ts: seq<NodeTemplate>, ids: seq<string>, deps: seq<string>, at: seq<nat>)
    requires |ids| == |ts|
  {
    forall p, id | 0 <= p < |deps| && NodeOf(ts, ids, deps[p], id) :: p in at
  }

  /** nodes lists, in order, the nodes of the entries of deps at these positions, which are all that have one. */
  ghost predicate NodesOf(
      ts: seq<NodeTemplate>, ids: seq<string>, deps: seq<string>, at: seq<nat>, nodes: seq<string>)
    requires |ids| == |ts|
  {
    Increasing(at, |deps|) && NodesAt(ts, ids, deps, at, nodes) && AllAt(ts, ids, deps, at)
  }

  function Shifted(at: seq<nat>): (r: seq<nat>)
    ensures |r| == |at| && forall j | 0 <= j < |at| :: r[j] == at[j] + 1
  {
    seq(|at|, j requires 0 <= j < |at| => at[j] + 1)
  }

  lemma NodesOfNext(
      ts: seq<NodeTemplate>, ids: seq<string>, deps: seq<string>, at: seq<nat>, nodes: seq<string>, id: string)
    requires |ids| == |ts| && deps != [] && NodesOf(ts, ids, deps[1..], at, nodes) && NodeOf(ts, ids, deps[0], id)
    ensures NodesOf(ts, ids, deps, [0] + Shifted(at), [id] + nodes)
  {
    PushedIncreasing(at, |deps| - 1);
    PushedAll(ts, ids, deps, at);
    var at', nodes' := [0] + Shifted(at), [id] + nodes;
    forall j | 0 <= j < |at'| ensures NodeOf(ts, ids, deps[at'[j]], nodes'[j]) {
      if j > 0 {
        assert deps[at'[j]] == deps[1..][at[j - 1]] && nodes'[j] == nodes[j - 1];
      }
    }
  }

  lemma PushedIncreasing(at: seq<nat>, n: nat)
    requires Increasing(at, n)
    ensures Increasing([0] + Shifted(at), n + 1)
  {
  }

  lemma PushedAll(ts: seq<NodeTemplate>, ids: seq<string>, deps: seq<string>, at: seq<nat>)
    requires |ids| == |ts| && deps != [] && AllAt(ts, ids, deps[1..], at)
    ensures AllAt(ts, ids, deps, [0] + Shifted(at))
  {
    var at' := [0] + Shifted(at);
    forall p, id | 0 <= p < |deps| && NodeOf(ts, ids, deps[p], id) ensures p in at' {
      if p > 0 {
        assert deps[p] == deps[1..][p - 1];
        var j :| 0 <= j < |at| && at[j] == p - 1;
        assert at'[j + 1] == p;
      } else {
        assert at'[0] == 0;
      }
    }
  }

  lemma NodesOfSkip(ts: seq<NodeTemplate>, ids: seq<string>, deps: seq<string>, at: seq<nat>, nodes: seq<string>)
    requires |ids| == |ts| && deps != [] && NodesOf(ts, ids, deps[1..], at, nodes)
    requires forall id :: !NodeOf(ts, ids, deps[0], id)
    ensures NodesOf(ts, ids, deps, Shifted(at), nodes)
  {
    ShiftedAll(ts, ids, deps, at);
    forall j | 0 <= j < |at| ensures NodeOf(ts, ids, deps[Shifted(at)[j]], nodes[j]) {
      assert deps[Shifted(at)[j]] == deps[1..][at[j]];
    }
  }

  lemma ShiftedAll(ts: seq<NodeTemplate>, ids: seq<string>, deps: seq<string>, at: seq<nat>)
    requires |ids| == |ts| && deps != [] && AllAt(ts, ids, deps[1..], at)
    requires forall id :: !NodeOf(ts, ids, deps[0], id)
    ensures AllAt(ts, ids, deps, Shifted(at))
  {
    var at' := Shifted(at);
    forall p, id | 0 <= p < |deps| && NodeOf(ts, ids, deps[p], id) ensures p in at' {
      assert p > 0;
      assert deps[p] == deps[1..][p - 1];
      var j :| 0 <= j < |at| && at[j] == p - 1;
      assert at'[j] == p;
    }
  }

  lemma {:induction false} ResolvedExact(ts: seq<NodeTemplate>, ids: seq<string>, deps: seq<string>)
    returns (at: seq<nat>)
    requires |ids| == |ts|
    ensures NodesOf(ts, ids, deps, at, ResolveDependencies(deps, InstanceByTemplate(ts, ids)))
    decreases |deps|
  {
    var inst := InstanceByTemplate(ts, ids);
    if deps == [] {
      at := [];
    } else {
      at := ResolvedExact(ts, ids, deps[1..]);
      if deps[0] in inst {
        NodeOfExact(ts, ids, deps[0], inst[deps[0]]);
        NodesOfNext(ts, ids, deps, at, ResolveDependencies(deps[1..], inst), inst[deps[0]]);
        at := [0] + Shifted(at);
      } else {
        forall id ensures !NodeOf(ts, ids, deps[0], id) {
          NodeOfExact(ts, ids, deps[0], id);
        }
        NodesOfSkip(ts, ids, deps, at, ResolveDependencies(deps[1..], inst));
        assert [] + ResolveDependencies(deps[1..], inst) == ResolveDependencies(deps[1..], inst);
        at := Shifted(at);
      }
    }
  }

  /** The template of the i-th row; with repeated templates the last one of the same id counts. */
  ghost predicate TemplateOf(ts: seq<NodeTemplate>, i: nat, t: NodeTemplate)
    requires i < |ts|
  {
    exists m | 0 <= m < |ts| :: LastWithID(ts, ts[i].id, m) && t == ts[m]
  }

  lemma TemplateOfExact(ts: seq<NodeTemplate>, ids: seq<string>, i: nat, t: NodeTemplate)
    requires |ids| == |ts| && i < |ts|
    ensures TemplateOf(ts, i, t) <==> ts[i].id in TemplateByID(ts) && t == TemplateByID(ts)[ts[i].id]
  {
    var m := FindLast(ts, ts[i].id);
    LookupLast(ts, ids, ts[i].id, m);
    if TemplateOf(ts, i, t) {
      var m' :| 0 <= m' < |ts| && LastWithID(ts, ts[i].id, m') && t == ts[m'];
      LookupLast(ts, ids, ts[i].id, m');
    }
  }

  /** Everything a started node holds. */
  lemma StartedNodeExact(wid: string, ts: seq<NodeTemplate>, ids: seq<string>, i: nat, t: NodeTemplate)
    returns (at: seq<nat>)
    requires Creatable(ts, ids) && i < |ts| && TemplateOf(ts, i, t)
    ensures ids[i] in Start(wid, ts, ids).nodes
    ensures var node := Start(wid, ts, ids).nodes[ids[i]];
      && node.id == ids[i] && node.workflowID == wid && node.templateID == ts[i].id
      && node.extendedState.None? && node.outcome.None?
      && NodesOf(ts, ids, t.dependsOn, at, node.dependsOn)
      && (node.unlock.Some? <==> t.unlock.Some?)
      && (t.unlock.Some? ==>
            var inst := InstanceByTemplate(ts, ids);
            && ValidConfig(t.unlock.value)
            && forall nodes :: Evaluate(node.unlock.value, nodes) == Some(ConfigHolds(t.unlock.value, inst, nodes)))
      && node.state == if at == [] && t.unlock.None? then Ready else Locked
  {
    var inst := InstanceByTemplate(ts, ids);
    TemplateOfExact(ts, ids, i, t);
    InitialNodesExact(|ts|, wid, ts, ids);
    TemplateByIDExact(ts);
    at := ResolvedExact(ts, ids, t.dependsOn);
    if t.unlock.Some? {
      forall nodes
        ensures Evaluate(ResolvedConfig(t.unlock.value, inst), nodes) == Some(ConfigHolds(t.unlock.value, inst, nodes))
      {
        ResolutionPreservesMeaning(t.unlock.value, inst, nodes);
      }
    }
  }

  // ---- Dependencies in terms of the templates -------------------------------------------------

  /** What the template waits for: its unlock formula, or the nodes of the templates it depends on. */
  ghost predicate TemplateMet(ts: seq<NodeTemplate>, ids: seq<string>, t: NodeTemplate, nodes: NodeMap)
    requires |ids| == |ts|
  {
    match t.unlock
    case Some(uc) => ConfigHolds(uc, InstanceByTemplate(ts, ids), nodes)
    case None =>
      forall d, id | d in t.dependsOn && NodeOf(ts, ids, d, id) :: id in nodes && nodes[id].state.Completed?
  }

  lemma ListedMet(
      ts: seq<NodeTemplate>, ids: seq<string>, deps: seq<string>, at: seq<nat>, listed: seq<string>, nodes: NodeMap)
    requires |ids| == |ts| && NodesOf(ts, ids, deps, at, listed)
    ensures (forall d | d in listed :: d in nodes && nodes[d].state.Completed?) <==>
            (forall d, id | d in deps && NodeOf(ts, ids, d, id) :: id in nodes && nodes[id].state.Completed?)
  {
    if forall d | d in listed :: d in nodes && nodes[d].state.Completed? {
      forall d, id | d in deps && NodeOf(ts, ids, d, id) ensures id in nodes && nodes[id].state.Completed? {
        var p :| 0 <= p < |deps| && deps[p] == d;
        assert p in at;
        var j :| 0 <= j < |at| && at[j] == p;
        assert NodeOf(ts, ids, d, listed[j]);
        NodeOfExact(ts, ids, d, id);
        NodeOfExact(ts, ids, d, listed[j]);
        assert listed[j] in listed;
      }
    }
    if forall d, id | d in deps && NodeOf(ts, ids, d, id) :: id in nodes && nodes[id].state.Completed? {
      forall d | d in listed ensures d in nodes && nodes[d].state.Completed? {
        var j :| 0 <= j < |listed| && listed[j] == d;
        assert deps[at[j]] in deps && NodeOf(ts, ids, deps[at[j]], d);
      }
    }
  }

  /** In every later state the dependencies of a node are those of its template. */
  lemma MetExact(
      wid: string, ts: seq<NodeTemplate>, ids: seq<string>, es: seq<Event>, i: nat, t: NodeTemplate)
    requires Creatable(ts, ids) && i < |ts| && TemplateOf(ts, i, t)
    ensures var nodes := Run(Start(wid, ts, ids), es).nodes;
      ids[i] in nodes && (AreDependenciesMet(nodes[ids[i]], nodes) <==> TemplateMet(ts, ids, t, nodes))
  {
    var w := Start(wid, ts, ids);
    var nodes := Run(w, es).nodes;
    var at := StartedNodeExact(wid, ts, ids, i, t);
    RunForward(w, es);
    SameDependencies(w.nodes[ids[i]], nodes[ids[i]], nodes);
    if t.unlock.None? {
      ListedMet(ts, ids, t.dependsOn, at, w.nodes[ids[i]].dependsOn, nodes);
    }
  }

  lemma {:induction false} RunPlainMet(w: Workflow, es: seq<Event>)
    requires PlainMet(w.nodes)
    ensures PlainMet(Run(w, es).nodes)
    decreases |es|
  {
    if es != [] {
      StepPlainMet(w, es[0]);
      RunPlainMet(Step(w, es[0]), es[1..]);
    }
  }

  /** Whatever leaves test, a node without an unlock configuration leaves LOCKED only when all it depends on is done. */
  lemma AlwaysPlainMet(
      wid: string, ts: seq<NodeTemplate>, ids: seq<string>, es: seq<Event>, i: nat, t: NodeTemplate)
    requires Creatable(ts, ids) && i < |ts| && TemplateOf(ts, i, t) && t.unlock.None?
    ensures var nodes := Run(Start(wid, ts, ids), es).nodes;
      ids[i] in nodes && (!nodes[ids[i]].state.Locked? ==>
        forall d, id | d in t.dependsOn && NodeOf(ts, ids, d, id) :: id in nodes && nodes[id].state.Completed?)
  {
    var at := StartedNodeExact(wid, ts, ids, i, t);
    StartPlainMet(wid, ts, ids);
    RunPlainMet(Start(wid, ts, ids), es);
    RunForward(Start(wid, ts, ids), es);
    MetExact(wid, ts, ids, es, i, t);
  }

  /** With progress leaves, no node leaves LOCKED before what its template waits for holds. */
  lemma AlwaysTemplateMet(
      wid: string, ts: seq<NodeTemplate>, ids: seq<string>, es: seq<Event>, i: nat, t: NodeTemplate)
    requires Creatable(ts, ids) && ProgressLeaves(ts) && RunOf(Start(wid, ts, ids), es)
    requires i < |ts| && TemplateOf(ts, i, t)
    ensures var nodes := Run(Start(wid, ts, ids), es).nodes;
      ids[i] in nodes && (!nodes[ids[i]].state.Locked? ==> TemplateMet(ts, ids, t, nodes))
  {
    AlwaysUnlockedMet(wid, ts, ids, es);
    MetExact(wid, ts, ids, es, i, t);
  }

  /** And when nothing depends on an end node, exactly when it holds. */
  lemma AlwaysTemplateExact(
      wid: string, ts: seq<NodeTemplate>, ids: seq<string>, es: seq<Event>, i: nat, t: NodeTemplate)
    requires Creatable(ts, ids) && ProgressTemplates(ts) && RunOf(Start(wid, ts, ids), es)
    requires i < |ts| && TemplateOf(ts, i, t)
    ensures var nodes := Run(Start(wid, ts, ids), es).nodes;
      ids[i] in nodes && (nodes[ids[i]].state.Locked? <==> !TemplateMet(ts, ids, t, nodes))
  {
    AlwaysLockedIffUnmet(wid, ts, ids, es);
    MetExact(wid, ts, ids, es, i, t);
  }

  // ---- The end node ---------------------------------------------------------------------------

  /** The i-th row is the last one whose template is an end node. */
  ghost predicate EndsAt(ts: seq<NodeTemplate>, i: nat) {
    && i < |ts| && EndRow(ts, i)
    && forall j | i < j < |ts| :: !EndRow(ts, j)
  }

  ghost predicate EndRow(ts: seq<NodeTemplate>, i: nat)
    requires i < |ts|
  {
    exists t :: TemplateOf(ts, i, t) && t.nodeType.EndNode?
  }

  lemma EndRowExact(ts: seq<NodeTemplate>, ids: seq<string>, i: nat)
    requires |ids| == |ts| && i < |ts| && ts[i].id in TemplateByID(ts)
    ensures EndRow(ts, i) <==> TemplateByID(ts)[ts[i].id].nodeType.EndNode?
  {
    TemplateOfExact(ts, ids, i, TemplateByID(ts)[ts[i].id]);
    if EndRow(ts, i) {
      var t :| TemplateOf(ts, i, t) && t.nodeType.EndNode?;
      TemplateOfExact(ts, ids, i, t);
    }
  }

  ghost function EndRows(ts: seq<NodeTemplate>): (ends: seq<bool>)
    ensures |ends| == |ts| && forall i | 0 <= i < |ts| :: ends[i] == EndRow(ts, i)
  {
    seq(|ts|, i requires 0 <= i < |ts| => EndRow(ts, i))
  }

  ghost predicate LastTrue(ends: seq<bool>, n: nat, i: nat)
    requires n <= |ends|
  {
    i < n && ends[i] && forall j | i < j < n :: !ends[j]
  }

  /** The id at the last true among the first n, if there is one. */
  ghost predicate LastAmong(ends: seq<bool>, n: nat, ids: seq<string>, end: Option<string>)
    requires |ids| == |ends| && n <= |ends|
  {
    match end
    case None => forall i | 0 <= i < n :: !ends[i]
    case Some(e) => exists i | 0 <= i < n :: LastTrue(ends, n, i) && ids[i] == e
  }

  lemma LastAmongNext(ends: seq<bool>, n: nat, ids: seq<string>, end: Option<string>)
    requires |ids| == |ends| && n < |ends| && LastAmong(ends, n, ids, end)
    ensures LastAmong(ends, n + 1, ids, if ends[n] then Some(ids[n]) else end)
  {
    if ends[n] {
      assert LastTrue(ends, n + 1, n);
    } else if end.Some? {
      var i :| 0 <= i < n && LastTrue(ends, n, i) && ids[i] == end.value;
      assert LastTrue(ends, n + 1, i);
    }
  }

  lemma {:induction false} EndExact(n: nat, ts: seq<NodeTemplate>, ids: seq<string>, ends: seq<bool>)
    requires |ids| == |ts| == |ends| && n <= |ts|
    requires forall i | 0 <= i < |ts| ::
        ts[i].id in TemplateByID(ts) && ends[i] == TemplateByID(ts)[ts[i].id].nodeType.EndNode?
    ensures LastAmong(ends, n, ids, InitialEnd(n, ts, ids))
  {
    if n > 0 {
      EndExact(n - 1, ts, ids, ends);
      LastAmongNext(ends, n - 1, ids, InitialEnd(n - 1, ts, ids));
    }
  }

  /** The end node is that of the last end node template, and there is none when no template is one. */
  lemma StartedEndExact(wid: string, ts: seq<NodeTemplate>, ids: seq<string>)
    requires Creatable(ts, ids)
    ensures match Start(wid, ts, ids).endNodeID
      case None => forall i | 0 <= i < |ts| :: !EndRow(ts, i)
      case Some(e) => exists i | 0 <= i < |ts| :: EndsAt(ts, i) && ids[i] == e
  {
    var ends := EndRows(ts);
    forall i | 0 <= i < |ts| ensures ends[i] == TemplateByID(ts)[ts[i].id].nodeType.EndNode? {
      EndRowExact(ts, ids, i);
    }
    EndExact(|ts|, ts, ids, ends);
    if Start(wid, ts, ids).endNodeID.Some? {
      var i :| 0 <= i < |ts| && LastTrue(ends, |ts|, i) && ids[i] == Start(wid, ts, ids).endNodeID.value;
      assert EndsAt(ts, i);
    }
  }

  /** Once the status is COMPLETED: the end node is COMPLETED for good, or all nodes when there is none. */
  lemma AlwaysCompleted(wid: string, ts: seq<NodeTemplate>, ids: seq<string>, es: seq<Event>, later: seq<Event>)
    requires Creatable(ts, ids) && Run(Start(wid, ts, ids), es).status.StatusCompleted?
    ensures var nodes := Run(Start(wid, ts, ids), es + later).nodes;
      && (forall i | 0 <= i < |ts| && EndsAt(ts, i) :: ids[i] in nodes && nodes[ids[i]].state.Completed?)
      && ((forall i | 0 <= i < |ts| :: !EndRow(ts, i)) ==> forall k | k in nodes :: nodes[k].state.Completed?)
  {
    var w := Start(wid, ts, ids);
    AlwaysSoundStatus(wid, ts, ids, es, later);
    RunForward(w, es + later);
    StartedEndExact(wid, ts, ids);
    forall i | 0 <= i < |ts| && EndsAt(ts, i) ensures w.endNodeID == Some(ids[i]) {
      var e :| 0 <= e < |ts| && EndsAt(ts, e) && w.endNodeID == Some(ids[e]);
      assert e == i;
    }
  }

  /** And what the template of the end node waits for holds from then on. */
  lemma AlwaysSoundTemplate(
      wid: string, ts: seq<NodeTemplate>, ids: seq<string>, es: seq<Event>, later: seq<Event>, i: nat, t: NodeTemplate)
    requires Creatable(ts, ids) && Run(Start(wid, ts, ids), es).status.StatusCompleted?
    requires i < |ts| && EndsAt(ts, i) && TemplateOf(ts, i, t)
    requires t.unlock.Some? ==> ProgressLeaves(ts) && RunOf(Start(wid, ts, ids), es + later)
    ensures TemplateMet(ts, ids, t, Run(Start(wid, ts, ids), es + later).nodes)
  {
    AlwaysCompleted(wid, ts, ids, es, later);
    if t.unlock.None? {
      AlwaysPlainMet(wid, ts, ids, es + later, i, t);
    } else {
      AlwaysTemplateMet(wid, ts, ids, es + later, i, t);
    }
  }

  /** A workflow that is finished, in these terms, has the status unless a failure was reported since. */
  lemma AlwaysReported(wid: string, ts: seq<NodeTemplate>, ids: seq<string>, es: seq<Event>)
    requires Creatable(ts, ids) && ts != []
    ensures var w := Run(Start(wid, ts, ids), es);
      && (forall i | 0 <= i < |ts| && EndsAt(ts, i) ::
            (w.status.StatusCompleted? <==>
               ids[i] in w.nodes && w.nodes[ids[i]].state.Completed? && !FailedLast(Start(wid, ts, ids), es)))
      && ((forall i | 0 <= i < |ts| :: !EndRow(ts, i)) ==>
            (w.status.StatusCompleted? <==>
               (forall k | k in w.nodes :: w.nodes[k].state.Completed?) && !FailedLast(Start(wid, ts, ids), es)))
  {
    var w := Start(wid, ts, ids);
    AlwaysSoundStatus(wid, ts, ids, es, []);
    StartedEndExact(wid, ts, ids);
    forall i | 0 <= i < |ts| && EndsAt(ts, i) ensures w.endNodeID == Some(ids[i]) {
      var e :| 0 <= e < |ts| && EndsAt(ts, e) && w.endNodeID == Some(ids[e]);
      assert e == i;
    }
  }
}
