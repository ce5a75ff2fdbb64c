/** One workflow instance as a transition system: what a start and a task update do to its nodes. */
module WorkflowSpec {
  import opened Wrappers
  import opened WorkflowModel
  import opened Unlock

  datatype WorkflowStatus = StatusInProgress | StatusCompleted | StatusFailed

  /** activated lists the nodes handed to the task manager so far, in order. */
  datatype Workflow = Workflow(
    nodes: NodeMap,
    endNodeID: Option<string>,
    status: WorkflowStatus,
    activated: seq<string>)

  datatype Update = Update(
    nodeID: string,
    state: NodeState,
    extendedState: Option<string>,
    outcome: Option<string>)

  /** An update together with the order in which the database happens to return the sibling rows. */
  datatype Event = Event(update: Update, order: seq<string>)

  ghost predicate NoDuplicates<T>(s: seq<T>) {
    forall i, j | 0 <= i < j < |s| :: s[i] != s[j]
  }

  ghost predicate Enumerates(order: seq<string>, keys: set<string>) {
    NoDuplicates(order) && forall k :: k in order <==> k in keys
  }

  // ---- Dependencies ---------------------------------------------------------------------------

  predicate AreDependenciesMet(node: Node, nodes: NodeMap) {
    match node.unlock
    case Some(uc) => Evaluate(uc, nodes) == Some(true)
    case None => forall d | d in node.dependsOn :: d in nodes && nodes[d].state.Completed?
  }

  // ---- Completing a node ----------------------------------------------------------------------

  function MarkCompleted(nodes: NodeMap, u: Update): NodeMap
    requires u.nodeID in nodes
  {
    var node := nodes[u.nodeID];
    nodes[u.nodeID := node.(state := Completed, extendedState := u.extendedState, outcome := u.outcome)]
  }

  predicate Unlocks(k: string, m: NodeMap) {
    k in m && m[k].state.Locked? && AreDependenciesMet(m[k], m)
  }

  /** The pass over the siblings: a node made READY is seen by the nodes visited after it. */
  function UnlockPass(order: seq<string>, m: NodeMap): (r: NodeMap)
    ensures r.Keys == m.Keys
    ensures forall k | k in m :: r[k] == m[k] || (m[k].state.Locked? && r[k] == m[k].(state := Ready))
  {
    if order == [] then m
    else if Unlocks(order[0], m) then UnlockPass(order[1..], m[order[0] := m[order[0]].(state := Ready)])
    else UnlockPass(order[1..], m)
  }

  function UnlockedIDs(order: seq<string>, m: NodeMap): seq<string> {
    if order == [] then []
    else if Unlocks(order[0], m) then
      [order[0]] + UnlockedIDs(order[1..], m[order[0] := m[order[0]].(state := Ready)])
    else UnlockedIDs(order[1..], m)
  }

  /** A READY end node is completed at once, without a second pass. */
  function CloseEndNode(m: NodeMap, endNodeID: Option<string>): NodeMap {
    match endNodeID
    case Some(e) => if e in m && m[e].state.Ready? then m[e := m[e].(state := Completed)] else m
    case None => m
  }

  function CompleteNode(nodes: NodeMap, u: Update, endNodeID: Option<string>, order: seq<string>): NodeMap
    requires u.nodeID in nodes
  {
    CloseEndNode(UnlockPass(order, MarkCompleted(nodes, u)), endNodeID)
  }

  function StillReady(ids: seq<string>, m: NodeMap): seq<string> {
    if ids == [] then []
    else if ids[0] in m && m[ids[0]].state.Ready? then [ids[0]] + StillReady(ids[1..], m)
    else StillReady(ids[1..], m)
  }

  function NewReadyIDs(nodes: NodeMap, u: Update, endNodeID: Option<string>, order: seq<string>): seq<string>
    requires u.nodeID in nodes
  {
    StillReady(UnlockedIDs(order, MarkCompleted(nodes, u)), CompleteNode(nodes, u, endNodeID, order))
  }

  predicate Finished(nodes: NodeMap, endNodeID: Option<string>) {
    match endNodeID
    case Some(e) => e in nodes && nodes[e].state.Completed?
    case None => forall k | k in nodes :: nodes[k].state.Completed?
  }

  // ---- Steps and runs -------------------------------------------------------------------------

  predicate CanComplete(s: NodeState) { s.Ready? || s.InProgress? }

  predicate CanFail(s: NodeState) { s.Ready? || s.InProgress? }

  predicate CanProgress(s: NodeState) { s.Ready? || s.Failed? || s.InProgress? }

  /** Updates that commit.  Every other update is rolled back. */
  predicate Accepts(nodes: NodeMap, u: Update) {
    && u.nodeID in nodes
    && var s := nodes[u.nodeID].state;
      match u.state
      case Failed => s.Failed? || CanFail(s)
      case InProgress => CanProgress(s)
      case Completed => s.Completed? || CanComplete(s)
      case _ => true
  }

  function Step(w: Workflow, e: Event): Workflow {
    var u := e.update;
    if !Accepts(w.nodes, u) then w
    else
      var node := w.nodes[u.nodeID];
      match u.state
      case Failed =>
        if node.state.Failed? then w
        else w.(nodes := w.nodes[u.nodeID := node.(state := Failed, extendedState := u.extendedState)],
                status := StatusFailed)
      case InProgress =>
        w.(nodes := w.nodes[u.nodeID := node.(state := InProgress, extendedState := u.extendedState)])
      case Completed =>
        if node.state.Completed? then w
        else
          var nodes := CompleteNode(w.nodes, u, w.endNodeID, e.order);
          w.(nodes := nodes,
             activated := w.activated + NewReadyIDs(w.nodes, u, w.endNodeID, e.order),
             status := if Finished(nodes, w.endNodeID) then StatusCompleted else w.status)
      case _ => w
  }

  function Run(w: Workflow, es: seq<Event>): Workflow
    decreases |es|
  {
    if es == [] then w else Run(Step(w, es[0]), es[1..])
  }

  /** Every event carries some order of the rows of this workflow. */
  ghost predicate RunOf(w: Workflow, es: seq<Event>) {
    forall e | e in es :: Enumerates(e.order, w.nodes.Keys)
  }

  // ---- Starting an instance -------------------------------------------------------------------
  // ids are the primary keys the database gives the created rows, in creation order.

  function TemplateByID(ts: seq<NodeTemplate>): map<string, NodeTemplate> {
    if ts == [] then map[]
    else TemplateByID(ts[..|ts| - 1])[ts[|ts| - 1].id := ts[|ts| - 1]]
  }

  function InstanceByTemplate(ts: seq<NodeTemplate>, ids: seq<string>): (inst: Instances)
    requires |ids| == |ts|
  {
    if ts == [] then map[]
    else InstanceByTemplate(ts[..|ts| - 1], ids[..|ts| - 1])[ts[|ts| - 1].id := ids[|ts| - 1]]
  }

  /** Dependencies on templates that have no node in this workflow are dropped. */
  function ResolveDependencies(deps: seq<string>, inst: Instances): seq<string> {
    if deps == [] then []
    else (if deps[0] in inst then [inst[deps[0]]] else []) + ResolveDependencies(deps[1..], inst)
  }

  predicate Resolvable(t: NodeTemplate, inst: Instances) {
    t.unlock.Some? ==> ValidConfig(t.unlock.value) && MappedConfig(t.unlock.value, inst)
  }

  function InitialNode(id: string, wid: string, t: NodeTemplate, inst: Instances): Node
    requires Resolvable(t, inst)
  {
    var deps := ResolveDependencies(t.dependsOn, inst);
    var unlock := if t.unlock.Some? then Some(ResolvedConfig(t.unlock.value, inst)) else None;
    Node(id, wid, t.id, if deps == [] && unlock.None? then Ready else Locked, None, None, deps, unlock)
  }

  predicate Startable(ts: seq<NodeTemplate>, ids: seq<string>)
    requires |ids| == |ts|
  {
    var byID := TemplateByID(ts);
    var inst := InstanceByTemplate(ts, ids);
    forall i | 0 <= i < |ts| :: ts[i].id in byID && Resolvable(byID[ts[i].id], inst)
  }

  /** The node of the i-th row; with repeated templates the last one of the same id counts. */
  function CreatedNode(i: nat, wid: string, ts: seq<NodeTemplate>, ids: seq<string>): Node
    requires |ids| == |ts| && Startable(ts, ids) && i < |ts|
  {
    InitialNode(ids[i], wid, TemplateByID(ts)[ts[i].id], InstanceByTemplate(ts, ids))
  }

  function InitialNodes(n: nat, wid: string, ts: seq<NodeTemplate>, ids: seq<string>): NodeMap
    requires |ids| == |ts| && Startable(ts, ids) && n <= |ts|
  {
    if n == 0 then map[]
    else InitialNodes(n - 1, wid, ts, ids)[ids[n - 1] := CreatedNode(n - 1, wid, ts, ids)]
  }

  function InitialReady(n: nat, wid: string, ts: seq<NodeTemplate>, ids: seq<string>): seq<string>
    requires |ids| == |ts| && Startable(ts, ids) && n <= |ts|
  {
    if n == 0 then []
    else InitialReady(n - 1, wid, ts, ids)
         + (if CreatedNode(n - 1, wid, ts, ids).state.Ready? then [ids[n - 1]] else [])
  }

  function InitialEnd(n: nat, ts: seq<NodeTemplate>, ids: seq<string>): Option<string>
    requires |ids| == |ts| && n <= |ts|
    requires forall i | 0 <= i < |ts| :: ts[i].id in TemplateByID(ts)
  {
    if n == 0 then None
    else if TemplateByID(ts)[ts[n - 1].id].nodeType.EndNode? then Some(ids[n - 1])
    else InitialEnd(n - 1, ts, ids)
  }

  function Start(wid: string, ts: seq<NodeTemplate>, ids: seq<string>): Workflow
    requires |ids| == |ts| && Startable(ts, ids)
  {
    Workflow(InitialNodes(|ts|, wid, ts, ids), InitialEnd(|ts|, ts, ids), StatusInProgress,
             InitialReady(|ts|, wid, ts, ids))
  }
}
