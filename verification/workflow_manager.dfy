/** The workflow manager: starts instances and applies task updates, each as one transaction. */
module WorkflowManager {
  import opened Wrappers
  import opened WorkflowModel
  import opened WorkflowSpec
  import opened UnlockPasses
  import opened WorkflowInvariants
  import opened WorkflowProgress
  import opened WorkflowStart
  import opened NodeStore
  import opened StateMachine
  import Plugin

  type Context = map<string, string>

  datatype WorkflowRow = WorkflowRow(status: WorkflowStatus, globalContext: Context, endNodeID: Option<string>)

  datatype WorkflowTemplate = WorkflowTemplate(nodeTemplateIDs: seq<string>, endNodeTemplateID: Option<string>)

  datatype Notification = Notification(
    taskID: string,
    updatedState: Option<Plugin.TaskState>,
    appendGlobalContext: Context,
    extendedState: Option<string>,
    outcome: Option<string>)

  /** Results of the calls that leave the engine during one operation. */
  datatype Environment = Environment(
    statusHandlerOK: bool,
    taskInitOK: string -> bool)

  datatype ManagerError =
    | NilState | NodeNotFound | NoHandler | Rejected(reason: TransitionError) | HandlerFailed | RegistrationFailed
    | WorkflowExists | NoEndTemplate

  function PluginStateToNodeState(s: Plugin.TaskState): NodeState {
    match s
    case Initialized => Ready
    case InProgress => InProgress
    case Completed => Completed
    case Failed => Failed
  }

  function UpdateOf(n: Notification): Update
    requires n.updatedState.Some?
  {
    Update(n.taskID, PluginStateToNodeState(n.updatedState.value), n.extendedState, n.outcome)
  }

  /** The steps that call the workflow event handler before they commit. */
  predicate ChangesStatus(w: Workflow, e: Event) {
    && Accepts(w.nodes, e.update)
    && match e.update.state
       case Failed => !w.nodes[e.update.nodeID].state.Failed?
       case Completed =>
         && !w.nodes[e.update.nodeID].state.Completed?
         && Finished(Step(w, e).nodes, w.endNodeID)
       case _ => false
  }

  /** The ids newly handed to the task manager by a step. */
  function HandedOver(w: Workflow, e: Event): seq<string> {
    if e.update.nodeID in w.nodes && e.update.state.Completed? && CanComplete(w.nodes[e.update.nodeID].state)
    then NewReadyIDs(w.nodes, e.update, w.endNodeID, e.order)
    else []
  }

  /** Replacing the nodes of one instance changes that instance and no other. */
  lemma Overlay(rows: Rows, wid: string, nodes: NodeMap)
    requires Keyed(rows) && SameGraph(Siblings(rows, wid), nodes)
    ensures Siblings(rows + nodes, wid) == nodes
    ensures forall v | v != wid :: Siblings(rows + nodes, v) == Siblings(rows, v)
    ensures (rows + nodes).Keys == rows.Keys
    ensures forall k | k in rows :: (rows + nodes)[k].workflowID == rows[k].workflowID
    ensures Keyed(rows + nodes)
  {
    var r := rows + nodes;
    forall k | k in rows ensures r[k].workflowID == rows[k].workflowID && r[k].id == k {
      if k in nodes {
        assert k in Siblings(rows, wid);
      }
    }
    forall k | k in nodes ensures k in rows && k in Siblings(r, wid) {
      assert k in Siblings(rows, wid);
    }
    forall v | v != wid ensures Siblings(r, v) == Siblings(rows, v) {
      forall k | k in rows && rows[k].workflowID == v ensures r[k] == rows[k] {
        assert k !in Siblings(rows, wid);
      }
    }
  }

  /** The tables after a step of one instance that ends in w. */
  ghost predicate Stepped(
      wid: string, rows: Rows, wfs: map<string, WorkflowRow>, w: Workflow, append: Context,
      rows': Rows, wfs': map<string, WorkflowRow>)
  {
    && wid in wfs
    && rows' == rows + w.nodes
    && wfs' == wfs[wid := WorkflowRow(w.status, wfs[wid].globalContext + append, wfs[wid].endNodeID)]
  }

  /** The instance as the tables hold it, and one of its nodes as loaded for an update. */
  ghost predicate Loaded(w: Workflow, wid: string, rows: Rows, wfs: map<string, WorkflowRow>, node: Node, u: Update) {
    && wid in wfs && w.nodes == Siblings(rows, wid)
    && w.status == wfs[wid].status && w.endNodeID == wfs[wid].endNodeID
    && node.workflowID == wid && node.id == u.nodeID && node.id in rows && rows[node.id] == node
  }

  /** A step that leaves the nodes alone, as no write at all. */
  lemma NothingWritten(w: Workflow, wid: string, rows: Rows, wfs: map<string, WorkflowRow>, node: Node, u: Update)
    requires Loaded(w, wid, rows, wfs, node, u)
    ensures Stepped(wid, rows, wfs, w, map[], rows, wfs)
  {
    assert rows + w.nodes == rows;
    assert wfs[wid].globalContext + map[] == wfs[wid].globalContext;
    assert wfs[wid := wfs[wid]] == wfs;
  }

  /** A step that writes one row, and perhaps the status. */
  lemma OneWritten(
      w: Workflow, w': Workflow, wid: string, rows: Rows, wfs: map<string, WorkflowRow>, node: Node, u: Update,
      node': Node)
    requires Loaded(w, wid, rows, wfs, node, u) && node'.workflowID == wid
    requires w'.nodes == w.nodes[node.id := node']
    ensures Stepped(wid, rows, wfs, w', map[], rows[node.id := node'], wfs[wid := wfs[wid].(status := w'.status)])
  {
    assert rows[node.id := node'] == rows + w'.nodes;
    assert wfs[wid].globalContext + map[] == wfs[wid].globalContext;
  }

  lemma FailedStep(w: Workflow, e: Event)
    requires e.update.nodeID in w.nodes && e.update.state.Failed?
    ensures var node := w.nodes[e.update.nodeID];
      && (Accepts(w.nodes, e.update) <==> node.state.Failed? || CanFail(node.state))
      && (node.state.Failed? ==> Step(w, e) == w && !ChangesStatus(w, e))
      && (CanFail(node.state) ==>
            && ChangesStatus(w, e)
            && Step(w, e) == w.(
                 nodes := w.nodes[e.update.nodeID := node.(state := Failed, extendedState := e.update.extendedState)],
                 status := StatusFailed))
  {
  }

  lemma InProgressStep(w: Workflow, e: Event)
    requires e.update.nodeID in w.nodes && e.update.state.InProgress?
    ensures var node := w.nodes[e.update.nodeID];
      && (Accepts(w.nodes, e.update) <==> CanProgress(node.state))
      && (CanProgress(node.state) ==>
            Step(w, e) == w.(
              nodes := w.nodes[e.update.nodeID := node.(state := InProgress, extendedState := e.update.extendedState)]))
  {
  }

  lemma CompletedStep(w: Workflow, e: Event)
    requires e.update.nodeID in w.nodes && e.update.state.Completed? && CanComplete(w.nodes[e.update.nodeID].state)
    ensures Accepts(w.nodes, e.update)
    ensures var nodes := CompleteNode(w.nodes, e.update, w.endNodeID, e.order);
      && Step(w, e).nodes == nodes
      && (ChangesStatus(w, e) <==> Finished(nodes, w.endNodeID))
      && Step(w, e).status == (if Finished(nodes, w.endNodeID) then StatusCompleted else w.status)
      && HandedOver(w, e) == NewReadyIDs(w.nodes, e.update, w.endNodeID, e.order)
  {
  }

  /** The tables after an accepted completion, with the status written when the workflow is finished. */
  lemma CompletedTables(
      w: Workflow, wid: string, rows: Rows, wfs: map<string, WorkflowRow>, node: Node, e: Event,
      finished: bool, handed: seq<string>, rows': Rows)
    requires Loaded(w, wid, rows, wfs, node, e.update) && node.id in w.nodes && w.nodes[node.id] == node
    requires e.update.state.Completed? && CanComplete(node.state)
    requires rows' == rows + CompleteNode(w.nodes, e.update, w.endNodeID, e.order)
    requires finished == Finished(CompleteNode(w.nodes, e.update, w.endNodeID, e.order), w.endNodeID)
    requires handed == NewReadyIDs(w.nodes, e.update, w.endNodeID, e.order)
    ensures Accepts(w.nodes, e.update) && (ChangesStatus(w, e) <==> finished) && handed == HandedOver(w, e)
    ensures Stepped(wid, rows, wfs, Step(w, e), map[], rows',
                    if finished then wfs[wid := wfs[wid].(status := StatusCompleted)] else wfs)
  {
    CompletedStep(w, e);
    assert wfs[wid].globalContext + map[] == wfs[wid].globalContext;
    assert wfs[wid := wfs[wid]] == wfs;
  }

  /** Only a completion reads the order of the siblings. */
  lemma OrderUnused(w: Workflow, u: Update, order: seq<string>)
    requires !u.state.Completed? || (u.nodeID in w.nodes && w.nodes[u.nodeID].state.Completed?)
    ensures Step(w, Event(u, order)) == Step(w, Event(u, []))
    ensures ChangesStatus(w, Event(u, order)) == ChangesStatus(w, Event(u, []))
    ensures HandedOver(w, Event(u, order)) == []
    ensures u.nodeID in w.nodes && (u.state.Completed? || u.state.Ready? || u.state.Locked?) ==>
              Accepts(w.nodes, u) && Step(w, Event(u, order)) == w && !ChangesStatus(w, Event(u, order))
  {
  }

  lemma ContextFirst(
      wid: string, rows: Rows, wfs: map<string, WorkflowRow>, w: Workflow, append: Context,
      rows': Rows, wfs': map<string, WorkflowRow>)
    requires wid in wfs
    requires Stepped(wid, rows, wfs[wid := wfs[wid].(globalContext := wfs[wid].globalContext + append)], w, map[],
                     rows', wfs')
    ensures Stepped(wid, rows, wfs, w, append, rows', wfs')
  {
    var gc := wfs[wid].globalContext + append;
    assert gc + map[] == gc;
  }

  /** The instance that the tables hold. */
  ghost function InstanceOf(
      rows: Rows, wfs: map<string, WorkflowRow>, activated: map<string, seq<string>>, wid: string): Workflow
    requires wid in wfs && wid in activated
  {
    Workflow(Siblings(rows, wid), wfs[wid].endNodeID, wfs[wid].status, activated[wid])
  }

  ghost predicate ValidTables(rows: Rows, wfs: map<string, WorkflowRow>, activated: map<string, seq<string>>) {
    && Keyed(rows)
    && activated.Keys == wfs.Keys
    && (forall k | k in rows :: rows[k].workflowID in wfs)
    && (forall wid | wid in wfs :: WellFormed(InstanceOf(rows, wfs, activated, wid)))
  }

  /** The tables move by one step of instance wid: that instance steps, the others do not change. */
  ghost predicate StepsTo(
      wid: string, e: Event, append: Context,
      rows: Rows, wfs: map<string, WorkflowRow>, act: map<string, seq<string>>,
      rows': Rows, wfs': map<string, WorkflowRow>, act': map<string, seq<string>>)
  {
    && wid in wfs && wid in wfs' && act.Keys == wfs.Keys && act'.Keys == wfs'.Keys == wfs.Keys
    && Enumerates(e.order, Siblings(rows, wid).Keys)
    && InstanceOf(rows', wfs', act', wid) == Step(InstanceOf(rows, wfs, act, wid), e)
    && wfs'[wid].globalContext == wfs[wid].globalContext + append
    && forall v | v in wfs' && v != wid ::
         wfs'[v] == wfs[v] && InstanceOf(rows', wfs', act', v) == InstanceOf(rows, wfs, act, v)
  }

  /** When the transaction of a step commits. */
  predicate Commits(w: Workflow, e: Event, env: Environment) {
    Accepts(w.nodes, e.update) && (ChangesStatus(w, e) ==> env.statusHandlerOK)
  }

  /** The instance of a valid table, loaded for an update after the context was written. */
  lemma ValidLoaded(
      rows: Rows, wfs: map<string, WorkflowRow>, act: map<string, seq<string>>, append: Context, node: Node, u: Update)
    requires ValidTables(rows, wfs, act) && u.nodeID == node.id && node.id in rows && rows[node.id] == node
    ensures var wid := node.workflowID;
      && wid in wfs
      && Loaded(InstanceOf(rows, wfs, act, wid), wid, rows,
                wfs[wid := wfs[wid].(globalContext := wfs[wid].globalContext + append)], node, u)
      && WellFormed(InstanceOf(rows, wfs, act, wid))
  {
  }

  /** The tables stay valid over a step of one instance, and the other instances stay as they are. */
  lemma StaysValid(
      wid: string, e: Event, append: Context,
      rows: Rows, wfs: map<string, WorkflowRow>, act: map<string, seq<string>>,
      rows': Rows, wfs': map<string, WorkflowRow>, act': map<string, seq<string>>)
    requires ValidTables(rows, wfs, act) && wid in wfs
    requires Stepped(wid, rows, wfs, Step(InstanceOf(rows, wfs, act, wid), e), append, rows', wfs')
    requires act' == act[wid := Step(InstanceOf(rows, wfs, act, wid), e).activated]
    requires Enumerates(e.order, Siblings(rows, wid).Keys)
    ensures ValidTables(rows', wfs', act')
    ensures StepsTo(wid, e, append, rows, wfs, act, rows', wfs', act')
  {
    var w := InstanceOf(rows, wfs, act, wid);
    StepForward(w, e);
    StepWellFormed(w, e);
    Overlay(rows, wid, Step(w, e).nodes);
    assert InstanceOf(rows', wfs', act', wid) == Step(w, e);
    forall v | v in wfs' ensures WellFormed(InstanceOf(rows', wfs', act', v)) {
      if v != wid {
        assert WellFormed(InstanceOf(rows, wfs, act, v));
        assert InstanceOf(rows', wfs', act', v) == InstanceOf(rows, wfs, act, v);
      }
    }
  }

  // ---- What a committed report does to the tables ---------------------------------------------

  /** The notification reports a state of a known node whose workflow has a handler. */
  predicate Addressed(n: Notification, rows: Rows, handlers: set<string>) {
    n.updatedState.Some? && n.taskID in rows && rows[n.taskID].workflowID in handlers
  }

  /** The node states in which a report is taken. */
  predicate Admits(reported: Plugin.TaskState, s: NodeState) {
    match reported
    case Initialized => true
    case InProgress => s.Ready? || s.InProgress? || s.Failed?
    case Completed => s.Ready? || s.InProgress? || s.Completed?
    case Failed => s.Ready? || s.InProgress? || s.Failed?
  }

  /** The row of the node itself. */
  ghost predicate ReportedNode(n: Notification, before: Node, after: Node)
    requires n.updatedState.Some?
  {
    match n.updatedState.value
    case Initialized => after == before
    case InProgress => after == before.(state := NodeState.InProgress, extendedState := n.extendedState)
    case Completed =>
      after == if before.state.Completed? then before
               else before.(state := NodeState.Completed, extendedState := n.extendedState, outcome := n.outcome)
    case Failed =>
      after == if before.state.Failed? then before
               else before.(state := NodeState.Failed, extendedState := n.extendedState)
  }

  /** Only a completion reaches other rows: it unlocks nodes of the workflow, and may close its end node. */
  ghost predicate ReportedOther(n: Notification, end: Option<string>, before: Node, after: Node)
    requires n.updatedState.Some?
  {
    || after == before
    || (n.updatedState.value.Completed? && before.state.Locked? && after == before.(state := NodeState.Ready))
    || (n.updatedState.value.Completed? && end == Some(before.id)
        && (before.state.Locked? || before.state.Ready?) && after == before.(state := NodeState.Completed))
  }

  /** The end node is complete, or all nodes when there is none. */
  ghost predicate AllDone(rows: Rows, wid: string, end: Option<string>) {
    match end
    case Some(e) => e in rows && rows[e].workflowID == wid && rows[e].state.Completed?
    case None => forall k | k in rows && rows[k].workflowID == wid :: rows[k].state.Completed?
  }

  ghost predicate ReportedStatus(
      n: Notification, before: NodeState, rows': Rows, wid: string, end: Option<string>,
      s: WorkflowStatus, s': WorkflowStatus)
    requires n.updatedState.Some?
  {
    if n.updatedState.value.Failed? && !before.Failed? then s' == StatusFailed
    else if n.updatedState.value.Completed? && !before.Completed? && AllDone(rows', wid, end) then s' == StatusCompleted
    else s' == s
  }

  ghost predicate ReportedRow(n: Notification, wid: string, end: Option<string>, before: Node, after: Node, k: string)
    requires n.updatedState.Some?
  {
    && (before.workflowID != wid ==> after == before)
    && (before.workflowID == wid && k == n.taskID ==> ReportedNode(n, before, after))
    && (before.workflowID == wid && k != n.taskID ==> ReportedOther(n, end, before, after))
  }

  ghost predicate ReportedRows(n: Notification, wid: string, end: Option<string>, rows: Rows, rows': Rows)
    requires n.updatedState.Some?
  {
    rows'.Keys == rows.Keys && forall k | k in rows :: ReportedRow(n, wid, end, rows[k], rows'[k], k)
  }

  ghost predicate ReportedWorkflows(
      n: Notification, before: NodeState, wid: string, rows': Rows,
      wfs: map<string, WorkflowRow>, wfs': map<string, WorkflowRow>)
    requires n.updatedState.Some? && wid in wfs
  {
    && wfs'.Keys == wfs.Keys
    && ReportedStatus(n, before, rows', wid, wfs[wid].endNodeID, wfs[wid].status, wfs'[wid].status)
    && wfs'[wid].globalContext == wfs[wid].globalContext + n.appendGlobalContext
    && wfs'[wid].endNodeID == wfs[wid].endNodeID
    && (forall v | v in wfs && v != wid :: wfs'[v] == wfs[v])
  }

  /** The tables after a committed notification, in its own terms. */
  ghost predicate ReportedTables(
      n: Notification, rows: Rows, wfs: map<string, WorkflowRow>, rows': Rows, wfs': map<string, WorkflowRow>)
    requires n.updatedState.Some? && n.taskID in rows && rows[n.taskID].workflowID in wfs
  {
    var node, wid := rows[n.taskID], rows[n.taskID].workflowID;
    && Admits(n.updatedState.value, node.state)
    && ReportedRows(n, wid, wfs[wid].endNodeID, rows, rows')
    && ReportedWorkflows(n, node.state, wid, rows', wfs, wfs')
  }

  /** The step of a report, node by node. */
  lemma StepReports(w: Workflow, n: Notification, order: seq<string>, k: string)
    requires n.updatedState.Some? && n.taskID in w.nodes && k in w.nodes && WellFormed(w)
    requires Accepts(w.nodes, UpdateOf(n))
    ensures var w' := Step(w, Event(UpdateOf(n), order));
      && Admits(n.updatedState.value, w.nodes[n.taskID].state)
      && k in w'.nodes
      && (k == n.taskID ==> ReportedNode(n, w.nodes[k], w'.nodes[k]))
      && (k != n.taskID ==> ReportedOther(n, w.endNodeID, w.nodes[k], w'.nodes[k]))
  {
    var u := UpdateOf(n);
    if Completes(w, u) {
      CompletionCases(w.nodes, u, w.endNodeID, order, k);
    }
  }

  lemma StepReportsStatus(w: Workflow, n: Notification, order: seq<string>)
    requires n.updatedState.Some? && n.taskID in w.nodes && Accepts(w.nodes, UpdateOf(n))
    ensures var w' := Step(w, Event(UpdateOf(n), order));
      var s := w.nodes[n.taskID].state;
      && w'.endNodeID == w.endNodeID
      && w'.status == (if n.updatedState.value.Failed? && !s.Failed? then StatusFailed
                       else if n.updatedState.value.Completed? && !s.Completed? && Finished(w'.nodes, w.endNodeID)
                       then StatusCompleted
                       else w.status)
  {
  }

  lemma SiblingRow(rows: Rows, wid: string, k: string)
    ensures k in Siblings(rows, wid) <==> k in rows && rows[k].workflowID == wid
    ensures k in Siblings(rows, wid) ==> Siblings(rows, wid)[k] == rows[k]
  {
  }

  lemma FinishedRows(rows: Rows, wid: string, end: Option<string>)
    ensures Finished(Siblings(rows, wid), end) <==> AllDone(rows, wid, end)
  {
    match end
    case Some(e) => SiblingRow(rows, wid, e);
    case None =>
      forall k ensures k in Siblings(rows, wid) <==> k in rows && rows[k].workflowID == wid {
        SiblingRow(rows, wid, k);
      }
      if AllDone(rows, wid, end) {
        assert Finished(Siblings(rows, wid), end);
      } else {
        var k :| k in rows && rows[k].workflowID == wid && !rows[k].state.Completed?;
        assert k in Siblings(rows, wid) && !Siblings(rows, wid)[k].state.Completed?;
      }
  }

  /** Rows of every instance, before and after a step of one of them. */
  lemma SteppedRow(
      wid: string, e: Event, append: Context,
      rows: Rows, wfs: map<string, WorkflowRow>, act: map<string, seq<string>>,
      rows': Rows, wfs': map<string, WorkflowRow>, act': map<string, seq<string>>, k: string)
    requires ValidTables(rows, wfs, act) && ValidTables(rows', wfs', act')
    requires StepsTo(wid, e, append, rows, wfs, act, rows', wfs', act')
    ensures k in rows <==> k in rows'
    ensures k in rows && rows[k].workflowID != wid ==> rows'[k] == rows[k]
    ensures k in rows && rows[k].workflowID == wid ==>
      rows'[k].workflowID == wid && rows'[k] == Step(InstanceOf(rows, wfs, act, wid), e).nodes[k]
  {
    if k in rows {
      SteppedSiblings(wid, e, append, rows, wfs, act, rows', wfs', act', rows[k].workflowID);
      SiblingRow(rows, rows[k].workflowID, k);
      SiblingRow(rows', rows[k].workflowID, k);
    } else if k in rows' {
      SteppedSiblings(wid, e, append, rows, wfs, act, rows', wfs', act', rows'[k].workflowID);
      SiblingRow(rows, rows'[k].workflowID, k);
      SiblingRow(rows', rows'[k].workflowID, k);
    }
  }

  lemma SteppedSiblings(
      wid: string, e: Event, append: Context,
      rows: Rows, wfs: map<string, WorkflowRow>, act: map<string, seq<string>>,
      rows': Rows, wfs': map<string, WorkflowRow>, act': map<string, seq<string>>, v: string)
    requires StepsTo(wid, e, append, rows, wfs, act, rows', wfs', act') && v in wfs
    ensures Siblings(rows', v).Keys == Siblings(rows, v).Keys
    ensures v != wid ==> Siblings(rows', v) == Siblings(rows, v)
    ensures v == wid ==> Siblings(rows', v) == Step(InstanceOf(rows, wfs, act, wid), e).nodes
  {
    StepForward(InstanceOf(rows, wfs, act, wid), e);
    if v != wid {
      assert InstanceOf(rows', wfs', act', v) == InstanceOf(rows, wfs, act, v);
    }
  }

  /** The tables before and after the committed step of a report. */
  ghost predicate Taken(
      n: Notification, order: seq<string>,
      rows: Rows, wfs: map<string, WorkflowRow>, act: map<string, seq<string>>,
      rows': Rows, wfs': map<string, WorkflowRow>, act': map<string, seq<string>>)
  {
    && ValidTables(rows, wfs, act) && ValidTables(rows', wfs', act')
    && n.updatedState.Some? && n.taskID in rows
    && var wid := rows[n.taskID].workflowID;
      && StepsTo(wid, Event(UpdateOf(n), order), n.appendGlobalContext, rows, wfs, act, rows', wfs', act')
      && Accepts(InstanceOf(rows, wfs, act, wid).nodes, UpdateOf(n))
  }

  lemma ReportExact(
      n: Notification, order: seq<string>,
      rows: Rows, wfs: map<string, WorkflowRow>, act: map<string, seq<string>>,
      rows': Rows, wfs': map<string, WorkflowRow>, act': map<string, seq<string>>)
    requires Taken(n, order, rows, wfs, act, rows', wfs', act')
    ensures ReportedTables(n, rows, wfs, rows', wfs')
  {
    ReportedStatusExact(n, order, rows, wfs, act, rows', wfs', act');
    ReportedRowsExact(n, order, rows, wfs, act, rows', wfs', act');
  }

  lemma ReportedRowsExact(
      n: Notification, order: seq<string>,
      rows: Rows, wfs: map<string, WorkflowRow>, act: map<string, seq<string>>,
      rows': Rows, wfs': map<string, WorkflowRow>, act': map<string, seq<string>>)
    requires Taken(n, order, rows, wfs, act, rows', wfs', act')
    ensures var wid := rows[n.taskID].workflowID;
      ReportedRows(n, wid, wfs[wid].endNodeID, rows, rows')
  {
    var wid := rows[n.taskID].workflowID;
    forall k ensures ReportedAt(n, wid, wfs[wid].endNodeID, rows, rows', k) {
      ReportedRowExact(n, order, rows, wfs, act, rows', wfs', act', k);
    }
    ReportedEverywhere(n, wid, wfs[wid].endNodeID, rows, rows');
  }

  ghost predicate ReportedAt(n: Notification, wid: string, end: Option<string>, rows: Rows, rows': Rows, k: string)
    requires n.updatedState.Some?
  {
    && (k in rows <==> k in rows')
    && (k in rows ==> ReportedRow(n, wid, end, rows[k], rows'[k], k))
  }

  lemma ReportedEverywhere(n: Notification, wid: string, end: Option<string>, rows: Rows, rows': Rows)
    requires n.updatedState.Some? && forall k :: ReportedAt(n, wid, end, rows, rows', k)
    ensures ReportedRows(n, wid, end, rows, rows')
  {
    forall k
      ensures k in rows <==> k in rows'
      ensures k in rows ==> ReportedRow(n, wid, end, rows[k], rows'[k], k)
    {
      assert ReportedAt(n, wid, end, rows, rows', k);
    }
  }

  lemma ReportedRowExact(
      n: Notification, order: seq<string>,
      rows: Rows, wfs: map<string, WorkflowRow>, act: map<string, seq<string>>,
      rows': Rows, wfs': map<string, WorkflowRow>, act': map<string, seq<string>>, k: string)
    requires Taken(n, order, rows, wfs, act, rows', wfs', act')
    ensures var wid := rows[n.taskID].workflowID;
      ReportedAt(n, wid, wfs[wid].endNodeID, rows, rows', k)
  {
    var wid, e := rows[n.taskID].workflowID, Event(UpdateOf(n), order);
    var w := InstanceOf(rows, wfs, act, wid);
    assert WellFormed(w);
    SteppedRow(wid, e, n.appendGlobalContext, rows, wfs, act, rows', wfs', act', k);
    SiblingRow(rows, wid, n.taskID);
    if k in rows && rows[k].workflowID == wid {
      SiblingRow(rows, wid, k);
      StepReports(w, n, order, k);
    }
  }

  lemma ReportedStatusExact(
      n: Notification, order: seq<string>,
      rows: Rows, wfs: map<string, WorkflowRow>, act: map<string, seq<string>>,
      rows': Rows, wfs': map<string, WorkflowRow>, act': map<string, seq<string>>)
    requires Taken(n, order, rows, wfs, act, rows', wfs', act')
    ensures Admits(n.updatedState.value, rows[n.taskID].state)
    ensures ReportedWorkflows(n, rows[n.taskID].state, rows[n.taskID].workflowID, rows', wfs, wfs')
  {
    var wid := rows[n.taskID].workflowID;
    SiblingRow(rows, wid, n.taskID);
    AcceptsExact(InstanceOf(rows, wfs, act, wid).nodes, n);
    StepReportsStatus(InstanceOf(rows, wfs, act, wid), n, order);
    FinishedRows(rows', wid, wfs[wid].endNodeID);
  }

  lemma AcceptsExact(nodes: NodeMap, n: Notification)
    requires n.updatedState.Some? && n.taskID in nodes
    ensures Accepts(nodes, UpdateOf(n)) <==> Admits(n.updatedState.value, nodes[n.taskID].state)
  {
  }

  /** A report is committed when its state is admitted, unless the status handler fails. */
  lemma CommitsExact(w: Workflow, n: Notification, order: seq<string>, env: Environment)
    requires n.updatedState.Some? && n.taskID in w.nodes
    ensures Commits(w, Event(UpdateOf(n), order), env) ==> Admits(n.updatedState.value, w.nodes[n.taskID].state)
    ensures env.statusHandlerOK && Admits(n.updatedState.value, w.nodes[n.taskID].state) ==>
      Commits(w, Event(UpdateOf(n), order), env)
  {
  }

  // ---- What an instance is started from -------------------------------------------------------

  type Templates = map<string, NodeTemplate>

  ghost function TemplateIDs(wts: seq<WorkflowTemplate>): set<string> {
    set wt, id | wt in wts && id in wt.nodeTemplateIDs :: id
  }

  function EndTemplateIDs(wts: seq<WorkflowTemplate>): seq<string> {
    if wts == [] then []
    else EndTemplateIDs(wts[..|wts| - 1])
         + (match wts[|wts| - 1].endNodeTemplateID case Some(id) => [id] case None => [])
  }

  /** The ids are those at the positions that have an end node, and these are all such positions in order. */
  ghost predicate EndsAt(wts: seq<WorkflowTemplate>, at: seq<nat>, ids: seq<string>) {
    && |ids| == |at|
    && (forall j | 0 <= j < |at| :: at[j] < |wts| && wts[at[j]].endNodeTemplateID == Some(ids[j]))
    && (forall j, k | 0 <= j < k < |at| :: at[j] < at[k])
    && (forall p | 0 <= p < |wts| && wts[p].endNodeTemplateID.Some? :: p in at)
  }

  lemma EndsNext(wts: seq<WorkflowTemplate>, wt: WorkflowTemplate, at: seq<nat>, ids: seq<string>)
    requires EndsAt(wts, at, ids)
    ensures wt.endNodeTemplateID.None? ==> EndsAt(wts + [wt], at, ids)
    ensures wt.endNodeTemplateID.Some? ==>
      EndsAt(wts + [wt], at + [|wts|], ids + [wt.endNodeTemplateID.value])
  {
    forall p | 0 <= p < |wts| && (wts + [wt])[p].endNodeTemplateID.Some? ensures p in at {
      assert wts[p].endNodeTemplateID.Some?;
    }
    assert (at + [|wts|])[|at|] == |wts|;
  }

  /** The end node templates of the workflow templates that have one, in order and each as often as it occurs. */
  lemma {:induction false} EndTemplatesExact(wts: seq<WorkflowTemplate>) returns (at: seq<nat>)
    ensures EndsAt(wts, at, EndTemplateIDs(wts))
  {
    if wts == [] {
      at := [];
    } else {
      var before, last := wts[..|wts| - 1], wts[|wts| - 1];
      at := EndTemplatesExact(before);
      EndsNext(before, last, at, EndTemplateIDs(before));
      assert wts == before + [last];
      if last.endNodeTemplateID.Some? {
        at := at + [|before|];
      }
    }
  }

  /** The known templates, each once in some order, then the end node depending on the last node of each. */
  ghost predicate StartsFrom(
      ts: seq<NodeTemplate>, wts: seq<WorkflowTemplate>, provider: Templates, endTemplate: Option<NodeTemplate>)
  {
    var ends := EndTemplateIDs(wts);
    var n := if ends == [] then |ts| else |ts| - 1;
    && (ends != [] ==> endTemplate.Some? && ts != [] && ts[n] == endTemplate.value.(dependsOn := ends))
    && (forall i, j | 0 <= i < j < n :: ts[i] != ts[j])
    && (forall t :: t in ts[..n] <==> exists id | id in TemplateIDs(wts) :: id in provider && t == provider[id])
  }

  lemma CollectNext(wts: seq<WorkflowTemplate>, i: nat)
    requires i < |wts|
    ensures TemplateIDs(wts[..i + 1]) == TemplateIDs(wts[..i]) + set id | id in wts[i].nodeTemplateIDs
    ensures EndTemplateIDs(wts[..i + 1]) ==
            EndTemplateIDs(wts[..i]) + (match wts[i].endNodeTemplateID case Some(id) => [id] case None => [])
  {
    assert wts[..i + 1] == wts[..i] + [wts[i]] && wts[..i + 1][..i] == wts[..i];
  }

  method CollectTemplateIDs(wts: seq<WorkflowTemplate>) returns (ids: set<string>, ends: seq<string>)
    ensures ids == TemplateIDs(wts) && ends == EndTemplateIDs(wts)
  {
    ids, ends := {}, [];
    for i := 0 to |wts|
      invariant ids == TemplateIDs(wts[..i]) && ends == EndTemplateIDs(wts[..i])
    {
      var wt := wts[i];
      CollectNext(wts, i);
      ids := ids + set id | id in wt.nodeTemplateIDs;
      if wt.endNodeTemplateID.Some? {
        ends := ends + [wt.endNodeTemplateID.value];
      }
    }
    assert wts[..|wts|] == wts;
  }

  /** The rows of the template table with the given ids, in an order that is not promised. */
  method GetNodeTemplatesByIDs(ids: set<string>, provider: Templates) returns (ts: seq<NodeTemplate>)
    requires forall k | k in provider :: provider[k].id == k
    ensures forall i, j | 0 <= i < j < |ts| :: ts[i] != ts[j]
    ensures forall t :: t in ts <==> exists id | id in ids :: id in provider && t == provider[id]
  {
    ts := [];
    var left := ids;
    while left != {}
      invariant left <= ids
      invariant forall i, j | 0 <= i < j < |ts| :: ts[i] != ts[j]
      invariant forall t | t in ts :: t.id in ids - left && t.id in provider && t == provider[t.id]
      invariant forall id | id in ids - left && id in provider :: provider[id] in ts
      decreases left
    {
      var id :| id in left;
      left := left - {id};
      if id in provider {
        ts := ts + [provider[id]];
      }
    }
  }

  /** Adding the nodes of a new instance adds that instance and changes no other. */
  lemma AddInstance(rows: Rows, wid: string, nodes: NodeMap)
    requires Keyed(rows) && forall k | k in rows :: rows[k].workflowID != wid
    requires forall k | k in nodes :: k !in rows && nodes[k].workflowID == wid && nodes[k].id == k
    ensures Keyed(rows + nodes) && Siblings(rows + nodes, wid) == nodes
    ensures forall v | v != wid :: Siblings(rows + nodes, v) == Siblings(rows, v)
    ensures forall k | k in rows + nodes ::
      (rows + nodes)[k].workflowID == wid || (k in rows && (rows + nodes)[k] == rows[k])
  {
  }

  /** A started instance makes valid tables and leaves the other instances alone. */
  lemma StartsValid(
      wid: string, ts: seq<NodeTemplate>, ids: seq<string>, context: Context,
      rows: Rows, wfs: map<string, WorkflowRow>, act: map<string, seq<string>>)
    requires ValidTables(rows, wfs, act) && wid !in wfs
    requires Creatable(ts, ids) && forall id | id in ids :: id !in rows
    ensures var w := Start(wid, ts, ids);
      var wfs' := wfs[wid := WorkflowRow(w.status, context, w.endNodeID)];
      var act' := act[wid := w.activated];
      && ValidTables(rows + w.nodes, wfs', act')
      && InstanceOf(rows + w.nodes, wfs', act', wid) == w
      && forall v | v in wfs :: InstanceOf(rows + w.nodes, wfs', act', v) == InstanceOf(rows, wfs, act, v)
  {
    var w := Start(wid, ts, ids);
    StartWellFormed(wid, ts, ids);
    forall k | k in w.nodes ensures k !in rows && w.nodes[k].workflowID == wid && w.nodes[k].id == k {
      var i := IndexOf(wid, ts, ids, k);
    }
    AddedValid(wid, w, context, rows, wfs, act);
  }

  lemma AddedValid(
      wid: string, w: Workflow, context: Context,
      rows: Rows, wfs: map<string, WorkflowRow>, act: map<string, seq<string>>)
    requires ValidTables(rows, wfs, act) && wid !in wfs && WellFormed(w)
    requires forall k | k in w.nodes :: k !in rows && w.nodes[k].workflowID == wid && w.nodes[k].id == k
    ensures var wfs' := wfs[wid := WorkflowRow(w.status, context, w.endNodeID)];
      var act' := act[wid := w.activated];
      && ValidTables(rows + w.nodes, wfs', act')
      && InstanceOf(rows + w.nodes, wfs', act', wid) == w
      && forall v | v in wfs :: InstanceOf(rows + w.nodes, wfs', act', v) == InstanceOf(rows, wfs, act, v)
  {
    AddInstance(rows, wid, w.nodes);
    var wfs' := wfs[wid := WorkflowRow(w.status, context, w.endNodeID)];
    var act' := act[wid := w.activated];
    forall v | v in wfs'
      ensures InstanceOf(rows + w.nodes, wfs', act', v) == if v == wid then w else InstanceOf(rows, wfs, act, v)
      ensures WellFormed(InstanceOf(rows + w.nodes, wfs', act', v))
    {
      if v != wid {
        assert WellFormed(InstanceOf(rows, wfs, act, v));
        assert Siblings(rows + w.nodes, v) == Siblings(rows, v);
      }
    }
  }

  /** The ids registered, in order, up to the first that fails. */
  ghost predicate HandsOver(
      before: seq<string>, after: seq<string>, handed: seq<string>, ok: bool, callback: bool, env: Environment)
  {
    && before <= after <= before + handed
    && (ok ==> after == before + handed)
    && (ok <==> handed == [] || (callback && forall k | k in handed :: env.taskInitOK(k)))
  }

  class WorkflowManager {
    const nodeRepo: WorkflowNodeService
    const stateMachine: WorkflowNodeStateMachine
    var workflows: map<string, WorkflowRow>
    var handlers: set<string>
    var callbackRegistered: bool
    var registered: seq<string>
    ghost var activated: map<string, seq<string>>

    ghost predicate Valid()
      reads `workflows, `activated, nodeRepo
    {
      stateMachine.nodeRepo == nodeRepo && ValidTables(nodeRepo.rows, workflows, activated)
    }

    ghost function View(wid: string): Workflow
      requires wid in workflows && wid in activated
      reads `workflows, `activated, nodeRepo
    {
      InstanceOf(nodeRepo.rows, workflows, activated, wid)
    }

    constructor (nodeRepo: WorkflowNodeService)
      requires nodeRepo.rows == map[]
      ensures Valid() && this.nodeRepo == nodeRepo
      ensures workflows == map[] && handlers == {} && registered == []
    {
      this.nodeRepo := nodeRepo;
      this.stateMachine := new WorkflowNodeStateMachine(nodeRepo);
      workflows := map[];
      handlers := {};
      callbackRegistered := false;
      registered := [];
      activated := map[];
    }

    method RegisterTaskHandler()
      modifies this`callbackRegistered
      ensures callbackRegistered
    {
      callbackRegistered := true;
    }

    /** Stops at the first node whose task cannot be initialized. */
    method RegisterNodesWithTaskManager(nodes: seq<Node>, env: Environment) returns (ok: bool)
      modifies this`registered
      ensures ok <==> callbackRegistered && forall n | n in nodes :: env.taskInitOK(n.id)
      ensures ok ==> registered == old(registered) + IDs(nodes)
      ensures old(registered) <= registered <= old(registered) + IDs(nodes)
    {
      if !callbackRegistered {
        return false;
      }
      for i := 0 to |nodes|
        invariant forall j | 0 <= j < i :: env.taskInitOK(nodes[j].id)
        invariant registered == old(registered) + IDs(nodes)[..i]
      {
        if !env.taskInitOK(nodes[i].id) {
          return false;
        }
        registered := registered + [nodes[i].id];
        assert IDs(nodes)[..i + 1] == IDs(nodes)[..i] + [nodes[i].id];
      }
      assert IDs(nodes)[..|nodes|] == IDs(nodes);
      return true;
    }

    method HandOver(nodes: seq<Node>, env: Environment) returns (ok: bool)
      modifies this`registered
      ensures HandsOver(old(registered), registered, IDs(nodes), ok, callbackRegistered, env)
    {
      ok := true;
      if |nodes| > 0 {
        ok := RegisterNodesWithTaskManager(nodes, env);
        forall n | n in nodes ensures n.id in IDs(nodes) {
          var i :| 0 <= i < |nodes| && nodes[i] == n;
          assert IDs(nodes)[i] == n.id;
        }
        forall k | k in IDs(nodes) ensures exists n | n in nodes :: n.id == k {
          var i :| 0 <= i < |nodes| && IDs(nodes)[i] == k;
          assert nodes[i] in nodes;
        }
      }
    }

    method ApplyFailed(node: Node, u: Update, env: Environment, ghost w: Workflow)
      returns (r: Result<bool, ManagerError>)
      requires stateMachine.nodeRepo == nodeRepo && Keyed(nodeRepo.rows) && u.state.Failed?
      requires Loaded(w, node.workflowID, nodeRepo.rows, workflows, node, u)
      modifies this`workflows, nodeRepo
      ensures r.Ok? <==> Accepts(w.nodes, u) && (ChangesStatus(w, Event(u, [])) ==> env.statusHandlerOK)
      ensures r.Ok? ==>
        Stepped(node.workflowID, old(nodeRepo.rows), old(workflows), Step(w, Event(u, [])), map[],
                nodeRepo.rows, workflows)
    {
      ghost var e := Event(u, []);
      FailedStep(w, e);
      if !node.state.Failed? {
        var failed := stateMachine.TransitionToFailed(node, u);
        if failed.Err? {
          return Err(Rejected(failed.error));
        }
        var wf := workflows[node.workflowID];
        workflows := workflows[node.workflowID := wf.(status := StatusFailed)];
        if !env.statusHandlerOK {
          return Err(HandlerFailed);
        }
        OneWritten(w, Step(w, e), node.workflowID, old(nodeRepo.rows), old(workflows), node, u,
                   node.(state := Failed, extendedState := u.extendedState));
      } else {
        NothingWritten(w, node.workflowID, nodeRepo.rows, workflows, node, u);
      }
      return Ok(true);
    }

    method ApplyInProgress(node: Node, u: Update, ghost w: Workflow) returns (r: Result<bool, ManagerError>)
      requires stateMachine.nodeRepo == nodeRepo && Keyed(nodeRepo.rows) && u.state.InProgress?
      requires Loaded(w, node.workflowID, nodeRepo.rows, workflows, node, u)
      modifies nodeRepo
      ensures r.Ok? <==> Accepts(w.nodes, u)
      ensures r.Ok? ==>
        Stepped(node.workflowID, old(nodeRepo.rows), workflows, Step(w, Event(u, [])), map[], nodeRepo.rows, workflows)
    {
      InProgressStep(w, Event(u, []));
      var moved := stateMachine.TransitionToInProgress(node, u);
      if moved.Err? {
        return Err(Rejected(moved.error));
      }
      OneWritten(w, Step(w, Event(u, [])), node.workflowID, old(nodeRepo.rows), workflows, node, u,
                 node.(state := InProgress, extendedState := u.extendedState));
      assert workflows[node.workflowID := workflows[node.workflowID].(status := w.status)] == workflows;
      return Ok(true);
    }

    method ApplyCompleted(node: Node, u: Update, env: Environment, ghost w: Workflow)
      returns (r: Result<seq<Node>, ManagerError>, ghost order: seq<string>)
      requires stateMachine.nodeRepo == nodeRepo && Keyed(nodeRepo.rows) && u.state.Completed?
      requires Loaded(w, node.workflowID, nodeRepo.rows, workflows, node, u)
      requires !node.state.Completed? && WellFormed(w)
      modifies this`workflows, nodeRepo
      ensures r.Ok? <==> Accepts(w.nodes, u) && (ChangesStatus(w, Event(u, order)) ==> env.statusHandlerOK)
      ensures r.Ok? ==>
        && Enumerates(order, w.nodes.Keys)
        && Stepped(node.workflowID, old(nodeRepo.rows), old(workflows), Step(w, Event(u, order)), map[],
                   nodeRepo.rows, workflows)
        && IDs(r.value) == HandedOver(w, Event(u, order))
    {
      var wf := workflows[node.workflowID];
      var done: Result<TransitionResult, TransitionError>;
      done, order := stateMachine.TransitionToCompleted(node, u, wf.endNodeID);
      if done.Err? {
        return Err(Rejected(done.error)), order;
      }
      CompletedTables(w, node.workflowID, old(nodeRepo.rows), workflows, node, Event(u, order),
                      done.value.workflowFinished, IDs(done.value.newReadyNodes), nodeRepo.rows);
      if done.value.workflowFinished {
        workflows := workflows[node.workflowID := wf.(status := StatusCompleted)];
        if !env.statusHandlerOK {
          return Err(HandlerFailed), order;
        }
      }
      return Ok(done.value.newReadyNodes), order;
    }

    /** Dispatches on the reported state; READY reports change nothing. */
    method ApplyUpdate(node: Node, u: Update, env: Environment, ghost w: Workflow)
      returns (r: Result<seq<Node>, ManagerError>, ghost order: seq<string>)
      requires stateMachine.nodeRepo == nodeRepo && Keyed(nodeRepo.rows) && WellFormed(w)
      requires Loaded(w, node.workflowID, nodeRepo.rows, workflows, node, u)
      modifies this`workflows, nodeRepo
      ensures r.Ok? <==> Accepts(w.nodes, u) && (ChangesStatus(w, Event(u, order)) ==> env.statusHandlerOK)
      ensures r.Ok? ==>
        && Enumerates(order, w.nodes.Keys)
        && Stepped(node.workflowID, old(nodeRepo.rows), old(workflows), Step(w, Event(u, order)), map[],
                   nodeRepo.rows, workflows)
        && IDs(r.value) == HandedOver(w, Event(u, order))
    {
      if u.state.Completed? && !node.state.Completed? {
        r, order := ApplyCompleted(node, u, env, w);
        return;
      }
      order := Enumeration(w.nodes.Keys);
      OrderUnused(w, u, order);
      match u.state {
        case Failed =>
          var failed := ApplyFailed(node, u, env, w);
          if failed.Err? {
            return Err(failed.error), order;
          }
        case InProgress =>
          var moved := ApplyInProgress(node, u, w);
          if moved.Err? {
            return Err(moved.error), order;
          }
        case _ =>
          NothingWritten(w, node.workflowID, nodeRepo.rows, workflows, node, u);
      }
      return Ok([]), order;
    }

    method AppendToContext(wid: string, append: Context)
      requires wid in workflows
      modifies this`workflows
      ensures var wf := old(workflows)[wid];
        workflows == old(workflows)[wid := wf.(globalContext := wf.globalContext + append)]
    {
      var wf := workflows[wid];
      if |append| > 0 {
        workflows := workflows[wid := wf.(globalContext := wf.globalContext + append)];
      } else {
        assert append == map[];
        assert wf.globalContext + append == wf.globalContext;
        assert workflows[wid := wf] == workflows;
      }
    }

    /** One transaction: committed as a whole, or rolled back to the tables it started from. */
    method ProcessStateTransition(node: Node, u: Update, append: Context, env: Environment, ghost w: Workflow)
      returns (r: Result<seq<Node>, ManagerError>, ghost order: seq<string>)
      requires Valid() && u.nodeID == node.id && node.id in nodeRepo.rows && nodeRepo.rows[node.id] == node
      requires w == View(node.workflowID)
      modifies this`workflows, this`activated, nodeRepo
      ensures Valid()
      ensures r.Ok? <==> Commits(w, Event(u, order), env)
      ensures r.Err? ==>
        nodeRepo.rows == old(nodeRepo.rows) && workflows == old(workflows) && activated == old(activated)
      ensures r.Ok? ==>
        && StepsTo(node.workflowID, Event(u, order), append, old(nodeRepo.rows), old(workflows), old(activated),
                   nodeRepo.rows, workflows, activated)
        && IDs(r.value) == HandedOver(w, Event(u, order))
    {
      var rows0, workflows0 := nodeRepo.rows, workflows;
      var wid := node.workflowID;
      ValidLoaded(rows0, workflows0, activated, append, node, u);
      AppendToContext(wid, append);
      r, order := ApplyUpdate(node, u, env, w);
      if r.Err? {
        nodeRepo.rows, workflows := rows0, workflows0;
        return;
      }
      ContextFirst(wid, rows0, workflows0, Step(w, Event(u, order)), append, nodeRepo.rows, workflows);
      ghost var activated0 := activated;
      activated := activated[wid := Step(w, Event(u, order)).activated];
      StaysValid(wid, Event(u, order), append, rows0, workflows0, activated0, nodeRepo.rows, workflows, activated);
    }

    /** One notification from the task manager.  order is the order in which sibling rows were read. */
    method HandleTaskUpdate(n: Notification, env: Environment)
      returns (r: Result<bool, ManagerError>, ghost committed: bool, ghost order: seq<string>)
      requires Valid()
      modifies this`workflows, this`activated, this`registered, nodeRepo
      ensures Valid()
      ensures committed ==> Addressed(n, old(nodeRepo.rows), handlers)
      ensures Addressed(n, old(nodeRepo.rows), handlers) ==>
        (committed <==> Commits(old(View(nodeRepo.rows[n.taskID].workflowID)), Event(UpdateOf(n), order), env))
      ensures !committed ==>
        && r.Err? && nodeRepo.rows == old(nodeRepo.rows) && workflows == old(workflows)
        && activated == old(activated) && registered == old(registered)
      ensures committed ==>
        var wid, e := old(nodeRepo.rows)[n.taskID].workflowID, Event(UpdateOf(n), order);
        && StepsTo(wid, e, n.appendGlobalContext, old(nodeRepo.rows), old(workflows), old(activated),
                   nodeRepo.rows, workflows, activated)
        && HandsOver(old(registered), registered, HandedOver(old(View(wid)), e), r.Ok?, callbackRegistered, env)
      ensures committed ==> ReportedTables(n, old(nodeRepo.rows), old(workflows), nodeRepo.rows, workflows)
      ensures Addressed(n, old(nodeRepo.rows), handlers) && env.statusHandlerOK ==>
        (committed <==> Admits(n.updatedState.value, old(nodeRepo.rows)[n.taskID].state))
    {
      committed, order := false, [];
      if n.updatedState.None? {
        return Err(NilState), committed, order;
      }
      var found := nodeRepo.GetWorkflowNodeByID(n.taskID);
      if found.None? {
        return Err(NodeNotFound), committed, order;
      }
      var node := found.value;
      if node.workflowID !in handlers {
        return Err(NoHandler), committed, order;
      }
      r, committed, order := HandleReport(n, node, env, View(node.workflowID));
    }

    /** A notification for a node that was found. */
    method HandleReport(n: Notification, node: Node, env: Environment, ghost w: Workflow)
      returns (r: Result<bool, ManagerError>, ghost committed: bool, ghost order: seq<string>)
      requires Valid() && n.updatedState.Some?
      requires n.taskID == node.id && node.id in nodeRepo.rows && nodeRepo.rows[node.id] == node
      requires w == View(node.workflowID)
      modifies this`workflows, this`activated, this`registered, nodeRepo
      ensures Valid()
      ensures committed <==> Commits(w, Event(UpdateOf(n), order), env)
      ensures !committed ==>
        && r.Err? && nodeRepo.rows == old(nodeRepo.rows) && workflows == old(workflows)
        && activated == old(activated) && registered == old(registered)
      ensures committed ==>
        && StepsTo(node.workflowID, Event(UpdateOf(n), order), n.appendGlobalContext,
                   old(nodeRepo.rows), old(workflows), old(activated), nodeRepo.rows, workflows, activated)
        && HandsOver(old(registered), registered, HandedOver(w, Event(UpdateOf(n), order)),
                     r.Ok?, callbackRegistered, env)
      ensures committed ==> ReportedTables(n, old(nodeRepo.rows), old(workflows), nodeRepo.rows, workflows)
      ensures env.statusHandlerOK ==> (committed <==> Admits(n.updatedState.value, node.state))
    {
      ghost var rows0, wfs0, act0 := nodeRepo.rows, workflows, activated;
      SiblingRow(rows0, node.workflowID, n.taskID);
      r, committed, order := HandleNodeUpdate(node, UpdateOf(n), n.appendGlobalContext, env, w);
      CommitsExact(w, n, order, env);
      if committed {
        ReportExact(n, order, rows0, wfs0, act0, nodeRepo.rows, workflows, activated);
      }
    }

    /** Commits the step, then hands the newly READY nodes over outside the transaction. */
    method HandleNodeUpdate(node: Node, u: Update, append: Context, env: Environment, ghost w: Workflow)
      returns (r: Result<bool, ManagerError>, ghost committed: bool, ghost order: seq<string>)
      requires Valid() && u.nodeID == node.id && node.id in nodeRepo.rows && nodeRepo.rows[node.id] == node
      requires w == View(node.workflowID)
      modifies this`workflows, this`activated, this`registered, nodeRepo
      ensures Valid()
      ensures committed <==> Commits(w, Event(u, order), env)
      ensures !committed ==>
        && r.Err? && nodeRepo.rows == old(nodeRepo.rows) && workflows == old(workflows)
        && activated == old(activated) && registered == old(registered)
      ensures committed ==>
        && StepsTo(node.workflowID, Event(u, order), append, old(nodeRepo.rows), old(workflows), old(activated),
                   nodeRepo.rows, workflows, activated)
      ensures committed ==>
        HandsOver(old(registered), registered, HandedOver(w, Event(u, order)),
                  r.Ok?, callbackRegistered, env)
    {
      var ready: Result<seq<Node>, ManagerError>;
      ready, order := ProcessStateTransition(node, u, append, env, w);
      committed := ready.Ok?;
      if ready.Err? {
        return Err(ready.error), committed, order;
      }
      r := Deliver(ready.value, env);
    }

    /** Hands nodes over and leaves every table alone. */
    method Deliver(nodes: seq<Node>, env: Environment) returns (r: Result<bool, ManagerError>)
      requires Valid()
      modifies this`registered
      ensures Valid()
      ensures HandsOver(old(registered), registered, IDs(nodes), r.Ok?, callbackRegistered, env)
    {
      var ok := HandOver(nodes, env);
      r := if ok then Ok(true) else Err(RegistrationFailed);
    }

    /**
     * Starts an instance inside the caller's transaction; an error makes the caller roll it back.
     * newIDs are the generated row keys, ts the templates in the order the rows were created.
     */
    method StartWorkflowInstance(
        wid: string, wts: seq<WorkflowTemplate>, provider: Templates, endTemplate: Option<NodeTemplate>,
        newIDs: nat -> string, context: Context, env: Environment)
      returns (r: Result<bool, ManagerError>, ghost ts: seq<NodeTemplate>)
      requires Valid() && forall k | k in provider :: provider[k].id == k
      modifies this`workflows, this`activated, this`registered, this`handlers, nodeRepo
      ensures Valid()
      ensures r.Ok? <==>
        var ids := seq(|ts|, i requires 0 <= i => newIDs(i));
        && wid !in old(workflows) && StartsFrom(ts, wts, provider, endTemplate)
        && Creatable(ts, ids) && (forall id | id in ids :: id !in old(nodeRepo.rows))
        && (Start(wid, ts, ids).activated == []
            || (callbackRegistered && forall k | k in Start(wid, ts, ids).activated :: env.taskInitOK(k)))
        && env.statusHandlerOK
      ensures r.Err? ==>
        nodeRepo.rows == old(nodeRepo.rows) && workflows == old(workflows) && activated == old(activated)
      ensures r.Ok? ==>
        var w := Start(wid, ts, seq(|ts|, i requires 0 <= i => newIDs(i)));
        && wid in workflows && View(wid) == w && workflows[wid].globalContext == context
        && registered == old(registered) + w.activated
        && handlers == old(handlers) + {wid}
        && forall v | v in old(workflows) ::
             v in workflows && workflows[v] == old(workflows)[v] && View(v) == old(View(v))
    {
      ts := [];
      if wid in workflows {
        return Err(WorkflowExists), ts;
      }
      var templateIDs, ends := CollectTemplateIDs(wts);
      var found := GetNodeTemplatesByIDs(templateIDs, provider);
      if |ends| > 0 {
        if endTemplate.None? {
          return Err(NoEndTemplate), ts;
        }
        found := found + [endTemplate.value.(dependsOn := ends)];
      }
      ts := found;
      assert StartsFrom(ts, wts, provider, endTemplate) by {
        assert found[..if ends == [] then |ts| else |ts| - 1] == if ends == [] then found else found[..|found| - 1];
      }
      r := StartNodes(wid, found, seq(|found|, i requires 0 <= i => newIDs(i)), context, env);
    }

    /** Writes the rows of a new instance and returns the nodes to hand over. */
    method CreateInstance(wid: string, ts: seq<NodeTemplate>, ids: seq<string>, context: Context)
      returns (r: Result<seq<Node>, ManagerError>)
      requires Valid() && wid !in workflows && |ids| == |ts|
      modifies this`workflows, this`activated, nodeRepo
      ensures Valid()
      ensures r.Ok? <==> Creatable(ts, ids) && forall id | id in ids :: id !in old(nodeRepo.rows)
      ensures r.Err? ==>
        nodeRepo.rows == old(nodeRepo.rows) && workflows == old(workflows) && activated == old(activated)
      ensures r.Ok? ==>
        var w := Start(wid, ts, ids);
        && wid in workflows && View(wid) == w && workflows[wid].globalContext == context && IDs(r.value) == w.activated
        && forall v | v in old(workflows) ::
             v in workflows && workflows[v] == old(workflows)[v] && View(v) == old(View(v))
    {
      var rows0 := nodeRepo.rows;
      var init := stateMachine.InitializeNodesFromTemplates(wid, ts, ids);
      if init.Err? {
        nodeRepo.rows := rows0;
        return Err(Rejected(init.error));
      }
      StartsValid(wid, ts, ids, context, rows0, workflows, activated);
      workflows := workflows[wid := WorkflowRow(StatusInProgress, context, init.value.endNodeID)];
      activated := activated[wid := Start(wid, ts, ids).activated];
      return Ok(init.value.ready);
    }

    method StartNodes(wid: string, ts: seq<NodeTemplate>, ids: seq<string>, context: Context, env: Environment)
      returns (r: Result<bool, ManagerError>)
      requires Valid() && wid !in workflows && |ids| == |ts|
      modifies this`workflows, this`activated, this`registered, this`handlers, nodeRepo
      ensures Valid()
      ensures r.Ok? <==>
        && Creatable(ts, ids) && (forall id | id in ids :: id !in old(nodeRepo.rows))
        && (Start(wid, ts, ids).activated == []
            || (callbackRegistered && forall k | k in Start(wid, ts, ids).activated :: env.taskInitOK(k)))
        && env.statusHandlerOK
      ensures r.Err? ==>
        nodeRepo.rows == old(nodeRepo.rows) && workflows == old(workflows) && activated == old(activated)
      ensures r.Ok? ==>
        var w := Start(wid, ts, ids);
        && wid in workflows && View(wid) == w && workflows[wid].globalContext == context
        && registered == old(registered) + w.activated
        && handlers == old(handlers) + {wid}
        && forall v | v in old(workflows) ::
             v in workflows && workflows[v] == old(workflows)[v] && View(v) == old(View(v))
    {
      var rows0, workflows0 := nodeRepo.rows, workflows;
      ghost var activated0 := activated;
      var ready := CreateInstance(wid, ts, ids, context);
      if ready.Err? {
        return Err(ready.error);
      }
      var ok := HandOver(ready.value, env);
      if ok {
        handlers := handlers + {wid};
      }
      if !ok || !env.statusHandlerOK {
        nodeRepo.rows, workflows, activated := rows0, workflows0, activated0;
        return Err(if ok then HandlerFailed else RegistrationFailed);
      }
      return Ok(true);
    }
  }
}
