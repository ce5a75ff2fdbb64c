/** What the notifications of a run carry, and where the rows of a run come from. */
module TaskNotes {
  import opened Wrappers
  import opened Plugin
  import opened TaskSpec

  // ---- One call -------------------------------------------------------------------------------

  function CallOf(req: Request): Call {
    match req
    case Init(_, _, _, _, _, env) => StartCall(env)
    case Execute(_, action, content, env) => ExecuteCall(action, content, env)
    case Render(_, env) => RenderCall(env)
  }

  /** The row a request finds, or the row that an initialization creates. */
  function RowFor(rows: Rows, req: Request): Option<TaskRow> {
    if req.Init? then
      if req.taskID in rows then None
      else Some(TaskRow(req.workflowID, req.taskType, req.config, req.globals,
                        TaskView(TaskState.Initialized, NotStarted, map[])))
    else if req.taskID != "" && req.taskID in rows then Some(rows[req.taskID])
    else None
  }

  /** The request reaches a plugin, with what that sees. */
  ghost predicate Calls(factory: Factory, rows: Rows, req: Request, row: TaskRow, x: Executor) {
    RowFor(rows, req) == Some(row) && factory(row.taskType, row.config) == Ok(x)
  }

  function PlanOf(x: Executor, req: Request, row: TaskRow): Plan {
    x.plan(TaskContext(req.taskID, row.workflowID, row.globalContext, row.view), CallOf(req))
  }

  /** The notifications of a call that leaves the task in the state after. */
  ghost predicate Tells(req: Request, row: TaskRow, reply: Result<Reply, string>, after: TaskView, notes: seq<Note>) {
    var moved := after.pluginState != row.view.pluginState;
    if reply.Err? then notes == []
    else
      match req
      case Init(_, _, _, _, _, _) =>
        notes == [Updated(req.taskID, if moved then Some(after.state) else None,
                          if moved then Some(after.pluginState) else None, reply.value)]
      case Execute(_, _, _, _) =>
        if !moved then notes == []
        else if after.state.Completed? || after.state.Failed?
        then notes == [Done(row.workflowID, req.taskID, reply.value.outputs)]
        else notes == [Updated(req.taskID, Some(after.state), Some(after.pluginState), reply.value)]
      case Render(_, _) => notes == []
  }

  /** The answer to the caller: the reply, and the new states if the plugin state moved, but not of a rendering. */
  ghost predicate Answers(
      req: Request, row: TaskRow, reply: Result<Reply, string>, after: TaskView, answer: Result<Response, string>)
  {
    match reply
    case Err(e) => answer == Err(e)
    case Ok(r) =>
      answer == if !req.Render? && after.pluginState != row.view.pluginState
                then Ok(Response(Some(after.state), Some(after.pluginState), r))
                else Ok(Response(None, None, r))
  }

  /** What serving one request does: nothing, or one call of the plugin of the task. */
  ghost predicate Serves(
      factory: Factory, rows: Rows, req: Request,
      rows': Rows, answer: Result<Response, string>, notes: seq<Note>)
  {
    var found := RowFor(rows, req);
    if found.None? || factory(found.value.taskType, found.value.config).Err? then
      rows' == rows && answer.Err? && notes == []
    else
      var row := found.value;
      var x := factory(row.taskType, row.config).value;
      var plan := PlanOf(x, req, row);
      var after := ApplyAll(x.fsm, row.view, plan.effects);
      && rows' == rows[req.taskID := row.(view := after)]
      && Tells(req, row, plan.reply, after, notes)
      && Answers(req, row, plan.reply, after, answer)
  }

  lemma ServeExact(factory: Factory, rows: Rows, req: Request)
    requires req.Init? ==> req.taskID !in rows
    ensures var s := Serve(factory, rows, req); Serves(factory, rows, req, s.rows, s.answer, s.notes)
  {
    var found := RowFor(rows, req);
    if found.Some? && factory(found.value.taskType, found.value.config).Ok? {
      var row := found.value;
      var x := factory(row.taskType, row.config).value;
      InvokeExact(x, req, row);
      var row' := Invoke(x, req.taskID, row, CallOf(req)).0;
      assert rows[req.taskID := row][req.taskID := row'] == rows[req.taskID := row'];
    }
  }

  lemma InvokeExact(x: Executor, req: Request, row: TaskRow)
    ensures var (row', answer) := Invoke(x, req.taskID, row, CallOf(req));
      var plan := PlanOf(x, req, row);
      var after := ApplyAll(x.fsm, row.view, plan.effects);
      && row' == row.(view := after)
      && Answers(req, row, plan.reply, after, answer)
      && (req.Init? ==> Tells(req, row, plan.reply, after, StartNotes(req.taskID, answer)))
      && (req.Execute? ==>
            Tells(req, row, plan.reply, after, ExecuteNotes(req.taskID, row.workflowID, answer)))
      && (req.Render? ==> Tells(req, row, plan.reply, after, []))
  {
  }

  // ---- Whole runs -----------------------------------------------------------------------------

  function Flatten(parts: seq<seq<Note>>): seq<Note> {
    if parts == [] then [] else Flatten(parts[..|parts| - 1]) + parts[|parts| - 1]
  }

  function RowsAfter(factory: Factory, reqs: seq<Request>, n: nat): Rows
    requires n <= |reqs|
  {
    ServeAll(factory, map[], reqs[..n], []).rows
  }

  /** The i-th request is served on the rows that those before it have left. */
  ghost predicate ServesAt(
      factory: Factory, reqs: seq<Request>, i: nat, answer: Result<Response, string>, notes: seq<Note>)
    requires i < |reqs|
  {
    Serves(factory, RowsAfter(factory, reqs, i), reqs[i], RowsAfter(factory, reqs, i + 1), answer, notes)
  }

  lemma FirstInit(factory: Factory, reqs: seq<Request>, i: nat)
    requires InitOnce(reqs, map[]) && i < |reqs| && reqs[i].Init?
    ensures reqs[i].taskID !in RowsAfter(factory, reqs, i)
  {
    ServeAllKeys(factory, map[], reqs[..i], []);
    forall req | req in reqs[..i] && req.Init? ensures req.taskID != reqs[i].taskID {
      var j :| 0 <= j < i && reqs[..i][j] == req;
      assert reqs[j] == req;
    }
  }

  lemma NextServed(factory: Factory, reqs: seq<Request>, i: nat)
    requires i < |reqs| && (reqs[i].Init? ==> reqs[i].taskID !in RowsAfter(factory, reqs, i))
    ensures var before, after := ServeAll(factory, map[], reqs[..i], []), ServeAll(factory, map[], reqs[..i + 1], []);
      var s := Serve(factory, before.rows, reqs[i]);
      after == Transcript(s.rows, before.answers + [s.answer], before.notes + s.notes)
  {
    assert reqs[..i + 1][..i] == reqs[..i];
  }

  lemma ServedNext(factory: Factory, reqs: seq<Request>, i: nat)
    returns (answer: Result<Response, string>, notes: seq<Note>)
    requires InitOnce(reqs, map[]) && i < |reqs|
    ensures ServesAt(factory, reqs, i, answer, notes)
    ensures var before, after := ServeAll(factory, map[], reqs[..i], []), ServeAll(factory, map[], reqs[..i + 1], []);
      after.answers == before.answers + [answer] && after.notes == before.notes + notes
  {
    if reqs[i].Init? {
      FirstInit(factory, reqs, i);
    }
    NextServed(factory, reqs, i);
    var s := Serve(factory, RowsAfter(factory, reqs, i), reqs[i]);
    ServeExact(factory, RowsAfter(factory, reqs, i), reqs[i]);
    answer, notes := s.answer, s.notes;
  }

  /** The transcript is made of what each request does on its own. */
  lemma {:induction false} PrefixServes(factory: Factory, reqs: seq<Request>, n: nat) returns (parts: seq<seq<Note>>)
    requires InitOnce(reqs, map[]) && n <= |reqs|
    ensures var t := ServeAll(factory, map[], reqs[..n], []);
      && |parts| == |t.answers| == n && t.notes == Flatten(parts)
      && forall i | 0 <= i < n :: ServesAt(factory, reqs, i, t.answers[i], parts[i])
    decreases n
  {
    if n == 0 {
      parts := [];
    } else {
      var before := PrefixServes(factory, reqs, n - 1);
      var answer, notes := ServedNext(factory, reqs, n - 1);
      parts := before + [notes];
      assert parts[..n - 1] == before;
    }
  }

  /** Over every run: each request tells and answers what its own call says, and nothing else is told. */
  lemma RunServes(factory: Factory, reqs: seq<Request>) returns (parts: seq<seq<Note>>)
    requires InitOnce(reqs, map[])
    ensures var t := ServeAll(factory, map[], reqs, []);
      && |parts| == |t.answers| == |reqs| && t.notes == Flatten(parts)
      && forall i | 0 <= i < |reqs| :: ServesAt(factory, reqs, i, t.answers[i], parts[i])
  {
    assert reqs[..|reqs|] == reqs;
    parts := PrefixServes(factory, reqs, |reqs|);
  }

  lemma {:induction false} InFlatten(parts: seq<seq<Note>>, note: Note) returns (i: nat)
    requires note in Flatten(parts)
    ensures i < |parts| && note in parts[i]
  {
    var n := |parts| - 1;
    if note in parts[n] {
      i := n;
    } else {
      i := InFlatten(parts[..n], note);
    }
  }

  /** The call of the i-th request ends the task: the plugin state has moved and the task state is final. */
  ghost predicate EndsTask(factory: Factory, reqs: seq<Request>, i: nat, row: TaskRow, x: Executor)
    requires i < |reqs|
  {
    && reqs[i].Execute? && Calls(factory, RowsAfter(factory, reqs, i), reqs[i], row, x)
    && var after := ApplyAll(x.fsm, row.view, PlanOf(x, reqs[i], row).effects);
      after.pluginState != row.view.pluginState && (after.state.Completed? || after.state.Failed?)
  }

  /** A report to the done handler carries the workflow of the row and the outputs of the call that ended the task. */
  lemma DoneNoteExact(factory: Factory, reqs: seq<Request>, note: Note) returns (i: nat, row: TaskRow, x: Executor)
    requires InitOnce(reqs, map[]) && note in ServeAll(factory, map[], reqs, []).notes && note.Done?
    ensures i < |reqs| && reqs[i].taskID == note.taskID && EndsTask(factory, reqs, i, row, x)
    ensures note.workflowID == row.workflowID
    ensures var reply := PlanOf(x, reqs[i], row).reply; reply.Ok? && note.outputs == reply.value.outputs
  {
    var parts := RunServes(factory, reqs);
    i := InFlatten(parts, note);
    var t := ServeAll(factory, map[], reqs, []);
    assert ServesAt(factory, reqs, i, t.answers[i], parts[i]);
    row := RowFor(RowsAfter(factory, reqs, i), reqs[i]).value;
    x := factory(row.taskType, row.config).value;
  }

  /** A row keeps the workflow, the type, the configuration and the globals of the request that initialized it. */
  ghost predicate MadeBy(row: TaskRow, req: Request) {
    && req.Init? && row.workflowID == req.workflowID && row.taskType == req.taskType
    && row.config == req.config && row.globalContext == req.globals
  }

  lemma {:induction false} RowOrigin(factory: Factory, reqs: seq<Request>, n: nat, k: string) returns (i: nat)
    requires InitOnce(reqs, map[]) && n <= |reqs| && k in RowsAfter(factory, reqs, n)
    ensures i < n && reqs[i].taskID == k && MadeBy(RowsAfter(factory, reqs, n)[k], reqs[i])
    decreases n
  {
    assert n > 0 by {
      assert reqs[..0] == [];
    }
    var answer, notes := ServedNext(factory, reqs, n - 1);
    if k in RowsAfter(factory, reqs, n - 1) {
      i := RowOrigin(factory, reqs, n - 1, k);
    } else {
      i := n - 1;
    }
  }
}
