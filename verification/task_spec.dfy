/** What the task manager computes, written without any cache: every call works on the stored row. */
module TaskSpec {
  import opened Wrappers
  import opened Json
  import opened Plugin

  type Globals = map<string, Json>

  /** The part of a task that a plugin reads and writes through its API. */
  datatype TaskView = TaskView(state: TaskState, pluginState: PluginState, local: map<string, Json>)

  datatype TaskRow = TaskRow(
    workflowID: string,
    taskType: TaskType,
    config: Json,
    globalContext: Globals,
    view: TaskView)

  type Rows = map<string, TaskRow>

  // ---- Plugins --------------------------------------------------------------------------------

  datatype Effect = WriteLocal(key: string, value: Json) | Fire(action: Action)

  /** env stands for everything a call obtains from outside: remote answers, clock, generated ids. */
  datatype Call =
    | StartCall(env: Json)
    | ExecuteCall(action: Action, content: Json, env: Json)
    | RenderCall(env: Json)

  datatype TaskContext = TaskContext(taskID: string, workflowID: string, globals: Globals, view: TaskView)

  datatype Reply = Reply(outputs: map<string, Json>, emittedOutcome: Option<string>, api: Json)

  /** The API calls a plugin makes, in order, and what it returns. */
  datatype Plan = Plan(effects: seq<Effect>, reply: Result<Reply, string>)

  /** A plugin with its state machine: its plan is determined by what it can see. */
  datatype Executor = Executor(fsm: FSM, plan: (TaskContext, Call) -> Plan)

  /** A transition that the table does not have is refused and changes nothing. */
  function Apply(fsm: FSM, v: TaskView, e: Effect): TaskView {
    match e
    case WriteLocal(k, x) => v.(local := v.local[k := x])
    case Fire(a) =>
      if !CanTransition(fsm, v.pluginState, a) then v
      else
        var o := fsm[(v.pluginState, a)];
        v.(pluginState := o.nextPluginState,
           state := if o.nextTaskState.Some? then o.nextTaskState.value else v.state)
  }

  function ApplyAll(fsm: FSM, v: TaskView, es: seq<Effect>): TaskView {
    if es == [] then v else Apply(fsm, ApplyAll(fsm, v, es[..|es| - 1]), es[|es| - 1])
  }

  datatype Response = Response(newState: Option<TaskState>, extendedState: Option<PluginState>, reply: Reply)

  /** Start and Execute report the new state when the plugin state has changed; rendering never does. */
  function Respond(call: Call, before: PluginState, after: TaskView, reply: Reply): Response {
    if !call.RenderCall? && after.pluginState != before then Response(Some(after.state), Some(after.pluginState), reply)
    else Response(None, None, reply)
  }

  function AnswerOf(
      call: Call, before: PluginState, after: TaskView, reply: Result<Reply, string>): Result<Response, string> {
    match reply
    case Ok(r) => Ok(Respond(call, before, after, r))
    case Err(e) => Err(e)
  }

  // ---- The manager ----------------------------------------------------------------------------

  type Factory = (TaskType, Json) -> Result<Executor, string>

  datatype Request =
    | Init(taskID: string, workflowID: string, taskType: TaskType, globals: Globals, config: Json, env: Json)
    | Execute(taskID: string, action: Action, content: Json, env: Json)
    | Render(taskID: string, env: Json)

  datatype Note =
    | Updated(taskID: string, newState: Option<TaskState>, extendedState: Option<PluginState>, reply: Reply)
    | Done(workflowID: string, taskID: string, outputs: map<string, Json>)

  datatype Served = Served(rows: Rows, answer: Result<Response, string>, notes: seq<Note>)

  function ContextOf(id: string, row: TaskRow): TaskContext {
    TaskContext(id, row.workflowID, row.globalContext, row.view)
  }

  /** One plugin call on the row of a task. */
  function Invoke(x: Executor, id: string, row: TaskRow, call: Call): (TaskRow, Result<Response, string>) {
    var plan := x.plan(ContextOf(id, row), call);
    var view := ApplyAll(x.fsm, row.view, plan.effects);
    (row.(view := view), AnswerOf(call, row.view.pluginState, view, plan.reply))
  }

  /** Execute reports an end of the task to the done handler, and other changes to the update handler. */
  function ExecuteNotes(id: string, workflowID: string, answer: Result<Response, string>): seq<Note> {
    if answer.Err? || answer.value.newState.None? then []
    else if answer.value.newState.value.Terminal() then [Done(workflowID, id, answer.value.reply.outputs)]
    else [Updated(id, answer.value.newState, answer.value.extendedState, answer.value.reply)]
  }

  function StartNotes(id: string, answer: Result<Response, string>): seq<Note> {
    if answer.Err? then []
    else [Updated(id, answer.value.newState, answer.value.extendedState, answer.value.reply)]
  }

  function StartRow(x: Executor, rows: Rows, id: string, env: Json): Served
    requires id in rows
  {
    var (row, answer) := Invoke(x, id, rows[id], StartCall(env));
    Served(rows[id := row], answer, StartNotes(id, answer))
  }

  function NewRow(req: Request): TaskRow
    requires req.Init?
  {
    TaskRow(req.workflowID, req.taskType, req.config, req.globals, TaskView(Initialized, NotStarted, map[]))
  }

  /** The first initialization of a task id. */
  function ServeInit(factory: Factory, rows: Rows, req: Request): Served
    requires req.Init? && req.taskID !in rows
  {
    var x := factory(req.taskType, req.config);
    if x.Err? then Served(rows, Err(x.error), [])
    else StartRow(x.value, rows[req.taskID := NewRow(req)], req.taskID, req.env)
  }

  function Lookup(factory: Factory, rows: Rows, id: string): Result<Executor, string> {
    if id == "" then Err("task id is required")
    else if id !in rows then Err("task not found")
    else factory(rows[id].taskType, rows[id].config)
  }

  function ServeExecute(factory: Factory, rows: Rows, req: Request): Served
    requires req.Execute?
  {
    var x := Lookup(factory, rows, req.taskID);
    if x.Err? then Served(rows, Err(x.error), [])
    else
      var row := rows[req.taskID];
      var (row', answer) := Invoke(x.value, req.taskID, row, ExecuteCall(req.action, req.content, req.env));
      Served(rows[req.taskID := row'], answer, ExecuteNotes(req.taskID, row.workflowID, answer))
  }

  function ServeRender(factory: Factory, rows: Rows, req: Request): Served
    requires req.Render?
  {
    var x := Lookup(factory, rows, req.taskID);
    if x.Err? then Served(rows, Err(x.error), [])
    else
      var (row, answer) := Invoke(x.value, req.taskID, rows[req.taskID], RenderCall(req.env));
      Served(rows[req.taskID := row], answer, [])
  }

  function Serve(factory: Factory, rows: Rows, req: Request): Served
    requires req.Init? ==> req.taskID !in rows
  {
    match req
    case Init(_, _, _, _, _, _) => ServeInit(factory, rows, req)
    case Execute(_, _, _, _) => ServeExecute(factory, rows, req)
    case Render(_, _) => ServeRender(factory, rows, req)
  }

  /** No id is initialized twice, nor one that has a row already. */
  ghost predicate InitOnce(reqs: seq<Request>, rows: Rows) {
    && (forall i | 0 <= i < |reqs| && reqs[i].Init? :: reqs[i].taskID !in rows)
    && (forall i, j | 0 <= i < j < |reqs| && reqs[i].Init? && reqs[j].Init? :: reqs[i].taskID != reqs[j].taskID)
  }

  datatype Transcript = Transcript(rows: Rows, answers: seq<Result<Response, string>>, notes: seq<Note>)

  /** A whole run without a cache.  A repeated Init is not part of any run the claims are about. */
  function ServeAll(factory: Factory, rows: Rows, reqs: seq<Request>, notes: seq<Note>): Transcript {
    if reqs == [] then Transcript(rows, [], notes)
    else
      var t := ServeAll(factory, rows, reqs[..|reqs| - 1], notes);
      var req := reqs[|reqs| - 1];
      if req.Init? && req.taskID in t.rows then t
      else
        var s := Serve(factory, t.rows, req);
        Transcript(s.rows, t.answers + [s.answer], t.notes + s.notes)
  }

  /** Only initializations add rows. */
  lemma {:induction false} ServeAllKeys(factory: Factory, rows: Rows, reqs: seq<Request>, notes: seq<Note>)
    ensures forall k | k in ServeAll(factory, rows, reqs, notes).rows ::
      k in rows || exists req | req in reqs :: req.Init? && req.taskID == k
  {
    if reqs != [] {
      ServeAllKeys(factory, rows, reqs[..|reqs| - 1], notes);
      assert reqs == reqs[..|reqs| - 1] + [reqs[|reqs| - 1]];
    }
  }
}
