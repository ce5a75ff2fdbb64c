/** The end of a task is reported exactly once and is final. */
module TaskEnds {
  import opened Wrappers
  import opened Json
  import opened Plugin
  import opened TaskSpec

  // ---- What the argument needs of a plugin ----------------------------------------------------

  ghost predicate Sink(fsm: FSM, s: PluginState) {
    forall a :: (s, a) !in fsm
  }

  /** Only a successful Execute brings a task to its end, and the end has no way out. */
  ghost predicate Disciplined(x: Executor) {
    && EndsInSinks(x.fsm)
    && forall ctx, call ::
         var plan := x.plan(ctx, call);
         var after := ApplyAll(x.fsm, ctx.view, plan.effects);
         !ctx.view.state.Terminal() && after.state.Terminal() ==> call.ExecuteCall? && plan.reply.Ok?
  }

  ghost predicate DisciplinedFactory(factory: Factory) {
    forall t, c :: factory(t, c).Ok? ==> Disciplined(factory(t, c).value)
  }

  // ---- One plugin call ------------------------------------------------------------------------

  lemma {:induction false} SinkStays(fsm: FSM, v: TaskView, es: seq<Effect>)
    requires Sink(fsm, v.pluginState)
    ensures ApplyAll(fsm, v, es).pluginState == v.pluginState && ApplyAll(fsm, v, es).state == v.state
  {
    if es != [] {
      SinkStays(fsm, v, es[..|es| - 1]);
    }
  }

  lemma {:induction false} EndIsSink(fsm: FSM, v: TaskView, es: seq<Effect>)
    requires EndsInSinks(fsm) && !v.state.Terminal() && ApplyAll(fsm, v, es).state.Terminal()
    ensures Sink(fsm, ApplyAll(fsm, v, es).pluginState)
  {
    var before := ApplyAll(fsm, v, es[..|es| - 1]);
    if before.state.Terminal() {
      EndIsSink(fsm, v, es[..|es| - 1]);
    } else {
      var a := es[|es| - 1].action;
      assert Ends(fsm[(before.pluginState, a)]);
    }
  }

  /** Reaching the end changes the plugin state, so it is noticed. */
  lemma EndMoves(fsm: FSM, v: TaskView, es: seq<Effect>)
    requires EndsInSinks(fsm) && !v.state.Terminal() && ApplyAll(fsm, v, es).state.Terminal()
    ensures ApplyAll(fsm, v, es).pluginState != v.pluginState
  {
    EndIsSink(fsm, v, es);
    if ApplyAll(fsm, v, es).pluginState == v.pluginState {
      SinkStays(fsm, v, es);
      assert false;
    }
  }

  // ---- Whole runs -----------------------------------------------------------------------------

  function DoneCount(notes: seq<Note>, id: string): nat {
    if notes == [] then 0
    else DoneCount(notes[..|notes| - 1], id)
         + (if notes[|notes| - 1].Done? && notes[|notes| - 1].taskID == id then 1 else 0)
  }

  lemma {:induction false} DoneCountAppend(a: seq<Note>, b: seq<Note>, id: string)
    ensures DoneCount(a + b, id) == DoneCount(a, id) + DoneCount(b, id)
  {
    if b == [] {
      assert a + b == a;
    } else {
      DoneCountAppend(a, b[..|b| - 1], id);
      assert (a + b)[..|a + b| - 1] == a + b[..|b| - 1];
    }
  }

  function ExpectedDone(rows: Rows, id: string): nat {
    if id in rows && rows[id].view.state.Terminal() then 1 else 0
  }

  /** A finished task is in a plugin state without outgoing edges. */
  ghost predicate Settled(factory: Factory, rows: Rows) {
    forall k | k in rows && rows[k].view.state.Terminal() ::
      var x := factory(rows[k].taskType, rows[k].config);
      x.Ok? ==> Sink(x.value.fsm, rows[k].view.pluginState)
  }

  ghost predicate Kept(old_: Rows, new_: Rows) {
    forall k | k in old_ ::
      && k in new_
      && (old_[k].view.state.Terminal() ==>
            new_[k].view.state == old_[k].view.state && new_[k].view.pluginState == old_[k].view.pluginState)
  }

  lemma InvokeEnds(x: Executor, id: string, row: TaskRow, call: Call)
    requires Disciplined(x) && (row.view.state.Terminal() ==> Sink(x.fsm, row.view.pluginState))
    ensures var (row', answer) := Invoke(x, id, row, call);
      && (row'.view.state.Terminal() ==> Sink(x.fsm, row'.view.pluginState))
      && (row.view.state.Terminal() ==>
            row'.view.state == row.view.state && row'.view.pluginState == row.view.pluginState)
      && (!call.ExecuteCall? ==> row'.view.state.Terminal() == row.view.state.Terminal())
      && (call.ExecuteCall? ==>
            DoneCount(ExecuteNotes(id, row.workflowID, answer), id) ==
            if row'.view.state.Terminal() && !row.view.state.Terminal() then 1 else 0)
  {
    var plan := x.plan(ContextOf(id, row), call);
    var after := ApplyAll(x.fsm, row.view, plan.effects);
    if row.view.state.Terminal() {
      SinkStays(x.fsm, row.view, plan.effects);
    } else if after.state.Terminal() {
      EndIsSink(x.fsm, row.view, plan.effects);
      EndMoves(x.fsm, row.view, plan.effects);
    }
  }

  /** What a request does to the ends of tasks, and to the account of reported ends. */
  ghost predicate EndsKept(factory: Factory, rows: Rows, s: Served, id: string) {
    && Settled(factory, s.rows) && Kept(rows, s.rows)
    && ExpectedDone(rows, id) + DoneCount(s.notes, id) == ExpectedDone(s.rows, id)
  }

  lemma NoEndReported(a: string, answer: Result<Response, string>, id: string)
    ensures DoneCount(StartNotes(a, answer), id) == 0
  {
    if answer.Ok? {
      assert StartNotes(a, answer)[..0] == [];
    }
  }

  lemma OneEndReported(a: string, workflowID: string, answer: Result<Response, string>, id: string)
    requires a != id
    ensures DoneCount(ExecuteNotes(a, workflowID, answer), id) == 0
  {
    if ExecuteNotes(a, workflowID, answer) != [] {
      assert ExecuteNotes(a, workflowID, answer)[..0] == [];
    }
  }

  lemma ServeInitEnds(factory: Factory, rows: Rows, req: Request, id: string)
    requires DisciplinedFactory(factory) && Settled(factory, rows) && req.Init? && req.taskID !in rows
    ensures EndsKept(factory, rows, ServeInit(factory, rows, req), id)
  {
    var x := factory(req.taskType, req.config);
    if x.Ok? {
      InvokeEnds(x.value, req.taskID, NewRow(req), StartCall(req.env));
      NoEndReported(req.taskID, Invoke(x.value, req.taskID, NewRow(req), StartCall(req.env)).1, id);
    }
  }

  lemma ServeExecuteEnds(factory: Factory, rows: Rows, req: Request, id: string)
    requires DisciplinedFactory(factory) && Settled(factory, rows) && req.Execute?
    ensures EndsKept(factory, rows, ServeExecute(factory, rows, req), id)
  {
    var x := Lookup(factory, rows, req.taskID);
    if x.Ok? {
      var row, call := rows[req.taskID], ExecuteCall(req.action, req.content, req.env);
      InvokeEnds(x.value, req.taskID, row, call);
      if req.taskID != id {
        OneEndReported(req.taskID, row.workflowID, Invoke(x.value, req.taskID, row, call).1, id);
      }
    }
  }

  lemma ServeRenderEnds(factory: Factory, rows: Rows, req: Request, id: string)
    requires DisciplinedFactory(factory) && Settled(factory, rows) && req.Render?
    ensures EndsKept(factory, rows, ServeRender(factory, rows, req), id)
  {
    var x := Lookup(factory, rows, req.taskID);
    if x.Ok? {
      InvokeEnds(x.value, req.taskID, rows[req.taskID], RenderCall(req.env));
    }
  }

  lemma ServeEnds(factory: Factory, rows: Rows, req: Request, id: string)
    requires DisciplinedFactory(factory) && Settled(factory, rows) && (req.Init? ==> req.taskID !in rows)
    ensures EndsKept(factory, rows, Serve(factory, rows, req), id)
  {
    match req
    case Init(_, _, _, _, _, _) => ServeInitEnds(factory, rows, req, id);
    case Execute(_, _, _, _) => ServeExecuteEnds(factory, rows, req, id);
    case Render(_, _) => ServeRenderEnds(factory, rows, req, id);
  }

  lemma {:induction false} RunEnds(factory: Factory, reqs: seq<Request>, id: string)
    requires DisciplinedFactory(factory)
    ensures var t := ServeAll(factory, map[], reqs, []);
      Settled(factory, t.rows) && DoneCount(t.notes, id) == ExpectedDone(t.rows, id)
  {
    if reqs != [] {
      var t := ServeAll(factory, map[], reqs[..|reqs| - 1], []);
      var req := reqs[|reqs| - 1];
      RunEnds(factory, reqs[..|reqs| - 1], id);
      if !(req.Init? && req.taskID in t.rows) {
        ServeEnds(factory, t.rows, req, id);
        DoneCountAppend(t.notes, Serve(factory, t.rows, req).notes, id);
      }
    }
  }

  lemma {:induction false} RunKeeps(factory: Factory, reqs: seq<Request>, later: seq<Request>)
    requires DisciplinedFactory(factory)
    ensures Kept(ServeAll(factory, map[], reqs, []).rows, ServeAll(factory, map[], reqs + later, []).rows)
    decreases |later|
  {
    if later == [] {
      assert reqs + later == reqs;
    } else {
      var all, prefix := reqs + later, reqs + later[..|later| - 1];
      assert all[..|all| - 1] == prefix;
      RunKeeps(factory, reqs, later[..|later| - 1]);
      var t := ServeAll(factory, map[], prefix, []);
      RunEnds(factory, prefix, "");
      var req := all[|all| - 1];
      if !(req.Init? && req.taskID in t.rows) {
        ServeEnds(factory, t.rows, req, "");
      }
    }
  }

  // ---- The three plugins ----------------------------------------------------------------------
  // What a handler computes is arbitrary; which transition is fired, and when, is not.

  datatype Handled =
    | Success(writes: seq<(string, Json)>, reply: Reply)
    | Failure(writes: seq<(string, Json)>, error: string, submissionFailed: bool)

  datatype FormBehaviour = FormBehaviour(
    start: (TaskContext, Json) -> Result<Reply, string>,
    resolve: (TaskContext, Action, Json) -> Result<Action, string>,
    handle: (TaskContext, Action, Json, Json) -> Handled,
    render: (TaskContext, Json) -> Result<Reply, string>)

  function WriteEffects(ws: seq<(string, Json)>): (es: seq<Effect>)
    ensures forall e | e in es :: e.WriteLocal?
  {
    seq(|ws|, i requires 0 <= i < |ws| => WriteLocal(ws[i].0, ws[i].1))
  }

  predicate Dispatched(a: Action) {
    a.SaveAsDraft? || a.SubmitComplete? || a.SubmitAwaitOga? || a.OgaApproved? || a.OgaRejected? || a.OgaFeedback?
  }

  function FormPlan(b: FormBehaviour, ctx: TaskContext, call: Call): Plan {
    var s := ctx.view.pluginState;
    match call
    case StartCall(env) =>
      if !CanTransition(SimpleFormFSM(), s, Start) then Plan([], Ok(Reply(map[], None, Null)))
      else
        var r := b.start(ctx, env);
        Plan(if r.Ok? then [Fire(Start)] else [], r)
    case ExecuteCall(action, content, env) =>
      var a := b.resolve(ctx, action, content);
      if a.Err? then Plan([], Err(a.error))
      else if !CanTransition(SimpleFormFSM(), s, a.value) then Plan([], Err("action not permitted"))
      else if !Dispatched(a.value) then Plan([], Err("unhandled action"))
      else
        (match b.handle(ctx, a.value, content, env)
         case Success(ws, reply) => Plan(WriteEffects(ws) + [Fire(a.value)], Ok(reply))
         case Failure(ws, e, failed) =>
           Plan(WriteEffects(ws) + (if failed then [Fire(SubmitFailed)] else []), Err(e)))
    case RenderCall(env) => Plan([], b.render(ctx, env))
  }

  datatype PaymentBehaviour = PaymentBehaviour(
    start: (TaskContext, Json) -> Handled,
    handle: (TaskContext, Action, Json, Json) -> Handled,
    /** The writes before the timeout check, whether it has timed out, and the writes after it. */
    render: (TaskContext, Json) -> (Handled, bool, Handled))

  function PaymentPlan(b: PaymentBehaviour, ctx: TaskContext, call: Call): Plan {
    var s := ctx.view.pluginState;
    match call
    case StartCall(env) =>
      if !CanTransition(PaymentFSM(), s, Start) then Plan([], Ok(Reply(map[], None, Null)))
      else
        (match b.start(ctx, env)
         case Success(ws, reply) => Plan(WriteEffects(ws) + [Fire(Start)], Ok(reply))
         case Failure(ws, e, _) => Plan(WriteEffects(ws), Err(e)))
    case ExecuteCall(action, content, env) =>
      if !(action.InitiatePayment? || action.PaymentSuccess? || action.PaymentFailed?) then
        Plan([], Err("unknown action"))
      else if !CanTransition(PaymentFSM(), s, action) then Plan([], Err("action not permitted"))
      else
        (match b.handle(ctx, action, content, env)
         case Success(ws, reply) =>
           Plan(WriteEffects(ws) + (if action.InitiatePayment? && s.PaymentInProgress? then [] else [Fire(action)]),
                Ok(reply))
         case Failure(ws, e, _) => Plan(WriteEffects(ws), Err(e)))
    case RenderCall(env) =>
      var (first, expired, last) := b.render(ctx, env);
      var timeout := if s.PaymentInProgress? && expired then [Fire(PaymentTimeout)] else [];
      Plan(WriteEffects(first.writes) + timeout + WriteEffects(last.writes),
           match last case Success(_, reply) => Ok(reply) case Failure(_, e, _) => Err(e))
  }

  datatype WaitBehaviour = WaitBehaviour(
    configured: bool,
    notify: (TaskContext, Json) -> bool,
    complete: (TaskContext, Json) -> Reply,
    render: (TaskContext, Json) -> Reply)

  function WaitPlan(b: WaitBehaviour, ctx: TaskContext, call: Call): Plan {
    var s := ctx.view.pluginState;
    var nothing := Reply(map[], None, Null);
    match call
    case StartCall(env) =>
      if !CanTransition(WaitForEventFSM(), s, Start) then Plan([], Ok(nothing))
      else if !b.configured then Plan([], Err("submission url not configured"))
      else if b.notify(ctx, env) then Plan([Fire(Start)], Ok(nothing))
      else Plan([Fire(StartFailed)], Ok(nothing))
    case ExecuteCall(action, content, env) =>
      if action.Retry? then
        if !b.notify(ctx, env) then Plan([], Ok(nothing))
        else Plan([Fire(Retry)],
                  if CanTransition(WaitForEventFSM(), s, Retry) then Ok(nothing) else Err("action not permitted"))
      else if action.OgaVerification? then
        Plan([WriteLocal("eventResponse", content), Fire(OgaVerification)],
             if CanTransition(WaitForEventFSM(), s, OgaVerification) then Ok(b.complete(ctx, content))
             else Err("action not permitted"))
      else Plan([], Err("unsupported action"))
    case RenderCall(env) => Plan([], Ok(b.render(ctx, env)))
  }

  function PluginFactory(
      forms: Json -> FormBehaviour, payments: Json -> PaymentBehaviour, waits: Json -> WaitBehaviour): Factory
  {
    (t: TaskType, c: Json) =>
      match t
      case SimpleForm => Ok(Executor(SimpleFormFSM(), (ctx: TaskContext, call: Call) => FormPlan(forms(c), ctx, call)))
      case Payment => Ok(Executor(PaymentFSM(), (ctx: TaskContext, call: Call) => PaymentPlan(payments(c), ctx, call)))
      case WaitForEvent =>
        Ok(Executor(WaitForEventFSM(), (ctx: TaskContext, call: Call) => WaitPlan(waits(c), ctx, call)))
  }

  // ---- The three plugins are disciplined ------------------------------------------------------

  lemma {:induction false} WritesKeepStates(fsm: FSM, v: TaskView, es: seq<Effect>)
    requires forall e | e in es :: e.WriteLocal?
    ensures ApplyAll(fsm, v, es).pluginState == v.pluginState && ApplyAll(fsm, v, es).state == v.state
  {
    if es != [] {
      assert es[|es| - 1] in es;
      WritesKeepStates(fsm, v, es[..|es| - 1]);
    }
  }

  lemma {:induction false} ApplyAllAppend(fsm: FSM, v: TaskView, a: seq<Effect>, b: seq<Effect>)
    ensures ApplyAll(fsm, v, a + b) == ApplyAll(fsm, ApplyAll(fsm, v, a), b)
  {
    if b == [] {
      assert a + b == a;
    } else {
      ApplyAllAppend(fsm, v, a, b[..|b| - 1]);
      assert (a + b)[..|a + b| - 1] == a + b[..|b| - 1];
    }
  }

  lemma OneFire(fsm: FSM, v: TaskView, ws: seq<(string, Json)>, a: Action)
    ensures ApplyAll(fsm, v, WriteEffects(ws) + [Fire(a)]).state.Terminal() && !v.state.Terminal() ==>
              CanTransition(fsm, v.pluginState, a) && Ends(fsm[(v.pluginState, a)])
  {
    var es := WriteEffects(ws) + [Fire(a)];
    assert es[..|es| - 1] == WriteEffects(ws);
    WritesKeepStates(fsm, v, WriteEffects(ws));
  }

  /** Neither a start nor a failed submission ends a form. */
  lemma FormStartAndFailureDoNotEnd(s: PluginState)
    ensures CanTransition(SimpleFormFSM(), s, Start) ==> !Ends(SimpleFormFSM()[(s, Start)])
    ensures CanTransition(SimpleFormFSM(), s, SubmitFailed) ==> !Ends(SimpleFormFSM()[(s, SubmitFailed)])
  {
  }

  lemma FailureDoesNotEnd(v: TaskView, ws: seq<(string, Json)>, failed: bool)
    requires !v.state.Terminal()
    ensures var es := WriteEffects(ws) + if failed then [Fire(SubmitFailed)] else [];
      !ApplyAll(SimpleFormFSM(), v, es).state.Terminal()
  {
    FormStartAndFailureDoNotEnd(v.pluginState);
    OneFire(SimpleFormFSM(), v, ws, SubmitFailed);
    WritesKeepStates(SimpleFormFSM(), v, WriteEffects(ws));
    assert WriteEffects(ws) + [] == WriteEffects(ws);
  }

  lemma FormDisciplined(b: FormBehaviour, ctx: TaskContext, call: Call)
    requires !ctx.view.state.Terminal()
    ensures var plan := FormPlan(b, ctx, call);
      ApplyAll(SimpleFormFSM(), ctx.view, plan.effects).state.Terminal() ==> call.ExecuteCall? && plan.reply.Ok?
  {
    var v := ctx.view;
    match call {
      case StartCall(env) =>
        FormStartAndFailureDoNotEnd(v.pluginState);
        OneFire(SimpleFormFSM(), v, [], Start);
        assert WriteEffects([]) + [Fire(Start)] == [Fire(Start)];
      case ExecuteCall(action, content, env) =>
        var a := b.resolve(ctx, action, content);
        if a.Ok? {
          var h := b.handle(ctx, a.value, content, env);
          if h.Failure? {
            FailureDoesNotEnd(v, h.writes, h.submissionFailed);
          }
        }
      case RenderCall(env) =>
    }
  }

  lemma PaymentDisciplined(b: PaymentBehaviour, ctx: TaskContext, call: Call)
    requires !ctx.view.state.Terminal()
    ensures var plan := PaymentPlan(b, ctx, call);
      ApplyAll(PaymentFSM(), ctx.view, plan.effects).state.Terminal() ==> call.ExecuteCall? && plan.reply.Ok?
  {
    var fsm, v := PaymentFSM(), ctx.view;
    match call {
      case StartCall(env) =>
        var h := b.start(ctx, env);
        OneFire(fsm, v, h.writes, Start);
        WritesKeepStates(fsm, v, WriteEffects(h.writes));
      case ExecuteCall(action, content, env) =>
        var h := b.handle(ctx, action, content, env);
        WritesKeepStates(fsm, v, WriteEffects(h.writes));
      case RenderCall(env) =>
        var (first, expired, last) := b.render(ctx, env);
        var timeout := if v.pluginState.PaymentInProgress? && expired then [Fire(PaymentTimeout)] else [];
        var v' := ApplyAll(fsm, v, WriteEffects(first.writes) + timeout);
        OneFire(fsm, v, first.writes, PaymentTimeout);
        WritesKeepStates(fsm, v, WriteEffects(first.writes));
        assert WriteEffects(first.writes) + [] == WriteEffects(first.writes);
        ApplyAllAppend(fsm, v, WriteEffects(first.writes) + timeout, WriteEffects(last.writes));
        WritesKeepStates(fsm, v', WriteEffects(last.writes));
    }
  }

  lemma WaitDisciplined(b: WaitBehaviour, ctx: TaskContext, call: Call)
    requires !ctx.view.state.Terminal()
    ensures var plan := WaitPlan(b, ctx, call);
      ApplyAll(WaitForEventFSM(), ctx.view, plan.effects).state.Terminal() ==> call.ExecuteCall? && plan.reply.Ok?
  {
    var fsm, v := WaitForEventFSM(), ctx.view;
    forall a ensures ApplyAll(fsm, v, [Fire(a)]) == Apply(fsm, v, Fire(a)) {
      assert [Fire(a)][..0] == [];
    }
    if call.ExecuteCall? && call.action.OgaVerification? {
      var w := ("eventResponse", call.content);
      OneFire(fsm, v, [w], OgaVerification);
      assert WriteEffects([w]) + [Fire(OgaVerification)]
          == [WriteLocal("eventResponse", call.content), Fire(OgaVerification)];
    }
  }

  lemma PluginsDisciplined(
      forms: Json -> FormBehaviour, payments: Json -> PaymentBehaviour, waits: Json -> WaitBehaviour)
    ensures DisciplinedFactory(PluginFactory(forms, payments, waits))
  {
    var factory := PluginFactory(forms, payments, waits);
    forall t, c ensures Disciplined(factory(t, c).value) {
      var x := factory(t, c).value;
      FSMsEndInSinks(t);
      forall ctx: TaskContext, call: Call | !ctx.view.state.Terminal()
        && ApplyAll(x.fsm, ctx.view, x.plan(ctx, call).effects).state.Terminal()
        ensures call.ExecuteCall? && x.plan(ctx, call).reply.Ok?
      {
        match t
        case SimpleForm => FormDisciplined(forms(c), ctx, call);
        case Payment => PaymentDisciplined(payments(c), ctx, call);
        case WaitForEvent => WaitDisciplined(waits(c), ctx, call);
      }
    }
  }

  /** For the three plugins, whatever their handlers do: one report per finished task, and the end is final. */
  lemma FinishedTasksReportOnce(
      forms: Json -> FormBehaviour, payments: Json -> PaymentBehaviour, waits: Json -> WaitBehaviour,
      reqs: seq<Request>, later: seq<Request>, id: string)
    ensures var factory := PluginFactory(forms, payments, waits);
      var t, t' := ServeAll(factory, map[], reqs, []), ServeAll(factory, map[], reqs + later, []);
      && DoneCount(t.notes, id) == ExpectedDone(t.rows, id)
      && Kept(t.rows, t'.rows)
  {
    PluginsDisciplined(forms, payments, waits);
    var factory := PluginFactory(forms, payments, waits);
    RunEnds(factory, reqs, id);
    RunKeeps(factory, reqs, later);
  }
}
