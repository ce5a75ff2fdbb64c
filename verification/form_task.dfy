/** The form plugin as the task manager runs it, with its data in the task's local store. */
module FormTasks {
  import opened Wrappers
  import opened Json
  import opened Plugin
  import opened TaskSpec
  import opened TaskEnds
  import R = ReviewSpec

  const TRADER_FORM := "trader:form"
  const SUBMISSION_RESPONSE := "submissionResponse"
  const OGA_RESPONSE := "ogaResponse"
  const OGA_FEEDBACK := "ogaFeedback"

  /** The JSON form of the feedback history, and what a call meets outside. */
  datatype Codec = Codec(
    feedback: seq<R.Entry> -> Json,
    readFeedback: Json -> seq<R.Entry>,
    outside: Json -> R.Env,
    formFound: Json -> bool)

  ghost predicate Lossless(cd: Codec) {
    forall h :: cd.readFeedback(cd.feedback(h)) == h
  }

  function FieldsAt(local: map<string, Json>, key: string): Option<map<string, Json>> {
    if key in local && local[key].Obj? then Some(local[key].fields) else None
  }

  /** The form as the container and the local store hold it. */
  function FormOf(cd: Codec, v: TaskView): R.FormTask {
    R.FormTask(
      v.state,
      v.pluginState,
      if TRADER_FORM in v.local then Some(v.local[TRADER_FORM]) else None,
      FieldsAt(v.local, SUBMISSION_RESPONSE),
      FieldsAt(v.local, OGA_RESPONSE),
      if OGA_FEEDBACK in v.local then cd.readFeedback(v.local[OGA_FEEDBACK]) else [])
  }

  function IdsOf(ctx: TaskContext, serviceURL: string): R.Ids {
    R.Ids(ctx.taskID, ctx.workflowID, serviceURL)
  }

  // ---- The handlers ---------------------------------------------------------------------------

  function HandleSubmit(cfg: R.FormConfig, ids: R.Ids, content: Json, env: R.Env, reply: Reply): Handled {
    if !content.Obj? then Failure([], "invalid form data", false)
    else
      var stored := [(TRADER_FORM, content)];
      if !R.Passes(env, content.fields) then Failure(stored, "form data does not match the form", false)
      else if R.SubmissionUrl(cfg) == "" then Success(stored, reply)
      else if R.TaskCode(cfg) == "" then Failure(stored, "task code missing", false)
      else if R.Complete(R.RequestOf(cfg, ids, content.fields)) && env.deliveries >= 1 && env.acked
      then Success(stored + [(SUBMISSION_RESPONSE, Obj(env.response))], reply)
      else Failure(stored, "submission failed", true)
  }

  function HandleForm(
      cd: Codec, cfg: R.FormConfig, ids: R.Ids, v: TaskView, a: Action, content: Json, env: R.Env,
      reply: Reply): Handled
  {
    match a
    case SaveAsDraft => Success([(TRADER_FORM, content)], reply)
    case SubmitComplete => HandleSubmit(cfg, ids, content, env, reply)
    case SubmitAwaitOga => HandleSubmit(cfg, ids, content, env, reply)
    case OgaApproved => HandleVerdict(content, reply)
    case OgaRejected => HandleVerdict(content, reply)
    case OgaFeedback =>
      if R.ValidFeedback(content) then
        var history := R.WithFeedback(FormOf(cd, v).ogaFeedback, content.fields, env.now);
        Success([(OGA_FEEDBACK, cd.feedback(history))], reply)
      else Failure([], "invalid feedback", false)
    case _ => Failure([], "unhandled action", false)
  }

  function HandleVerdict(content: Json, reply: Reply): Handled {
    if content.Obj? then Success([(OGA_RESPONSE, content)], reply) else Failure([], "invalid verification data", false)
  }

  function Behaviour(
      cd: Codec, cfg: R.FormConfig, serviceURL: string, reply: (TaskContext, Call) -> Reply): FormBehaviour
  {
    FormBehaviour(
      (ctx: TaskContext, env: Json) =>
        if cd.formFound(env) then Ok(reply(ctx, StartCall(env))) else Err("form not found"),
      (ctx: TaskContext, action: Action, content: Json) => R.ResolveAction(cfg, action, content),
      (ctx: TaskContext, a: Action, content: Json, env: Json) =>
        HandleForm(cd, cfg, IdsOf(ctx, serviceURL), ctx.view, a, content, cd.outside(env),
                   reply(ctx, ExecuteCall(a, content, env))),
      (ctx: TaskContext, env: Json) => Ok(reply(ctx, RenderCall(env))))
  }

  // ---- One call -------------------------------------------------------------------------------

  lemma FireRefines(cd: Codec, v: TaskView, a: Action)
    ensures FormOf(cd, ApplyAll(SimpleFormFSM(), v, [Fire(a)])) == R.Fired(FormOf(cd, v), a)
  {
    assert [Fire(a)][..0] == [];
  }

  /** One write, as an update of the form. */
  function Stored(cd: Codec, f: R.FormTask, w: (string, Json)): R.FormTask {
    if w.0 == TRADER_FORM then f.(traderForm := Some(w.1))
    else if w.0 == SUBMISSION_RESPONSE then f.(submissionResponse := if w.1.Obj? then Some(w.1.fields) else None)
    else if w.0 == OGA_RESPONSE then f.(ogaResponse := if w.1.Obj? then Some(w.1.fields) else None)
    else if w.0 == OGA_FEEDBACK then f.(ogaFeedback := cd.readFeedback(w.1))
    else f
  }

  function StoredAll(cd: Codec, f: R.FormTask, ws: seq<(string, Json)>): R.FormTask {
    if ws == [] then f else Stored(cd, StoredAll(cd, f, ws[..|ws| - 1]), ws[|ws| - 1])
  }

  lemma WriteRefines(cd: Codec, v: TaskView, w: (string, Json))
    ensures FormOf(cd, Apply(SimpleFormFSM(), v, WriteLocal(w.0, w.1))) == Stored(cd, FormOf(cd, v), w)
  {
  }

  lemma {:induction false} WritesRefine(cd: Codec, v: TaskView, ws: seq<(string, Json)>)
    ensures FormOf(cd, ApplyAll(SimpleFormFSM(), v, WriteEffects(ws))) == StoredAll(cd, FormOf(cd, v), ws)
  {
    if ws != [] {
      WritesRefine(cd, v, ws[..|ws| - 1]);
      WriteRefines(cd, ApplyAll(SimpleFormFSM(), v, WriteEffects(ws[..|ws| - 1])), ws[|ws| - 1]);
      assert WriteEffects(ws)[..|ws| - 1] == WriteEffects(ws[..|ws| - 1]);
    }
  }

  /** The writes and the transition of a handled call. */
  lemma HandledRefines(cd: Codec, v: TaskView, ws: seq<(string, Json)>, fire: seq<Action>)
    requires |fire| <= 1
    ensures var f := StoredAll(cd, FormOf(cd, v), ws);
      FormOf(cd, ApplyAll(SimpleFormFSM(), v, WriteEffects(ws) + (if fire == [] then [] else [Fire(fire[0])])))
      == if fire == [] then f else R.Fired(f, fire[0])
  {
    WritesRefine(cd, v, ws);
    if fire == [] {
      assert WriteEffects(ws) + [] == WriteEffects(ws);
    } else {
      FireRefines(cd, ApplyAll(SimpleFormFSM(), v, WriteEffects(ws)), fire[0]);
      ApplyAllAppend(SimpleFormFSM(), v, WriteEffects(ws), [Fire(fire[0])]);
    }
  }

  /** What a handler stores and reports, against the specification of the call. */
  ghost predicate Matches(cd: Codec, f: R.FormTask, h: Handled, w: R.World, outcome: R.Outcome) {
    match h
    case Success(ws, _) => outcome.Success? && w.form == StoredAll(cd, f, ws)
    case Failure(ws, _, failed) =>
      (if failed then outcome.SubmissionFailure? else outcome.Refused?) && w.form == StoredAll(cd, f, ws)
  }

  lemma StoredOne(cd: Codec, f: R.FormTask, w: (string, Json))
    ensures StoredAll(cd, f, [w]) == Stored(cd, f, w) && StoredAll(cd, f, []) == f
  {
    assert [w][..0] == [];
  }

  lemma SubmitMatches(
      cd: Codec, cfg: R.FormConfig, ids: R.Ids, w: R.World, content: Json, env: R.Env, reply: Reply)
    ensures var (w', outcome) := R.Submit(cfg, ids, w, content, env);
      Matches(cd, w.form, HandleSubmit(cfg, ids, content, env, reply), w', outcome)
  {
    var a, b := (TRADER_FORM, content), (SUBMISSION_RESPONSE, Obj(env.response));
    StoredOne(cd, w.form, a);
    assert ([a] + [b])[..1] == [a];
  }

  lemma HandlerMatches(
      cd: Codec, cfg: R.FormConfig, ids: R.Ids, v: TaskView, record: Option<R.Record>, a: Action, content: Json,
      env: R.Env, reply: Reply)
    requires Lossless(cd)
    ensures var (w', outcome) := R.Dispatch(cfg, ids, R.World(FormOf(cd, v), record), a, content, env);
      Matches(cd, FormOf(cd, v), HandleForm(cd, cfg, ids, v, a, content, env, reply), w', outcome)
  {
    var f := FormOf(cd, v);
    StoredOne(cd, f, (TRADER_FORM, content));
    StoredOne(cd, f, (OGA_RESPONSE, content));
    match a
    case SubmitComplete => SubmitMatches(cd, cfg, ids, R.World(f, record), content, env, reply);
    case SubmitAwaitOga => SubmitMatches(cd, cfg, ids, R.World(f, record), content, env, reply);
    case OgaFeedback =>
      if R.ValidFeedback(content) {
        StoredOne(cd, f, (OGA_FEEDBACK, cd.feedback(R.WithFeedback(f.ogaFeedback, content.fields, env.now))));
      }
    case _ =>
  }

  /** The call gets as far as a handler. */
  predicate Handles(cfg: R.FormConfig, v: TaskView, action: Action, content: Json) {
    var a := R.ResolveAction(cfg, action, content);
    a.Ok? && CanTransition(SimpleFormFSM(), v.pluginState, a.value) && Dispatched(a.value)
  }

  lemma NotHandled(
      cd: Codec, cfg: R.FormConfig, serviceURL: string, reply: (TaskContext, Call) -> Reply, ctx: TaskContext,
      record: Option<R.Record>, action: Action, content: Json, env: Json)
    requires !Handles(cfg, ctx.view, action, content)
    ensures var plan := FormPlan(Behaviour(cd, cfg, serviceURL, reply), ctx, ExecuteCall(action, content, env));
      plan.effects == [] && plan.reply.Err?
    ensures var w := R.World(FormOf(cd, ctx.view), record);
      R.Execute(cfg, IdsOf(ctx, serviceURL), w, action, content, cd.outside(env)) == (w, false)
  {
  }

  /** The effects and the success of a handled call. */
  function EffectsOf(h: Handled, a: Action): seq<Effect> {
    match h
    case Success(ws, _) => WriteEffects(ws) + [Fire(a)]
    case Failure(ws, _, failed) => WriteEffects(ws) + (if failed then [Fire(SubmitFailed)] else [])
  }

  lemma HandledPlan(
      cd: Codec, cfg: R.FormConfig, serviceURL: string, reply: (TaskContext, Call) -> Reply, ctx: TaskContext,
      action: Action, content: Json, env: Json)
    requires Handles(cfg, ctx.view, action, content)
    ensures var a := R.ResolveAction(cfg, action, content).value;
      var plan := FormPlan(Behaviour(cd, cfg, serviceURL, reply), ctx, ExecuteCall(action, content, env));
      var h := HandleForm(cd, cfg, IdsOf(ctx, serviceURL), ctx.view, a, content, cd.outside(env),
                          reply(ctx, ExecuteCall(a, content, env)));
      plan.effects == EffectsOf(h, a) && (plan.reply.Ok? <==> h.Success?)
  {
  }

  lemma HandledSettles(cd: Codec, v: TaskView, h: Handled, a: Action, w: R.World, outcome: R.Outcome)
    requires Matches(cd, FormOf(cd, v), h, w, outcome)
    ensures FormOf(cd, ApplyAll(SimpleFormFSM(), v, EffectsOf(h, a))) == R.Settle(w, a, outcome).0.form
    ensures h.Success? <==> R.Settle(w, a, outcome).1
  {
    match h
    case Success(ws, _) => HandledRefines(cd, v, ws, [a]);
    case Failure(ws, _, failed) => HandledRefines(cd, v, ws, if failed then [SubmitFailed] else []);
  }

  /** A call of the plugin is the form's part of one call of the review, whatever the agency holds. */
  lemma CallRefines(
      cd: Codec, cfg: R.FormConfig, serviceURL: string, reply: (TaskContext, Call) -> Reply, ctx: TaskContext,
      record: Option<R.Record>, action: Action, content: Json, env: Json)
    requires Lossless(cd)
    ensures var plan := FormPlan(Behaviour(cd, cfg, serviceURL, reply), ctx, ExecuteCall(action, content, env));
      var w := R.World(FormOf(cd, ctx.view), record);
      var (w', ok) := R.Execute(cfg, IdsOf(ctx, serviceURL), w, action, content, cd.outside(env));
      && FormOf(cd, ApplyAll(SimpleFormFSM(), ctx.view, plan.effects)) == w'.form
      && (plan.reply.Ok? <==> ok)
  {
    var v, ids, outside := ctx.view, IdsOf(ctx, serviceURL), cd.outside(env);
    if Handles(cfg, v, action, content) {
      var a := R.ResolveAction(cfg, action, content).value;
      var r := reply(ctx, ExecuteCall(a, content, env));
      var (w', outcome) := R.Dispatch(cfg, ids, R.World(FormOf(cd, v), record), a, content, outside);
      HandledPlan(cd, cfg, serviceURL, reply, ctx, action, content, env);
      HandlerMatches(cd, cfg, ids, v, record, a, content, outside, r);
      HandledSettles(cd, v, HandleForm(cd, cfg, ids, v, a, content, outside, r), a, w', outcome);
    } else {
      NotHandled(cd, cfg, serviceURL, reply, ctx, record, action, content, env);
    }
  }

  /** Rendering leaves the task as it is. */
  lemma RenderKeeps(
      cd: Codec, cfg: R.FormConfig, serviceURL: string, reply: (TaskContext, Call) -> Reply, ctx: TaskContext,
      env: Json)
    ensures var plan := FormPlan(Behaviour(cd, cfg, serviceURL, reply), ctx, RenderCall(env));
      ApplyAll(SimpleFormFSM(), ctx.view, plan.effects) == ctx.view
  {
  }

  lemma StartRefines(
      cd: Codec, cfg: R.Config, serviceURL: string, reply: (TaskContext, Call) -> Reply, ctx: TaskContext,
      record: Option<R.Record>, env: Json)
    ensures var plan := FormPlan(Behaviour(cd, cfg.form, serviceURL, reply), ctx, StartCall(env));
      FormOf(cd, ApplyAll(SimpleFormFSM(), ctx.view, plan.effects))
      == R.Step(cfg, R.World(FormOf(cd, ctx.view), record), R.StartTask(cd.formFound(env))).form
  {
    FireRefines(cd, ctx.view, Start);
  }
}
