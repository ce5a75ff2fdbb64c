/** The review, run through the task manager: every message of a run is a request that the manager serves. */
module ReviewServed {
  import opened Wrappers
  import opened Json
  import opened Plugin
  import opened TaskSpec
  import opened TaskEnds
  import opened FormTasks
  import R = ReviewSpec
  import Protocol = ReviewProtocol

  /** The task under review: how the manager builds it, and how a request carries what a call meets outside. */
  datatype Setting = Setting(
    review: R.Config,
    codec: Codec,
    carry: R.Env -> Json,
    carryStart: bool -> Json,
    globals: Globals,
    config: Json,
    factory: Factory,
    reply: (TaskContext, Call) -> Reply)

  /** The plugin with the handlers of the form, and any replies. */
  ghost predicate RunsForm(
      x: Executor, cd: Codec, cfg: R.FormConfig, serviceURL: string, reply: (TaskContext, Call) -> Reply)
  {
    && x.fsm == SimpleFormFSM()
    && forall ctx, call :: x.plan(ctx, call) == FormPlan(Behaviour(cd, cfg, serviceURL, reply), ctx, call)
  }

  ghost predicate Fits(s: Setting) {
    && Lossless(s.codec)
    && (forall found :: s.codec.formFound(s.carryStart(found)) == found)
    && s.review.ids.taskID != ""
    && s.factory(TaskType.SimpleForm, s.config).Ok?
    && RunsForm(s.factory(TaskType.SimpleForm, s.config).value, s.codec, s.review.form, s.review.ids.serviceURL,
                s.reply)
  }

  /** The factory of the three plugins makes forms of this kind. */
  lemma FactoryMakesForms(
      forms: Json -> FormBehaviour, payments: Json -> PaymentBehaviour, waits: Json -> WaitBehaviour,
      config: Json, cd: Codec, cfg: R.FormConfig, serviceURL: string, reply: (TaskContext, Call) -> Reply)
    requires forms(config) == Behaviour(cd, cfg, serviceURL, reply)
    ensures var x := PluginFactory(forms, payments, waits)(TaskType.SimpleForm, config);
      x.Ok? && RunsForm(x.value, cd, cfg, serviceURL, reply)
  {
  }

  /** A request can say what this call meets outside. */
  ghost predicate Carries(s: Setting, env: R.Env) {
    s.codec.outside(s.carry(env)) == env
  }

  function EnvOf(e: R.Event): R.Env {
    match e
    case StartTask(_) => R.QUIET
    case TraderDrafts(_) => R.QUIET
    case TraderSubmits(_, env) => env
    case OfficerFeedback(_, _, env, _) => env
    case OfficerReview(_, _, env, _) => env
  }

  /** Requests can say what the calls of this run meet outside. */
  ghost predicate CarriesAll(s: Setting, es: seq<R.Event>) {
    forall e | e in es :: Carries(s, EnvOf(e))
  }

  // ---- The requests of a run ------------------------------------------------------------------

  function ExecuteBy(s: Setting, action: Action, content: Json, env: R.Env): Request {
    Execute(s.review.ids.taskID, action, content, s.carry(env))
  }

  /** An officer's action reaches the manager only for a record, and only if NSW can be reached. */
  function RequestBy(s: Setting, w: R.World, e: R.Event): Option<Request> {
    var ids := s.review.ids;
    match e
    case StartTask(found) =>
      Some(Init(ids.taskID, ids.workflowID, TaskType.SimpleForm, s.globals, s.config, s.carryStart(found)))
    case TraderDrafts(c) => Some(ExecuteBy(s, SaveAsDraft, c, R.QUIET))
    case TraderSubmits(c, env) => Some(ExecuteBy(s, SubmitForm, c, env))
    case OfficerFeedback(c, reachable, env, _) =>
      if w.record.None? || !reachable then None else Some(ExecuteBy(s, OgaFeedback, c, env))
    case OfficerReview(c, reachable, env, _) =>
      if w.record.None? || !reachable then None else Some(ExecuteBy(s, OgaVerification, c, env))
  }

  function RequestsOf(s: Setting, es: seq<R.Event>): seq<Request> {
    if es == [] then []
    else
      var r := RequestBy(s, R.Run(s.review, es[..|es| - 1]), es[|es| - 1]);
      RequestsOf(s, es[..|es| - 1]) + (if r.Some? then [r.value] else [])
  }

  /** The task is initialized no more than once. */
  ghost predicate StartedOnce(es: seq<R.Event>) {
    forall i, j | 0 <= i < j < |es| :: !(es[i].StartTask? && es[j].StartTask?)
  }

  // ---- One request ----------------------------------------------------------------------------

  /** The stored row of the task is the form of the review; before the first row the form is new. */
  ghost predicate Holds(s: Setting, rows: Rows, f: R.FormTask) {
    var ids := s.review.ids;
    if ids.taskID in rows then
      var row := rows[ids.taskID];
      && row.workflowID == ids.workflowID && row.taskType == TaskType.SimpleForm && row.config == s.config
      && FormOf(s.codec, row.view) == f
    else f == R.NEW_TASK
  }

  /** Without a row nothing is permitted. */
  lemma NewTaskRefuses(cfg: R.FormConfig, ids: R.Ids, w: R.World, action: Action, content: Json, env: R.Env)
    requires w.form == R.NEW_TASK
    ensures R.Execute(cfg, ids, w, action, content, env) == (w, false)
  {
  }

  lemma ExecuteHolds(s: Setting, rows: Rows, w: R.World, action: Action, content: Json, env: R.Env)
    requires Fits(s) && Carries(s, env) && Holds(s, rows, w.form)
    ensures Holds(s, Serve(s.factory, rows, ExecuteBy(s, action, content, env)).rows,
                  R.Execute(s.review.form, s.review.ids, w, action, content, env).0.form)
  {
    var ids := s.review.ids;
    if ids.taskID in rows {
      CallRefines(s.codec, s.review.form, ids.serviceURL, s.reply, ContextOf(ids.taskID, rows[ids.taskID]),
                  w.record, action, content, s.carry(env));
    } else {
      NewTaskRefuses(s.review.form, ids, w, action, content, env);
    }
  }

  lemma InitHolds(s: Setting, rows: Rows, w: R.World, found: bool)
    requires Fits(s) && Holds(s, rows, w.form) && s.review.ids.taskID !in rows
    ensures Holds(s, Serve(s.factory, rows, RequestBy(s, w, R.StartTask(found)).value).rows,
                  R.Step(s.review, w, R.StartTask(found)).form)
  {
    var req := RequestBy(s, w, R.StartTask(found)).value;
    StartRefines(s.codec, s.review, s.review.ids.serviceURL, s.reply, ContextOf(req.taskID, NewRow(req)), w.record,
                 req.env);
    assert s.codec.formFound(s.carryStart(found)) == found;
  }

  lemma StepHolds(s: Setting, rows: Rows, w: R.World, e: R.Event)
    requires Fits(s) && Carries(s, EnvOf(e)) && Holds(s, rows, w.form)
    requires e.StartTask? ==> s.review.ids.taskID !in rows
    ensures var r := RequestBy(s, w, e);
      Holds(s, if r.Some? then Serve(s.factory, rows, r.value).rows else rows, R.Step(s.review, w, e).form)
  {
    match e
    case StartTask(found) => InitHolds(s, rows, w, found);
    case TraderDrafts(c) => ExecuteHolds(s, rows, w, SaveAsDraft, c, R.QUIET);
    case TraderSubmits(c, env) => ExecuteHolds(s, rows, w, SubmitForm, c, env);
    case OfficerFeedback(c, _, env, _) => ExecuteHolds(s, rows, w, OgaFeedback, c, env);
    case OfficerReview(c, _, env, _) => ExecuteHolds(s, rows, w, OgaVerification, c, env);
  }

  // ---- Whole runs -----------------------------------------------------------------------------

  /** The manager is asked to initialize the task only where the run starts it. */
  lemma {:induction false} InitsAreStarts(s: Setting, es: seq<R.Event>)
    requires forall e | e in es :: !e.StartTask?
    ensures forall req | req in RequestsOf(s, es) :: !req.Init?
  {
    if es != [] {
      assert es[|es| - 1] in es;
      InitsAreStarts(s, es[..|es| - 1]);
    }
  }

  lemma {:induction false} ServableOnce(s: Setting, es: seq<R.Event>)
    requires StartedOnce(es)
    ensures InitOnce(RequestsOf(s, es), map[])
  {
    if es != [] {
      var before, e := es[..|es| - 1], es[|es| - 1];
      ServableOnce(s, before);
      if e.StartTask? {
        InitsAreStarts(s, before);
      }
    }
  }

  lemma ServeAllNext(factory: Factory, reqs: seq<Request>, req: Request)
    requires var rows := ServeAll(factory, map[], reqs, []).rows; req.Init? ==> req.taskID !in rows
    ensures ServeAll(factory, map[], reqs + [req], []).rows
         == Serve(factory, ServeAll(factory, map[], reqs, []).rows, req).rows
  {
    assert (reqs + [req])[..|reqs|] == reqs;
  }

  /** After every run the row that the manager stores is the form of the review. */
  lemma {:induction false} RunHolds(s: Setting, es: seq<R.Event>)
    requires Fits(s) && CarriesAll(s, es) && StartedOnce(es)
    ensures Holds(s, ServeAll(s.factory, map[], RequestsOf(s, es), []).rows, R.Run(s.review, es).form)
  {
    if es != [] {
      var before, e := es[..|es| - 1], es[|es| - 1];
      var w, reqs := R.Run(s.review, before), RequestsOf(s, before);
      var rows := ServeAll(s.factory, map[], reqs, []).rows;
      RunHolds(s, before);
      if e.StartTask? {
        InitsAreStarts(s, before);
        ServeAllKeys(s.factory, map[], reqs, []);
      }
      StepHolds(s, rows, w, e);
      if RequestBy(s, w, e).Some? {
        ServeAllNext(s.factory, reqs, RequestBy(s, w, e).value);
      } else {
        assert reqs + [] == reqs;
      }
    }
  }

  /** The stored row agrees with what the agency holds. */
  lemma ServedReviewsAgree(s: Setting, es: seq<R.Event>)
    requires Fits(s) && CarriesAll(s, es) && StartedOnce(es)
    requires Protocol.VerdictsOnly(s.review.form) && Protocol.Reaches(s.review)
    ensures InitOnce(RequestsOf(s, es), map[])
    ensures var rows := ServeAll(s.factory, map[], RequestsOf(s, es), []).rows;
      s.review.ids.taskID in rows ==>
        var form := FormOf(s.codec, rows[s.review.ids.taskID].view);
        form == R.Run(s.review, es).form && Protocol.Agrees(s.review, R.World(form, R.Run(s.review, es).record))
  {
    ServableOnce(s, es);
    RunHolds(s, es);
    Protocol.RunAgrees(s.review, es);
  }

  // ---- Every run can be served ----------------------------------------------------------------

  function EntryJson(e: R.Entry): Json {
    Arr([Obj(e.content), Number(e.timestamp as real), Number(e.round as real)])
  }

  function JsonEntry(j: Json): R.Entry {
    if j.Arr? && |j.items| == 3 && j.items[0].Obj? && j.items[1].Number? && j.items[2].Number? && j.items[2].n >= 0.0
    then R.Entry(j.items[0].fields, j.items[1].n.Floor, j.items[2].n.Floor)
    else R.Entry(map[], 0, 0)
  }

  function HistoryJson(h: seq<R.Entry>): Json {
    Arr(seq(|h|, i requires 0 <= i < |h| => EntryJson(h[i])))
  }

  function JsonHistory(j: Json): seq<R.Entry> {
    if j.Arr? then seq(|j.items|, i requires 0 <= i < |j.items| => JsonEntry(j.items[i])) else []
  }

  lemma HistoryReadBack(h: seq<R.Entry>)
    ensures JsonHistory(HistoryJson(h)) == h
  {
    forall i | 0 <= i < |h| ensures JsonEntry(EntryJson(h[i])) == h[i] {
      var j := EntryJson(h[i]);
      assert j.items[1].n.Floor == h[i].timestamp && j.items[2].n.Floor == h[i].round;
    }
  }

  /** The number of an environment in a list of them. */
  ghost function Position(env: R.Env, envs: seq<R.Env>): (i: nat)
    ensures env in envs ==> i < |envs| && envs[i] == env
  {
    if envs == [] || envs[0] == env then 0 else 1 + Position(env, envs[1..])
  }

  function EnvAt(envs: seq<R.Env>, j: Json): R.Env {
    if j.Number? && 0 <= j.n.Floor < |envs| then envs[j.n.Floor] else R.QUIET
  }

  function Environments(es: seq<R.Event>): (envs: seq<R.Env>)
    ensures |envs| == |es| && forall i | 0 <= i < |es| :: envs[i] == EnvOf(es[i])
  {
    seq(|es|, i requires 0 <= i < |es| => EnvOf(es[i]))
  }

  /** Requests that name what they meet by its number in the run. */
  ghost function CodecFor(es: seq<R.Event>): Codec {
    Codec(HistoryJson, JsonHistory, j => EnvAt(Environments(es), j), j => j == Bool(true))
  }

  lemma Numbered(env: R.Env, envs: seq<R.Env>)
    requires env in envs
    ensures EnvAt(envs, Number(Position(env, envs) as real)) == env
  {
    var i := Position(env, envs);
    assert (i as real).Floor == i;
  }

  /** For every configuration and every run there is a manager that can serve it. */
  lemma ServableRun(cfg: R.Config, es: seq<R.Event>) returns (s: Setting)
    requires cfg.ids.taskID != "" && StartedOnce(es)
    ensures s.review == cfg && Fits(s) && CarriesAll(s, es)
    ensures InitOnce(RequestsOf(s, es), map[])
  {
    var cd, envs := CodecFor(es), Environments(es);
    var reply: (TaskContext, Call) -> Reply := (ctx: TaskContext, call: Call) => Reply(map[], None, Null);
    var b := Behaviour(cd, cfg.form, cfg.ids.serviceURL, reply);
    var forms, payments, waits := AnyFactory(b);
    s := Setting(cfg, cd, env => Number(Position(env, envs) as real), found => Bool(found), map[], Null,
                 PluginFactory(forms, payments, waits), reply);
    forall h ensures cd.readFeedback(cd.feedback(h)) == h {
      HistoryReadBack(h);
    }
    FactoryMakesForms(forms, payments, waits, Null, cd, cfg.form, cfg.ids.serviceURL, reply);
    forall e | e in es ensures Carries(s, EnvOf(e)) {
      var i :| 0 <= i < |es| && es[i] == e;
      assert envs[i] == EnvOf(e);
      Numbered(EnvOf(e), envs);
    }
    ServableOnce(s, es);
  }

  /** The factory with these forms; what it does for other tasks is of no interest. */
  lemma AnyFactory(b: FormBehaviour)
    returns (forms: Json -> FormBehaviour, payments: Json -> PaymentBehaviour, waits: Json -> WaitBehaviour)
    ensures forms(Null) == b
  {
    var nothing := Reply(map[], None, Null);
    forms := c => b;
    payments := c => PaymentBehaviour(
      (ctx: TaskContext, env: Json) => Handled.Failure([], "", false),
      (ctx: TaskContext, a: Action, content: Json, env: Json) => Handled.Failure([], "", false),
      (ctx: TaskContext, env: Json) => (Handled.Failure([], "", false), false, Handled.Failure([], "", false)));
    waits := c => WaitBehaviour(
      false,
      (ctx: TaskContext, env: Json) => false,
      (ctx: TaskContext, content: Json) => nothing,
      (ctx: TaskContext, env: Json) => nothing);
  }
}
