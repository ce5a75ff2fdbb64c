/** The agency's store and service, and the SimpleForm plugin, as objects that update their state in place. */
module ReviewServices {
  import opened Wrappers
  import opened Json
  import opened JsonPath
  import opened Plugin
  import opened Extraction
  import opened ReviewSpec
  import opened Schemas

  type Applications = map<string, Record>

  function RecordOf(rows: Applications, id: string): Option<Record> {
    if id in rows then Some(rows[id]) else None
  }

  /** Only the row of id may differ. */
  ghost predicate OthersKept(before: Applications, after: Applications, id: string) {
    forall k | k != id :: RecordOf(after, k) == RecordOf(before, k)
  }

  // ---- The agency's store ---------------------------------------------------------------------

  class ApplicationStore {
    var rows: Applications

    constructor ()
      ensures rows == map[]
    {
      rows := map[];
    }

    ghost predicate Valid()
      reads this
    {
      forall k | k in rows :: rows[k].taskID == k
    }

    method GetByTaskID(taskID: string) returns (app: Option<Record>)
      ensures app == RecordOf(rows, taskID)
    {
      app := if taskID in rows then Some(rows[taskID]) else None;
    }

    method CreateOrUpdate(app: Record)
      requires Valid()
      modifies this
      ensures Valid() && rows == old(rows)[app.taskID := app]
    {
      rows := rows[app.taskID := app];
    }

    method UpdateStatus(taskID: string, status: string, reviewerResponse: Option<Fields>, now: int) returns (ok: bool)
      requires Valid()
      modifies this
      ensures Valid() && (ok <==> taskID in old(rows))
      ensures rows == if !ok then old(rows) else old(rows)[taskID := old(rows)[taskID].(
                status := status, reviewedAt := Some(now), reviewerResponse := reviewerResponse)]
    {
      ok := taskID in rows;
      if ok {
        rows := rows[taskID := rows[taskID].(
          status := status, reviewedAt := Some(now), reviewerResponse := reviewerResponse)];
      }
    }

    method AppendFeedback(taskID: string, entry: Entry) returns (ok: bool)
      requires Valid()
      modifies this
      ensures Valid() && (ok <==> taskID in old(rows))
      ensures rows == if !ok then old(rows) else old(rows)[taskID := old(rows)[taskID].(
                history := old(rows)[taskID].history + [entry], status := FEEDBACK_REQUESTED)]
    {
      var app := GetByTaskID(taskID);
      ok := app.Some?;
      if ok {
        var updated := app.value.history + [entry];
        rows := rows[taskID := rows[taskID].(history := updated, status := FEEDBACK_REQUESTED)];
      }
    }

    method UpdateDataAndResetStatus(taskID: string, data: Fields)
      requires Valid()
      modifies this
      ensures Valid()
      ensures rows == if taskID !in old(rows) then old(rows) else old(rows)[taskID := old(rows)[taskID].(
                data := data, status := PENDING)]
    {
      if taskID in rows {
        rows := rows[taskID := rows[taskID].(data := data, status := PENDING)];
      }
    }
  }

  // ---- The agency's service -------------------------------------------------------------------

  class OgaService {
    const store: ApplicationStore
    const behaviors: map<string, Behavior>

    constructor (store: ApplicationStore, behaviors: map<string, Behavior>)
      ensures this.store == store && this.behaviors == behaviors
    {
      this.store := store;
      this.behaviors := behaviors;
    }

    method CreateApplication(req: InjectRequest) returns (ok: bool)
      requires store.Valid()
      modifies store
      ensures store.Valid() && (ok <==> Complete(req))
      ensures RecordOf(store.rows, req.taskID) == Inject(old(RecordOf(store.rows, req.taskID)), req)
      ensures OthersKept(old(store.rows), store.rows, req.taskID)
    {
      if req.taskID == "" || req.taskCode == "" || req.workflowID == "" || req.serviceURL == "" {
        return false;
      }
      var existing := store.GetByTaskID(req.taskID);
      if existing.Some? && existing.value.status == FEEDBACK_REQUESTED {
        store.UpdateDataAndResetStatus(req.taskID, req.data);
        return true;
      }
      var appRecord := Record(
        req.taskID, req.taskCode, req.workflowID, req.serviceURL, req.data, None, PENDING, [], None);
      store.CreateOrUpdate(appRecord);
      return true;
    }

    /** The status for a review, from the configuration of the task code. */
    method MappedStatus(taskCode: string, reviewerResponse: Option<Fields>) returns (status: string)
      ensures reviewerResponse.None? ==> status == DONE
      ensures reviewerResponse.Some? ==>
        status == FinalStatus(if taskCode in behaviors then Some(behaviors[taskCode]) else None, reviewerResponse.value)
    {
      status := DONE;
      if taskCode in behaviors && behaviors[taskCode].statusMap.Some? {
        var config := behaviors[taskCode];
        var outcomeField := config.outcomeField;
        if outcomeField == "" {
          outcomeField := DEFAULT_OUTCOME_FIELD;
        }
        if reviewerResponse.Some? && outcomeField in reviewerResponse.value {
          var outcome := reviewerResponse.value[outcomeField];
          if outcome.Str? && outcome.s in config.statusMap.value {
            status := config.statusMap.value[outcome.s];
          }
        }
      }
    }

    /** The callback reaches NSW and reports what it did, or does not take place. */
    method SendToService(form: SimpleForm, action: Action, content: Option<Fields>, reachable: bool, env: Env)
      returns (ok: bool)
      requires form.oga == this && store.Valid()
      modifies form, store
      ensures store.Valid() && OthersKept(old(store.rows), store.rows, form.ids.taskID)
      ensures !reachable ==> form.World() == old(form.World()) && !ok
      ensures reachable ==>
        (form.World(), ok) == Execute(form.config, form.ids, old(form.World()), action, Body(content), env)
    {
      if !reachable {
        return false;
      }
      ok := form.Execute(action, Body(content), env);
    }

    method ReviewApplication(
        form: SimpleForm, reviewerResponse: Option<Fields>, reachable: bool, env: Env, now: int) returns (ok: bool)
      requires form.oga == this && store.Valid()
      modifies form, store
      ensures store.Valid() && OthersKept(old(store.rows), store.rows, form.ids.taskID)
      ensures form.World() == Step(
                Config(form.config, form.ids, behaviors), old(form.World()),
                OfficerReview(Body(reviewerResponse), reachable, env, now))
    {
      var app := store.GetByTaskID(form.ids.taskID);
      if app.None? {
        return false;
      }
      ok := SendToService(form, OgaVerification, reviewerResponse, reachable, env);
      if ok {
        var status := MappedStatus(app.value.taskCode, reviewerResponse);
        ok := store.UpdateStatus(form.ids.taskID, status, reviewerResponse, now);
      }
    }

    method FeedbackApplication(
        form: SimpleForm, content: Option<Fields>, reachable: bool, env: Env, now: int) returns (ok: bool)
      requires form.oga == this && store.Valid()
      modifies form, store
      ensures store.Valid() && OthersKept(old(store.rows), store.rows, form.ids.taskID)
      ensures form.World() == Step(
                Config(form.config, form.ids, behaviors), old(form.World()),
                OfficerFeedback(Body(content), reachable, env, now))
    {
      var app := store.GetByTaskID(form.ids.taskID);
      if app.None? {
        return false;
      }
      ok := SendToService(form, OgaFeedback, content, reachable, env);
      if ok {
        var entry := Entry(content.value, now, |app.value.history| + 1);
        ok := store.AppendFeedback(form.ids.taskID, entry);
      }
    }
  }

  /** A nil map is sent as null. */
  function Body(content: Option<Fields>): Json {
    if content.Some? then Obj(content.value) else Null
  }

  // ---- The plugin -----------------------------------------------------------------------------

  class SimpleForm {
    const config: FormConfig
    const ids: Ids
    const oga: OgaService
    var taskState: TaskState
    var pluginState: PluginState
    var traderForm: Option<Json>
    var submissionResponse: Option<Fields>
    var ogaResponse: Option<Fields>
    var ogaFeedback: seq<Entry>

    constructor (config: FormConfig, ids: Ids, oga: OgaService)
      ensures this.config == config && this.ids == ids && this.oga == oga && Task() == NEW_TASK
    {
      this.config := config;
      this.ids := ids;
      this.oga := oga;
      taskState := Initialized;
      pluginState := NotStarted;
      traderForm := None;
      submissionResponse := None;
      ogaResponse := None;
      ogaFeedback := [];
    }

    function Task(): FormTask
      reads this
    {
      FormTask(taskState, pluginState, traderForm, submissionResponse, ogaResponse, ogaFeedback)
    }

    function World(): World
      reads this, oga.store
    {
      ReviewSpec.World.World(Task(), RecordOf(oga.store.rows, ids.taskID))
    }

    method Transition(a: Action) returns (ok: bool)
      modifies this
      ensures Task() == Fired(old(Task()), a) && (ok <==> CanTransition(SimpleFormFSM(), old(pluginState), a))
    {
      ok := CanTransition(SimpleFormFSM(), pluginState, a);
      if ok {
        var o := SimpleFormFSM()[(pluginState, a)];
        pluginState := o.nextPluginState;
        if o.nextTaskState.Some? {
          taskState := o.nextTaskState.value;
        }
      }
    }

    method Start(formFound: bool) returns (ok: bool)
      modifies this
      ensures World() == Step(Config(config, ids, oga.behaviors), old(World()), StartTask(formFound))
    {
      if !CanTransition(SimpleFormFSM(), pluginState, Action.Start) {
        return true;
      }
      if !formFound {
        return false;
      }
      ok := Transition(Action.Start);
    }

    /** The retries of one submission: the agency may process it any number of times. */
    method SendFormSubmission(req: InjectRequest, env: Env) returns (acked: bool)
      requires oga.store.Valid() && req.taskID == ids.taskID
      modifies oga.store
      ensures oga.store.Valid() && OthersKept(old(oga.store.rows), oga.store.rows, ids.taskID)
      ensures RecordOf(oga.store.rows, ids.taskID)
           == Deliver(old(RecordOf(oga.store.rows, ids.taskID)), req, env.deliveries)
      ensures acked <==> Complete(req) && env.deliveries >= 1 && env.acked
    {
      acked := false;
      for i := 0 to env.deliveries
        invariant oga.store.Valid() && OthersKept(old(oga.store.rows), oga.store.rows, ids.taskID)
        invariant RecordOf(oga.store.rows, ids.taskID) == Deliver(old(RecordOf(oga.store.rows, ids.taskID)), req, i)
        invariant acked <==> Complete(req) && i >= 1
      {
        acked := oga.CreateApplication(req);
      }
      acked := acked && env.acked;
    }

    method SubmitHandler(content: Json, env: Env) returns (outcome: Outcome, outputs: Fields)
      requires oga.store.Valid()
      modifies this, oga.store
      ensures oga.store.Valid() && OthersKept(old(oga.store.rows), oga.store.rows, ids.taskID)
      ensures (World(), outcome) == Submit(config, ids, old(World()), content, env)
      ensures outputs == SubmitOutputs(config, content, env, outcome)
    {
      outputs := map[];
      if !content.Obj? {
        return Refused, outputs;
      }
      traderForm := Some(content);
      if env.form.None? {
        return Refused, outputs;
      }
      var pairs := ExtractGlobals(Traverse(env.form.value, "", env.order), content.fields);
      if pairs.None? {
        return Refused, outputs;
      }
      if SubmissionUrl(config) == "" {
        return Success, pairs.value;
      }
      var req := InjectRequest(ids.taskID, TaskCode(config), ids.workflowID, content.fields, ids.serviceURL);
      if req.taskCode == "" {
        return Refused, outputs;
      }
      var acked := SendFormSubmission(req, env);
      if !acked {
        return SubmissionFailure, pairs.value;
      }
      submissionResponse := Some(env.response);
      outputs := pairs.value;
      if config.submission.Some? {
        var parsed := ParseResponseData(config.submission.value.mapping, env.mapped, env.response);
        outputs := outputs + parsed;
      }
      return Success, outputs;
    }

    method OgaVerdictHandler(content: Json) returns (outcome: Outcome)
      modifies this
      ensures Task() == old(Task()).(ogaResponse := if content.Obj? then Some(content.fields) else old(ogaResponse))
      ensures outcome == if content.Obj? then Success else Refused
    {
      if !content.Obj? {
        return Refused;
      }
      ogaResponse := Some(content.fields);
      return Success;
    }

    method OgaFeedbackHandler(content: Json, now: int) returns (outcome: Outcome)
      modifies this
      ensures Task() == old(Task()).(ogaFeedback :=
                if ValidFeedback(content)
                then WithFeedback(old(ogaFeedback), content.fields, now)
                else old(ogaFeedback))
      ensures outcome == if ValidFeedback(content) then Success else Refused
    {
      if !ValidFeedback(content) {
        return Refused;
      }
      var history := ogaFeedback;
      history := history + [Entry(content.fields, now, |history| + 1)];
      ogaFeedback := history;
      return Success;
    }

    method DispatchAction(action: Action, content: Json, env: Env) returns (outcome: Outcome)
      requires oga.store.Valid()
      modifies this, oga.store
      ensures oga.store.Valid() && OthersKept(old(oga.store.rows), oga.store.rows, ids.taskID)
      ensures (World(), outcome) == Dispatch(config, ids, old(World()), action, content, env)
    {
      var outputs: Fields;
      match action
      case SaveAsDraft =>
        traderForm := Some(content);
        outcome := Success;
      case SubmitComplete => outcome, outputs := SubmitHandler(content, env);
      case SubmitAwaitOga => outcome, outputs := SubmitHandler(content, env);
      case OgaApproved => outcome := OgaVerdictHandler(content);
      case OgaRejected => outcome := OgaVerdictHandler(content);
      case OgaFeedback => outcome := OgaFeedbackHandler(content, env.now);
      case _ => outcome := Refused;
    }

    method Conclude(a: Action, outcome: Outcome) returns (ok: bool)
      modifies this
      ensures (World(), ok) == Settle(old(World()), a, outcome)
    {
      ok := outcome.Success?;
      if outcome.SubmissionFailure? {
        var _ := Transition(SubmitFailed);
      } else if ok {
        var _ := Transition(a);
      }
    }

    method Execute(action: Action, content: Json, env: Env) returns (ok: bool)
      requires oga.store.Valid()
      modifies this, oga.store
      ensures oga.store.Valid() && OthersKept(old(oga.store.rows), oga.store.rows, ids.taskID)
      ensures (World(), ok) == ReviewSpec.Execute(config, ids, old(World()), action, content, env)
    {
      var a := ResolveAction(config, action, content);
      if a.Err? || !CanTransition(SimpleFormFSM(), pluginState, a.value) {
        return false;
      }
      var outcome := DispatchAction(a.value, content, env);
      ok := Conclude(a.value, outcome);
    }
  }
}
