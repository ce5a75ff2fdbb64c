/** One task reviewed by an agency: the trader's form at NSW, the agency's record, and the messages between them. */
module ReviewSpec {
  import opened Wrappers
  import opened Json
  import opened JsonPath
  import opened Plugin
  import opened Extraction
  import opened Schemas
  import opened Text

  /** One round of agency feedback, in the same form on both sides. */
  datatype Entry = Entry(content: Fields, timestamp: int, round: nat)

  function Contents(h: seq<Entry>): seq<Fields> {
    seq(|h|, i requires 0 <= i < |h| => h[i].content)
  }

  // ---- The agency's record --------------------------------------------------------------------

  datatype Record = Record(
    taskID: string,
    taskCode: string,
    workflowID: string,
    serviceURL: string,
    data: Fields,
    reviewerResponse: Option<Fields>,
    status: string,
    history: seq<Entry>,
    reviewedAt: Option<int>)

  const PENDING := "PENDING"
  const FEEDBACK_REQUESTED := "FEEDBACK_REQUESTED"
  const DONE := "DONE"
  const DEFAULT_OUTCOME_FIELD := "review_outcome"

  datatype InjectRequest = InjectRequest(
    taskID: string, taskCode: string, workflowID: string, data: Fields, serviceURL: string)

  predicate Complete(req: InjectRequest) {
    req.taskID != "" && req.taskCode != "" && req.workflowID != "" && req.serviceURL != ""
  }

  function NewRecord(req: InjectRequest): Record {
    Record(req.taskID, req.taskCode, req.workflowID, req.serviceURL, req.data, None, PENDING, [], None)
  }

  /** A resubmission after feedback keeps the history; everything else overwrites the record. */
  function Inject(record: Option<Record>, req: InjectRequest): Option<Record> {
    if !Complete(req) then record
    else if record.Some? && record.value.status == FEEDBACK_REQUESTED
    then Some(record.value.(data := req.data, status := PENDING))
    else Some(NewRecord(req))
  }

  /** The same request delivered any number of times. */
  function Deliver(record: Option<Record>, req: InjectRequest, times: nat): Option<Record> {
    if times == 0 then record else Inject(Deliver(record, req, times - 1), req)
  }

  datatype Behavior = Behavior(outcomeField: string, statusMap: Option<map<string, string>>)

  /** The final status an agency gives an application, from the task configuration and the review. */
  function FinalStatus(behavior: Option<Behavior>, review: Fields): string {
    if behavior.None? || behavior.value.statusMap.None? then DONE
    else
      var field := if behavior.value.outcomeField == "" then DEFAULT_OUTCOME_FIELD else behavior.value.outcomeField;
      if field in review && review[field].Str? && review[field].s in behavior.value.statusMap.value
      then behavior.value.statusMap.value[review[field].s]
      else DONE
  }

  // ---- The form -------------------------------------------------------------------------------

  datatype TransitionConfig = TransitionConfig(field: string, mapping: map<string, Action>, default_: Option<Action>)

  datatype Submission = Submission(url: string, taskCode: Option<string>, mapping: map<string, string>)

  datatype FormConfig = FormConfig(
    requiresOgaVerification: bool,
    /** The callback configuration, if there is one, and its transition, if there is one. */
    callback: Option<Option<TransitionConfig>>,
    submission: Option<Submission>,
    submissionURL: string)

  predicate RequiresVerification(cfg: FormConfig) {
    cfg.requiresOgaVerification || cfg.callback.Some?
  }

  function SubmissionUrl(cfg: FormConfig): string {
    if cfg.submission.Some? && cfg.submission.value.url != "" then cfg.submission.value.url else cfg.submissionURL
  }

  function TaskCode(cfg: FormConfig): string {
    if cfg.submission.Some? && cfg.submission.value.taskCode.Some? then cfg.submission.value.taskCode.value else ""
  }

  /** The task as its container and its local store hold it. */
  datatype FormTask = FormTask(
    taskState: TaskState,
    pluginState: PluginState,
    traderForm: Option<Json>,
    submissionResponse: Option<Fields>,
    ogaResponse: Option<Fields>,
    ogaFeedback: seq<Entry>)

  const NEW_TASK := FormTask(Initialized, NotStarted, None, None, None, [])

  function Fired(f: FormTask, a: Action): FormTask {
    if !CanTransition(SimpleFormFSM(), f.pluginState, a) then f
    else
      var o := SimpleFormFSM()[(f.pluginState, a)];
      f.(pluginState := o.nextPluginState,
         taskState := if o.nextTaskState.Some? then o.nextTaskState.value else f.taskState)
  }

  function Resolve(t: TransitionConfig, data: Fields): Result<Action, string> {
    match Get(Obj(data), if t.field == "" then [] else Split(t.field))
    case None => if t.default_.Some? then Ok(t.default_.value) else Err("transition field not found")
    case Some(v) =>
      if !v.Str? then Err("transition field is not a string")
      else if v.s in t.mapping then Ok(t.mapping[v.s])
      else if t.default_.Some? then Ok(t.default_.value)
      else Err("no transition mapped")
  }

  function Decision(data: Fields): string {
    if "decision" in data && data["decision"].Str? then data["decision"].s else ""
  }

  /** From the public action to the edge of the state machine. */
  function ResolveAction(cfg: FormConfig, action: Action, content: Json): Result<Action, string> {
    match action
    case SubmitForm => Ok(if RequiresVerification(cfg) then SubmitAwaitOga else SubmitComplete)
    case OgaVerification =>
      if !content.Obj? then Err("invalid verification data")
      else if cfg.callback.Some? && cfg.callback.value.Some? then Resolve(cfg.callback.value.value, content.fields)
      else Ok(if Upper(Decision(content.fields)) == "APPROVED" then OgaApproved else OgaRejected)
    case _ => Ok(action)
  }

  /**
   * What a call meets outside: the form definition, if it can be fetched and parsed, and the orders in
   * which Go iterates over it and over the response mapping; the network towards the agency; the clock.
   */
  datatype Env = Env(
    form: Option<Schema>, order: Order, mapped: seq<string>, deliveries: nat, acked: bool, response: Fields, now: int)

  /** The values a submitted form writes to the global context, if it passes. */
  function Extracted(env: Env, data: Fields): Option<Fields> {
    if env.form.None? then None else Extract(Traverse(env.form.value, "", env.order), data)
  }

  predicate Passes(env: Env, data: Fields) {
    Extracted(env, data).Some?
  }

  datatype Ids = Ids(taskID: string, workflowID: string, serviceURL: string)

  function RequestOf(cfg: FormConfig, ids: Ids, data: Fields): InjectRequest {
    InjectRequest(ids.taskID, TaskCode(cfg), ids.workflowID, data, ids.serviceURL)
  }

  datatype Outcome = Success | Refused | SubmissionFailure

  datatype World = World(form: FormTask, record: Option<Record>)

  /** The form is stored before anything can fail; the agency is reached only with a URL and a task code. */
  function Submit(cfg: FormConfig, ids: Ids, w: World, content: Json, env: Env): (World, Outcome) {
    if !content.Obj? then (w, Refused)
    else
      var f := w.form.(traderForm := Some(content));
      if !Passes(env, content.fields) then (w.(form := f), Refused)
      else if SubmissionUrl(cfg) == "" then (w.(form := f), Success)
      else if TaskCode(cfg) == "" then (w.(form := f), Refused)
      else
        var req := RequestOf(cfg, ids, content.fields);
        var record := Deliver(w.record, req, env.deliveries);
        if Complete(req) && env.deliveries >= 1 && env.acked
        then (World(f.(submissionResponse := Some(env.response)), record), Success)
        else (World(f, record), SubmissionFailure)
  }

  /** What a submission reports for the global context. */
  function SubmitOutputs(cfg: FormConfig, content: Json, env: Env, outcome: Outcome): Fields {
    if outcome.Refused? || !content.Obj? || !Passes(env, content.fields) then map[]
    else
      var pairs := Extracted(env, content.fields).value;
      if outcome.SubmissionFailure? || SubmissionUrl(cfg) == "" || cfg.submission.None? then pairs
      else pairs + ParseResponse(cfg.submission.value.mapping, env.mapped, env.response)
  }

  predicate ValidFeedback(content: Json) {
    && content.Obj? && "feedback" in content.fields
    && content.fields["feedback"].Str? && !Blank(content.fields["feedback"].s)
  }

  function WithFeedback(h: seq<Entry>, content: Fields, now: int): seq<Entry> {
    h + [Entry(content, now, |h| + 1)]
  }

  function Dispatch(cfg: FormConfig, ids: Ids, w: World, a: Action, content: Json, env: Env): (World, Outcome) {
    match a
    case SaveAsDraft => (w.(form := w.form.(traderForm := Some(content))), Success)
    case SubmitComplete => Submit(cfg, ids, w, content, env)
    case SubmitAwaitOga => Submit(cfg, ids, w, content, env)
    case OgaApproved =>
      if content.Obj? then (w.(form := w.form.(ogaResponse := Some(content.fields))), Success) else (w, Refused)
    case OgaRejected =>
      if content.Obj? then (w.(form := w.form.(ogaResponse := Some(content.fields))), Success) else (w, Refused)
    case OgaFeedback =>
      if ValidFeedback(content)
      then (w.(form := w.form.(ogaFeedback := WithFeedback(w.form.ogaFeedback, content.fields, env.now))), Success)
      else (w, Refused)
    case _ => (w, Refused)
  }

  /** The transition after a handler; a failed submission has its own. */
  function Settle(w: World, a: Action, outcome: Outcome): (World, bool) {
    match outcome
    case Success => (w.(form := Fired(w.form, a)), true)
    case Refused => (w, false)
    case SubmissionFailure => (w.(form := Fired(w.form, SubmitFailed)), false)
  }

  /** One Execute call on the task; true when it reports no error. */
  function Execute(cfg: FormConfig, ids: Ids, w: World, action: Action, content: Json, env: Env): (World, bool) {
    var a := ResolveAction(cfg, action, content);
    if a.Err? || !CanTransition(SimpleFormFSM(), w.form.pluginState, a.value) then (w, false)
    else
      var (w', outcome) := Dispatch(cfg, ids, w, a.value, content, env);
      Settle(w', a.value, outcome)
  }

  // ---- Steps ----------------------------------------------------------------------------------

  datatype Event =
    | StartTask(formFound: bool)
    | TraderDrafts(content: Json)
    | TraderSubmits(content: Json, env: Env)
    /** An officer's action; it does not take place when NSW cannot be reached. */
    | OfficerFeedback(content: Json, reachable: bool, env: Env, ogaNow: int)
    | OfficerReview(content: Json, reachable: bool, env: Env, ogaNow: int)

  datatype Config = Config(form: FormConfig, ids: Ids, behaviors: map<string, Behavior>)

  /** The empty schema. */
  const NO_FIELDS := Schema("", map[], None, None, None)

  const QUIET := Env(Some(NO_FIELDS), path => [], [], 0, false, map[], 0)

  function BehaviorOf(cfg: Config, taskCode: string): Option<Behavior> {
    if taskCode in cfg.behaviors then Some(cfg.behaviors[taskCode]) else None
  }

  function Feedback(cfg: Config, w: World, content: Json, env: Env, now: int): World
    requires w.record.Some?
  {
    var h := w.record.value.history;
    var (w', ok) := Execute(cfg.form, cfg.ids, w, OgaFeedback, content, env);
    if !ok || w'.record.None? || !content.Obj? then w'
    else w'.(record := Some(w'.record.value.(
      history := w'.record.value.history + [Entry(content.fields, now, |h| + 1)],
      status := FEEDBACK_REQUESTED)))
  }

  function Review(cfg: Config, w: World, content: Json, env: Env, now: int): World
    requires w.record.Some?
  {
    var code := w.record.value.taskCode;
    var (w', ok) := Execute(cfg.form, cfg.ids, w, OgaVerification, content, env);
    if !ok || w'.record.None? || !content.Obj? then w'
    else w'.(record := Some(w'.record.value.(
      status := FinalStatus(BehaviorOf(cfg, code), content.fields),
      reviewedAt := Some(now),
      reviewerResponse := Some(content.fields))))
  }

  function Step(cfg: Config, w: World, e: Event): World {
    match e
    case StartTask(found) =>
      if CanTransition(SimpleFormFSM(), w.form.pluginState, Start) && found
      then w.(form := Fired(w.form, Start)) else w
    case TraderDrafts(c) => Execute(cfg.form, cfg.ids, w, SaveAsDraft, c, QUIET).0
    case TraderSubmits(c, env) => Execute(cfg.form, cfg.ids, w, SubmitForm, c, env).0
    case OfficerFeedback(c, reachable, env, now) =>
      if w.record.None? || !reachable then w else Feedback(cfg, w, c, env, now)
    case OfficerReview(c, reachable, env, now) =>
      if w.record.None? || !reachable then w else Review(cfg, w, c, env, now)
  }

  /** Any run from a new task, of which the agency knows nothing. */
  function Run(cfg: Config, es: seq<Event>): World {
    if es == [] then World(NEW_TASK, None) else Step(cfg, Run(cfg, es[..|es| - 1]), es[|es| - 1])
  }
}
