/** Agreement between NSW and the agency over every run, and what becomes of the feedback history. */
module ReviewProtocol {
  import opened Wrappers
  import opened Json
  import opened JsonPath
  import opened Plugin
  import opened Extraction
  import opened ReviewSpec
  import opened Schemas

  // ---- Assumption: the configured transition only approves or rejects --------------------------

  predicate Verdict(a: Action) {
    a.OgaApproved? || a.OgaRejected?
  }

  predicate VerdictsOnly(cfg: FormConfig) {
    cfg.callback.Some? && cfg.callback.value.Some? ==>
      var t := cfg.callback.value.value;
      (forall k | k in t.mapping :: Verdict(t.mapping[k])) && (t.default_.Some? ==> Verdict(t.default_.value))
  }

  lemma ReviewsResolveToVerdicts(cfg: FormConfig, content: Json)
    requires VerdictsOnly(cfg)
    ensures var a := ResolveAction(cfg, OgaVerification, content); a.Ok? ==> content.Obj? && Verdict(a.value)
  {
  }

  // ---- Delivery -------------------------------------------------------------------------------

  predicate Awaiting(record: Option<Record>) {
    record.Some? && record.value.status == FEEDBACK_REQUESTED
  }

  /** However often it is delivered, the record ends PENDING with the data sent. */
  lemma {:induction false} Delivered(record: Option<Record>, req: InjectRequest, times: nat)
    requires Complete(req) && times >= 1
    ensures var r := Deliver(record, req, times);
      && r.Some? && r.value.status == PENDING && r.value.data == req.data
      && r.value.history == (if Awaiting(record) && times == 1 then record.value.history else [])
      && r.value.reviewedAt == (if Awaiting(record) && times == 1 then record.value.reviewedAt else None)
  {
    if times > 1 {
      Delivered(record, req, times - 1);
    }
  }

  lemma {:induction false} NotDelivered(record: Option<Record>, req: InjectRequest, times: nat)
    requires times == 0 || !Complete(req)
    ensures Deliver(record, req, times) == record
  {
    if times > 0 {
      NotDelivered(record, req, times - 1);
    }
  }

  // ---- Agreement ------------------------------------------------------------------------------

  ghost predicate Agrees(cfg: Config, w: World) {
    && (w.form.pluginState.OgaAcknowledged? ==>
          w.record.Some? && w.record.value.status == PENDING && w.form.traderForm == Some(Obj(w.record.value.data)))
    && (w.form.pluginState.OgaFeedbackProvided? ==>
          w.record.Some? && w.record.value.status == FEEDBACK_REQUESTED)
    && (w.form.pluginState.OgaReviewed? ==>
          && w.record.Some? && w.form.ogaResponse.Some?
          && w.record.value.reviewerResponse == w.form.ogaResponse
          && w.record.value.status
             == FinalStatus(BehaviorOf(cfg, w.record.value.taskCode), w.form.ogaResponse.value))
    && (w.record.Some? && w.record.value.reviewedAt.Some? ==> w.form.pluginState.OgaReviewed?)
  }

  /** Acknowledgement means something only if it was asked of somebody. */
  predicate Reaches(cfg: Config) {
    RequiresVerification(cfg.form) ==> SubmissionUrl(cfg.form) != ""
  }

  /** A submission keeps the agency's record, or leaves it PENDING with the form just stored. */
  lemma SubmitRecords(cfg: Config, w: World, content: Json, env: Env)
    ensures var (w', outcome) := Submit(cfg.form, cfg.ids, w, content, env);
      && w'.form.pluginState == w.form.pluginState && w'.form.ogaResponse == w.form.ogaResponse
      && w'.form.ogaFeedback == w.form.ogaFeedback
      && (outcome == Refused ==> w'.record == w.record)
      && (outcome == Success && SubmissionUrl(cfg.form) != "" ==>
            && w'.record.Some? && w'.record.value.status == PENDING
            && w'.form.traderForm == Some(Obj(w'.record.value.data)))
      && (w'.record.Some? && w'.record.value.reviewedAt.Some? ==>
            w.record.Some? && w.record.value.reviewedAt.Some?)
  {
    if content.Obj? {
      var req := RequestOf(cfg.form, cfg.ids, content.fields);
      if Complete(req) && env.deliveries >= 1 {
        Delivered(w.record, req, env.deliveries);
      } else {
        NotDelivered(w.record, req, env.deliveries);
      }
    }
  }

  /** The states from which a submission is accepted, and where it leads. */
  lemma SubmitEdges(f: FormTask, a: Action)
    requires a.SubmitAwaitOga? || a.SubmitComplete?
    ensures CanTransition(SimpleFormFSM(), f.pluginState, a) ==>
      && !f.pluginState.OgaAcknowledged? && !f.pluginState.OgaReviewed?
      && (Fired(f, a).pluginState == if a.SubmitAwaitOga? then OgaAcknowledged else Submitted)
      && Fired(f, SubmitFailed).pluginState.SubmissionFailed?
  {
  }

  lemma SubmitAgrees(cfg: Config, w: World, content: Json, env: Env)
    requires Reaches(cfg) && Agrees(cfg, w)
    ensures Agrees(cfg, Execute(cfg.form, cfg.ids, w, SubmitForm, content, env).0)
  {
    var a := ResolveAction(cfg.form, SubmitForm, content).value;
    var f := Submit(cfg.form, cfg.ids, w, content, env).0.form;
    SubmitRecords(cfg, w, content, env);
    SubmitEdges(w.form, a);
    SubmitEdges(f, a);
  }

  lemma FeedbackAgrees(cfg: Config, w: World, content: Json, env: Env, now: int)
    requires Agrees(cfg, w) && w.record.Some?
    ensures Agrees(cfg, Feedback(cfg, w, content, env, now))
  {
  }

  /** A review changes nothing, or ends an open review with its verdict on both sides. */
  ghost predicate Verdicted(cfg: Config, w: World, w': World, content: Json) {
    && content.Obj? && w.record.Some? && w'.record.Some?
    && (w.form.pluginState.OgaAcknowledged? || w.form.pluginState.OgaFeedbackProvided?)
    && w'.form.pluginState.OgaReviewed?
    && w'.form.traderForm == w.form.traderForm && w'.form.ogaFeedback == w.form.ogaFeedback
    && w'.form.ogaResponse == Some(content.fields) && w'.record.value.reviewerResponse == Some(content.fields)
    && w'.record.value.data == w.record.value.data && w'.record.value.history == w.record.value.history
    && w'.record.value.taskCode == w.record.value.taskCode
    && w'.record.value.status == FinalStatus(BehaviorOf(cfg, w.record.value.taskCode), content.fields)
    && (w'.form.taskState.Completed? <==> ResolveAction(cfg.form, OgaVerification, content) == Ok(OgaApproved))
    && (w'.form.taskState.Failed? <==> ResolveAction(cfg.form, OgaVerification, content) == Ok(OgaRejected))
  }

  lemma VerdictEdges(f: FormTask, a: Action)
    requires Verdict(a) && CanTransition(SimpleFormFSM(), f.pluginState, a)
    ensures f.pluginState.OgaAcknowledged? || f.pluginState.OgaFeedbackProvided?
    ensures Fired(f, a) == f.(pluginState := OgaReviewed, taskState := if a.OgaApproved? then Completed else Failed)
  {
  }

  lemma ReviewCases(cfg: Config, w: World, content: Json, env: Env, now: int)
    requires VerdictsOnly(cfg.form) && w.record.Some?
    ensures var w' := Review(cfg, w, content, env, now); w' == w || Verdicted(cfg, w, w', content)
  {
    ReviewsResolveToVerdicts(cfg.form, content);
    var a := ResolveAction(cfg.form, OgaVerification, content);
    if a.Ok? && CanTransition(SimpleFormFSM(), w.form.pluginState, a.value) {
      VerdictEdges(w.form, a.value);
      VerdictEdges(w.form.(ogaResponse := Some(content.fields)), a.value);
    }
  }

  lemma ReviewAgrees(cfg: Config, w: World, content: Json, env: Env, now: int)
    requires VerdictsOnly(cfg.form) && Agrees(cfg, w) && w.record.Some?
    ensures Agrees(cfg, Review(cfg, w, content, env, now))
  {
    ReviewCases(cfg, w, content, env, now);
  }

  lemma StepAgrees(cfg: Config, w: World, e: Event)
    requires VerdictsOnly(cfg.form) && Reaches(cfg) && Agrees(cfg, w)
    ensures Agrees(cfg, Step(cfg, w, e))
  {
    match e
    case StartTask(_) =>
    case TraderDrafts(_) =>
    case TraderSubmits(c, env) => SubmitAgrees(cfg, w, c, env);
    case OfficerFeedback(c, _, env, now) =>
      if w.record.Some? {
        FeedbackAgrees(cfg, w, c, env, now);
      }
    case OfficerReview(c, _, env, now) =>
      if w.record.Some? {
        ReviewAgrees(cfg, w, c, env, now);
      }
  }

  lemma {:induction false} RunAgrees(cfg: Config, es: seq<Event>)
    requires VerdictsOnly(cfg.form) && Reaches(cfg)
    ensures Agrees(cfg, Run(cfg, es))
  {
    if es != [] {
      RunAgrees(cfg, es[..|es| - 1]);
      StepAgrees(cfg, Run(cfg, es[..|es| - 1]), es[|es| - 1]);
    }
  }

  lemma Ran(cfg: Config, es: seq<Event>, e: Event)
    ensures Run(cfg, es + [e]) == Step(cfg, Run(cfg, es), e)
  {
    assert (es + [e])[..|es|] == es;
  }

  lemma Started(cfg: Config)
    ensures Run(cfg, [StartTask(true)]) == World(NEW_TASK.(pluginState := FormInitialized), None)
  {
    Ran(cfg, [], StartTask(true));
    assert [] + [StartTask(true)] == [StartTask(true)];
  }

  /** The empty schema lets every form pass. */
  lemma QuietPasses(data: Fields, env: Env)
    requires env.form == Some(NO_FIELDS)
    ensures Passes(env, data)
  {
    var visits := Traverse(NO_FIELDS, "", env.order);
    assert |"object"| == 6 && |"array"| == 5 && |NO_FIELDS.kind| == 0;
    assert visits == [Visit("", NO_FIELDS)];
    ExtractExact(visits, data);
  }

  /** Without a submission URL a form that needs verification is acknowledged by nobody. */
  lemma AcknowledgedByNobody(cfg: Config)
    requires !Reaches(cfg)
    ensures var w := Run(cfg, [StartTask(true), TraderSubmits(Obj(map[]), QUIET)]);
      w.form.pluginState.OgaAcknowledged? && w.record.None?
  {
    var start, submit := StartTask(true), TraderSubmits(Obj(map[]), QUIET);
    Started(cfg);
    QuietPasses(map[], QUIET);
    assert [start] + [submit] == [start, submit];
    Ran(cfg, [start], submit);
    SubmitEdges(NEW_TASK.(pluginState := FormInitialized, traderForm := Some(Obj(map[]))), SubmitAwaitOga);
  }

  /** Both sides agree after every run exactly for the configurations that reach the agency. */
  lemma AgreementExact(cfg: Config)
    requires VerdictsOnly(cfg.form)
    ensures (forall es :: Agrees(cfg, Run(cfg, es))) <==> Reaches(cfg)
  {
    if Reaches(cfg) {
      forall es ensures Agrees(cfg, Run(cfg, es)) {
        RunAgrees(cfg, es);
      }
    } else {
      AcknowledgedByNobody(cfg);
      assert !Agrees(cfg, Run(cfg, [StartTask(true), TraderSubmits(Obj(map[]), QUIET)]));
    }
  }

  // ---- What an approval covers ----------------------------------------------------------------

  /** A verdict on an acknowledged form is about the form NSW holds. */
  lemma VerdictCoversAcknowledgedForm(cfg: Config, es: seq<Event>, e: Event)
    requires VerdictsOnly(cfg.form) && Reaches(cfg) && e.OfficerReview?
    requires Run(cfg, es).form.pluginState.OgaAcknowledged? && Run(cfg, es + [e]).form.pluginState.OgaReviewed?
    ensures var w := Run(cfg, es + [e]);
      && w.record.Some? && w.form.traderForm == Some(Obj(w.record.value.data))
      && (w.form.taskState.Completed? <==>
          ResolveAction(cfg.form, OgaVerification, e.content) == Ok(OgaApproved))
      && (w.form.taskState.Failed? <==>
          ResolveAction(cfg.form, OgaVerification, e.content) == Ok(OgaRejected))
  {
    RunAgrees(cfg, es);
    Ran(cfg, es, e);
    ReviewCases(cfg, Run(cfg, es), e.content, e.env, e.ogaNow);
  }
}
