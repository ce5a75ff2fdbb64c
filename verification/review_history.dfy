/** The feedback history on both sides when the network delivers at least once, or not at all. */
module ReviewHistory {
  import opened Wrappers
  import opened Json
  import opened JsonPath
  import opened Plugin
  import opened ReviewSpec
  import opened ReviewProtocol

  // ---- Which deliveries lose history ----------------------------------------------------------

  /** The trader's submission gets as far as the network. */
  predicate Sends(cfg: Config, w: World, content: Json, env: Env) {
    && CanTransition(SimpleFormFSM(), w.form.pluginState, ResolveAction(cfg.form, SubmitForm, content).value)
    && content.Obj? && Passes(env, content.fields) && SubmissionUrl(cfg.form) != "" && TaskCode(cfg.form) != ""
  }

  /** The agency overwrites its record: it was delivered, and not just once onto a record awaiting it. */
  predicate Overwrites(cfg: Config, w: World, e: Event) {
    && e.TraderSubmits? && Sends(cfg, w, e.content, e.env)
    && Complete(RequestOf(cfg.form, cfg.ids, e.content.fields))
    && e.env.deliveries >= 1
    && !(Awaiting(w.record) && e.env.deliveries == 1)
  }

  /** How much of the NSW history the agency has lost: all there was at its last overwrite. */
  function Lost(cfg: Config, es: seq<Event>): nat {
    if es == [] then 0
    else
      var w := Run(cfg, es[..|es| - 1]);
      if Overwrites(cfg, w, es[|es| - 1]) then |w.form.ogaFeedback| else Lost(cfg, es[..|es| - 1])
  }

  // ---- The relation between the two histories -------------------------------------------------

  ghost predicate Numbered(h: seq<Entry>) {
    forall i | 0 <= i < |h| :: h[i].round == i + 1
  }

  /** The agency holds exactly the rounds after the first lost ones, renumbered from 1. */
  ghost predicate Mirrors(w: World, lost: nat) {
    && Numbered(w.form.ogaFeedback) && lost <= |w.form.ogaFeedback|
    && (w.record.None? ==> w.form.ogaFeedback == [])
    && (w.record.Some? ==>
          && Numbered(w.record.value.history)
          && Contents(w.record.value.history) == Contents(w.form.ogaFeedback)[lost..])
  }

  lemma ContentsAppend(h: seq<Entry>, content: Fields, t: int, n: nat)
    ensures Contents(h + [Entry(content, t, n)]) == Contents(h) + [content]
  {
  }

  predicate Closed(s: PluginState) {
    s.OgaAcknowledged? || s.Submitted? || s.OgaReviewed?
  }

  /** The agency sees a submission exactly when it is sent, and it is closed at NSW only when acknowledged. */
  ghost predicate SubmittedAs(cfg: Config, w: World, w': World, content: Json, env: Env) {
    && w'.form.ogaFeedback == w.form.ogaFeedback
    && (Sends(cfg, w, content, env) ==>
          && content.Obj? && !Closed(w.form.pluginState)
          && w'.record == Deliver(w.record, RequestOf(cfg.form, cfg.ids, content.fields), env.deliveries)
          && (env.acked && env.deliveries >= 1 && Complete(RequestOf(cfg.form, cfg.ids, content.fields)) ==>
                Closed(w'.form.pluginState)))
    && (!Sends(cfg, w, content, env) ==>
          w'.record == w.record && (Closed(w.form.pluginState) ==> Closed(w'.form.pluginState)))
  }

  lemma ClosedToSubmissions(s: PluginState, a: Action)
    requires Closed(s) && (a.SubmitAwaitOga? || a.SubmitComplete?)
    ensures !CanTransition(SimpleFormFSM(), s, a)
  {
  }

  lemma SubmitCases(cfg: Config, w: World, content: Json, env: Env)
    ensures SubmittedAs(cfg, w, Execute(cfg.form, cfg.ids, w, SubmitForm, content, env).0, content, env)
  {
    var a := ResolveAction(cfg.form, SubmitForm, content).value;
    var f := Submit(cfg.form, cfg.ids, w, content, env).0.form;
    SubmitRecords(cfg, w, content, env);
    SubmitEdges(w.form, a);
    SubmitEdges(f, a);
    if Closed(w.form.pluginState) {
      ClosedToSubmissions(w.form.pluginState, a);
    }
  }

  lemma SubmitMirrors(cfg: Config, w: World, e: Event, lost: nat)
    requires e.TraderSubmits? && Mirrors(w, lost)
    ensures var w' := Step(cfg, w, e);
      && w'.form.ogaFeedback == w.form.ogaFeedback
      && Mirrors(w', if Overwrites(cfg, w, e) then |w.form.ogaFeedback| else lost)
  {
    SubmitCases(cfg, w, e.content, e.env);
    if e.content.Obj? {
      var req := RequestOf(cfg.form, cfg.ids, e.content.fields);
      if Complete(req) && e.env.deliveries >= 1 {
        Delivered(w.record, req, e.env.deliveries);
      } else {
        NotDelivered(w.record, req, e.env.deliveries);
      }
    }
  }

  lemma FeedbackMirrors(cfg: Config, w: World, content: Json, env: Env, now: int, lost: nat)
    requires Mirrors(w, lost) && w.record.Some?
    ensures Mirrors(Feedback(cfg, w, content, env, now), lost)
    ensures w.form.ogaFeedback <= Feedback(cfg, w, content, env, now).form.ogaFeedback
  {
    var h, r := w.form.ogaFeedback, w.record.value.history;
    if content.Obj? {
      ContentsAppend(h, content.fields, env.now, |h| + 1);
      ContentsAppend(r, content.fields, now, |r| + 1);
      assert (Contents(h) + [content.fields])[lost..] == Contents(h)[lost..] + [content.fields];
    }
  }

  lemma ReviewMirrors(cfg: Config, w: World, content: Json, env: Env, now: int, lost: nat)
    requires VerdictsOnly(cfg.form) && Mirrors(w, lost) && w.record.Some?
    ensures Mirrors(Review(cfg, w, content, env, now), lost)
    ensures w.form.ogaFeedback == Review(cfg, w, content, env, now).form.ogaFeedback
  {
    ReviewCases(cfg, w, content, env, now);
  }

  lemma StepMirrors(cfg: Config, w: World, e: Event, lost: nat)
    requires VerdictsOnly(cfg.form) && Mirrors(w, lost)
    ensures w.form.ogaFeedback <= Step(cfg, w, e).form.ogaFeedback
    ensures Mirrors(Step(cfg, w, e), if Overwrites(cfg, w, e) then |w.form.ogaFeedback| else lost)
  {
    match e
    case StartTask(_) =>
    case TraderDrafts(_) =>
    case TraderSubmits(_, _) => SubmitMirrors(cfg, w, e, lost);
    case OfficerFeedback(c, _, env, now) =>
      if w.record.Some? {
        FeedbackMirrors(cfg, w, c, env, now, lost);
      }
    case OfficerReview(c, _, env, now) =>
      if w.record.Some? {
        ReviewMirrors(cfg, w, c, env, now, lost);
      }
  }

  /** After every run: rounds count up from 1 on both sides, and the agency holds a known suffix. */
  lemma {:induction false} HistoryIsSuffix(cfg: Config, es: seq<Event>)
    requires VerdictsOnly(cfg.form)
    ensures Mirrors(Run(cfg, es), Lost(cfg, es))
  {
    if es != [] {
      var before := es[..|es| - 1];
      HistoryIsSuffix(cfg, before);
      StepMirrors(cfg, Run(cfg, before), es[|es| - 1], Lost(cfg, before));
    }
  }

  /** The NSW history is append-only. */
  lemma {:induction false} HistoryGrows(cfg: Config, es: seq<Event>, later: seq<Event>)
    requires VerdictsOnly(cfg.form)
    ensures Run(cfg, es).form.ogaFeedback <= Run(cfg, es + later).form.ogaFeedback
    decreases |later|
  {
    if later == [] {
      assert es + later == es;
    } else {
      var all, before := es + later, es + later[..|later| - 1];
      assert all[..|all| - 1] == before;
      HistoryGrows(cfg, es, later[..|later| - 1]);
      HistoryIsSuffix(cfg, before);
      StepMirrors(cfg, Run(cfg, before), all[|all| - 1], Lost(cfg, before));
    }
  }

  // ---- When the histories are equal -----------------------------------------------------------

  predicate LosesAt(cfg: Config, es: seq<Event>, i: nat)
    requires i < |es|
  {
    var w := Run(cfg, es[..i]);
    w.form.ogaFeedback != [] && Overwrites(cfg, w, es[i])
  }

  ghost predicate LosesFeedback(cfg: Config, es: seq<Event>) {
    exists i | 0 <= i < |es| :: LosesAt(cfg, es, i)
  }

  lemma LosesLater(cfg: Config, es: seq<Event>)
    requires es != []
    ensures LosesFeedback(cfg, es) <==> LosesFeedback(cfg, es[..|es| - 1]) || LosesAt(cfg, es, |es| - 1)
  {
    var before := es[..|es| - 1];
    forall i | 0 <= i < |before| ensures LosesAt(cfg, before, i) == LosesAt(cfg, es, i) {
      assert before[..i] == es[..i];
    }
    if LosesFeedback(cfg, before) {
      var i :| 0 <= i < |before| && LosesAt(cfg, before, i);
      assert LosesAt(cfg, es, i);
    }
  }

  lemma {:induction false} LostExact(cfg: Config, es: seq<Event>)
    requires VerdictsOnly(cfg.form)
    ensures Lost(cfg, es) > 0 <==> LosesFeedback(cfg, es)
  {
    if es != [] {
      LosesLater(cfg, es);
      LostExact(cfg, es[..|es| - 1]);
      LossStays(cfg, es);
    }
  }

  /** What was lost once is not recovered. */
  lemma LossStays(cfg: Config, es: seq<Event>)
    requires VerdictsOnly(cfg.form) && es != []
    ensures Lost(cfg, es[..|es| - 1]) <= Lost(cfg, es)
  {
    HistoryIsSuffix(cfg, es[..|es| - 1]);
  }

  /** The two histories are equal exactly when no delivery of the run overwrote a reviewed application. */
  lemma HistoriesEqualExact(cfg: Config, es: seq<Event>)
    requires VerdictsOnly(cfg.form) && Run(cfg, es).record.Some?
    ensures var w := Run(cfg, es);
      Contents(w.record.value.history) == Contents(w.form.ogaFeedback) <==> !LosesFeedback(cfg, es)
  {
    HistoryIsSuffix(cfg, es);
    LostExact(cfg, es);
    var w := Run(cfg, es);
    assert |Contents(w.record.value.history)| == |Contents(w.form.ogaFeedback)| - Lost(cfg, es);
  }

  // ---- A network that never lies --------------------------------------------------------------

  /** Delivered once and acknowledged, or not delivered and not acknowledged. */
  predicate Truthful(e: Event) {
    e.TraderSubmits? ==> e.env.deliveries == if e.env.acked then 1 else 0
  }

  ghost predicate AllTruthful(es: seq<Event>) {
    forall i | 0 <= i < |es| :: Truthful(es[i])
  }

  /** Under a truthful network a record that awaits nothing has no open submission at NSW. */
  ghost predicate InStep(w: World) {
    w.record.Some? && !Awaiting(w.record) && w.form.ogaFeedback != [] ==>
      Closed(w.form.pluginState)
  }

  lemma SubmitInStep(cfg: Config, w: World, content: Json, env: Env)
    requires InStep(w) && env.deliveries == if env.acked then 1 else 0
    ensures InStep(Execute(cfg.form, cfg.ids, w, SubmitForm, content, env).0)
  {
    SubmitCases(cfg, w, content, env);
    if content.Obj? {
      var req := RequestOf(cfg.form, cfg.ids, content.fields);
      if !Complete(req) || env.deliveries == 0 {
        NotDelivered(w.record, req, env.deliveries);
      }
    }
  }

  lemma ReviewInStep(cfg: Config, w: World, content: Json, env: Env, now: int)
    requires VerdictsOnly(cfg.form) && w.record.Some? && InStep(w)
    ensures InStep(Review(cfg, w, content, env, now))
  {
    ReviewCases(cfg, w, content, env, now);
  }

  lemma StepInStep(cfg: Config, w: World, e: Event)
    requires VerdictsOnly(cfg.form) && InStep(w) && Truthful(e)
    ensures InStep(Step(cfg, w, e))
  {
    match e
    case StartTask(_) =>
    case TraderDrafts(_) =>
    case TraderSubmits(c, env) => SubmitInStep(cfg, w, c, env);
    case OfficerFeedback(_, _, _, _) =>
    case OfficerReview(c, _, env, now) =>
      if w.record.Some? {
        ReviewInStep(cfg, w, c, env, now);
      }
  }

  lemma {:induction false} TruthfulInStep(cfg: Config, es: seq<Event>)
    requires VerdictsOnly(cfg.form) && AllTruthful(es)
    ensures InStep(Run(cfg, es))
  {
    if es != [] {
      var before := es[..|es| - 1];
      assert forall i | 0 <= i < |before| :: before[i] == es[i];
      TruthfulInStep(cfg, before);
      StepInStep(cfg, Run(cfg, before), es[|es| - 1]);
    }
  }

  lemma NothingOverwritten(cfg: Config, w: World, e: Event)
    requires InStep(w) && Truthful(e) && (w.record.None? ==> w.form.ogaFeedback == [])
    ensures w.form.ogaFeedback != [] ==> !Overwrites(cfg, w, e)
  {
    if e.TraderSubmits? {
      SubmitCases(cfg, w, e.content, e.env);
    }
  }

  /** With a truthful network the agency has every round of feedback the trader has. */
  lemma TruthfulHistoriesEqual(cfg: Config, es: seq<Event>)
    requires VerdictsOnly(cfg.form) && AllTruthful(es) && Run(cfg, es).record.Some?
    ensures var w := Run(cfg, es); Contents(w.record.value.history) == Contents(w.form.ogaFeedback)
  {
    HistoriesEqualExact(cfg, es);
    forall i | 0 <= i < |es| ensures !LosesAt(cfg, es, i) {
      TruthfulInStep(cfg, es[..i]);
      HistoryIsSuffix(cfg, es[..i]);
      NothingOverwritten(cfg, Run(cfg, es[..i]), es[i]);
    }
  }

  // ---- Exactly-once delivery is not enough ----------------------------------------------------

  /** The form is sent to the agency for verification. */
  predicate Verified(cfg: Config) {
    && RequiresVerification(cfg.form) && SubmissionUrl(cfg.form) != "" && TaskCode(cfg.form) != ""
    && cfg.ids.taskID != "" && cfg.ids.workflowID != "" && cfg.ids.serviceURL != ""
  }

  function Once(acked: bool): Env {
    QUIET.(deliveries := 1, acked := acked)
  }

  const REMARK := Obj(map["feedback" := Str("x")])

  predicate Open(s: PluginState) {
    s.FormInitialized? || s.Draft? || s.OgaFeedbackProvided?
  }

  /** One submission from an open state, delivered once. */
  lemma SubmitsOnce(cfg: Config, w: World, data: Fields, acked: bool)
    requires Verified(cfg) && (Open(w.form.pluginState) || (acked && w.form.pluginState.SubmissionFailed?))
    ensures var w' := Step(cfg, w, TraderSubmits(Obj(data), Once(acked)));
      && w'.form.pluginState == (if acked then OgaAcknowledged else SubmissionFailed)
      && w'.form.ogaFeedback == w.form.ogaFeedback && w'.form.traderForm == Some(Obj(data))
      && w'.record == Inject(w.record, RequestOf(cfg.form, cfg.ids, data))
  {
    var req := RequestOf(cfg.form, cfg.ids, data);
    QuietPasses(data, Once(acked));
    assert Deliver(w.record, req, 1) == Inject(Deliver(w.record, req, 0), req);
    SubmitEdges(w.form, SubmitAwaitOga);
  }

  lemma Remarks(cfg: Config, w: World)
    requires w.form.pluginState.OgaAcknowledged? && w.record.Some?
    ensures var w' := Step(cfg, w, OfficerFeedback(REMARK, true, QUIET, 0));
      && w'.form.pluginState.OgaFeedbackProvided? && |w'.form.ogaFeedback| == |w.form.ogaFeedback| + 1
      && w'.form.traderForm == w.form.traderForm
      && Awaiting(w'.record) && w'.record.value.data == w.record.value.data
  {
    assert 'x' in "x";
    assert ValidFeedback(REMARK);
  }

  /** Submitted and answered with one remark. */
  lemma Remarked(cfg: Config, data: Fields)
    requires Verified(cfg)
    ensures var w := Run(cfg, [StartTask(true), TraderSubmits(Obj(data), Once(true)),
                               OfficerFeedback(REMARK, true, QUIET, 0)]);
      && w.form.pluginState.OgaFeedbackProvided? && |w.form.ogaFeedback| == 1 && w.form.traderForm == Some(Obj(data))
      && Awaiting(w.record) && w.record.value.data == data
  {
    var a, b, c := StartTask(true), TraderSubmits(Obj(data), Once(true)), OfficerFeedback(REMARK, true, QUIET, 0);
    Started(cfg);
    Ran(cfg, [a], b);
    Ran(cfg, [a, b], c);
    assert [a] + [b] == [a, b] && [a, b] + [c] == [a, b, c];
    SubmitsOnce(cfg, Run(cfg, [a]), data, true);
    Remarks(cfg, Run(cfg, [a, b]));
  }

  /** Every submission is delivered once, one of them unacknowledged, and the agency forgets its remark. */
  lemma DeliveredOnceYetLost(cfg: Config)
    requires Verified(cfg)
    ensures var es := [StartTask(true), TraderSubmits(Obj(map[]), Once(true)), OfficerFeedback(REMARK, true, QUIET, 0),
                       TraderSubmits(Obj(map[]), Once(false)), TraderSubmits(Obj(map[]), Once(true))];
      var w := Run(cfg, es);
      && (forall e | e in es && e.TraderSubmits? :: e.env.deliveries == 1)
      && |w.form.ogaFeedback| == 1 && w.record.Some? && w.record.value.history == []
  {
    var es := [StartTask(true), TraderSubmits(Obj(map[]), Once(true)), OfficerFeedback(REMARK, true, QUIET, 0)];
    var d, e := TraderSubmits(Obj(map[]), Once(false)), TraderSubmits(Obj(map[]), Once(true));
    Remarked(cfg, map[]);
    SubmitsOnce(cfg, Run(cfg, es), map[], false);
    Ran(cfg, es, d);
    SubmitsOnce(cfg, Run(cfg, es + [d]), map[], true);
    Ran(cfg, es + [d], e);
    assert es + [d] + [e] == [es[0], es[1], es[2], d, e];
  }

  lemma FailsChecks(cfg: Config, w: World, data: Fields)
    requires Verified(cfg) && w.form.pluginState.OgaFeedbackProvided?
    ensures Step(cfg, w, TraderSubmits(Obj(data), QUIET.(form := None)))
         == w.(form := w.form.(traderForm := Some(Obj(data))))
  {
    SubmitEdges(w.form, SubmitAwaitOga);
  }

  lemma Approves(cfg: Config, w: World, content: Fields)
    requires ResolveAction(cfg.form, OgaVerification, Obj(content)) == Ok(OgaApproved)
    requires w.form.pluginState.OgaFeedbackProvided? && w.record.Some?
    ensures var w' := Step(cfg, w, OfficerReview(Obj(content), true, QUIET, 0));
      && w'.form.taskState.Completed? && w'.form.traderForm == w.form.traderForm
      && w'.record.Some? && w'.record.value.data == w.record.value.data
  {
  }

  /** A submission that fails its checks replaces the stored form, and the verdict falls on the earlier one. */
  lemma VerdictOnEarlierForm(cfg: Config, data: Fields, content: Fields)
    requires Verified(cfg)
    requires ResolveAction(cfg.form, OgaVerification, Obj(content)) == Ok(OgaApproved)
    ensures var w := Run(cfg, [StartTask(true), TraderSubmits(Obj(map[]), Once(true)),
                               OfficerFeedback(REMARK, true, QUIET, 0),
                               TraderSubmits(Obj(data), QUIET.(form := None)),
                               OfficerReview(Obj(content), true, QUIET, 0)]);
      && w.form.taskState.Completed? && w.form.traderForm == Some(Obj(data))
      && w.record.Some? && w.record.value.data == map[]
  {
    var es := [StartTask(true), TraderSubmits(Obj(map[]), Once(true)), OfficerFeedback(REMARK, true, QUIET, 0)];
    var d, e := TraderSubmits(Obj(data), QUIET.(form := None)), OfficerReview(Obj(content), true, QUIET, 0);
    Remarked(cfg, map[]);
    FailsChecks(cfg, Run(cfg, es), data);
    Ran(cfg, es, d);
    Approves(cfg, Run(cfg, es + [d]), content);
    Ran(cfg, es + [d], e);
    assert es + [d] + [e] == [es[0], es[1], es[2], d, e];
  }
}
