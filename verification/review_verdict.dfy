/** Which form a verdict of the agency concerns. */
module ReviewVerdict {
  import opened Wrappers
  import opened Json
  import opened Plugin
  import opened ReviewSpec
  import opened ReviewProtocol
  import opened ReviewHistory

  /** A submission that stores its form and is then refused before anything is sent. */
  predicate StoresOnly(cfg: Config, w: World, e: Event) {
    && e.TraderSubmits? && e.content.Obj?
    && CanTransition(SimpleFormFSM(), w.form.pluginState, ResolveAction(cfg.form, SubmitForm, e.content).value)
    && (!Passes(e.env, e.content.fields) || (SubmissionUrl(cfg.form) != "" && TaskCode(cfg.form) == ""))
  }

  /** The last submission refused since the last one sent carried other data than the agency's record. */
  predicate Stale(cfg: Config, es: seq<Event>) {
    es != [] &&
    var w, e := Run(cfg, es[..|es| - 1]), es[|es| - 1];
    if StoresOnly(cfg, w, e) then w.record.Some? && w.record.value.data != e.content.fields
    else if e.TraderSubmits? && Sends(cfg, w, e.content, e.env) then false
    else Stale(cfg, es[..|es| - 1])
  }

  predicate UnderReview(s: PluginState) {
    s.OgaAcknowledged? || s.OgaFeedbackProvided? || s.OgaReviewed?
  }

  /** Once the agency has the task, its record and the stored form differ exactly when the form is stale. */
  ghost predicate FormExact(w: World, stale: bool) {
    UnderReview(w.form.pluginState) ==>
      w.record.Some? && w.form.traderForm.Some?
      && (w.form.traderForm != Some(Obj(w.record.value.data)) <==> stale)
  }

  lemma SubmitKinds(cfg: Config, w: World, content: Json, env: Env)
    requires Reaches(cfg)
    ensures var e := TraderSubmits(content, env);
      var a := ResolveAction(cfg.form, SubmitForm, content).value;
      var (w', outcome) := Submit(cfg.form, cfg.ids, w, content, env);
      CanTransition(SimpleFormFSM(), w.form.pluginState, a) ==>
        && (StoresOnly(cfg, w, e) ==> outcome == Refused && w' == w.(form := w.form.(traderForm := Some(content))))
        && (!StoresOnly(cfg, w, e) && outcome == Refused ==> w' == w && !Sends(cfg, w, content, env))
        && (outcome != Refused && a.SubmitAwaitOga? ==> Sends(cfg, w, content, env))
  {
  }

  lemma SubmitFormExact(cfg: Config, w: World, e: Event, stale: bool)
    requires e.TraderSubmits? && Reaches(cfg) && Agrees(cfg, w) && FormExact(w, stale)
    ensures FormExact(Step(cfg, w, e),
              if StoresOnly(cfg, w, e) then w.record.Some? && w.record.value.data != e.content.fields
              else if Sends(cfg, w, e.content, e.env) then false
              else stale)
  {
    var a := ResolveAction(cfg.form, SubmitForm, e.content).value;
    var f := Submit(cfg.form, cfg.ids, w, e.content, e.env).0.form;
    SubmitKinds(cfg, w, e.content, e.env);
    SubmitRecords(cfg, w, e.content, e.env);
    SubmitEdges(w.form, a);
    SubmitEdges(f, a);
  }

  lemma FeedbackFormExact(cfg: Config, w: World, content: Json, env: Env, now: int, stale: bool)
    requires FormExact(w, stale) && w.record.Some?
    ensures FormExact(Feedback(cfg, w, content, env, now), stale)
  {
  }

  lemma ReviewFormExact(cfg: Config, w: World, content: Json, env: Env, now: int, stale: bool)
    requires VerdictsOnly(cfg.form) && FormExact(w, stale) && w.record.Some?
    ensures FormExact(Review(cfg, w, content, env, now), stale)
  {
    ReviewCases(cfg, w, content, env, now);
  }

  /** Over every run: under review the agency's data differ from the stored form exactly when it is stale. */
  lemma {:induction false} StoredFormExact(cfg: Config, es: seq<Event>)
    requires VerdictsOnly(cfg.form) && Reaches(cfg)
    ensures FormExact(Run(cfg, es), Stale(cfg, es))
  {
    if es != [] {
      var before, e := es[..|es| - 1], es[|es| - 1];
      var w := Run(cfg, before);
      StoredFormExact(cfg, before);
      RunAgrees(cfg, before);
      match e {
        case StartTask(_) =>
        case TraderDrafts(_) =>
        case TraderSubmits(_, _) => SubmitFormExact(cfg, w, e, Stale(cfg, before));
        case OfficerFeedback(c, _, env, now) =>
          if w.record.Some? {
            FeedbackFormExact(cfg, w, c, env, now, Stale(cfg, before));
          }
        case OfficerReview(c, _, env, now) =>
          if w.record.Some? {
            ReviewFormExact(cfg, w, c, env, now, Stale(cfg, before));
          }
      }
    }
  }

  /** A verdict concerns the form NSW holds exactly when no refused submission left a stale form before it. */
  lemma VerdictExact(cfg: Config, es: seq<Event>, e: Event)
    requires VerdictsOnly(cfg.form) && Reaches(cfg) && e.OfficerReview?
    requires !Run(cfg, es).form.pluginState.OgaReviewed? && Run(cfg, es + [e]).form.pluginState.OgaReviewed?
    ensures var w := Run(cfg, es + [e]);
      && w.record.Some?
      && (w.form.traderForm == Some(Obj(w.record.value.data)) <==> !Stale(cfg, es))
      && (w.form.taskState.Completed? <==> ResolveAction(cfg.form, OgaVerification, e.content) == Ok(OgaApproved))
  {
    StoredFormExact(cfg, es + [e]);
    assert (es + [e])[..|es|] == es;
    Ran(cfg, es, e);
    if Run(cfg, es).record.Some? {
      ReviewCases(cfg, Run(cfg, es), e.content, e.env, e.ogaNow);
    }
  }
}
