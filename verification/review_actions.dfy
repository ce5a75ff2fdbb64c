/** What each action of a review does, in the terms of the form, its configuration and the agency's answer. */
module ReviewActions {
  import opened Wrappers
  import opened Json
  import opened JsonPath
  import opened Text
  import opened Plugin
  import opened Schemas
  import opened Extraction
  import opened ReviewSpec
  import opened ReviewProtocol

  // ---- Verification ---------------------------------------------------------------------------

  /** The word, in any mixture of upper and lower case. */
  ghost predicate Spells(s: string, upper: string, lower: string) {
    |s| == |upper| == |lower| && forall i | 0 <= i < |s| :: s[i] == upper[i] || s[i] == lower[i]
  }

  lemma UpperSpells(s: string, upper: string, lower: string)
    requires |upper| == |lower|
    requires forall i | 0 <= i < |upper| :: 'A' <= upper[i] <= 'Z' && lower[i] == upper[i] - 'A' + 'a'
    ensures Upper(s) == upper <==> Spells(s, upper, lower)
  {
    if Upper(s) == upper {
      forall i | 0 <= i < |s| ensures s[i] == upper[i] || s[i] == lower[i] {
        assert Upper(s)[i] == upper[i];
      }
    }
    if Spells(s, upper, lower) {
      forall i | 0 <= i < |s| ensures Upper(s)[i] == upper[i] {
      }
    }
  }

  /** The decision of the officer is to approve. */
  ghost predicate Approves(fields: Fields) {
    && "decision" in fields && fields["decision"].Str?
    && Spells(fields["decision"].s, "APPROVED", "approved")
  }

  lemma ApprovesExact(fields: Fields)
    ensures Upper(Decision(fields)) == "APPROVED" <==> Approves(fields)
  {
    if "decision" in fields && fields["decision"].Str? {
      UpperSpells(fields["decision"].s, "APPROVED", "approved");
    }
  }

  predicate UnderVerification(s: PluginState) {
    s.OgaAcknowledged? || s.OgaFeedbackProvided?
  }

  /** The task is over with this verdict, and the response is stored. */
  ghost predicate Ended(w: World, w': World, fields: Fields, approved: bool) {
    w' == w.(form := w.form.(
      ogaResponse := Some(fields),
      pluginState := OgaReviewed,
      taskState := if approved then Completed else Failed))
  }

  lemma VerdictExecutes(cfg: FormConfig, ids: Ids, w: World, content: Json, env: Env, approved: bool)
    requires content.Obj?
    requires ResolveAction(cfg, OgaVerification, content) == Ok(if approved then OgaApproved else OgaRejected)
    ensures var (w', ok) := Execute(cfg, ids, w, OgaVerification, content, env);
      if UnderVerification(w.form.pluginState) then ok && Ended(w, w', content.fields, approved) else !ok && w' == w
  {
  }

  /** Without a configured transition the decision alone counts, and anything but an approval rejects. */
  lemma DecisionExact(cfg: FormConfig, ids: Ids, w: World, content: Json, env: Env)
    requires !(cfg.callback.Some? && cfg.callback.value.Some?)
    ensures var (w', ok) := Execute(cfg, ids, w, OgaVerification, content, env);
      if content.Obj? && UnderVerification(w.form.pluginState)
      then ok && Ended(w, w', content.fields, Approves(content.fields))
      else !ok && w' == w
  {
    if content.Obj? {
      ApprovesExact(content.fields);
      VerdictExecutes(cfg, ids, w, content, env, Approves(content.fields));
    }
  }

  /** What the configured transition makes of a response: an action, or none. */
  ghost predicate Transitions(t: TransitionConfig, fields: Fields, a: Option<Action>) {
    match Get(Obj(fields), if t.field == "" then [] else Split(t.field))
    case None => a == t.default_
    case Some(Str(s)) => a == if s in t.mapping then Some(t.mapping[s]) else t.default_
    case Some(_) => a == None
  }

  /** With a configured transition it is the verdict mapped from the text at its field, or the default. */
  lemma TransitionExact(cfg: FormConfig, ids: Ids, w: World, content: Json, env: Env, a: Option<Action>)
    requires cfg.callback.Some? && cfg.callback.value.Some? && VerdictsOnly(cfg)
    requires content.Obj? ==> Transitions(cfg.callback.value.value, content.fields, a)
    ensures var (w', ok) := Execute(cfg, ids, w, OgaVerification, content, env);
      if content.Obj? && UnderVerification(w.form.pluginState) && a.Some?
      then ok && Ended(w, w', content.fields, a == Some(OgaApproved))
      else !ok && w' == w
  {
    if content.Obj? && a.Some? {
      ResolvesTo(cfg, content, a);
      VerdictExecutes(cfg, ids, w, content, env, a == Some(OgaApproved));
    }
  }

  lemma ResolvesTo(cfg: FormConfig, content: Json, a: Option<Action>)
    requires cfg.callback.Some? && cfg.callback.value.Some? && VerdictsOnly(cfg) && content.Obj?
    requires Transitions(cfg.callback.value.value, content.fields, a) && a.Some?
    ensures ResolveAction(cfg, OgaVerification, content) == Ok(a.value) && Verdict(a.value)
  {
  }

  // ---- Start, feedback and drafts -------------------------------------------------------------

  /** A new task is initialized once its form is found, and only once. */
  lemma StartExact(cfg: Config, w: World, found: bool)
    ensures Step(cfg, w, StartTask(found))
         == if w.form.pluginState.NotStarted? && found then w.(form := w.form.(pluginState := FormInitialized)) else w
  {
  }


  /** A remark is a text that is not blank, under this name. */
  ghost predicate Remarks(content: Json) {
    && content.Obj? && "feedback" in content.fields && content.fields["feedback"].Str?
    && exists c | c in content.fields["feedback"].s :: !IsSpace(c)
  }

  lemma FeedbackExact(cfg: FormConfig, ids: Ids, w: World, content: Json, env: Env)
    ensures var (w', ok) := Execute(cfg, ids, w, OgaFeedback, content, env);
      if Remarks(content) && w.form.pluginState.OgaAcknowledged? then
        && ok
        && w' == w.(form := w.form.(
             ogaFeedback := w.form.ogaFeedback + [Entry(content.fields, env.now, |w.form.ogaFeedback| + 1)],
             pluginState := OgaFeedbackProvided,
             taskState := InProgress))
      else !ok && w' == w
  {
  }

  predicate Editable(s: PluginState) {
    s.FormInitialized? || s.Draft? || s.SubmissionFailed?
  }

  lemma DraftExact(cfg: FormConfig, ids: Ids, w: World, content: Json, env: Env)
    ensures var (w', ok) := Execute(cfg, ids, w, SaveAsDraft, content, env);
      if Editable(w.form.pluginState)
      then ok && w' == w.(form := w.form.(traderForm := Some(content), pluginState := Draft, taskState := InProgress))
      else !ok && w' == w
  {
  }

  // ---- Submission -----------------------------------------------------------------------------

  /** The agency is asked, for reasons the configuration gives. */
  predicate Verified(cfg: FormConfig) {
    cfg.requiresOgaVerification || cfg.callback.Some?
  }

  /** The states in which a form can be submitted; after feedback only to the agency. */
  predicate Submittable(cfg: FormConfig, s: PluginState) {
    Editable(s) || (s.OgaFeedbackProvided? && Verified(cfg))
  }

  /** The address of the submission section wins over the plain one. */
  ghost predicate SendsTo(cfg: FormConfig, url: string) {
    if cfg.submission.Some? && |cfg.submission.value.url| > 0
    then url == cfg.submission.value.url
    else url == cfg.submissionURL
  }

  ghost predicate HasCode(cfg: FormConfig, code: string) {
    if cfg.submission.Some? && cfg.submission.value.taskCode.Some?
    then code == cfg.submission.value.taskCode.value
    else code == ""
  }

  /** A field that is to be written to the global context under this name. */
  ghost predicate WritesTo(v: Visit, name: string) {
    && (v.node.kind == "string" || v.node.kind == "number" || v.node.kind == "boolean")
    && v.node.writeTo == Some(name) && exists c | c in name :: !IsSpace(c)
  }

  /** The form definition could be read, and every field that is to be written has a value. */
  ghost predicate FormPasses(env: Env, fields: Fields) {
    && env.form.Some?
    && forall v, name | v in Traverse(env.form.value, "", env.order) && WritesTo(v, name) ::
         ValueAt(fields, v.path).Some?
  }

  lemma WritesExact(v: Visit)
    ensures Writes(v) <==> v.node.writeTo.Some? && WritesTo(v, v.node.writeTo.value)
  {
  }

  lemma PassesExact(env: Env, fields: Fields)
    ensures Passes(env, fields) <==> FormPasses(env, fields)
  {
    if env.form.Some? {
      var visits := Traverse(env.form.value, "", env.order);
      ExtractExact(visits, fields);
      forall v | v in visits ensures Writes(v) <==> v.node.writeTo.Some? && WritesTo(v, v.node.writeTo.value) {
        WritesExact(v);
      }
    }
  }

  /** The record of the agency once it has the submission. */
  ghost predicate Received(ids: Ids, code: string, data: Fields, r: Option<Record>) {
    && r.Some? && r.value.taskID == ids.taskID && r.value.taskCode == code && r.value.workflowID == ids.workflowID
    && r.value.serviceURL == ids.serviceURL && r.value.data == data && r.value.status == "PENDING"
  }

  predicate Addressed(ids: Ids, code: string) {
    ids.taskID != "" && code != "" && ids.workflowID != "" && ids.serviceURL != ""
  }

  /** The record was made for this task, so that a resubmission finds its own. */
  ghost predicate Owned(ids: Ids, code: string, r: Option<Record>) {
    r.Some? ==>
      r.value.taskID == ids.taskID && r.value.taskCode == code && r.value.workflowID == ids.workflowID
      && r.value.serviceURL == ids.serviceURL
  }

  lemma {:induction false} DeliverOwned(record: Option<Record>, req: InjectRequest, times: nat, ids: Ids)
    requires req.taskID == ids.taskID && req.workflowID == ids.workflowID && req.serviceURL == ids.serviceURL
    requires Owned(ids, req.taskCode, record)
    ensures Owned(ids, req.taskCode, Deliver(record, req, times))
  {
    if times > 0 {
      DeliverOwned(record, req, times - 1, ids);
    }
  }

  /** What comes of a submission, apart from the record. */
  datatype Fate = Rejected | StoredOnly | Unsent | Accepted(sent: bool)

  /** The fate that a submission meets: nothing, storage alone, a failed call, or success with or without one. */
  ghost predicate Meets(
      cfg: FormConfig, ids: Ids, s: PluginState, content: Json, env: Env, url: string, code: string, f: Fate)
  {
    if !Submittable(cfg, s) || !content.Obj? then f == Rejected
    else if !FormPasses(env, content.fields) then f == StoredOnly
    else if url == "" then f == Accepted(false)
    else if code == "" then f == StoredOnly
    else if Addressed(ids, code) && env.deliveries > 0 && env.acked then f == Accepted(true)
    else f == Unsent
  }

  /** The form after a submission. */
  ghost predicate Submitted(cfg: FormConfig, f: FormTask, content: Json, env: Env, fate: Fate, f': FormTask, ok: bool) {
    match fate
    case Rejected => f' == f && !ok
    case StoredOnly => f' == f.(traderForm := Some(content)) && !ok
    case Unsent =>
      && !ok
      && (if f.pluginState.SubmissionFailed? then f' == f.(traderForm := Some(content))
          else f' == f.(traderForm := Some(content), pluginState := SubmissionFailed, taskState := InProgress))
    case Accepted(sent) =>
      && ok
      && f' == f.(
           traderForm := Some(content),
           submissionResponse := if sent then Some(env.response) else f.submissionResponse,
           pluginState := if Verified(cfg) then OgaAcknowledged else PluginState.Submitted,
           taskState := if Verified(cfg) then InProgress else Completed)
  }

  lemma SubmitEdge(cfg: FormConfig, f: FormTask)
    ensures var a := if Verified(cfg) then SubmitAwaitOga else SubmitComplete;
      && (CanTransition(SimpleFormFSM(), f.pluginState, a) <==> Submittable(cfg, f.pluginState))
      && (Submittable(cfg, f.pluginState) ==>
            && Fired(f, a) == f.(
                 pluginState := if Verified(cfg) then OgaAcknowledged else PluginState.Submitted,
                 taskState := if Verified(cfg) then InProgress else Completed)
            && Fired(f, SubmitFailed) ==
               (if f.pluginState.SubmissionFailed? then f
                else f.(pluginState := SubmissionFailed, taskState := InProgress)))
  {
  }

  /** Everything a submission does to the form at NSW, and whether it succeeds. */
  lemma SubmissionExact(
      cfg: FormConfig, ids: Ids, w: World, content: Json, env: Env, url: string, code: string, fate: Fate)
    requires SendsTo(cfg, url) && HasCode(cfg, code)
    requires Meets(cfg, ids, w.form.pluginState, content, env, url, code, fate)
    ensures var (w', ok) := Execute(cfg, ids, w, SubmitForm, content, env);
      Submitted(cfg, w.form, content, env, fate, w'.form, ok)
  {
    SubmitEdge(cfg, w.form);
    if content.Obj? {
      PassesExact(env, content.fields);
      SubmitEdge(cfg, Submit(cfg, ids, w, content, env).0.form);
    }
  }

  /** And to the record of the agency: nothing, or one made of what was sent. */
  lemma SubmissionReceived(
      cfg: FormConfig, ids: Ids, w: World, content: Json, env: Env, url: string, code: string, fate: Fate)
    requires SendsTo(cfg, url) && HasCode(cfg, code) && Owned(ids, code, w.record)
    requires Meets(cfg, ids, w.form.pluginState, content, env, url, code, fate)
    ensures var w' := Execute(cfg, ids, w, SubmitForm, content, env).0;
      && Owned(ids, code, w'.record)
      && (if (fate.Unsent? || fate == Accepted(true)) && Addressed(ids, code) && env.deliveries > 0
          then Received(ids, code, content.fields, w'.record)
          else w'.record == w.record)
  {
    SubmitEdge(cfg, w.form);
    if content.Obj? {
      PassesExact(env, content.fields);
      DeliveryReceived(cfg, ids, w.record, content.fields, env.deliveries, code);
    }
  }

  lemma DeliveryReceived(cfg: FormConfig, ids: Ids, record: Option<Record>, data: Fields, times: nat, code: string)
    requires HasCode(cfg, code) && Owned(ids, code, record)
    ensures var r := Deliver(record, RequestOf(cfg, ids, data), times);
      && Owned(ids, code, r)
      && (if Addressed(ids, code) && times > 0 then Received(ids, code, data, r) else r == record)
  {
    var req := RequestOf(cfg, ids, data);
    DeliverOwned(record, req, times, ids);
    if Complete(req) && times > 0 {
      Delivered(record, req, times);
    } else {
      NotDelivered(record, req, times);
    }
  }

  /** A field of the form writes this value under this name. */
  ghost predicate FieldWrites(visits: seq<Visit>, fields: Fields, k: string, x: Json) {
    exists v | v in visits :: WritesTo(v, k) && ValueAt(fields, v.path) == Some(x)
  }

  lemma WrittenExact(visits: seq<Visit>, fields: Fields, k: string, x: Json)
    ensures WrittenBy(visits, fields, k, x) <==> FieldWrites(visits, fields, k, x)
  {
    if v :| v in visits && Writes(v) && v.node.writeTo == Some(k) && ValueAt(fields, v.path) == Some(x) {
      WritesExact(v);
    }
    if v :| v in visits && WritesTo(v, k) && ValueAt(fields, v.path) == Some(x) {
      WritesExact(v);
    }
  }

  /** The values of the form that are written: one for each name that a field writes, from such a field. */
  lemma FormOutputs(visits: seq<Visit>, fields: Fields, k: string)
    requires Extract(visits, fields).Some?
    ensures var pairs := Extract(visits, fields).value;
      && (k in pairs ==> FieldWrites(visits, fields, k, pairs[k]))
      && forall v | v in visits && WritesTo(v, k) :: k in pairs
  {
    ExtractExact(visits, fields);
    var pairs := Extract(visits, fields).value;
    if k in pairs {
      WrittenExact(visits, fields, k, pairs[k]);
    }
    forall v | v in visits && WritesTo(v, k) ensures k in pairs {
      WritesExact(v);
    }
  }

  /** The call was made and its answer has a section in the configuration. */
  ghost predicate HasAnswered(cfg: FormConfig, outcome: Outcome) {
    outcome.Success? && cfg.submission.Some? && !SendsTo(cfg, "")
  }

  /** What a submission reports for the global context: the fields of the form, and over them those of the response. */
  lemma OutputsExact(cfg: FormConfig, content: Json, env: Env, outcome: Outcome, k: string)
    requires content.Obj? && env.form.Some? && FormPasses(env, content.fields) && !outcome.Refused?
    ensures var out := SubmitOutputs(cfg, content, env, outcome);
      var visits := Traverse(env.form.value, "", env.order);
      && (k in out ==>
            || (HasAnswered(cfg, outcome)
                && MappedFrom(cfg.submission.value.mapping, env.mapped, env.response, k, out[k]))
            || FieldWrites(visits, content.fields, k, out[k]))
      && (forall v | v in visits && WritesTo(v, k) :: k in out)
      && (HasAnswered(cfg, outcome) ==>
            forall p | p in env.mapped && p in cfg.submission.value.mapping
              && cfg.submission.value.mapping[p] == k && ValueAt(env.response, p).Some? ::
              k in out && MappedFrom(cfg.submission.value.mapping, env.mapped, env.response, k, out[k]))
  {
    PassesExact(env, content.fields);
    FormOutputs(Traverse(env.form.value, "", env.order), content.fields, k);
    if HasAnswered(cfg, outcome) {
      ParseResponseExact(cfg.submission.value.mapping, env.mapped, env.response);
    }
  }

  // ---- The status at the agency ---------------------------------------------------------------

  /** The status that the configuration of the task gives a review. */
  ghost predicate MapsStatus(cfg: Config, code: string, fields: Fields, status: string) {
    if code in cfg.behaviors && cfg.behaviors[code].statusMap.Some? then
      var b := cfg.behaviors[code];
      var field := if b.outcomeField == "" then "review_outcome" else b.outcomeField;
      if field in fields && fields[field].Str? && fields[field].s in b.statusMap.value
      then status == b.statusMap.value[fields[field].s]
      else status == "DONE"
    else status == "DONE"
  }

  /** A review that NSW takes is recorded with its response, its time and the mapped status; others change nothing. */
  lemma ReviewedRecord(cfg: Config, w: World, content: Json, reachable: bool, env: Env, now: int)
    requires VerdictsOnly(cfg.form) && w.record.Some?
    ensures var (taken, ok) := Execute(cfg.form, cfg.ids, w, OgaVerification, content, env);
      var w' := Step(cfg, w, OfficerReview(content, reachable, env, now));
      if reachable && ok then
        && content.Obj? && w'.form == taken.form && w'.record.Some?
        && MapsStatus(cfg, w.record.value.taskCode, content.fields, w'.record.value.status)
        && w'.record.value == w.record.value.(
             status := w'.record.value.status, reviewedAt := Some(now), reviewerResponse := Some(content.fields))
      else w' == w
  {
    ReviewsResolveToVerdicts(cfg.form, content);
  }

  /** A remark that NSW takes is recorded as its entry is there, and asks for a new submission. */
  lemma RemarkedRecord(cfg: Config, w: World, content: Json, reachable: bool, env: Env, now: int)
    requires w.record.Some?
    ensures var w' := Step(cfg, w, OfficerFeedback(content, reachable, env, now));
      if reachable && Remarks(content) && w.form.pluginState.OgaAcknowledged? then
        var h := w.record.value.history;
        w'.record == Some(w.record.value.(
          history := h + [Entry(content.fields, now, |h| + 1)], status := "FEEDBACK_REQUESTED"))
      else w' == w
  {
    FeedbackExact(cfg.form, cfg.ids, w, content, env);
  }

  /** In every run the record of the agency is one made for this task. */
  lemma {:induction false} RunOwned(cfg: Config, es: seq<Event>, code: string)
    requires HasCode(cfg.form, code) && VerdictsOnly(cfg.form)
    ensures Owned(cfg.ids, code, Run(cfg, es).record)
  {
    if es != [] {
      var before, e := es[..|es| - 1], es[|es| - 1];
      var w := Run(cfg, before);
      RunOwned(cfg, before, code);
      match e {
        case StartTask(_) =>
        case TraderDrafts(c) => DraftExact(cfg.form, cfg.ids, w, c, QUIET);
        case TraderSubmits(c, env) => SubmitOwned(cfg.form, cfg.ids, w, c, env, code);
        case OfficerFeedback(c, reachable, env, now) =>
          if w.record.Some? {
            RemarkedRecord(cfg, w, c, reachable, env, now);
          }
        case OfficerReview(c, reachable, env, now) =>
          if w.record.Some? {
            ReviewedRecord(cfg, w, c, reachable, env, now);
          }
      }
    }
  }

  lemma SubmitOwned(cfg: FormConfig, ids: Ids, w: World, content: Json, env: Env, code: string)
    requires HasCode(cfg, code) && Owned(ids, code, w.record)
    ensures Owned(ids, code, Execute(cfg, ids, w, SubmitForm, content, env).0.record)
  {
    if content.Obj? {
      DeliverOwned(w.record, RequestOf(cfg, ids, content.fields), env.deliveries, ids);
    }
  }
}
