/** What the plugin state of a task says about its task state, over every run. */
module TaskStates {
  import opened Json
  import opened Plugin
  import opened TaskSpec
  import opened TaskEnds
  import opened TaskNotes

  /** The task states in which a task can be in a plugin state. */
  ghost predicate Means(t: TaskType, s: PluginState, state: TaskState) {
    match t
    case SimpleForm =>
      (match s
       case NotStarted => state.Initialized?
       case FormInitialized => state.Initialized?
       case Draft => state.InProgress?
       case OgaAcknowledged => state.InProgress?
       case OgaFeedbackProvided => state.InProgress?
       case SubmissionFailed => state.InProgress?
       case Submitted => state.Completed?
       case OgaReviewed => state.Completed? || state.Failed?
       case _ => false)
    case Payment =>
      (match s
       case NotStarted => state.Initialized?
       case PaymentIdle => state.Initialized?
       case PaymentInProgress => state.InProgress?
       case PaymentCompleted => state.Completed?
       case _ => false)
    case WaitForEvent =>
      (match s
       case NotStarted => state.Initialized?
       case NotifyFailed => state.InProgress?
       case NotifiedService => state.InProgress?
       case ReceivedCallback => state.Completed?
       case _ => false)
  }

  lemma FormFireMeans(v: TaskView, a: Action)
    requires Means(SimpleForm, v.pluginState, v.state)
    ensures var v' := Apply(SimpleFormFSM(), v, Fire(a)); Means(SimpleForm, v'.pluginState, v'.state)
  {
  }

  lemma PaymentFireMeans(v: TaskView, a: Action)
    requires Means(Payment, v.pluginState, v.state)
    ensures var v' := Apply(PaymentFSM(), v, Fire(a)); Means(Payment, v'.pluginState, v'.state)
  {
  }

  lemma WaitFireMeans(v: TaskView, a: Action)
    requires Means(WaitForEvent, v.pluginState, v.state)
    ensures var v' := Apply(WaitForEventFSM(), v, Fire(a)); Means(WaitForEvent, v'.pluginState, v'.state)
  {
  }

  lemma FireMeans(t: TaskType, v: TaskView, a: Action)
    requires Means(t, v.pluginState, v.state)
    ensures var v' := Apply(FSMOf(t), v, Fire(a)); Means(t, v'.pluginState, v'.state)
  {
    match t
    case SimpleForm => FormFireMeans(v, a);
    case Payment => PaymentFireMeans(v, a);
    case WaitForEvent => WaitFireMeans(v, a);
  }

  lemma {:induction false} CallMeans(t: TaskType, v: TaskView, es: seq<Effect>)
    requires Means(t, v.pluginState, v.state)
    ensures var v' := ApplyAll(FSMOf(t), v, es); Means(t, v'.pluginState, v'.state)
  {
    if es != [] {
      var before, e := es[..|es| - 1], es[|es| - 1];
      CallMeans(t, v, before);
      if e.Fire? {
        FireMeans(t, ApplyAll(FSMOf(t), v, before), e.action);
      }
    }
  }

  ghost predicate RightTables(factory: Factory) {
    forall t, c :: factory(t, c).Ok? ==> factory(t, c).value.fsm == FSMOf(t)
  }

  /** Over every run of requests the two states of every task agree. */
  lemma {:induction false} RunMeans(factory: Factory, reqs: seq<Request>, n: nat, k: string)
    requires RightTables(factory) && InitOnce(reqs, map[]) && n <= |reqs| && k in RowsAfter(factory, reqs, n)
    ensures var row := RowsAfter(factory, reqs, n)[k]; Means(row.taskType, row.view.pluginState, row.view.state)
    decreases n
  {
    assert n > 0 by {
      assert reqs[..0] == [];
    }
    var rows := RowsAfter(factory, reqs, n - 1);
    var answer, notes := ServedNext(factory, reqs, n - 1);
    if k in rows {
      RunMeans(factory, reqs, n - 1, k);
    }
    var req := reqs[n - 1];
    var found := RowFor(rows, req);
    if req.taskID == k && found.Some? && factory(found.value.taskType, found.value.config).Ok? {
      var row := found.value;
      var x := factory(row.taskType, row.config).value;
      CallMeans(row.taskType, row.view, PlanOf(x, req, row).effects);
    }
  }

  lemma PluginTables(forms: Json -> FormBehaviour, payments: Json -> PaymentBehaviour, waits: Json -> WaitBehaviour)
    ensures RightTables(PluginFactory(forms, payments, waits))
  {
  }

  /** What each call of a wait leaves, and when it succeeds. */
  ghost predicate WaitMoves(b: WaitBehaviour, ctx: TaskContext, call: Call, after: TaskView, ok: bool) {
    var v := ctx.view;
    match call
    case StartCall(env) =>
      if !v.pluginState.NotStarted? then after == v && ok
      else if !b.configured then after == v && !ok
      else ok && after == v.(pluginState := if b.notify(ctx, env) then NotifiedService else NotifyFailed,
                             state := InProgress)
    case ExecuteCall(Retry, _, env) =>
      if !b.notify(ctx, env) then after == v && ok
      else if v.pluginState.NotifyFailed? then ok && after == v.(pluginState := NotifiedService, state := InProgress)
      else after == v && !ok
    case ExecuteCall(OgaVerification, content, _) =>
      var stored := v.(local := v.local["eventResponse" := content]);
      if v.pluginState.NotifiedService?
      then ok && after == stored.(pluginState := ReceivedCallback, state := Completed)
      else after == stored && !ok
    case ExecuteCall(_, _, _) => after == v && !ok
    case RenderCall(_) => after == v && ok
  }

  lemma FiresOne(fsm: FSM, v: TaskView, e: Effect)
    ensures ApplyAll(fsm, v, []) == v && ApplyAll(fsm, v, [e]) == Apply(fsm, v, e)
  {
    assert [e][..0] == [];
  }

  lemma WaitMovesExact(b: WaitBehaviour, ctx: TaskContext, call: Call)
    ensures var plan := WaitPlan(b, ctx, call);
      WaitMoves(b, ctx, call, ApplyAll(WaitForEventFSM(), ctx.view, plan.effects), plan.reply.Ok?)
  {
    var v, es := ctx.view, WaitPlan(b, ctx, call).effects;
    if es != [] {
      FiresOne(WaitForEventFSM(), v, es[0]);
    }
    if |es| == 2 {
      assert es[..1] == [es[0]];
    } else if |es| == 1 {
      assert es == [es[0]];
    }
  }

  /** A wait that has notified its service is completed exactly by the callback, and nothing else completes a wait. */
  lemma WaitExact(b: WaitBehaviour, ctx: TaskContext, call: Call)
    requires Means(WaitForEvent, ctx.view.pluginState, ctx.view.state) && !ctx.view.state.Completed?
    ensures var plan := WaitPlan(b, ctx, call);
      ApplyAll(WaitForEventFSM(), ctx.view, plan.effects).state.Completed? <==>
      call.ExecuteCall? && call.action.OgaVerification? && ctx.view.pluginState.NotifiedService?
  {
    WaitMovesExact(b, ctx, call);
  }
}
