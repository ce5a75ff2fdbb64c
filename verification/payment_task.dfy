/** The payment plugin as the task manager runs it, with its session and history in the task's local store. */
module PaymentTasks {
  import opened Wrappers
  import opened Json
  import opened Plugin
  import opened TaskSpec
  import opened TaskEnds
  import opened TaskNotes
  import P = PaymentSpec
  import R = PaymentRuns

  const SESSION := "payment:session"
  const TRANSACTIONS := "payment:transactions"

  /** The JSON forms of what the plugin stores, and what a call obtains from outside. */
  datatype Codec = Codec(
    session: P.Session -> Json,
    readSession: Json -> P.Session,
    history: seq<P.Transaction> -> Json,
    readHistory: Json -> seq<P.Transaction>,
    outside: Call -> P.Event)

  predicate Kind(call: Call, e: P.Event) {
    match call
    case StartCall(_) => e.StartPayment?
    case RenderCall(_) => e.Render?
    case ExecuteCall(a, _, _) =>
      (a.InitiatePayment? ==> e.Initiate?) && (a.PaymentSuccess? ==> e.Succeed?) && (a.PaymentFailed? ==> e.Fail?)
  }

  /** What is written to JSON is read back unchanged. */
  ghost predicate Lossless(cd: Codec) {
    && (forall s :: cd.readSession(cd.session(s)) == s)
    && (forall h :: cd.readHistory(cd.history(h)) == h)
    && (forall call :: Kind(call, cd.outside(call)))
  }

  /** The payment as the container and the local store hold it. */
  function PaymentOf(cd: Codec, v: TaskView): P.PaymentView {
    P.PaymentView(
      v.state,
      v.pluginState,
      if SESSION in v.local then Some(cd.readSession(v.local[SESSION])) else None,
      if TRANSACTIONS in v.local then cd.readHistory(v.local[TRANSACTIONS]) else [])
  }

  // ---- There are such forms -------------------------------------------------------------------

  function SessionJson(s: P.Session): Json {
    Arr([Str(s.transactionID), Str(s.referenceNumber), Str(s.checkoutURL), Str(s.selectedMethodID),
         Number(s.generatedAt as real), if s.initiatedAt.Some? then Number(s.initiatedAt.value as real) else Null])
  }

  function Text(j: Json): string {
    if j.Str? then j.s else ""
  }

  function Int(j: Json): int {
    if j.Number? then j.n.Floor else 0
  }

  function JsonSession(j: Json): P.Session {
    if j.Arr? && |j.items| == 6 then
      P.Session(Text(j.items[0]), Text(j.items[1]), Text(j.items[2]), Text(j.items[3]), Int(j.items[4]),
                if j.items[5].Number? then Some(Int(j.items[5])) else None)
    else P.Session("", "", "", "", 0, None)
  }

  function TransactionJson(t: P.Transaction): Json {
    Arr([Str(t.transactionID), Str(t.referenceNumber), Number(t.initiatedAt as real), Number(t.resolvedAt as real),
         Str(t.status), Number(t.round as real)])
  }

  function JsonTransaction(j: Json): P.Transaction {
    if j.Arr? && |j.items| == 6 && Int(j.items[5]) >= 0 then
      P.Transaction(Text(j.items[0]), Text(j.items[1]), Int(j.items[2]), Int(j.items[3]), Text(j.items[4]),
                    Int(j.items[5]))
    else P.Transaction("", "", 0, 0, "", 0)
  }

  function HistoryJson(h: seq<P.Transaction>): Json {
    Arr(seq(|h|, i requires 0 <= i < |h| => TransactionJson(h[i])))
  }

  function JsonHistory(j: Json): seq<P.Transaction> {
    if j.Arr? then seq(|j.items|, i requires 0 <= i < |j.items| => JsonTransaction(j.items[i])) else []
  }

  lemma IntReadBack(n: int)
    ensures Int(Number(n as real)) == n
  {
  }

  lemma SessionReadBack(s: P.Session)
    ensures JsonSession(SessionJson(s)) == s
  {
    IntReadBack(s.generatedAt);
    if s.initiatedAt.Some? {
      IntReadBack(s.initiatedAt.value);
    }
  }

  lemma HistoryReadBack(h: seq<P.Transaction>)
    ensures JsonHistory(HistoryJson(h)) == h
  {
    forall i | 0 <= i < |h| ensures JsonTransaction(TransactionJson(h[i])) == h[i] {
      IntReadBack(h[i].initiatedAt);
      IntReadBack(h[i].resolvedAt);
      IntReadBack(h[i].round);
    }
  }

  /** Whatever calls obtain from outside, there is a codec that loses nothing. */
  lemma LosslessCodec(outside: Call -> P.Event) returns (cd: Codec)
    requires forall call :: Kind(call, outside(call))
    ensures Lossless(cd) && cd.outside == outside
  {
    cd := Codec(SessionJson, JsonSession, HistoryJson, JsonHistory, outside);
    forall s ensures cd.readSession(cd.session(s)) == s {
      SessionReadBack(s);
    }
    forall h ensures cd.readHistory(cd.history(h)) == h {
      HistoryReadBack(h);
    }
  }

  // ---- The handlers ---------------------------------------------------------------------------

  function StoreSession(cd: Codec, s: P.Session): (string, Json) {
    (SESSION, cd.session(s))
  }

  function StoreTransaction(
      cd: Codec, p: P.PaymentView, s: P.Session, initiatedAt: int, resolvedAt: int, status: string): (string, Json)
  {
    (TRANSACTIONS, cd.history(P.Recorded(p, s, initiatedAt, resolvedAt, status).history))
  }

  function HandlePayment(cd: Codec, ttl: int, ctx: TaskContext, call: Call, reply: Reply): Handled
    requires call.ExecuteCall? && Kind(call, cd.outside(call))
  {
    var p, e := PaymentOf(cd, ctx.view), cd.outside(call);
    match call.action
    case InitiatePayment =>
      if !P.Accepts(ttl, p, e.check, e.checkout) then Failure([], "payment cannot be initiated", false)
      else Success([StoreSession(cd, P.Initiated(p.session.value, e))], reply)
    case PaymentFailed =>
      if p.session.None? then Failure([], "no active payment session", false)
      else
        var s := p.session.value;
        var initiatedAt := if s.initiatedAt.Some? then s.initiatedAt.value else e.now;
        Success([StoreTransaction(cd, p, s, initiatedAt, e.resolved, "FAILED"),
                 StoreSession(cd, P.NewSession(e.ids, e.created))], reply)
    case _ => Success([], reply)
  }

  function RenderPayment(cd: Codec, ttl: int, ctx: TaskContext, e: P.Event, reply: Reply): (Handled, bool, Handled)
    requires e.Render?
  {
    var p := PaymentOf(cd, ctx.view);
    if p.pluginState.PaymentCompleted? then (Success([], reply), false, Success([], reply))
    else if p.session.None? then (Success([], reply), false, Failure([], "no active payment session", false))
    else
      var s, timedOut := p.session.value, P.TimedOut(ttl, p, e.check);
      (Success(
         if timedOut then [StoreTransaction(cd, p, s, s.initiatedAt.value, e.resolved, "TIMEOUT")] else [], reply),
       timedOut,
       Success(if P.Expired(ttl, s, e.rotate) then [StoreSession(cd, P.NewSession(e.ids, e.created))] else [], reply))
  }

  function Behaviour(cd: Codec, ttl: int, reply: (TaskContext, Call) -> Reply): PaymentBehaviour
    requires Lossless(cd)
  {
    PaymentBehaviour(
      (ctx: TaskContext, env: Json) =>
        var e := cd.outside(StartCall(env));
        Success([StoreSession(cd, P.NewSession(e.ids, e.now))], reply(ctx, StartCall(env))),
      (ctx: TaskContext, a: Action, content: Json, env: Json) =>
        var call := ExecuteCall(a, content, env);
        HandlePayment(cd, ttl, ctx, call, reply(ctx, call)),
      (ctx: TaskContext, env: Json) =>
        RenderPayment(cd, ttl, ctx, cd.outside(RenderCall(env)), reply(ctx, RenderCall(env))))
  }

  /** The plugin with these handlers, and any replies. */
  ghost predicate RunsPayment(x: Executor, cd: Codec, ttl: int, reply: (TaskContext, Call) -> Reply)
    requires Lossless(cd)
  {
    x.fsm == PaymentFSM() && forall ctx, call :: x.plan(ctx, call) == PaymentPlan(Behaviour(cd, ttl, reply), ctx, call)
  }

  // ---- One call -------------------------------------------------------------------------------

  /** The event a call is for the payment; other actions are refused before anything is read. */
  function EventOf(cd: Codec, call: Call): Option<P.Event> {
    if call.ExecuteCall? && !(call.action.InitiatePayment? || call.action.PaymentSuccess? || call.action.PaymentFailed?)
    then None else Some(cd.outside(call))
  }

  function After(cd: Codec, ttl: int, p: P.PaymentView, call: Call): P.PaymentView {
    match EventOf(cd, call)
    case Some(e) => P.Step(ttl, p, e)
    case None => p
  }

  lemma FireRefines(cd: Codec, v: TaskView, a: Action)
    ensures ApplyAll(PaymentFSM(), v, [Fire(a)]).local == v.local
    ensures PaymentOf(cd, ApplyAll(PaymentFSM(), v, [Fire(a)])) == P.Fired(PaymentOf(cd, v), a)
  {
    assert [Fire(a)][..0] == [];
  }

  lemma SessionStored(cd: Codec, v: TaskView, s: P.Session)
    requires Lossless(cd)
    ensures PaymentOf(cd, ApplyAll(PaymentFSM(), v, WriteEffects([StoreSession(cd, s)])))
         == PaymentOf(cd, v).(session := Some(s))
  {
    var es := WriteEffects([StoreSession(cd, s)]);
    assert es[..0] == [] && es[0] == WriteLocal(SESSION, cd.session(s));
  }

  lemma TransactionStored(
      cd: Codec, v: TaskView, s: P.Session, initiatedAt: int, resolvedAt: int, status: string)
    requires Lossless(cd)
    ensures var p := PaymentOf(cd, v);
      var write := StoreTransaction(cd, p, s, initiatedAt, resolvedAt, status);
      PaymentOf(cd, ApplyAll(PaymentFSM(), v, WriteEffects([write])))
      == P.Recorded(p, s, initiatedAt, resolvedAt, status)
  {
    var h := P.Recorded(PaymentOf(cd, v), s, initiatedAt, resolvedAt, status).history;
    var es := WriteEffects([StoreTransaction(cd, PaymentOf(cd, v), s, initiatedAt, resolvedAt, status)]);
    assert es[..0] == [] && es[0] == WriteLocal(TRANSACTIONS, cd.history(h));
  }

  lemma NothingStored(v: TaskView)
    ensures ApplyAll(PaymentFSM(), v, WriteEffects([])) == v && WriteEffects([]) == []
  {
  }

  lemma StartRefines(cd: Codec, ttl: int, reply: (TaskContext, Call) -> Reply, ctx: TaskContext, env: Json)
    requires Lossless(cd)
    ensures var plan := PaymentPlan(Behaviour(cd, ttl, reply), ctx, StartCall(env));
      PaymentOf(cd, ApplyAll(PaymentFSM(), ctx.view, plan.effects))
      == After(cd, ttl, PaymentOf(cd, ctx.view), StartCall(env))
  {
    var v, e := ctx.view, cd.outside(StartCall(env));
    if CanTransition(PaymentFSM(), v.pluginState, Start) {
      var ws := WriteEffects([StoreSession(cd, P.NewSession(e.ids, e.now))]);
      SessionStored(cd, v, P.NewSession(e.ids, e.now));
      FireRefines(cd, ApplyAll(PaymentFSM(), v, ws), Start);
      ApplyAllAppend(PaymentFSM(), v, ws, [Fire(Start)]);
    }
  }

  lemma Handles(cd: Codec, ttl: int, reply: (TaskContext, Call) -> Reply, ctx: TaskContext, call: Call)
    requires Lossless(cd) && call.ExecuteCall?
    ensures Behaviour(cd, ttl, reply).handle(ctx, call.action, call.content, call.env)
         == HandlePayment(cd, ttl, ctx, call, reply(ctx, call))
    ensures Kind(call, cd.outside(call))
  {
    assert call == ExecuteCall(call.action, call.content, call.env);
  }

  lemma InitiateRefines(cd: Codec, ttl: int, reply: (TaskContext, Call) -> Reply, ctx: TaskContext, call: Call)
    requires Lossless(cd) && call.ExecuteCall? && call.action.InitiatePayment?
    ensures var plan := PaymentPlan(Behaviour(cd, ttl, reply), ctx, call);
      PaymentOf(cd, ApplyAll(PaymentFSM(), ctx.view, plan.effects)) == After(cd, ttl, PaymentOf(cd, ctx.view), call)
  {
    var v, e := ctx.view, cd.outside(call);
    var p := PaymentOf(cd, v);
    NothingStored(v);
    Handles(cd, ttl, reply, ctx, call);
    if P.Accepts(ttl, p, e.check, e.checkout) {
      var s := P.Initiated(p.session.value, e);
      var ws := WriteEffects([StoreSession(cd, s)]);
      SessionStored(cd, v, s);
      FireRefines(cd, ApplyAll(PaymentFSM(), v, ws), InitiatePayment);
      ApplyAllAppend(PaymentFSM(), v, ws, [Fire(InitiatePayment)]);
      assert ws + [] == ws;
    }
  }

  lemma SuccessRefines(cd: Codec, ttl: int, reply: (TaskContext, Call) -> Reply, ctx: TaskContext, call: Call)
    requires Lossless(cd) && call.ExecuteCall? && call.action.PaymentSuccess?
    ensures var plan := PaymentPlan(Behaviour(cd, ttl, reply), ctx, call);
      PaymentOf(cd, ApplyAll(PaymentFSM(), ctx.view, plan.effects)) == After(cd, ttl, PaymentOf(cd, ctx.view), call)
  {
    NothingStored(ctx.view);
    FireRefines(cd, ctx.view, PaymentSuccess);
    Handles(cd, ttl, reply, ctx, call);
    assert ApplyAll(PaymentFSM(), ctx.view, []) == ctx.view;
    assert [] + [Fire(PaymentSuccess)] == [Fire(PaymentSuccess)];
  }

  lemma TwoWrites(a: (string, Json), b: (string, Json))
    ensures WriteEffects([a, b]) == WriteEffects([a]) + WriteEffects([b])
  {
  }

  lemma FailureRefines(cd: Codec, ttl: int, reply: (TaskContext, Call) -> Reply, ctx: TaskContext, call: Call)
    requires Lossless(cd) && call.ExecuteCall? && call.action.PaymentFailed?
    ensures var plan := PaymentPlan(Behaviour(cd, ttl, reply), ctx, call);
      PaymentOf(cd, ApplyAll(PaymentFSM(), ctx.view, plan.effects)) == After(cd, ttl, PaymentOf(cd, ctx.view), call)
  {
    var v, e := ctx.view, cd.outside(call);
    var p := PaymentOf(cd, v);
    NothingStored(v);
    Handles(cd, ttl, reply, ctx, call);
    if CanTransition(PaymentFSM(), v.pluginState, PaymentFailed) && p.session.Some? {
      var s := p.session.value;
      var initiatedAt := if s.initiatedAt.Some? then s.initiatedAt.value else e.now;
      var a := StoreTransaction(cd, p, s, initiatedAt, e.resolved, "FAILED");
      var b := StoreSession(cd, P.NewSession(e.ids, e.created));
      TransactionStored(cd, v, s, initiatedAt, e.resolved, "FAILED");
      var v1 := ApplyAll(PaymentFSM(), v, WriteEffects([a]));
      SessionStored(cd, v1, P.NewSession(e.ids, e.created));
      ApplyAllAppend(PaymentFSM(), v, WriteEffects([a]), WriteEffects([b]));
      TwoWrites(a, b);
      FireRefines(cd, ApplyAll(PaymentFSM(), v1, WriteEffects([b])), PaymentFailed);
      ApplyAllAppend(PaymentFSM(), v, WriteEffects([a, b]), [Fire(PaymentFailed)]);
    }
  }

  /** The lazy timeout of a rendering. */
  lemma TimeoutRefines(cd: Codec, ttl: int, v: TaskView, e: P.Event, first: seq<(string, Json)>, fire: seq<Effect>)
    requires Lossless(cd) && e.Render?
    requires var p := PaymentOf(cd, v);
      && p.session.Some?
      && (P.TimedOut(ttl, p, e.check) ==>
            && first == [StoreTransaction(
                           cd, p, p.session.value, p.session.value.initiatedAt.value, e.resolved, "TIMEOUT")]
            && fire == [Fire(PaymentTimeout)])
      && (!P.TimedOut(ttl, p, e.check) ==> first == [] && fire == [])
    ensures var p := PaymentOf(cd, v);
      PaymentOf(cd, ApplyAll(PaymentFSM(), v, WriteEffects(first) + fire)) ==
      if P.TimedOut(ttl, p, e.check)
      then
        var s := p.session.value;
        P.Fired(P.Recorded(p, s, s.initiatedAt.value, e.resolved, "TIMEOUT"), PaymentTimeout)
      else p
  {
    var p := PaymentOf(cd, v);
    ApplyAllAppend(PaymentFSM(), v, WriteEffects(first), fire);
    if P.TimedOut(ttl, p, e.check) {
      TransactionStored(cd, v, p.session.value, p.session.value.initiatedAt.value, e.resolved, "TIMEOUT");
      FireRefines(cd, ApplyAll(PaymentFSM(), v, WriteEffects(first)), PaymentTimeout);
    } else {
      NothingStored(v);
    }
  }

  lemma RenderRefines(cd: Codec, ttl: int, reply: (TaskContext, Call) -> Reply, ctx: TaskContext, env: Json)
    requires Lossless(cd)
    ensures var plan := PaymentPlan(Behaviour(cd, ttl, reply), ctx, RenderCall(env));
      PaymentOf(cd, ApplyAll(PaymentFSM(), ctx.view, plan.effects))
      == After(cd, ttl, PaymentOf(cd, ctx.view), RenderCall(env))
  {
    var v, e := ctx.view, cd.outside(RenderCall(env));
    var p := PaymentOf(cd, v);
    var (first, timedOut, last) := RenderPayment(cd, ttl, ctx, e, reply(ctx, RenderCall(env)));
    var fire := if v.pluginState.PaymentInProgress? && timedOut then [Fire(PaymentTimeout)] else [];
    ApplyAllAppend(PaymentFSM(), v, WriteEffects(first.writes) + fire, WriteEffects(last.writes));
    NothingStored(v);
    if !p.pluginState.PaymentCompleted? && p.session.Some? {
      TimeoutRefines(cd, ttl, v, e, first.writes, fire);
      var v1 := ApplyAll(PaymentFSM(), v, WriteEffects(first.writes) + fire);
      NothingStored(v1);
      SessionStored(cd, v1, P.NewSession(e.ids, e.created));
    } else {
      assert WriteEffects(first.writes) + fire + WriteEffects(last.writes) == [];
    }
  }

  /** A call of the plugin is one step of the payment. */
  lemma CallRefines(cd: Codec, ttl: int, reply: (TaskContext, Call) -> Reply, ctx: TaskContext, call: Call)
    requires Lossless(cd)
    ensures var plan := PaymentPlan(Behaviour(cd, ttl, reply), ctx, call);
      PaymentOf(cd, ApplyAll(PaymentFSM(), ctx.view, plan.effects)) == After(cd, ttl, PaymentOf(cd, ctx.view), call)
  {
    match call
    case StartCall(env) => StartRefines(cd, ttl, reply, ctx, env);
    case RenderCall(env) => RenderRefines(cd, ttl, reply, ctx, env);
    case ExecuteCall(a, _, _) =>
      match a
      case InitiatePayment => InitiateRefines(cd, ttl, reply, ctx, call);
      case PaymentSuccess => SuccessRefines(cd, ttl, reply, ctx, call);
      case PaymentFailed => FailureRefines(cd, ttl, reply, ctx, call);
      case _ =>
  }

  // ---- Whole runs of the manager --------------------------------------------------------------

  /** The request gets as far as a plugin call. */
  predicate Reaches(factory: Factory, rows: Rows, req: Request) {
    if req.Init? then req.taskID !in rows && factory(req.taskType, req.config).Ok?
    else Lookup(factory, rows, req.taskID).Ok?
  }

  function EventsBy(factory: Factory, cd: Codec, rows: Rows, req: Request, id: string): seq<P.Event> {
    if req.taskID == id && Reaches(factory, rows, req) && EventOf(cd, CallOf(req)).Some?
    then [EventOf(cd, CallOf(req)).value] else []
  }

  /** What the requests to the manager are for the payment of one task. */
  function EventsOf(factory: Factory, cd: Codec, reqs: seq<Request>, id: string): seq<P.Event> {
    if reqs == [] then []
    else
      var before := reqs[..|reqs| - 1];
      EventsOf(factory, cd, before, id)
      + EventsBy(factory, cd, ServeAll(factory, map[], before, []).rows, reqs[|reqs| - 1], id)
  }

  ghost predicate PaymentType(
      factory: Factory, t: TaskType, config: Json, cd: Codec, ttl: int, reply: (TaskContext, Call) -> Reply)
    requires Lossless(cd)
  {
    factory(t, config).Ok? ==> RunsPayment(factory(t, config).value, cd, ttl, reply)
  }

  /** The row of the task holds what the events so far make of the payment. */
  ghost predicate Follows(
      factory: Factory, cd: Codec, ttl: int, reply: (TaskContext, Call) -> Reply, rows: Rows, id: string,
      es: seq<P.Event>)
    requires Lossless(cd)
  {
    if id in rows then
      && PaymentType(factory, rows[id].taskType, rows[id].config, cd, ttl, reply)
      && PaymentOf(cd, rows[id].view) == P.Run(ttl, es)
    else es == []
  }

  /** A plugin call on a row that follows the events. */
  lemma InvokeFollows(
      x: Executor, cd: Codec, ttl: int, reply: (TaskContext, Call) -> Reply, id: string, row: TaskRow, call: Call,
      es: seq<P.Event>)
    requires Lossless(cd) && RunsPayment(x, cd, ttl, reply) && PaymentOf(cd, row.view) == P.Run(ttl, es)
    ensures var row' := Invoke(x, id, row, call).0;
      && row' == row.(view := row'.view)
      && PaymentOf(cd, row'.view) ==
         P.Run(ttl, es + if EventOf(cd, call).Some? then [EventOf(cd, call).value] else [])
  {
    CallRefines(cd, ttl, reply, ContextOf(id, row), call);
    if EventOf(cd, call).Some? {
      R.Ran(ttl, es, EventOf(cd, call).value);
    } else {
      assert es + [] == es;
    }
  }

  lemma ServeFollows(
      factory: Factory, cd: Codec, ttl: int, reply: (TaskContext, Call) -> Reply, rows: Rows, req: Request, id: string,
      es: seq<P.Event>)
    requires Lossless(cd) && Follows(factory, cd, ttl, reply, rows, id, es)
    requires req.Init? ==> req.taskID !in rows
    requires req.Init? && req.taskID == id ==> PaymentType(factory, req.taskType, req.config, cd, ttl, reply)
    ensures Follows(
              factory, cd, ttl, reply, Serve(factory, rows, req).rows, id,
              es + EventsBy(factory, cd, rows, req, id))
  {
    if req.taskID == id && Reaches(factory, rows, req) {
      var row := if req.Init? then NewRow(req) else rows[id];
      InvokeFollows(factory(row.taskType, row.config).value, cd, ttl, reply, id, row, CallOf(req), es);
    } else {
      assert es + [] == es;
    }
  }

  /** Over every run of the manager the stored payment is the run of the events meant for it. */
  lemma {:induction false} PaymentRowExact(
      factory: Factory, cd: Codec, ttl: int, reply: (TaskContext, Call) -> Reply, reqs: seq<Request>, id: string)
    requires Lossless(cd)
    requires forall req | req in reqs && req.Init? && req.taskID == id ::
      PaymentType(factory, req.taskType, req.config, cd, ttl, reply)
    ensures Follows(
              factory, cd, ttl, reply, ServeAll(factory, map[], reqs, []).rows, id,
              EventsOf(factory, cd, reqs, id))
  {
    if reqs != [] {
      var before, req := reqs[..|reqs| - 1], reqs[|reqs| - 1];
      var rows, es := ServeAll(factory, map[], before, []).rows, EventsOf(factory, cd, before, id);
      PaymentRowExact(factory, cd, ttl, reply, before, id);
      if req.Init? && req.taskID in rows {
        assert es + [] == es;
      } else {
        ServeFollows(factory, cd, ttl, reply, rows, req, id, es);
      }
    }
  }

  /** So what holds of every run of a payment holds of every payment that the manager serves. */
  lemma ServedPaymentsSound(
      factory: Factory, cd: Codec, ttl: int, reply: (TaskContext, Call) -> Reply, reqs: seq<Request>, id: string)
    requires Lossless(cd)
    requires forall req | req in reqs && req.Init? && req.taskID == id ::
      PaymentType(factory, req.taskType, req.config, cd, ttl, reply)
    requires var es := EventsOf(factory, cd, reqs, id);
      R.Monotone(es) && R.AllTimely(ttl, es) && R.DistinctIDs(es)
    ensures var rows, es := ServeAll(factory, map[], reqs, []).rows, EventsOf(factory, cd, reqs, id);
      id in rows ==>
        var p := PaymentOf(cd, rows[id].view);
        && R.Sound(ttl, p, R.Clock(es, 0)) && |p.history| == R.Returns(ttl, es) && R.Unrepeated(p.history)
  {
    var es := EventsOf(factory, cd, reqs, id);
    PaymentRowExact(factory, cd, ttl, reply, reqs, id);
    R.RunSound(ttl, es);
    R.NoTransactionTwice(ttl, es);
  }

  /** The factory of the three plugins makes payments of this kind. */
  lemma FactoryMakesPayments(
      forms: Json -> FormBehaviour, payments: Json -> PaymentBehaviour, waits: Json -> WaitBehaviour,
      config: Json, cd: Codec, ttl: int, reply: (TaskContext, Call) -> Reply)
    requires Lossless(cd) && payments(config) == Behaviour(cd, ttl, reply)
    ensures PaymentType(PluginFactory(forms, payments, waits), TaskType.Payment, config, cd, ttl, reply)
  {
  }
}
