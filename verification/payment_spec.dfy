/** The payment plugin: a state machine with a clock, a current session and a transaction history. */
module PaymentSpec {
  import opened Wrappers
  import opened Plugin

  const SECOND := 1_000_000_000
  const PAYMENT_THRESHOLD := 30 * SECOND
  const DEFAULT_METHOD := "lankapay"

  /** Instants are nanoseconds; an empty checkout URL means none. */
  datatype Session = Session(
    transactionID: string,
    referenceNumber: string,
    checkoutURL: string,
    selectedMethodID: string,
    generatedAt: int,
    initiatedAt: Option<int>)

  datatype Transaction = Transaction(
    transactionID: string,
    referenceNumber: string,
    initiatedAt: int,
    resolvedAt: int,
    status: string,
    round: nat)

  datatype PaymentView = PaymentView(
    taskState: TaskState,
    pluginState: PluginState,
    session: Option<Session>,
    history: seq<Transaction>)

  const NEW_PAYMENT := PaymentView(Initialized, NotStarted, None, [])

  /** The generated identifiers of a session. */
  datatype Fresh = Fresh(transactionID: string, referenceNumber: string)

  function NewSession(ids: Fresh, now: int): Session {
    Session(ids.transactionID, ids.referenceNumber, "", "", now, None)
  }

  /**
   * Calls with everything they read from outside.  Each instant is one reading of the clock, in the
   * order in which the code takes them.
   */
  datatype Event =
    | StartPayment(now: int, ids: Fresh)
    | Render(check: int, resolved: int, rotate: int, created: int, ids: Fresh)
    | Initiate(methodID: Option<string>, stamp: Option<int>, check: int, checkout: Option<string>, now: int)
    | Succeed(now: int)
    | Fail(now: int, resolved: int, created: int, ids: Fresh)

  function Fired(p: PaymentView, a: Action): PaymentView {
    if !CanTransition(PaymentFSM(), p.pluginState, a) then p
    else
      var o := PaymentFSM()[(p.pluginState, a)];
      p.(pluginState := o.nextPluginState,
         taskState := if o.nextTaskState.Some? then o.nextTaskState.value else p.taskState)
  }

  function Recorded(p: PaymentView, s: Session, initiatedAt: int, resolvedAt: int, status: string): PaymentView {
    p.(history := p.history + [
        Transaction(s.transactionID, s.referenceNumber, initiatedAt, resolvedAt, status, |p.history| + 1)])
  }

  /** The session is past its time to live. */
  predicate Expired(ttl: int, s: Session, now: int) {
    now > s.generatedAt + ttl * SECOND
  }

  /** The payment window, with its grace period, is over. */
  predicate TimedOut(ttl: int, p: PaymentView, now: int) {
    && p.pluginState.PaymentInProgress? && p.session.Some? && p.session.value.initiatedAt.Some?
    && now > p.session.value.initiatedAt.value + (ttl * SECOND + PAYMENT_THRESHOLD)
  }

  function AfterStart(p: PaymentView, now: int, ids: Fresh): PaymentView {
    if !CanTransition(PaymentFSM(), p.pluginState, Action.Start) then p
    else Fired(p.(session := Some(NewSession(ids, now))), Action.Start)
  }

  function AfterRender(ttl: int, p: PaymentView, e: Event): PaymentView
    requires e.Render?
  {
    if p.pluginState.PaymentCompleted? || p.session.None? then p
    else
      var s := p.session.value;
      var p' := if TimedOut(ttl, p, e.check)
                then Fired(Recorded(p, s, s.initiatedAt.value, e.resolved, "TIMEOUT"), PaymentTimeout) else p;
      if Expired(ttl, s, e.rotate) then p'.(session := Some(NewSession(e.ids, e.created))) else p'
  }

  /** An initiation is permitted, the session has not expired, and there is a checkout. */
  predicate Accepts(ttl: int, p: PaymentView, check: int, checkout: Option<string>) {
    && CanTransition(PaymentFSM(), p.pluginState, InitiatePayment) && p.session.Some?
    && !Expired(ttl, p.session.value, check) && checkout.Some?
  }

  function Initiated(s: Session, e: Event): Session
    requires e.Initiate? && e.checkout.Some?
  {
    s.(initiatedAt := Some(if e.stamp.Some? then e.stamp.value else e.now),
       checkoutURL := e.checkout.value,
       selectedMethodID := if e.methodID.Some? then e.methodID.value else DEFAULT_METHOD)
  }

  function AfterInitiate(ttl: int, p: PaymentView, e: Event): PaymentView
    requires e.Initiate?
  {
    if !Accepts(ttl, p, e.check, e.checkout) then p
    else
      var p' := p.(session := Some(Initiated(p.session.value, e)));
      if p.pluginState.PaymentInProgress? then p' else Fired(p', InitiatePayment)
  }

  function AfterFailure(p: PaymentView, e: Event): PaymentView
    requires e.Fail?
  {
    if !CanTransition(PaymentFSM(), p.pluginState, PaymentFailed) || p.session.None? then p
    else
      var s := p.session.value;
      var initiatedAt := if s.initiatedAt.Some? then s.initiatedAt.value else e.now;
      Fired(Recorded(p, s, initiatedAt, e.resolved, "FAILED").(session := Some(NewSession(e.ids, e.created))),
            PaymentFailed)
  }

  function Step(ttl: int, p: PaymentView, e: Event): PaymentView {
    match e
    case StartPayment(now, ids) => AfterStart(p, now, ids)
    case Render(_, _, _, _, _) => AfterRender(ttl, p, e)
    case Initiate(_, _, _, _, _) => AfterInitiate(ttl, p, e)
    case Succeed(_) => Fired(p, PaymentSuccess)
    case Fail(_, _, _, _) => AfterFailure(p, e)
  }

  function Run(ttl: int, es: seq<Event>): PaymentView {
    if es == [] then NEW_PAYMENT else Step(ttl, Run(ttl, es[..|es| - 1]), es[|es| - 1])
  }
}
