/** The payment plugin as an object over its local store. */
module PaymentPlugin {
  import opened Wrappers
  import opened Plugin
  import opened PaymentSpec
  import opened PaymentBreakdown

  /** What the interface shows: the amounts, and of the session nothing once the payment is completed. */
  datatype RenderInfo = RenderInfo(
    pluginState: PluginState, state: TaskState, gatewayURL: string, referenceNumber: string, selectedMethodID: string,
    breakdown: seq<Line>, totalAmount: real)

  /** The session and the states as shown. */
  ghost predicate ShowsSession(p: PaymentView, r: RenderInfo)
    requires p.session.Some?
  {
    var s := p.session.value;
    && r.pluginState == p.pluginState && r.state == p.taskState
    && r.gatewayURL == (if p.pluginState.PaymentCompleted? then "" else s.checkoutURL)
    && r.referenceNumber == (if p.pluginState.PaymentCompleted? then "" else s.referenceNumber)
    && r.selectedMethodID == (if p.pluginState.PaymentCompleted? then "" else s.selectedMethodID)
  }

  /** The rounded total that is displayed, and that the checkout asks for. */
  function TotalDue(src: Source, items: seq<Item>): real {
    Round2(TotalAfter(src, Charged(items)))
  }

  /** The lines and the total as shown. */
  ghost predicate ShowsAmounts(src: Source, items: seq<Item>, r: RenderInfo) {
    && LinesFor(src, Charged(items), r.breakdown) && Described(src, Charged(items), r.breakdown)
    && r.totalAmount == TotalDue(src, items)
  }

  class PaymentTask {
    const ttl: int
    const breakdown: seq<Item>
    var taskState: TaskState
    var pluginState: PluginState
    var session: Option<Session>
    var transactions: seq<Transaction>

    constructor (ttl: int, breakdown: seq<Item>)
      ensures this.ttl == ttl && this.breakdown == breakdown && View() == NEW_PAYMENT
    {
      this.ttl := ttl;
      this.breakdown := breakdown;
      taskState := Initialized;
      pluginState := NotStarted;
      session := None;
      transactions := [];
    }

    function View(): PaymentView
      reads this
    {
      PaymentView(taskState, pluginState, session, transactions)
    }

    method Transition(a: Action) returns (ok: bool)
      modifies this
      ensures View() == Fired(old(View()), a) && (ok <==> CanTransition(PaymentFSM(), old(pluginState), a))
    {
      ok := CanTransition(PaymentFSM(), pluginState, a);
      if ok {
        var o := PaymentFSM()[(pluginState, a)];
        pluginState := o.nextPluginState;
        if o.nextTaskState.Some? {
          taskState := o.nextTaskState.value;
        }
      }
    }

    method RecordTransaction(s: Session, initiatedAt: int, resolvedAt: int, status: string)
      modifies this
      ensures View() == Recorded(old(View()), s, initiatedAt, resolvedAt, status)
    {
      var history := transactions;
      var entry := Transaction(
        s.transactionID, s.referenceNumber, initiatedAt, resolvedAt, status, |history| + 1);
      history := history + [entry];
      transactions := history;
    }

    method Start(now: int, ids: Fresh)
      modifies this
      ensures View() == Step(ttl, old(View()), StartPayment(now, ids))
    {
      if !CanTransition(PaymentFSM(), pluginState, Action.Start) {
        return;
      }
      session := Some(NewSession(ids, now));
      var _ := Transition(Action.Start);
    }

    /** The lazy timeout: records the attempt and returns to IDLE. */
    method CheckTimeout(s: Session, check: int, resolved: int)
      requires session == Some(s)
      modifies this
      ensures View() == if TimedOut(ttl, old(View()), check)
                        then Fired(Recorded(old(View()), s, s.initiatedAt.value, resolved, "TIMEOUT"), PaymentTimeout)
                        else old(View())
    {
      if pluginState.PaymentInProgress? && s.initiatedAt.Some? {
        var deadline := s.initiatedAt.value + (ttl * SECOND + PAYMENT_THRESHOLD);
        if check > deadline {
          RecordTransaction(s, s.initiatedAt.value, resolved, "TIMEOUT");
          var _ := Transition(PaymentTimeout);
        }
      }
    }

    method GetRenderInfo(src: Source, check: int, resolved: int, rotate: int, created: int, ids: Fresh)
      returns (r: Option<RenderInfo>)
      requires TextsEnd(src, breakdown)
      modifies this
      ensures View() == Step(ttl, old(View()), Render(check, resolved, rotate, created, ids))
      ensures r.None? <==> session.None? && !pluginState.PaymentCompleted?
      ensures r.Some? ==> ShowsAmounts(src, breakdown, r.value) && (session.Some? ==> ShowsSession(View(), r.value))
    {
      var lines, total := CalculateBreakdown(src, breakdown);
      if pluginState.PaymentCompleted? {
        return Some(RenderInfo(pluginState, taskState, "", "", "", lines, total));
      }
      if session.None? {
        return None;
      }
      var s := session.value;
      CheckTimeout(s, check, resolved);
      if rotate > s.generatedAt + ttl * SECOND {
        s := NewSession(ids, created);
        session := Some(s);
      }
      return Some(RenderInfo(
        pluginState, taskState, s.checkoutURL, s.referenceNumber, s.selectedMethodID, lines, total));
    }

    /** service is the payment provider: the checkout URL it gives for an amount, or a failure. */
    method InitiateHandler(
        src: Source, methodID: Option<string>, stamp: Option<int>, check: int,
        service: real -> Option<string>, now: int)
      returns (ok: bool)
      requires TextsEnd(src, breakdown)
      modifies this
      ensures View() == Step(ttl, old(View()),
                Initiate(methodID, stamp, check, service(TotalDue(src, breakdown)), now))
      ensures ok <==> Accepts(ttl, old(View()), check, service(TotalDue(src, breakdown)))
      ensures ok ==> pluginState.PaymentInProgress? && session.Some?
                     && Some(session.value.checkoutURL) == service(TotalDue(src, breakdown))
    {
      if !CanTransition(PaymentFSM(), pluginState, InitiatePayment) || session.None? {
        return false;
      }
      var s := session.value;
      if check > s.generatedAt + ttl * SECOND {
        return false;
      }
      var _, amount := CalculateBreakdown(src, breakdown);
      var checkout := service(amount);
      if checkout.None? {
        return false;
      }
      var method_ := DEFAULT_METHOD;
      if methodID.Some? {
        method_ := methodID.value;
      }
      var initiatedAt := now;
      if stamp.Some? {
        initiatedAt := stamp.value;
      }
      s := s.(initiatedAt := Some(initiatedAt), checkoutURL := checkout.value, selectedMethodID := method_);
      session := Some(s);
      if !pluginState.PaymentInProgress? {
        var _ := Transition(InitiatePayment);
      }
      return true;
    }

    method SuccessHandler(now: int) returns (ok: bool)
      modifies this
      ensures View() == Step(ttl, old(View()), Succeed(now))
    {
      ok := Transition(PaymentSuccess);
    }

    method FailedHandler(now: int, resolved: int, created: int, ids: Fresh) returns (ok: bool)
      modifies this
      ensures View() == Step(ttl, old(View()), Fail(now, resolved, created, ids))
    {
      if !CanTransition(PaymentFSM(), pluginState, PaymentFailed) || session.None? {
        return false;
      }
      var s := session.value;
      var initiatedAt := now;
      if s.initiatedAt.Some? {
        initiatedAt := s.initiatedAt.value;
      }
      RecordTransaction(s, initiatedAt, resolved, "FAILED");
      session := Some(NewSession(ids, created));
      ok := Transition(PaymentFailed);
    }
  }
}
