/** What the sessions and the history of a payment record of each call. */
module PaymentRecords {
  import opened Wrappers
  import opened Plugin
  import opened PaymentSpec

  const GRACE := 30_000_000_000

  /** A session of these identifiers, generated now and not initiated. */
  ghost predicate NewlyGenerated(s: Session, ids: Fresh, now: int) {
    && s.transactionID == ids.transactionID && s.referenceNumber == ids.referenceNumber && s.generatedAt == now
    && s.checkoutURL == "" && s.selectedMethodID == "" && s.initiatedAt.None?
  }

  /** The end of the time to live of a session, in nanoseconds. */
  function Expiry(ttl: int, s: Session): int {
    s.generatedAt + ttl * 1_000_000_000
  }

  /** The history has one more entry, which tells what became of the session. */
  ghost predicate Logs(
      h: seq<Transaction>, h': seq<Transaction>, s: Session, initiatedAt: int, resolvedAt: int, status: string)
  {
    && |h'| == |h| + 1 && h'[..|h|] == h
    && var t := h'[|h|];
      && t.transactionID == s.transactionID && t.referenceNumber == s.referenceNumber
      && t.initiatedAt == initiatedAt && t.resolvedAt == resolvedAt && t.status == status && t.round == |h'|
  }

  /** A start generates the first session, once. */
  lemma StartExact(ttl: int, p: PaymentView, now: int, ids: Fresh)
    ensures var p' := Step(ttl, p, StartPayment(now, ids));
      if p.pluginState.NotStarted? then
        && p'.pluginState == PaymentIdle && p'.taskState == p.taskState && p'.history == p.history
        && p'.session.Some? && NewlyGenerated(p'.session.value, ids, now)
      else p' == p
  {
  }

  /** The conditions under which an initiation is taken. */
  ghost predicate Initiates(ttl: int, p: PaymentView, check: int, checkout: Option<string>) {
    && (p.pluginState.PaymentIdle? || p.pluginState.PaymentInProgress?) && p.session.Some?
    && check <= Expiry(ttl, p.session.value) && checkout.Some?
  }

  /** An initiation keeps the identifiers of the session and notes when, where and how it is paid. */
  lemma InitiationExact(
      ttl: int, p: PaymentView, methodID: Option<string>, stamp: Option<int>, check: int, checkout: Option<string>,
      now: int)
    ensures var p' := Step(ttl, p, Initiate(methodID, stamp, check, checkout, now));
      if Initiates(ttl, p, check, checkout) then
        && p'.pluginState == PaymentInProgress && p'.history == p.history
        && p'.taskState == (if p.pluginState.PaymentInProgress? then p.taskState else InProgress)
        && p'.session.Some?
        && var s, s' := p.session.value, p'.session.value;
          && s'.transactionID == s.transactionID && s'.referenceNumber == s.referenceNumber
          && s'.generatedAt == s.generatedAt && Some(s'.checkoutURL) == checkout
          && s'.selectedMethodID == (match methodID case Some(m) => m case None => "lankapay")
          && s'.initiatedAt == (if stamp.Some? then stamp else Some(now))
      else p' == p
  {
  }

  /** Success completes a payment in progress. */
  lemma SuccessExact(ttl: int, p: PaymentView, now: int)
    ensures var p' := Step(ttl, p, Succeed(now));
      p' == if p.pluginState.PaymentInProgress? then p.(pluginState := PaymentCompleted, taskState := Completed) else p
  {
  }

  /** A failure is logged and the payment is back at IDLE with a new session. */
  lemma FailureExact(ttl: int, p: PaymentView, now: int, resolved: int, created: int, ids: Fresh)
    ensures var p' := Step(ttl, p, Fail(now, resolved, created, ids));
      if p.pluginState.PaymentInProgress? && p.session.Some? then
        var s := p.session.value;
        && p'.pluginState == PaymentIdle && p'.taskState == Initialized
        && Logs(p.history, p'.history, s, if s.initiatedAt.Some? then s.initiatedAt.value else now, resolved, "FAILED")
        && p'.session.Some? && NewlyGenerated(p'.session.value, ids, created)
      else p' == p
  {
  }

  /** The payment window of an initiated session is over: its time to live and 30 seconds after the initiation. */
  ghost predicate WindowOver(ttl: int, p: PaymentView, check: int) {
    && p.pluginState.PaymentInProgress? && p.session.Some? && p.session.value.initiatedAt.Some?
    && check > p.session.value.initiatedAt.value + ttl * 1_000_000_000 + GRACE
  }

  /** A rendering logs a timeout when the window is over, and replaces a session past its time to live. */
  lemma RenderingExact(ttl: int, p: PaymentView, check: int, resolved: int, rotate: int, created: int, ids: Fresh)
    ensures var p' := Step(ttl, p, Render(check, resolved, rotate, created, ids));
      if p.pluginState.PaymentCompleted? || p.session.None? then p' == p
      else
        var s := p.session.value;
        && (if WindowOver(ttl, p, check) then
              && p'.pluginState == PaymentIdle && p'.taskState == Initialized
              && Logs(p.history, p'.history, s, s.initiatedAt.value, resolved, "TIMEOUT")
            else p'.pluginState == p.pluginState && p'.taskState == p.taskState && p'.history == p.history)
        && (if rotate > Expiry(ttl, s)
            then p'.session.Some? && NewlyGenerated(p'.session.value, ids, created)
            else p'.session == p.session)
  {
  }

  // ---- The history of a run -------------------------------------------------------------------

  /** The entry was made by this event for the session of the payment before it. */
  ghost predicate MadeBy(ttl: int, p: PaymentView, e: Event, t: Transaction) {
    && p.pluginState.PaymentInProgress? && p.session.Some?
    && t.transactionID == p.session.value.transactionID && t.referenceNumber == p.session.value.referenceNumber
    && match e
       case Fail(_, resolved, _, _) => t.status == "FAILED" && t.resolvedAt == resolved
       case Render(check, resolved, _, _, _) =>
         t.status == "TIMEOUT" && t.resolvedAt == resolved && WindowOver(ttl, p, check)
         && Some(t.initiatedAt) == p.session.value.initiatedAt
       case _ => false
  }

  lemma StepLogs(ttl: int, p: PaymentView, e: Event)
    ensures var p' := Step(ttl, p, e);
      p'.history == p.history
      || (|p'.history| == |p.history| + 1 && p'.history[..|p.history|] == p.history
          && MadeBy(ttl, p, e, p'.history[|p.history|]))
  {
    match e
    case StartPayment(now, ids) => StartExact(ttl, p, now, ids);
    case Render(a, b, c, d, ids) => RenderingExact(ttl, p, a, b, c, d, ids);
    case Initiate(m, s, a, c, b) => InitiationExact(ttl, p, m, s, a, c, b);
    case Succeed(now) => SuccessExact(ttl, p, now);
    case Fail(a, b, c, ids) => FailureExact(ttl, p, a, b, c, ids);
  }

  /** Every entry of the history of a run tells of one failure report or one timeout, and of the session concerned. */
  lemma {:induction false} HistoryTells(ttl: int, es: seq<Event>, j: nat) returns (i: nat)
    requires j < |Run(ttl, es).history|
    ensures i < |es| && MadeBy(ttl, Run(ttl, es[..i]), es[i], Run(ttl, es).history[j])
  {
    var n := |es| - 1;
    var h := Run(ttl, es[..n]).history;
    StepLogs(ttl, Run(ttl, es[..n]), es[n]);
    if j < |h| {
      i := HistoryTells(ttl, es[..n], j);
      assert es[..n][..i] == es[..i];
      assert Run(ttl, es).history[j] == h[j];
    } else {
      i := n;
    }
  }
}
