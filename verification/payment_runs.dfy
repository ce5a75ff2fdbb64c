/** What every run of a payment keeps. */
module PaymentRuns {
  import opened Wrappers
  import opened Plugin
  import opened PaymentSpec

  // ---- The clock ------------------------------------------------------------------------------

  predicate Ordered(e: Event) {
    match e
    case Render(a, b, c, d, _) => a <= b <= c <= d
    case Fail(a, b, c, _) => a <= b <= c
    case Initiate(_, _, a, _, b) => a <= b
    case _ => true
  }

  function First(e: Event): int {
    match e
    case Render(a, _, _, _, _) => a
    case Initiate(_, _, a, _, _) => a
    case Fail(a, _, _, _) => a
    case Succeed(a) => a
    case StartPayment(a, _) => a
  }

  function Last(e: Event): int {
    match e
    case Render(_, _, _, d, _) => d
    case Initiate(_, _, _, _, b) => b
    case Fail(_, _, c, _) => c
    case Succeed(a) => a
    case StartPayment(a, _) => a
  }

  ghost predicate Monotone(es: seq<Event>) {
    && (forall i | 0 <= i < |es| :: Ordered(es[i]))
    && (forall i, j | 0 <= i < j < |es| :: Last(es[i]) <= First(es[j]))
  }

  // ---- Client time stamps ---------------------------------------------------------------------

  /**
   * A client may date its payment back, but not by more than the grace period before the session,
   * unless the session has expired by the time the initiation is stored.
   */
  predicate Timely(ttl: int, p: PaymentView, e: Event) {
    e.Initiate? && e.stamp.Some? && p.session.Some? ==>
      e.stamp.value >= p.session.value.generatedAt - PAYMENT_THRESHOLD || Expired(ttl, p.session.value, e.now)
  }

  ghost predicate AllTimely(ttl: int, es: seq<Event>) {
    forall i | 0 <= i < |es| :: Timely(ttl, Run(ttl, es[..i]), es[i])
  }

  // ---- The invariant --------------------------------------------------------------------------

  ghost predicate Numbered(h: seq<Transaction>) {
    forall i | 0 <= i < |h| :: h[i].round == i + 1
  }

  predicate Pristine(s: Session) {
    s.initiatedAt.None? && s.checkoutURL == ""
  }

  predicate Live(s: PluginState) {
    s.PaymentIdle? || s.PaymentInProgress? || s.PaymentCompleted?
  }

  ghost predicate Sound(ttl: int, p: PaymentView, clock: int) {
    && (p.pluginState.NotStarted? || Live(p.pluginState))
    && (p.pluginState.NotStarted? ==> p.history == [])
    && (Live(p.pluginState) ==> p.session.Some? && p.session.value.generatedAt <= clock)
    && (p.pluginState.PaymentIdle? ==> Pristine(p.session.value))
    && (p.pluginState.PaymentInProgress? && p.session.value.initiatedAt.Some? ==>
          p.session.value.initiatedAt.value >= p.session.value.generatedAt - PAYMENT_THRESHOLD
          || Expired(ttl, p.session.value, clock))
    && Numbered(p.history)
  }

  /** The edges of the state machine, named. */
  lemma Edges(p: PaymentView)
    ensures Fired(p, Action.Start).pluginState == if p.pluginState.NotStarted? then PaymentIdle else p.pluginState
    ensures Fired(p, PaymentTimeout).pluginState
         == if p.pluginState.PaymentInProgress? then PaymentIdle else p.pluginState
    ensures Fired(p, PaymentFailed).pluginState
         == if p.pluginState.PaymentInProgress? then PaymentIdle else p.pluginState
    ensures Fired(p, PaymentSuccess).pluginState
         == if p.pluginState.PaymentInProgress? then PaymentCompleted else p.pluginState
    ensures Fired(p, InitiatePayment).pluginState
         == if p.pluginState.PaymentIdle? || p.pluginState.PaymentInProgress? then PaymentInProgress else p.pluginState
    ensures CanTransition(PaymentFSM(), p.pluginState, InitiatePayment)
        <==> p.pluginState.PaymentIdle? || p.pluginState.PaymentInProgress?
    ensures CanTransition(PaymentFSM(), p.pluginState, PaymentFailed) <==> p.pluginState.PaymentInProgress?
    ensures CanTransition(PaymentFSM(), p.pluginState, Action.Start) <==> p.pluginState.NotStarted?
  {
  }

  function Returned(p: PaymentView, p': PaymentView): nat {
    if p.pluginState.PaymentInProgress? && p'.pluginState.PaymentIdle? then 1 else 0
  }

  lemma StepSound(ttl: int, p: PaymentView, e: Event, clock: int)
    requires Sound(ttl, p, clock) && Ordered(e) && clock <= First(e) && Timely(ttl, p, e)
    ensures var p' := Step(ttl, p, e);
      && Sound(ttl, p', Last(e))
      && p.history <= p'.history && |p'.history| == |p.history| + Returned(p, p')
      && (e.Render? && TimedOut(ttl, p, e.check) && !p.pluginState.PaymentCompleted? ==>
            p'.session == Some(NewSession(e.ids, e.created)))
  {
    Edges(p);
  }

  function Clock(es: seq<Event>, start: int): int {
    if es == [] then start else Last(es[|es| - 1])
  }

  lemma MonotonePrefix(es: seq<Event>)
    requires es != [] && Monotone(es)
    ensures Monotone(es[..|es| - 1]) && Ordered(es[|es| - 1])
    ensures |es| > 1 ==> Last(es[|es| - 2]) <= First(es[|es| - 1])
  {
  }

  lemma TimelyPrefix(ttl: int, es: seq<Event>)
    requires es != [] && AllTimely(ttl, es)
    ensures AllTimely(ttl, es[..|es| - 1]) && Timely(ttl, Run(ttl, es[..|es| - 1]), es[|es| - 1])
  {
    var before := es[..|es| - 1];
    forall i | 0 <= i < |before| ensures Timely(ttl, Run(ttl, before[..i]), before[i]) {
      assert before[..i] == es[..i];
    }
  }

  /** How often a run went from IN_PROGRESS back to IDLE. */
  function Returns(ttl: int, es: seq<Event>): nat {
    if es == [] then 0
    else Returns(ttl, es[..|es| - 1]) + Returned(Run(ttl, es[..|es| - 1]), Run(ttl, es))
  }

  /** One history entry for every return to IDLE, numbered in order; IDLE always has an untouched session. */
  lemma {:induction false} RunSound(ttl: int, es: seq<Event>)
    requires Monotone(es) && AllTimely(ttl, es)
    ensures Sound(ttl, Run(ttl, es), Clock(es, 0)) && |Run(ttl, es).history| == Returns(ttl, es)
  {
    if es != [] {
      var before, e := es[..|es| - 1], es[|es| - 1];
      MonotonePrefix(es);
      TimelyPrefix(ttl, es);
      RunSound(ttl, before);
      assert Ordered(e);
      if before == [] {
        assert Run(ttl, before) == NEW_PAYMENT;
        FirstStep(ttl, e);
      } else {
        StepSound(ttl, Run(ttl, before), e, Clock(before, 0));
      }
    }
  }

  lemma FirstStep(ttl: int, e: Event)
    requires Ordered(e)
    ensures Sound(ttl, Step(ttl, NEW_PAYMENT, e), Last(e)) && Step(ttl, NEW_PAYMENT, e).history == []
    ensures Returned(NEW_PAYMENT, Step(ttl, NEW_PAYMENT, e)) == 0
  {
    Edges(NEW_PAYMENT);
  }

  lemma StepGrows(ttl: int, p: PaymentView, e: Event)
    ensures p.history <= Step(ttl, p, e).history
  {
  }

  /** The history is append-only, whatever the clock and the clients do. */
  lemma {:induction false} HistoryGrows(ttl: int, es: seq<Event>, later: seq<Event>)
    ensures Run(ttl, es).history <= Run(ttl, es + later).history
    decreases |later|
  {
    if later == [] {
      assert es + later == es;
    } else {
      var all, before := es + later, es + later[..|later| - 1];
      assert all[..|all| - 1] == before;
      HistoryGrows(ttl, es, later[..|later| - 1]);
      StepGrows(ttl, Run(ttl, before), all[|all| - 1]);
    }
  }

  // ---- Timeouts and rotation ------------------------------------------------------------------

  ghost predicate TimeoutsRotate(ttl: int, p: PaymentView)
    requires p.session.Some?
  {
    forall e: Event :: e.Render? && Ordered(e) && TimedOut(ttl, p, e.check) ==>
      AfterRender(ttl, p, e).session == Some(NewSession(e.ids, e.created))
  }

  /** Every timeout rotates the session exactly when it was not initiated more than the grace period early. */
  lemma TimeoutsRotateExact(ttl: int, p: PaymentView)
    requires p.pluginState.PaymentInProgress? && p.session.Some? && p.session.value.initiatedAt.Some?
    ensures TimeoutsRotate(ttl, p) <==>
      p.session.value.initiatedAt.value >= p.session.value.generatedAt - PAYMENT_THRESHOLD
  {
    var s := p.session.value;
    if s.initiatedAt.value < s.generatedAt - PAYMENT_THRESHOLD {
      var t := s.generatedAt + ttl * SECOND;
      var e := Render(t, t, t, t, Fresh("", ""));
      assert TimedOut(ttl, p, e.check) && AfterRender(ttl, p, e).session == p.session;
    }
  }

  /** A session rotated in IN_PROGRESS has forgotten when it was initiated: no rendering times it out any more. */
  lemma {:induction false} RotatedNeverTimesOut(ttl: int, es: seq<Event>, later: seq<Event>)
    requires var p := Run(ttl, es);
      p.pluginState.PaymentInProgress? && p.session.Some? && p.session.value.initiatedAt.None?
    requires forall e | e in later :: e.Render?
    ensures var p' := Run(ttl, es + later);
      && p'.pluginState.PaymentInProgress? && p'.history == Run(ttl, es).history
      && p'.session.Some? && p'.session.value.initiatedAt.None?
    decreases |later|
  {
    if later == [] {
      assert es + later == es;
    } else {
      var all := es + later;
      assert all[..|all| - 1] == es + later[..|later| - 1];
      assert later[|later| - 1] in later;
      RotatedNeverTimesOut(ttl, es, later[..|later| - 1]);
    }
  }

  /** When that happens: the session expires before the payment window closes. */
  lemma RotatedInProgressExact(ttl: int, p: PaymentView, e: Event)
    requires e.Render? && p.pluginState.PaymentInProgress? && p.session.Some? && p.session.value.initiatedAt.Some?
    ensures var p' := AfterRender(ttl, p, e);
      p'.pluginState.PaymentInProgress? && p'.session.Some? && p'.session.value.initiatedAt.None? <==>
      Expired(ttl, p.session.value, e.rotate)
      && e.check <= p.session.value.initiatedAt.value + (ttl * SECOND + PAYMENT_THRESHOLD)
  {
    Edges(p);
  }

  // ---- No transaction is recorded twice -------------------------------------------------------

  function FreshIDs(e: Event): set<string> {
    match e
    case StartPayment(_, ids) => {ids.transactionID}
    case Render(_, _, _, _, ids) => {ids.transactionID}
    case Fail(_, _, _, ids) => {ids.transactionID}
    case _ => {}
  }

  ghost predicate DistinctIDs(es: seq<Event>) {
    forall i, j | 0 <= i < j < |es| :: FreshIDs(es[i]) !! FreshIDs(es[j])
  }

  function UsedIDs(es: seq<Event>): set<string> {
    if es == [] then {} else UsedIDs(es[..|es| - 1]) + FreshIDs(es[|es| - 1])
  }

  lemma {:induction false} StillFresh(es: seq<Event>, e: Event)
    requires forall i | 0 <= i < |es| :: FreshIDs(es[i]) !! FreshIDs(e)
    ensures UsedIDs(es) !! FreshIDs(e)
  {
    if es != [] {
      StillFresh(es[..|es| - 1], e);
      assert FreshIDs(es[|es| - 1]) !! FreshIDs(e);
    }
  }

  ghost predicate Unrepeated(h: seq<Transaction>) {
    forall i, j | 0 <= i < j < |h| :: h[i].transactionID != h[j].transactionID
  }

  /** The session that can still fail or time out is in no history entry. */
  ghost predicate OpenSessionUnrecorded(p: PaymentView, used: set<string>) {
    && Unrepeated(p.history)
    && (forall t | t in p.history :: t.transactionID in used)
    && (p.session.Some? ==> p.session.value.transactionID in used)
    && (p.session.Some? && !p.pluginState.PaymentCompleted? ==>
          forall t | t in p.history :: t.transactionID != p.session.value.transactionID)
  }

  lemma RecordedOnce(p: PaymentView, t: Transaction)
    requires Unrepeated(p.history) && forall u | u in p.history :: u.transactionID != t.transactionID
    ensures Unrepeated(p.history + [t])
  {
  }

  lemma StepRecordsOnce(ttl: int, p: PaymentView, e: Event, clock: int, used: set<string>)
    requires Sound(ttl, p, clock) && Ordered(e) && clock <= First(e) && Timely(ttl, p, e)
    requires OpenSessionUnrecorded(p, used) && used !! FreshIDs(e)
    ensures OpenSessionUnrecorded(Step(ttl, p, e), used + FreshIDs(e))
  {
    Edges(p);
    StepSound(ttl, p, e, clock);
    var p' := Step(ttl, p, e);
    if p'.history != p.history {
      var t := p'.history[|p.history|];
      assert p'.history == p.history + [t];
      RecordedOnce(p, t);
    }
  }

  /** With unique identifiers, no transaction of a run is recorded twice. */
  lemma {:induction false} NoTransactionTwice(ttl: int, es: seq<Event>)
    requires Monotone(es) && AllTimely(ttl, es) && DistinctIDs(es)
    ensures OpenSessionUnrecorded(Run(ttl, es), UsedIDs(es))
  {
    if es != [] {
      var before, e := es[..|es| - 1], es[|es| - 1];
      MonotonePrefix(es);
      TimelyPrefix(ttl, es);
      RunSound(ttl, before);
      NoTransactionTwice(ttl, before);
      forall i | 0 <= i < |before| ensures FreshIDs(before[i]) !! FreshIDs(e) {
        assert before[i] == es[i];
      }
      StillFresh(before, e);
      assert Ordered(e);
      if before == [] {
        assert Run(ttl, before) == NEW_PAYMENT;
        StepRecordsOnce(ttl, NEW_PAYMENT, e, First(e), {});
      } else {
        StepRecordsOnce(ttl, Run(ttl, before), e, Clock(before, 0), UsedIDs(before));
      }
    }
  }

  // ---- Exactly the timely initiations are safe ------------------------------------------------

  /** Events that may follow: the clock goes on, identifiers stay unique, and initiations are timely. */
  ghost predicate Follows(ttl: int, es: seq<Event>, later: seq<Event>) {
    && Monotone(es + later) && DistinctIDs(es + later)
    && forall i | 0 <= i < |later| :: Timely(ttl, Run(ttl, es + later[..i]), later[i])
  }

  /** After es, whatever timely events follow, no transaction is recorded twice. */
  ghost predicate Safe(ttl: int, es: seq<Event>) {
    forall later | Follows(ttl, es, later) :: Unrepeated(Run(ttl, es + later).history)
  }

  lemma AllTimelyAppend(ttl: int, es: seq<Event>, later: seq<Event>)
    requires AllTimely(ttl, es) && Follows(ttl, es, later)
    ensures AllTimely(ttl, es + later)
  {
    var all := es + later;
    forall i | 0 <= i < |all| ensures Timely(ttl, Run(ttl, all[..i]), all[i]) {
      if i < |es| {
        assert all[..i] == es[..i];
      } else {
        assert all[..i] == es + later[..i - |es|] && all[i] == later[i - |es|];
      }
    }
  }

  lemma TimelyNext(ttl: int, es: seq<Event>, e: Event)
    requires AllTimely(ttl, es) && Timely(ttl, Run(ttl, es), e)
    ensures AllTimely(ttl, es + [e])
  {
    var all := es + [e];
    forall i | 0 <= i < |all| ensures Timely(ttl, Run(ttl, all[..i]), all[i]) {
      assert all[..i] == es[..i];
      if i == |es| {
        assert es[..i] == es;
      }
    }
  }

  lemma TimelyIsSafe(ttl: int, es: seq<Event>)
    requires AllTimely(ttl, es)
    ensures Safe(ttl, es)
  {
    forall later | Follows(ttl, es, later) ensures Unrepeated(Run(ttl, es + later).history) {
      AllTimelyAppend(ttl, es, later);
      NoTransactionTwice(ttl, es + later);
    }
  }

  /** A text longer than finitely many others. */
  lemma {:induction false} Longer(used: set<string>) returns (s: string)
    ensures forall u | u in used :: |u| < |s|
    decreases |used|
  {
    s := "x";
    if used != {} {
      var x :| x in used;
      s := Longer(used - {x});
      if |s| <= |x| {
        s := x + "x";
      }
      assert forall u | u in used :: u == x || u in used - {x};
    }
  }

  /** Three events at the instant t, of which the first and the last bring these new identifiers. */
  ghost predicate AtOnce(later: seq<Event>, t: int, a: string, b: string) {
    && |later| == 3
    && (forall i | 0 <= i < 3 :: Ordered(later[i]) && First(later[i]) == t && Last(later[i]) == t)
    && FreshIDs(later[0]) == {a} && FreshIDs(later[1]) == {} && FreshIDs(later[2]) == {b}
  }

  /** Three timely events after which some transaction is recorded twice. */
  ghost predicate Repeats(ttl: int, p: PaymentView, later: seq<Event>) {
    |later| == 3 &&
    var q := Step(ttl, p, later[0]);
    var r := Step(ttl, q, later[1]);
    && Timely(ttl, p, later[0]) && Timely(ttl, q, later[1]) && Timely(ttl, r, later[2])
    && !Unrepeated(Step(ttl, r, later[2]).history)
  }

  lemma RepeatsBy(ttl: int, p: PaymentView, q: PaymentView, r: PaymentView, later: seq<Event>)
    requires |later| == 3 && q == Step(ttl, p, later[0]) && r == Step(ttl, q, later[1])
    requires Timely(ttl, p, later[0]) && Timely(ttl, q, later[1]) && Timely(ttl, r, later[2])
    requires !Unrepeated(Step(ttl, r, later[2]).history)
    ensures Repeats(ttl, p, later)
  {
  }

  /** What goes wrong: time out at the last instant of the session, initiate it again, and fail. */
  lemma Mishap(ttl: int, p: PaymentView, t: int, a: string, b: string) returns (later: seq<Event>)
    requires p.pluginState.PaymentInProgress? && p.session.Some? && p.session.value.initiatedAt.Some?
    requires p.session.value.initiatedAt.value < p.session.value.generatedAt - PAYMENT_THRESHOLD
    requires t == p.session.value.generatedAt + ttl * SECOND
    ensures AtOnce(later, t, a, b) && Repeats(ttl, p, later)
  {
    var d, e, f := Render(t, t, t, t, Fresh(a, a)), Initiate(None, None, t, Some(""), t), Fail(t, t, t, Fresh(b, b));
    later := [d, e, f];
    var q := Step(ttl, p, d);
    Edges(p);
    assert q.pluginState.PaymentIdle? && q.session == p.session;
    assert q.history == p.history + [q.history[|p.history|]];
    var r := Step(ttl, q, e);
    Edges(q);
    assert r.pluginState.PaymentInProgress? && r.history == q.history;
    Edges(r);
    var h := Step(ttl, r, f).history;
    assert h == r.history + [h[|r.history|]];
    assert h[|p.history|].transactionID == h[|p.history| + 1].transactionID;
    RepeatsBy(ttl, p, q, r, later);
  }

  lemma RunThree(ttl: int, es: seq<Event>, later: seq<Event>)
    requires |later| == 3
    ensures var q := Step(ttl, Run(ttl, es), later[0]);
      var r := Step(ttl, q, later[1]);
      && Run(ttl, es + later[..0]) == Run(ttl, es) && Run(ttl, es + later[..1]) == q
      && Run(ttl, es + later[..2]) == r && Run(ttl, es + later) == Step(ttl, r, later[2])
  {
    assert es + later[..0] == es;
    assert es + later[..1] == es + [later[0]];
    assert es + later[..2] == (es + [later[0]]) + [later[1]];
    assert es + later == ((es + [later[0]]) + [later[1]]) + [later[2]];
    Ran(ttl, es, later[0]);
    Ran(ttl, es + [later[0]], later[1]);
    Ran(ttl, (es + [later[0]]) + [later[1]], later[2]);
  }

  lemma UsedCovers(es: seq<Event>, i: nat)
    requires i < |es|
    ensures FreshIDs(es[i]) <= UsedIDs(es)
  {
    if i < |es| - 1 {
      UsedCovers(es[..|es| - 1], i);
    }
  }

  lemma AtOnceFollows(es: seq<Event>, later: seq<Event>, t: int, a: string, b: string)
    requires es != [] && Monotone(es) && DistinctIDs(es) && Last(es[|es| - 1]) <= t && AtOnce(later, t, a, b)
    requires a !in UsedIDs(es) && b !in UsedIDs(es) && a != b
    ensures Monotone(es + later) && DistinctIDs(es + later)
  {
    var all := es + later;
    forall i | 0 <= i < |es| ensures Last(es[i]) <= t && FreshIDs(es[i]) <= UsedIDs(es) {
      UsedCovers(es, i);
      if i < |es| - 1 {
        assert Last(es[i]) <= First(es[|es| - 1]);
        assert Ordered(es[|es| - 1]);
      }
    }
    forall i, j | 0 <= i < j < |all| ensures Last(all[i]) <= First(all[j]) && FreshIDs(all[i]) !! FreshIDs(all[j]) {
      if j >= |es| {
        assert all[j] == later[j - |es|];
        assert i >= |es| ==> all[i] == later[i - |es|];
      }
    }
  }

  lemma RepeatsFollows(ttl: int, es: seq<Event>, later: seq<Event>)
    requires Repeats(ttl, Run(ttl, es), later) && Monotone(es + later) && DistinctIDs(es + later)
    ensures Follows(ttl, es, later) && !Unrepeated(Run(ttl, es + later).history)
  {
    RunThree(ttl, es, later);
    forall i | 0 <= i < |later| ensures Timely(ttl, Run(ttl, es + later[..i]), later[i]) {
      assert i == 0 || i == 1 || i == 2;
    }
  }

  lemma RepeatedIsNotSafe(ttl: int, es: seq<Event>, later: seq<Event>)
    requires Repeats(ttl, Run(ttl, es), later) && Monotone(es + later) && DistinctIDs(es + later)
    ensures !Safe(ttl, es)
  {
    RepeatsFollows(ttl, es, later);
  }

  /** The session as left by an untimely initiation. */
  predicate Untimely(ttl: int, p: PaymentView, clock: int) {
    && p.pluginState.PaymentInProgress? && p.session.Some? && p.session.value.initiatedAt.Some?
    && p.session.value.initiatedAt.value < p.session.value.generatedAt - PAYMENT_THRESHOLD
    && !Expired(ttl, p.session.value, clock)
  }

  lemma UntimelyIsNotSafe(ttl: int, es: seq<Event>)
    requires es != [] && Monotone(es) && DistinctIDs(es) && Untimely(ttl, Run(ttl, es), Last(es[|es| - 1]))
    ensures !Safe(ttl, es)
  {
    var a := Longer(UsedIDs(es));
    var b := Longer(UsedIDs(es) + {a});
    var t := Run(ttl, es).session.value.generatedAt + ttl * SECOND;
    var later := Mishap(ttl, Run(ttl, es), t, a, b);
    AtOnceFollows(es, later, t, a, b);
    RepeatedIsNotSafe(ttl, es, later);
  }

  /** An accepted initiation is timely exactly when no continuation records a transaction twice. */
  lemma TimelyExact(ttl: int, es: seq<Event>, e: Event)
    requires e.Initiate? && Monotone(es + [e]) && DistinctIDs(es + [e]) && AllTimely(ttl, es)
    requires Accepts(ttl, Run(ttl, es), e.check, e.checkout)
    ensures Timely(ttl, Run(ttl, es), e) <==> Safe(ttl, es + [e])
  {
    if Timely(ttl, Run(ttl, es), e) {
      TimelyNext(ttl, es, e);
      TimelyIsSafe(ttl, es + [e]);
    } else {
      Edges(Run(ttl, es));
      Ran(ttl, es, e);
      UntimelyIsNotSafe(ttl, es + [e]);
    }
  }

  /** The latest client stamp that is too early for a session generated at 0. */
  function EarlyStamp(ttl: nat): int {
    -(ttl * SECOND + PAYMENT_THRESHOLD) - 1
  }

  function EarlyStart(ttl: nat, url: string): seq<Event> {
    [StartPayment(0, Fresh("a", "a")), Initiate(None, Some(EarlyStamp(ttl)), 0, Some(url), 0),
     Render(0, 0, 0, 0, Fresh("b", "b"))]
  }

  function UsedSession(url: string, at: int): Session {
    Session("a", "a", url, DEFAULT_METHOD, 0, Some(at))
  }

  lemma EarlyInitiates(ttl: nat, url: string)
    ensures Run(ttl, EarlyStart(ttl, url)[..2])
         == PaymentView(InProgress, PaymentInProgress, Some(UsedSession(url, EarlyStamp(ttl))), [])
  {
    var es := EarlyStart(ttl, url);
    assert es[..1] == [] + [es[0]] && es[..2] == es[..1] + [es[1]];
    Ran(ttl, [], es[0]);
    assert Run(ttl, es[..1]) == PaymentView(Initialized, PaymentIdle, Some(NewSession(Fresh("a", "a"), 0)), []);
    Ran(ttl, es[..1], es[1]);
  }

  lemma EarlyTimesOut(ttl: nat, url: string)
    ensures Run(ttl, EarlyStart(ttl, url))
         == PaymentView(Initialized, PaymentIdle, Some(UsedSession(url, EarlyStamp(ttl))),
                        [Transaction("a", "a", EarlyStamp(ttl), 0, "TIMEOUT", 1)])
  {
    var es := EarlyStart(ttl, url);
    EarlyInitiates(ttl, url);
    assert es == es[..2] + [es[2]];
    Ran(ttl, es[..2], es[2]);
  }

  /** A client stamp that is too early makes IDLE keep a used session, whose transaction is then recorded twice. */
  lemma EarlyStampRecordsTwice(ttl: nat, url: string)
    ensures var first := EarlyStart(ttl, url);
      var p := Run(ttl, first);
      var q := Run(ttl, first + [Initiate(None, None, 0, Some(url), 0)] + [Fail(0, 0, 0, Fresh("c", "c"))]);
      && p.pluginState.PaymentIdle? && p.session.Some? && p.session.value.checkoutURL == url
      && |q.history| == 2 && q.history[0].transactionID == q.history[1].transactionID
  {
    var first := EarlyStart(ttl, url);
    var d, e := Initiate(None, None, 0, Some(url), 0), Fail(0, 0, 0, Fresh("c", "c"));
    EarlyTimesOut(ttl, url);
    Ran(ttl, first, d);
    assert Run(ttl, first + [d]).session == Some(UsedSession(url, 0))
        && Run(ttl, first + [d]).pluginState.PaymentInProgress?;
    Ran(ttl, first + [d], e);
  }

  lemma Ran(ttl: int, es: seq<Event>, e: Event)
    ensures Run(ttl, es + [e]) == Step(ttl, Run(ttl, es), e)
  {
    assert (es + [e])[..|es|] == es;
  }
}
