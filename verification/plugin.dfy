/** Task states, plugin states and the transition tables of the three plugins. */
module Plugin {
  import opened Wrappers

  datatype TaskState = Initialized | InProgress | Completed | Failed {
    predicate Terminal() { Completed? || Failed? }
  }

  datatype TaskType = SimpleForm | WaitForEvent | Payment

  /** The plugin-level states of all plugins; NotStarted is stored as the empty string. */
  datatype PluginState =
    | NotStarted
    | FormInitialized | Draft | Submitted | OgaAcknowledged | OgaFeedbackProvided | OgaReviewed | SubmissionFailed
    | PaymentIdle | PaymentInProgress | PaymentCompleted
    | NotifiedService | NotifyFailed | ReceivedCallback

  /** The action strings the plugins know, and every other string. */
  datatype Action =
    | Start
    | SaveAsDraft | SubmitForm | OgaVerification | OgaFeedback
    | SubmitComplete | SubmitAwaitOga | SubmitFailed | OgaApproved | OgaRejected
    | InitiatePayment | PaymentSuccess | PaymentFailed | PaymentTimeout
    | StartFailed | Retry
    | Other(name: string)

  datatype TransitionOutcome = TransitionOutcome(nextPluginState: PluginState, nextTaskState: Option<TaskState>)

  type FSM = map<(PluginState, Action), TransitionOutcome>

  predicate CanTransition(fsm: FSM, s: PluginState, a: Action) {
    (s, a) in fsm
  }

  function SimpleFormFSM(): FSM {
    map[
      (NotStarted, Start) := TransitionOutcome(FormInitialized, None),
      (FormInitialized, SaveAsDraft) := TransitionOutcome(Draft, Some(InProgress)),
      (Draft, SaveAsDraft) := TransitionOutcome(Draft, Some(InProgress)),
      (SubmissionFailed, SaveAsDraft) := TransitionOutcome(Draft, Some(InProgress)),
      (FormInitialized, SubmitComplete) := TransitionOutcome(Submitted, Some(Completed)),
      (Draft, SubmitComplete) := TransitionOutcome(Submitted, Some(Completed)),
      (SubmissionFailed, SubmitComplete) := TransitionOutcome(Submitted, Some(Completed)),
      (FormInitialized, SubmitAwaitOga) := TransitionOutcome(OgaAcknowledged, Some(InProgress)),
      (Draft, SubmitAwaitOga) := TransitionOutcome(OgaAcknowledged, Some(InProgress)),
      (SubmissionFailed, SubmitAwaitOga) := TransitionOutcome(OgaAcknowledged, Some(InProgress)),
      (OgaFeedbackProvided, SubmitAwaitOga) := TransitionOutcome(OgaAcknowledged, Some(InProgress)),
      (FormInitialized, SubmitFailed) := TransitionOutcome(SubmissionFailed, Some(InProgress)),
      (Draft, SubmitFailed) := TransitionOutcome(SubmissionFailed, Some(InProgress)),
      (OgaFeedbackProvided, SubmitFailed) := TransitionOutcome(SubmissionFailed, Some(InProgress)),
      (OgaAcknowledged, OgaApproved) := TransitionOutcome(OgaReviewed, Some(Completed)),
      (OgaAcknowledged, OgaRejected) := TransitionOutcome(OgaReviewed, Some(Failed)),
      (OgaAcknowledged, OgaFeedback) := TransitionOutcome(OgaFeedbackProvided, Some(InProgress)),
      (OgaFeedbackProvided, OgaApproved) := TransitionOutcome(OgaReviewed, Some(Completed)),
      (OgaFeedbackProvided, OgaRejected) := TransitionOutcome(OgaReviewed, Some(Failed))
    ]
  }

  function PaymentFSM(): FSM {
    map[
      (NotStarted, Start) := TransitionOutcome(PaymentIdle, None),
      (PaymentIdle, InitiatePayment) := TransitionOutcome(PaymentInProgress, Some(InProgress)),
      (PaymentInProgress, InitiatePayment) := TransitionOutcome(PaymentInProgress, Some(InProgress)),
      (PaymentInProgress, PaymentSuccess) := TransitionOutcome(PaymentCompleted, Some(Completed)),
      (PaymentInProgress, PaymentFailed) := TransitionOutcome(PaymentIdle, Some(Initialized)),
      (PaymentInProgress, PaymentTimeout) := TransitionOutcome(PaymentIdle, Some(Initialized))
    ]
  }

  /** The completing action is the public OGA_VERIFICATION string. */
  function WaitForEventFSM(): FSM {
    map[
      (NotStarted, Start) := TransitionOutcome(NotifiedService, Some(InProgress)),
      (NotStarted, StartFailed) := TransitionOutcome(NotifyFailed, Some(InProgress)),
      (NotifyFailed, Retry) := TransitionOutcome(NotifiedService, Some(InProgress)),
      (NotifiedService, OgaVerification) := TransitionOutcome(ReceivedCallback, Some(Completed))
    ]
  }

  function FSMOf(t: TaskType): FSM {
    match t
    case SimpleForm => SimpleFormFSM()
    case Payment => PaymentFSM()
    case WaitForEvent => WaitForEventFSM()
  }

  predicate Ends(o: TransitionOutcome) {
    o.nextTaskState.Some? && o.nextTaskState.value.Terminal()
  }

  /** A transition that ends the task leads to a plugin state without outgoing edges. */
  ghost predicate EndsInSinks(fsm: FSM) {
    forall k, a | k in fsm && Ends(fsm[k]) :: (fsm[k].nextPluginState, a) !in fsm
  }

  lemma FSMsEndInSinks(t: TaskType)
    ensures EndsInSinks(FSMOf(t))
  {
  }
}
