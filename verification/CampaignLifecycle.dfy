/** The closed campaign transition table. */
module CampaignLifecycle {
  import opened Shared

  datatype CampaignState =
    | Draft | Validating | Ready | Scheduled | Running | Pausing | Paused
    | DispatchCompleted | Cancelling | Cancelled | Failed

  datatype Trigger =
    | Validate | ValidationPassed | ValidationFailed | LaunchScheduled | LaunchNow | ScheduleDue
    | Pause | PauseSettled | Resume | DispatchFinished | Cancel | CancelSettled
    | OrchestrationFailed | RetryFailed

  /** The state a trigger leads to, or `None` when the table refuses it. */
  function Transition(from: CampaignState, trigger: Trigger): Option<CampaignState> {
    match trigger
    case Validate => if from.Draft? then Some(Validating) else None
    case ValidationPassed => if from.Validating? then Some(Ready) else None
    case ValidationFailed => if from.Validating? then Some(Draft) else None
    case LaunchScheduled => if from.Ready? then Some(Scheduled) else None
    case LaunchNow => if from.Ready? then Some(Running) else None
    case ScheduleDue => if from.Scheduled? then Some(Running) else None
    case Pause => if from.Running? then Some(Pausing) else None
    case PauseSettled => if from.Pausing? then Some(Paused) else None
    case Resume => if from.Paused? then Some(Running) else None
    case DispatchFinished => if from.Running? || from.Pausing? then Some(DispatchCompleted) else None
    case Cancel =>
      if from.Scheduled? || from.Running? || from.Pausing? || from.Paused? then Some(Cancelling) else None
    case CancelSettled => if from.Cancelling? then Some(Cancelled) else None
    case OrchestrationFailed =>
      if from.Validating? || from.Scheduled? || from.Running? || from.Pausing? || from.Paused? || from.Cancelling?
      then Some(Failed) else None
    case RetryFailed => if from.DispatchCompleted? || from.Failed? then Some(Running) else None
  }

  datatype Action = PauseAction | ResumeAction | CancelAction

  /** The state an operator action settles in: pause and cancel pass through their settling states. */
  function ControlTarget(from: CampaignState, action: Action): Option<CampaignState> {
    match action
    case ResumeAction => Transition(from, Resume)
    case PauseAction =>
      (match Transition(from, Pause)
       case None => None
       case Some(pausing) => Transition(pausing, PauseSettled))
    case CancelAction =>
      (match Transition(from, Cancel)
       case None => None
       case Some(cancelling) => Transition(cancelling, CancelSettled))
  }
}
