/**
 * One campaign as the rows the services keep about it, and every transaction that
 * changes those rows: the operator actions, the planner and the dispatcher.
 *
 * Row ids are positions: recipients in `ORDER BY id` order, commands and attempts in
 * insertion order. `workers` holds what a dispatcher process remembers between its
 * transactions, and `deliveries` what the provider really took for each recipient; no
 * table stores the latter.
 */
module CampaignModel {
  import opened Shared
  import opened CampaignLifecycle

  datatype Execution = Execution(state: CampaignState, stopVersion: nat)
  datatype QueueRow = QueueRow(availableAt: int, stopVersion: nat)

  datatype RecipientState =
    | Planned | Queued | InFlight | Accepted | Delivered | Read
    | FailedRecipient | SkippedRecipient | CancelledRecipient | UnknownRecipient
  datatype Recipient = Recipient(state: RecipientState, command: Option<nat>)

  datatype BudgetState = Reserved | Committed | Released | HeldUnknown
  /** Amounts are whole numbers of the sixth decimal the columns keep. */
  datatype Reservation = Reservation(estimated: nat, reserved: nat, committed: Option<nat>, state: BudgetState)

  datatype CommandState =
    | CommandQueued | Dispatching | ProviderAccepted | Rejected | RetryScheduled
    | CommandSkipped | CommandCancelled | CommandFailed | CommandUnknown
  /** `recipient` is the one the client message id names. */
  datatype Command = Command(recipient: nat, state: CommandState, fence: nat, version: nat)

  datatype Answer = AnswerAccepted | AnswerUnknown | AnswerRejected(retryable: bool)
  datatype Attempt = Attempt(command: nat, answer: Option<Answer>)

  datatype Outcome = OutcomeAccepted | OutcomeRejected | OutcomeUnknown | OutcomeRetry
  datatype Worker =
    | Claimed(command: nat, recipient: Option<nat>, version: nat, tries: nat)
    | Prepared(command: nat, recipient: Option<nat>, version: nat, tries: nat, attempt: nat)
    | Answered(command: nat, recipient: Option<nat>, version: nat, tries: nat, attempt: nat, answer: Answer)
    | Recorded(command: nat, recipient: Option<nat>, outcome: Outcome)

  datatype World = World(
    control: CampaignState,
    execution: Option<Execution>,
    queue: Option<QueueRow>,
    recipients: seq<Recipient>,
    budgets: seq<Reservation>,
    commands: seq<Command>,
    outbox: map<nat, nat>,
    attempts: seq<Attempt>,
    workers: map<nat, Worker>,
    deliveries: seq<nat>)

  function Initial(): World {
    World(Ready, None, None, [], [], [], map[], [], map[], [])
  }

  datatype Reply = Done | Conflict(code: string)

  // ---- Launch ----------------------------------------------------------------------

  datatype LaunchRequest = LaunchRequest(
    scheduledFor: Option<int>, now: int, connectionReady: bool, expiresAt: Option<int>,
    approved: bool, eligible: Option<nat>, budget: nat)

  /** `budget / eligible` as the six-decimal column stores it, a half rounded up. */
  function Share(budget: nat, eligible: nat): nat {
    if eligible == 0 then 0 else (2 * budget + eligible) / (2 * eligible)
  }

  function LaunchRefusal(w: World, q: LaunchRequest): Option<string> {
    if !q.connectionReady then Some("connection_not_ready")
    else if q.expiresAt.Some? && q.expiresAt.value <= q.now then Some("campaign_expired")
    else if !q.approved then Some("approval_required")
    else if q.eligible.None? then Some("audience_required")
    else if Transition(w.control, LaunchTrigger(q)).None? then Some("invalid_campaign_transition")
    else if w.execution.Some? then Some("campaign_already_launched")
    else None
  }

  function LaunchTrigger(q: LaunchRequest): Trigger {
    if q.scheduledFor.None? then LaunchNow else LaunchScheduled
  }

  function Launched(w: World, q: LaunchRequest): World
    requires LaunchRefusal(w, q).None?
  {
    var next := Transition(w.control, LaunchTrigger(q)).value;
    var n := q.eligible.value;
    var share := Share(q.budget, n);
    w.(control := next,
       execution := Some(Execution(next, 0)),
       queue := Some(QueueRow(if q.scheduledFor.Some? then q.scheduledFor.value else q.now, 0)),
       recipients := seq(n, i => Recipient(Planned, None)),
       budgets := seq(n, i => Reservation(share, share, None, Reserved)),
       deliveries := seq(n, i => 0))
  }

  // ---- Pause, resume, cancel -------------------------------------------------------

  /** The recipient whose current command is `c`: the join on `command_id`. */
  function Holder(w: World, c: nat): Option<nat> {
    if c < |w.commands| && w.commands[c].recipient < |w.recipients|
       && w.recipients[w.commands[c].recipient].command == Some(c)
    then Some(w.commands[c].recipient) else None
  }

  predicate Waiting(s: CommandState) {
    s.CommandQueued? || s.RetryScheduled?
  }

  /** Resume renews the fence of a command that is still waiting for a queued recipient. */
  function Refenced(w: World, c: nat, version: nat): Command
    requires c < |w.commands|
  {
    var h := Holder(w, c);
    if h.Some? && w.recipients[h.value].state.Queued? && Waiting(w.commands[c].state)
    then w.commands[c].(fence := version) else w.commands[c]
  }

  predicate Cancellable(x: Recipient) {
    x.state.Planned? || x.state.Queued?
  }

  function CancelledCommand(w: World, c: nat): Command
    requires c < |w.commands|
  {
    var h := Holder(w, c);
    if h.Some? && Cancellable(w.recipients[h.value]) && Waiting(w.commands[c].state)
    then w.commands[c].(state := CommandCancelled, version := w.commands[c].version + 1)
    else w.commands[c]
  }

  predicate CancelsRow(w: World, c: nat) {
    Holder(w, c).Some? && Cancellable(w.recipients[Holder(w, c).value])
  }

  function Release(b: Reservation): Reservation {
    if b.state.Reserved? then b.(state := Released, reserved := 0) else b
  }

  function CancelAll(w: World): World
    requires |w.budgets| == |w.recipients|
  {
    var recipients := seq(|w.recipients|, i requires 0 <= i < |w.recipients| =>
      if Cancellable(w.recipients[i]) then w.recipients[i].(state := CancelledRecipient) else w.recipients[i]);
    w.(recipients := recipients,
       outbox := map c | c in w.outbox && !CancelsRow(w, c) :: w.outbox[c],
       commands := seq(|w.commands|, c requires 0 <= c < |w.commands| => CancelledCommand(w, c)),
       budgets := seq(|w.budgets|, i requires 0 <= i < |w.budgets| =>
         if recipients[i].state.CancelledRecipient? then Release(w.budgets[i]) else w.budgets[i]))
  }

  function Controlled(w: World, action: Action, now: int): World
    requires ControlTarget(w.control, action).Some?
    requires |w.budgets| == |w.recipients|
  {
    var state := ControlTarget(w.control, action).value;
    if w.execution.None? then w.(control := state)
    else
      var version := w.execution.value.stopVersion + 1;
      var stopped := w.(control := state, execution := Some(Execution(state, version)), queue := None);
      match action
      case PauseAction => stopped
      case ResumeAction =>
        stopped.(queue := Some(QueueRow(now, version)),
                 commands := seq(|w.commands|, c requires 0 <= c < |w.commands| => Refenced(w, c, version)))
      case CancelAction => CancelAll(stopped)
  }

  // ---- Retry of failed recipients --------------------------------------------------

  /** The failed recipients a retry locks, in id order. */
  function FailedIds(w: World, from: nat := 0): (ids: seq<nat>)
    requires from <= |w.recipients|
    ensures forall r :: r in ids <==>
      from <= r < |w.recipients| && w.recipients[r].state.FailedRecipient? && w.recipients[r].command.Some?
    ensures forall i, j :: 0 <= i < j < |ids| ==> ids[i] < ids[j]
    decreases |w.recipients| - from
  {
    if from == |w.recipients| then []
    else
      var rest := FailedIds(w, from + 1);
      assert forall j :: 0 <= j < |rest| ==> rest[j] in rest;
      if w.recipients[from].state.FailedRecipient? && w.recipients[from].command.Some? then [from] + rest else rest
  }

  function RetryRefusal(w: World): Option<string>
    requires |w.budgets| == |w.recipients|
  {
    if w.execution.None? then Some("campaign_retry_not_launched")
    else if Transition(w.control, RetryFailed).None? then Some("campaign_retry_not_terminal")
    else if Transition(w.execution.value.state, RetryFailed).None? then Some("campaign_retry_not_terminal")
    else if FailedIds(w) == [] then Some("no_failed_recipients")
    else if exists r | r in FailedIds(w) :: !w.budgets[r].state.Released? then Some("campaign_retry_budget_unavailable")
    else None
  }

  function RetryOne(w: World, r: nat, version: nat): World
    requires r < |w.recipients| == |w.budgets|
  {
    var c := |w.commands|;
    w.(commands := w.commands + [Command(r, CommandQueued, version, 0)],
       budgets := w.budgets[r := w.budgets[r].(state := Reserved, reserved := w.budgets[r].estimated,
             committed := None)],
       recipients := w.recipients[r := Recipient(Queued, Some(c))],
       outbox := w.outbox[c := 0])
  }

  function RetryEach(w: World, ids: seq<nat>, version: nat): (z: World)
    requires |w.recipients| == |w.budgets|
    requires forall i :: 0 <= i < |ids| ==> ids[i] < |w.recipients|
    ensures |z.recipients| == |z.budgets| == |w.recipients|
  {
    if ids == [] then w
    else RetryOne(RetryEach(w, ids[..|ids| - 1], version), ids[|ids| - 1], version)
  }

  function Retried(w: World): World
    requires |w.budgets| == |w.recipients|
    requires RetryRefusal(w).None?
  {
    var version := w.execution.value.stopVersion + 1;
    var resumed := w.(execution := Some(Execution(Transition(w.execution.value.state, RetryFailed).value, version)));
    assert forall i :: 0 <= i < |FailedIds(w)| ==> FailedIds(w)[i] in FailedIds(w);
    RetryEach(resumed, FailedIds(w), version).(control := Transition(w.control, RetryFailed).value)
  }

  // ---- Planner ---------------------------------------------------------------------

  /** The first `limit` planned recipients in id order. */
  function PlannedIds(rs: seq<Recipient>, limit: nat, from: nat := 0): (ids: seq<nat>)
    requires from <= |rs|
    ensures |ids| <= limit
    ensures forall r :: r in ids ==> from <= r < |rs| && rs[r].state.Planned?
    ensures forall i, j :: 0 <= i < j < |ids| ==> ids[i] < ids[j]
    ensures |ids| < limit ==> forall r :: from <= r < |rs| && rs[r].state.Planned? ==> r in ids
    decreases |rs| - from
  {
    if from == |rs| || limit == 0 then []
    else if rs[from].state.Planned? then
      var rest := PlannedIds(rs, limit - 1, from + 1);
      assert forall j :: 0 <= j < |rest| ==> rest[j] in rest;
      [from] + rest
    else PlannedIds(rs, limit, from + 1)
  }

  predicate AnyPlanned(rs: seq<Recipient>) {
    exists r | 0 <= r < |rs| :: rs[r].state.Planned?
  }

  /** One planned recipient: a fenced command, or a skip when its content cannot be filled. */
  function PlanOne(w: World, r: nat, fillable: bool, version: nat): World
    requires r < |w.recipients| == |w.budgets|
  {
    if !fillable then
      w.(recipients := w.recipients[r := w.recipients[r].(state := SkippedRecipient)],
         budgets := w.budgets[r := Release(w.budgets[r])])
    else
      var c := |w.commands|;
      w.(commands := w.commands + [Command(r, CommandQueued, version, 0)],
         outbox := w.outbox[c := 0],
         recipients := w.recipients[r := Recipient(Queued, Some(c))])
  }

  function PlanEach(w: World, ids: seq<nat>, fillable: set<nat>, version: nat): (z: World)
    requires |w.recipients| == |w.budgets|
    requires forall i :: 0 <= i < |ids| ==> ids[i] < |w.recipients|
    ensures |z.recipients| == |z.budgets| == |w.recipients|
  {
    if ids == [] then w
    else
      var r := ids[|ids| - 1];
      PlanOne(PlanEach(w, ids[..|ids| - 1], fillable, version), r, r in fillable, version)
  }

  /** A scheduled execution whose queue row came due starts running. */
  function Started(w: World): World
    requires w.execution.Some?
  {
    if w.execution.value.state.Scheduled?
    then w.(execution := Some(w.execution.value.(state := Running)), control := Running) else w
  }

  predicate Due(w: World, now: int) {
    w.execution.Some? && w.queue.Some? && w.queue.value.availableAt <= now
  }

  predicate Runnable(w: World)
    requires w.execution.Some? && w.queue.Some?
  {
    w.queue.value.stopVersion == w.execution.value.stopVersion
    && (w.execution.value.state.Scheduled? || w.execution.value.state.Running?)
  }

  /** One planner call: the new rows and the number of recipients it handled (1 for a dropped queue row). */
  function PlanCall(w: World, now: int, limit: nat, fillable: set<nat>): (World, nat)
    requires |w.recipients| == |w.budgets|
  {
    if !Due(w, now) then (w, 0)
    else if !Runnable(w) then (w.(queue := None), 1)
    else
      var ids := PlannedIds(w.recipients, limit);
      assert forall i :: 0 <= i < |ids| ==> ids[i] in ids;
      var z := PlanEach(Started(w), ids, fillable, w.execution.value.stopVersion);
      (if AnyPlanned(z.recipients) then z else z.(queue := None), |ids|)
  }

  // ---- Dispatcher ------------------------------------------------------------------

  predicate Open(s: RecipientState) {
    s.Planned? || s.Queued? || s.InFlight?
  }

  /** Completes a running execution once no recipient is planned, queued or in flight. */
  function FinishIfDrained(w: World): World {
    if exists r | 0 <= r < |w.recipients| :: Open(w.recipients[r].state) then w
    else w.(
      execution := if w.execution.Some? && w.execution.value.state.Running?
                   then Some(w.execution.value.(state := DispatchCompleted)) else w.execution,
      control := if w.control.Running? then DispatchCompleted else w.control)
  }

  predicate Claimable(w: World, c: nat) {
    c in w.outbox && c < |w.commands| && w.execution.Some?
    && (var h := Holder(w, c);
        h.None? || (w.recipients[h.value].state.Queued? && w.execution.value.state.Running?
                    && w.commands[c].fence == w.execution.value.stopVersion))
  }

  function Claim(w: World, id: nat, c: nat): World {
    if id in w.workers || !Claimable(w, c) then w
    else
      var h := Holder(w, c);
      var version := w.commands[c].version + 1;
      w.(commands := w.commands[c := w.commands[c].(state := Dispatching, version := version)],
         recipients := if h.Some? && w.recipients[h.value].state.Queued?
                       then w.recipients[h.value := w.recipients[h.value].(state := InFlight)] else w.recipients,
         outbox := w.outbox[c := w.outbox[c] + 1],
         workers := w.workers[id := Claimed(c, h, version, w.outbox[c] + 1)])
  }

  /** What the send guard reads besides the campaign rows. */
  datatype Circumstances = Circumstances(
    approved: bool, expiresAt: Option<int>, now: int, consentWithdrawn: bool, otherwisePermitted: bool)

  datatype PermitRow = PermitRow(
    recipientState: RecipientState, executionState: CampaignState, executionVersion: nat,
    commandFence: nat, campaignState: CampaignState, around: Circumstances)

  function PermitRowOf(w: World, r: nat, around: Circumstances): Option<PermitRow> {
    if r < |w.recipients| && w.execution.Some? && w.recipients[r].command.Some?
       && w.recipients[r].command.value < |w.commands|
    then Some(PermitRow(w.recipients[r].state, w.execution.value.state, w.execution.value.stopVersion,
                        w.commands[w.recipients[r].command.value].fence, w.control, around))
    else None
  }

  /** The campaign part of the send guard, evaluated when the worker is about to send. */
  function DispatchRefusal(row: Option<PermitRow>): Option<string> {
    match row
    case None => Some("campaign_recipient_missing")
    case Some(p) =>
      if !p.executionState.Running? || !p.campaignState.Running? then Some("campaign_stopped")
      else if !p.recipientState.InFlight? then Some("campaign_recipient_stale")
      else if p.commandFence != p.executionVersion then Some("campaign_fence_changed")
      else if !p.around.approved then Some("campaign_approval_revoked")
      else if p.around.expiresAt.Some? && p.around.expiresAt.value <= p.around.now then Some("campaign_expired")
      else if p.around.consentWithdrawn then Some("marketing_consent_withdrawn")
      else None
  }

  predicate Permitted(w: World, recipient: Option<nat>, around: Circumstances) {
    (recipient.None? || DispatchRefusal(PermitRowOf(w, recipient.value, around)).None?) && around.otherwisePermitted
  }

  function Settle(w: World, c: nat, state: CommandState): World
    requires c < |w.commands|
  {
    w.(commands := w.commands[c := w.commands[c].(state := state, version := w.commands[c].version + 1)])
  }

  function SkipRecipient(w: World, recipient: Option<nat>): World
    requires |w.recipients| == |w.budgets|
    requires recipient.Some? ==> recipient.value < |w.recipients|
  {
    if recipient.None? then w
    else
      var r := recipient.value;
      FinishIfDrained(w.(recipients := w.recipients[r := w.recipients[r].(state := SkippedRecipient)],
                         budgets := w.budgets[r := Release(w.budgets[r])]))
  }

  predicate WorkerRefsOk(w: World, id: nat) {
    id in w.workers && w.workers[id].command < |w.commands|
    && (w.workers[id].recipient.Some? ==> w.workers[id].recipient.value < |w.recipients|)
    && |w.recipients| == |w.budgets| == |w.deliveries|
    && w.commands[w.workers[id].command].recipient < |w.deliveries|
    && (w.workers[id].Prepared? || w.workers[id].Answered? ==> w.workers[id].attempt < |w.attempts|)
  }

  /** The last check before a send: refuse and skip, or commit the attempt row. */
  function Prepare(w: World, id: nat, around: Circumstances): World {
    if !WorkerRefsOk(w, id) || !w.workers[id].Claimed? then w
    else
      var k := w.workers[id];
      if !Permitted(w, k.recipient, around) then
        var skipped := SkipRecipient(Settle(w, k.command, CommandSkipped), k.recipient);
        skipped.(outbox := skipped.outbox - {k.command}, workers := skipped.workers - {id})
      else
        w.(attempts := w.attempts + [Attempt(k.command, None)],
           workers := w.workers[id := Prepared(k.command, k.recipient, k.version, k.tries, |w.attempts|)])
  }

  /** A provider that says accepted took the message; one that says rejected did not; silence may be either. */
  predicate Honest(took: bool, answer: Answer) {
    (answer.AnswerAccepted? ==> took) && (answer.AnswerRejected? ==> !took)
  }

  function Send(w: World, id: nat, took: bool, answer: Answer): World {
    if !WorkerRefsOk(w, id) || !w.workers[id].Prepared? || !Honest(took, answer) then w
    else
      var k := w.workers[id];
      var r := w.commands[k.command].recipient;
      w.(workers := w.workers[id := Answered(k.command, k.recipient, k.version, k.tries, k.attempt, answer)],
         deliveries := if took then w.deliveries[r := w.deliveries[r] + 1] else w.deliveries)
  }

  const MAX_ATTEMPTS: nat := 5

  /** Writes the answer down: the attempt always, the command only under the version the worker owns. */
  function Record(w: World, id: nat): World {
    if !WorkerRefsOk(w, id) || !w.workers[id].Answered? then w
    else
      var k := w.workers[id];
      var noted := w.(attempts := w.attempts[k.attempt := w.attempts[k.attempt].(answer := Some(k.answer))]);
      if w.commands[k.command].version != k.version then noted.(workers := w.workers - {id})
      else
        var reschedule := k.answer.AnswerRejected? && k.answer.retryable && k.tries < MAX_ATTEMPTS;
        var state := match k.answer
          case AnswerAccepted => ProviderAccepted
          case AnswerUnknown => CommandUnknown
          case AnswerRejected(retryable) =>
            if reschedule then RetryScheduled else if retryable then CommandFailed else Rejected;
        var outcome := match k.answer
          case AnswerAccepted => OutcomeAccepted
          case AnswerUnknown => OutcomeUnknown
          case AnswerRejected(_) => if reschedule then OutcomeRetry else OutcomeRejected;
        var settled := Settle(noted, k.command, state);
        settled.(outbox := if reschedule then w.outbox else w.outbox - {k.command},
                 workers := w.workers[id := Recorded(k.command, k.recipient, outcome)])
  }

  datatype Projection = Projection(recipient: RecipientState, budget: Option<BudgetState>, finishes: bool)

  function ProjectionOf(outcome: Outcome): Projection {
    match outcome
    case OutcomeRetry => Projection(Queued, None, false)
    case OutcomeAccepted => Projection(Accepted, Some(Committed), true)
    case OutcomeRejected => Projection(FailedRecipient, Some(Released), true)
    case OutcomeUnknown => Projection(UnknownRecipient, Some(HeldUnknown), true)
  }

  function ProjectBudget(b: Reservation, target: Option<BudgetState>): Reservation {
    if target.None? || !b.state.Reserved? then b
    else if target.value.Committed? then b.(state := Committed, committed := Some(b.reserved))
    else if target.value.Released? then Release(b)
    else b.(state := HeldUnknown)
  }

  function Project(w: World, r: nat, outcome: Outcome): World
    requires r < |w.recipients| == |w.budgets|
  {
    var p := ProjectionOf(outcome);
    var z := w.(recipients := w.recipients[r := w.recipients[r].(state := p.recipient)],
                budgets := w.budgets[r := ProjectBudget(w.budgets[r], p.budget)]);
    if p.finishes then FinishIfDrained(z) else z
  }

  /** The recipient's side of a recorded answer: its own transaction, after the command's. */
  function ProjectRecorded(w: World, id: nat): World {
    if !WorkerRefsOk(w, id) || !w.workers[id].Recorded? then w
    else
      var k := w.workers[id];
      var left := w.(workers := w.workers - {id});
      if k.recipient.None? then left else Project(left, k.recipient.value, k.outcome)
  }

  /** An attempt that never got an answer becomes unknown, whoever may still be holding it. */
  function Recover(w: World, a: nat): World {
    if !(a < |w.attempts| && w.attempts[a].answer.None? && w.attempts[a].command < |w.commands|
        && |w.recipients| == |w.budgets|)
    then w
    else
      var c := w.attempts[a].command;
      var noted := w.(attempts := w.attempts[a := w.attempts[a].(answer := Some(AnswerUnknown))]);
      var settled := Settle(noted, c, CommandUnknown);
      var h := Holder(w, c);
      var projected := if h.None? then settled else Project(settled, h.value, OutcomeUnknown);
      projected.(outbox := projected.outbox - {c})
  }

  datatype Receipt = ReceiptSent | ReceiptDelivered | ReceiptRead | ReceiptFailed

  /** A provider receipt reaches a recipient through the provider id only an accepted command has. */
  function Receive(w: World, c: nat, receipt: Receipt): World {
    var h := Holder(w, c);
    if h.None? || !w.commands[c].state.ProviderAccepted? then w
    else
      var x := w.recipients[h.value];
      match receipt
      case ReceiptSent => w
      case ReceiptFailed =>
        if x.state.Accepted? then w.(recipients := w.recipients[h.value := x.(state := FailedRecipient)]) else w
      case ReceiptDelivered =>
        if x.state.Accepted? || x.state.FailedRecipient?
        then w.(recipients := w.recipients[h.value := x.(state := Delivered)]) else w
      case ReceiptRead =>
        if x.state.Accepted? || x.state.FailedRecipient? || x.state.Delivered?
        then w.(recipients := w.recipients[h.value := x.(state := Read)]) else w
  }

  // ---- Runs ------------------------------------------------------------------------

  datatype Step =
    | Launch(request: LaunchRequest)
    | Control(action: Action, now: int)
    | Retry
    | Plan(now: int, limit: nat, fillable: set<nat>)
    | ClaimStep(worker: nat, command: nat)
    | PrepareStep(worker: nat, around: Circumstances)
    | SendStep(worker: nat, took: bool, answer: Answer)
    | RecordStep(worker: nat)
    | ProjectStep(worker: nat)
    | Crash(worker: nat)
    | RecoverStep(attempt: nat)
    | ReceiptStep(command: nat, receipt: Receipt)

  /** One committed transaction, or nothing when the step is refused and rolled back. */
  function Apply(w: World, s: Step): World {
    if !(|w.recipients| == |w.budgets|) then w
    else match s
      case Launch(q) => if LaunchRefusal(w, q).None? then Launched(w, q) else w
      case Control(action, now) => if ControlTarget(w.control, action).Some? then Controlled(w, action, now) else w
      case Retry => if RetryRefusal(w).None? then Retried(w) else w
      case Plan(now, limit, fillable) => PlanCall(w, now, limit, fillable).0
      case ClaimStep(id, c) => Claim(w, id, c)
      case PrepareStep(id, around) => Prepare(w, id, around)
      case SendStep(id, took, answer) => Send(w, id, took, answer)
      case RecordStep(id) => Record(w, id)
      case ProjectStep(id) => ProjectRecorded(w, id)
      case Crash(id) => w.(workers := w.workers - {id})
      case RecoverStep(a) => Recover(w, a)
      case ReceiptStep(c, receipt) => Receive(w, c, receipt)
  }

  /** Any interleaving of transactions, crashes and provider answers. */
  function Run(w: World, steps: seq<Step>): World
    decreases |steps|
  {
    if steps == [] then w else Apply(Run(w, steps[..|steps| - 1]), steps[|steps| - 1])
  }
}
