/**
 * One automation run: planned into recipients and steps, executed in order with delays,
 * reconciled with the outcome of its messages, and finalized. A call to `execute` is one
 * transaction, so its instant is fixed.
 *
 * A message is identified by its recipient and step, which is what its client id is built
 * from. Recipients are numbered in the order of their row ids.
 */
module AutomationModel {
  import opened Shared

  datatype Step =
    | Delay(seconds: Option<int>)
    | Template(template: Option<nat>)
    | Label(named: bool)
    | Field(complete: bool)
    | Condition(bare: bool)
    | Unsupported

  datatype ActionState = Pending | Running | Waiting | Completed | Failed | Skipped
  datatype Action = Action(state: ActionState, availableAt: int, attempts: nat)

  datatype Status =
    | PendingOne | QueuedOne | SentOne | DeliveredOne | ReadOne | CompletedOne
    | FailedOne | SkippedOne | CancelledOne | UnknownOne
  datatype Recipient = Recipient(customer: nat, identity: Option<nat>, status: Status, currentStep: nat,
                                 command: Option<nat>)

  datatype CommandState =
    | InFlight | ProviderAccepted | OutcomeUnknown | Rejected | CommandFailed | CommandCancelled | CommandSkipped
  datatype Receipt = NoReceipt | SentReceipt | FailedReceipt | DeliveredReceipt | ReadReceipt
  datatype Message = Message(command: CommandState, receipt: Receipt)

  datatype RunStatus = QueuedRun | RunningRun | CompletedRun | PartlyCompletedRun | FailedRun | CancelledRun
  datatype Counts = Counts(audience: nat, queued: nat, sent: nat, delivered: nat, failed: nat, skipped: nat)

  datatype Rows = Rows(
    steps: seq<Step>,
    status: RunStatus,
    recipients: seq<Recipient>,
    actions: seq<seq<Action>>,
    messages: map<(nat, nat), Message>,
    journal: seq<(nat, nat)>,
    counts: Counts,
    queue: Option<int>)

  const MAX_DELAY_SECONDS: int := 31_536_000
  const POLL_SECONDS: int := 1

  predicate Terminal(status: RunStatus) {
    !status.QueuedRun? && !status.RunningRun?
  }

  function Start(steps: seq<Step>, at: int): Rows {
    Rows(steps, QueuedRun, [], [], map[], [], Counts(0, 0, 0, 0, 0, 0), Some(at))
  }

  // ---- Planning ---------------------------------------------------------------------

  datatype Contact = Contact(id: nat, identity: Option<nat>)

  function FirstTemplate(steps: seq<Step>): Option<nat> {
    if steps == [] then None
    else if steps[0].Template? then steps[0].template
    else FirstTemplate(steps[1..])
  }

  /** The unique index on (run, customer, identity), in which two missing identities are the same. */
  predicate Taken(recipients: seq<Recipient>, c: nat, identity: Option<nat>) {
    exists r :: 0 <= r < |recipients| && recipients[r].customer == c && recipients[r].identity == identity
  }

  function PlanContact(s: Rows, c: Contact, now: int): Rows {
    var identity := if FirstTemplate(s.steps).None? then None else c.identity;
    if Taken(s.recipients, c.id, identity) then s
    else
      s.(recipients := s.recipients + [Recipient(c.id, identity, PendingOne, 0, None)],
         actions := s.actions + [seq(|s.steps|, i => Action(Pending, now, 0))])
  }

  function PlanContacts(s: Rows, contacts: seq<Contact>, now: int): Rows
    decreases |contacts|
  {
    if contacts == [] then s
    else PlanContact(PlanContacts(s, contacts[..|contacts| - 1], now), contacts[|contacts| - 1], now)
  }

  /** No contacts means a target the runner does not support. */
  function Plan(s: Rows, contacts: Option<seq<Contact>>, now: int): Rows {
    if contacts.None? then s.(status := FailedRun)
    else
      var p := PlanContacts(s, contacts.value, now);
      p.(status := if p.recipients == [] then CompletedRun else RunningRun,
         counts := p.counts.(audience := |p.recipients|, queued := |p.recipients|))
  }

  // ---- Executing one action ---------------------------------------------------------

  predicate Done(a: Action) {
    a.state.Completed? || a.state.Skipped?
  }

  predicate Open(a: Action) {
    a.state.Pending? || a.state.Waiting?
  }

  predicate Eligible(s: Rows, r: int, k: int, now: int) {
    && 0 <= r < |s.actions| && 0 <= k < |s.actions[r]|
    && Open(s.actions[r][k]) && s.actions[r][k].availableAt <= now
    && forall j :: 0 <= j < k ==> Done(s.actions[r][j])
  }

  predicate Earlier(s: Rows, r: int, k: int, q: int, j: int)
    requires 0 <= r < |s.actions| && 0 <= k < |s.actions[r]| && 0 <= q < |s.actions| && 0 <= j < |s.actions[q]|
  {
    var a, b := s.actions[r][k].availableAt, s.actions[q][j].availableAt;
    a < b || (a == b && (r < q || (r == q && k <= j)))
  }

  /** The first step of a recipient that is not done. */
  function Cursor(actions: seq<Action>): (k: nat)
    ensures k <= |actions|
  {
    if actions == [] || !Done(actions[0]) then 0 else 1 + Cursor(actions[1..])
  }

  /** The action the query picks among the first `n` recipients: due longest, then by recipient, then by step. */
  function NextAmong(s: Rows, n: nat, now: int): (best: Option<(nat, nat)>)
    requires n <= |s.actions|
    ensures best.Some? ==> best.value.0 < n && Eligible(s, best.value.0, best.value.1, now)
  {
    if n == 0 then None
    else
      var r := n - 1;
      var before := NextAmong(s, r, now);
      var k := Cursor(s.actions[r]);
      if !Eligible(s, r, k, now) then before
      else if before.None? || s.actions[r][k].availableAt < s.actions[before.value.0][before.value.1].availableAt
      then Some((r, k))
      else before
  }

  function NextAction(s: Rows, now: int): Option<(nat, nat)> {
    NextAmong(s, |s.actions|, now)
  }

  predicate HasAction(s: Rows, r: nat, k: nat) {
    r < |s.recipients| && r < |s.actions| && k < |s.actions[r]|
  }

  function SetAction(s: Rows, r: nat, k: nat, a: Action): Rows
    requires HasAction(s, r, k)
  {
    s.(actions := s.actions[r := s.actions[r][k := a]])
  }

  function FailAction(s: Rows, r: nat, k: nat): Rows
    requires HasAction(s, r, k)
  {
    SetAction(s, r, k, s.actions[r][k].(state := Failed)).(
      recipients := s.recipients[r := s.recipients[r].(status := FailedOne)],
      counts := s.counts.(failed := s.counts.failed + 1))
  }

  function CompleteAction(s: Rows, r: nat, k: nat): Rows
    requires HasAction(s, r, k)
  {
    SetAction(s, r, k, s.actions[r][k].(state := Completed)).(
      recipients := s.recipients[r := s.recipients[r].(currentStep := k + 1)],
      journal := s.journal + [(r, k)])
  }

  predicate ValidDelay(step: Step)
    requires step.Delay?
  {
    step.seconds.Some? && 1 <= step.seconds.value <= MAX_DELAY_SECONDS
  }

  /** Steps that some recipient at some time can complete. */
  predicate CanPass(step: Step) {
    match step
    case Delay(_) => ValidDelay(step)
    case Template(template) => template.Some?
    case Label(named) => named
    case Field(complete) => complete
    case Condition(bare) => bare
    case Unsupported => false
  }

  /** The message row, unless it is already there, and the recipient that now waits for it. */
  function QueueMessage(s: Rows, r: nat, k: nat): Rows
    requires HasAction(s, r, k)
  {
    s.(messages := if (r, k) in s.messages then s.messages else s.messages[(r, k) := Message(InFlight, NoReceipt)],
       recipients := s.recipients[r := s.recipients[r].(command := Some(k), status := QueuedOne)])
  }

  /** `prepared` says which recipients the template of a step can be filled for just now. */
  predicate Sendable(s: Rows, r: nat, k: nat, prepared: set<(nat, nat)>)
    requires HasAction(s, r, k) && k < |s.steps|
  {
    s.steps[k].Template? && s.steps[k].template.Some? && s.recipients[r].identity.Some? && (r, k) in prepared
  }

  function ExecuteAction(s: Rows, r: nat, k: nat, now: int, prepared: set<(nat, nat)>): Rows
    requires HasAction(s, r, k)
  {
    var a := s.actions[r][k];
    if k >= |s.steps| then FailAction(s, r, k)
    else
      var t := SetAction(s, r, k, a.(state := Running, attempts := a.attempts + 1));
      match s.steps[k]
      case Delay(seconds) =>
        if !ValidDelay(s.steps[k]) then FailAction(t, r, k)
        else if !a.state.Waiting? then
          SetAction(t, r, k, t.actions[r][k].(state := Waiting, availableAt := now + seconds.value))
        else CompleteAction(t, r, k)
      case Template(_) =>
        if Sendable(s, r, k, prepared) then CompleteAction(QueueMessage(t, r, k), r, k) else FailAction(t, r, k)
      case Label(named) => if named then CompleteAction(t, r, k) else FailAction(t, r, k)
      case Field(complete) => if complete then CompleteAction(t, r, k) else FailAction(t, r, k)
      case Condition(bare) => if bare then CompleteAction(t, r, k) else FailAction(t, r, k)
      case Unsupported => FailAction(t, r, k)
  }

  /** One turn of the loop; with nothing due it does nothing. */
  function Turn(s: Rows, now: int, prepared: set<(nat, nat)>): Rows {
    var next := NextAction(s, now);
    if next.None? || next.value.0 >= |s.recipients| then s
    else ExecuteAction(s, next.value.0, next.value.1, now, prepared)
  }

  /** The loop of one call: at most `limit` actions. */
  function ExecuteActions(s: Rows, limit: nat, now: int, prepared: set<(nat, nat)>): Rows {
    if limit == 0 then s else Turn(ExecuteActions(s, limit - 1, now, prepared), now, prepared)
  }

  // ---- Reconciling and finalizing ---------------------------------------------------

  predicate Lost(c: CommandState) {
    c.Rejected? || c.CommandFailed? || c.CommandCancelled? || c.CommandSkipped?
  }

  function OutcomeOf(status: Status, m: Message): Status {
    if m.receipt.ReadReceipt? then ReadOne
    else if m.receipt.DeliveredReceipt? then DeliveredOne
    else if m.command.ProviderAccepted? then SentOne
    else if m.command.OutcomeUnknown? then UnknownOne
    else if Lost(m.command) then FailedOne
    else status
  }

  function ReconcileOne(s: Rows, r: nat): Recipient
    requires r < |s.recipients|
  {
    var x := s.recipients[r];
    if x.command.Some? && (r, x.command.value) in s.messages
      && (x.status.QueuedOne? || x.status.SentOne? || x.status.DeliveredOne?)
    then x.(status := OutcomeOf(x.status, s.messages[(r, x.command.value)]))
    else x
  }

  function Reconcile(s: Rows): Rows {
    s.(recipients := seq(|s.recipients|, r requires 0 <= r < |s.recipients| => ReconcileOne(s, r)))
  }

  function FinishOne(x: Recipient, stepCount: nat): Recipient {
    if x.command.None? && x.status.PendingOne? && x.currentStep >= stepCount then x.(status := CompletedOne) else x
  }

  function Tally(recipients: seq<Recipient>, among: set<Status>): nat {
    if recipients == [] then 0
    else Tally(recipients[..|recipients| - 1], among) + (if recipients[|recipients| - 1].status in among then 1 else 0)
  }

  const ACTIVE := {PendingOne, QueuedOne}
  const RECEIVED := {DeliveredOne, ReadOne}
  const FAILED := {FailedOne, UnknownOne}
  const PASSED_OVER := {SkippedOne, CancelledOne}

  function Verdict(recipients: seq<Recipient>): RunStatus {
    var successful := Tally(recipients, {CompletedOne}) + Tally(recipients, {SentOne}) + Tally(recipients, RECEIVED);
    if Tally(recipients, FAILED) == 0 then CompletedRun
    else if successful == 0 then FailedRun
    else PartlyCompletedRun
  }

  function Finished(s: Rows): Rows {
    s.(recipients := seq(|s.recipients|, r requires 0 <= r < |s.recipients| => FinishOne(s.recipients[r], |s.steps|)))
  }

  function Closed(s: Rows): Rows {
    s.(status := Verdict(s.recipients),
       counts := s.counts.(sent := Tally(s.recipients, {SentOne}) + Tally(s.recipients, RECEIVED),
                           delivered := Tally(s.recipients, RECEIVED),
                           failed := Tally(s.recipients, FAILED),
                           skipped := Tally(s.recipients, PASSED_OVER)))
  }

  /** The run ends once nobody is active. */
  function Finalize(s: Rows): Rows {
    if Tally(Finished(s).recipients, ACTIVE) != 0 then Finished(s) else Closed(Finished(s))
  }

  // ---- The work queue and the transaction -------------------------------------------

  function EarliestOpen(actions: seq<Action>): Option<int> {
    if actions == [] then None
    else
      var n := |actions| - 1;
      Sooner(EarliestOpen(actions[..n]), if Open(actions[n]) then Some(actions[n].availableAt) else None)
  }

  function Sooner(a: Option<int>, b: Option<int>): Option<int> {
    if a.None? then b else if b.None? || a.value <= b.value then a else b
  }

  /** The earliest instant at which any open action of the run becomes available. */
  function NextDue(actions: seq<seq<Action>>): Option<int> {
    if actions == [] then None else Sooner(NextDue(actions[..|actions| - 1]), EarliestOpen(actions[|actions| - 1]))
  }

  function ScheduleNext(s: Rows, now: int): Rows {
    if Terminal(s.status) then s.(queue := None)
    else if s.queue.None? then s
    else s.(queue := Some(if NextDue(s.actions).Some? then NextDue(s.actions).value else now + POLL_SECONDS))
  }

  function Execute(s: Rows, limit: nat, now: int, contacts: Option<seq<Contact>>, prepared: set<(nat, nat)>): Rows {
    if s.queue.None? || s.queue.value > now then s
    else if Terminal(s.status) then s.(queue := None)
    else if s.status.QueuedRun? then ScheduleNext(Plan(s, contacts, now), now)
    else ScheduleNext(Finalize(ExecuteActions(Reconcile(s), limit, now, prepared)), now)
  }

  /** The dispatcher or a provider receipt writes the message row. */
  function Settle(s: Rows, id: (nat, nat), m: Message): Rows {
    if id in s.messages then s.(messages := s.messages[id := m]) else s
  }

  datatype Event =
    | Tick(limit: nat, now: int, contacts: Option<seq<Contact>>, prepared: set<(nat, nat)>)
    | Outcome(id: (nat, nat), message: Message)

  function Apply(s: Rows, e: Event): Rows {
    match e
    case Tick(limit, now, contacts, prepared) => Execute(s, limit, now, contacts, prepared)
    case Outcome(id, m) => Settle(s, id, m)
  }

  function Run(s: Rows, events: seq<Event>): Rows
    decreases |events|
  {
    if events == [] then s else Apply(Run(s, events[..|events| - 1]), events[|events| - 1])
  }
}
