/** Safety over whole campaign runs, with crashes, recovery and late answers anywhere in between. */
module CampaignTheorems {
  import opened Shared
  import opened Division
  import opened CampaignLifecycle
  import opened CampaignModel
  import opened CampaignInvariant

  function StopVersion(w: World): int {
    if w.execution.Some? then w.execution.value.stopVersion else -1
  }

  lemma Reachable(steps: seq<Step>)
    ensures Inv(Run(Initial(), steps))
  {
    RunKeeps(Initial(), steps);
  }

  lemma {:induction false} RunAppend(w: World, a: seq<Step>, b: seq<Step>)
    ensures Run(w, a + b) == Run(Run(w, a), b)
    decreases |b|
  {
    if b == [] {
      assert a + b == a;
    } else {
      assert (a + b)[..|a + b| - 1] == a + b[..|b| - 1];
      RunAppend(w, a, b[..|b| - 1]);
    }
  }

  // ---- At most one delivery ---------------------------------------------------------

  /** Whatever crashes, expires, is retried or recovered, the provider takes at most one message for a recipient. */
  lemma AtMostOneDelivery(steps: seq<Step>, r: nat)
    requires r < |Run(Initial(), steps).deliveries|
    ensures var w := Run(Initial(), steps);
      && w.deliveries[r] <= 1
      && r < |w.recipients| == |w.budgets|
      && (!w.recipients[r].state.InFlight? && !w.recipients[r].state.UnknownRecipient?
             && w.budgets[r].state != Committed ==>
            w.deliveries[r] == 0)
  {
    Reachable(steps);
    assert RecipientOk(Run(Initial(), steps), r);
  }

  /** At most one command of a recipient is unsettled or accepted, and it is the one the recipient points at. */
  lemma OneCommandAtATime(steps: seq<Step>, c: nat, d: nat)
    requires c < |Run(Initial(), steps).commands| && d < |Run(Initial(), steps).commands|
    requires var w := Run(Initial(), steps);
      && w.commands[c].recipient == w.commands[d].recipient
      && (Unsettled(w.commands[c].state) || w.commands[c].state.ProviderAccepted?
             || w.commands[c].state.CommandUnknown?)
      && (Unsettled(w.commands[d].state) || w.commands[d].state.ProviderAccepted?
             || w.commands[d].state.CommandUnknown?)
    ensures c == d
  {
    Reachable(steps);
    var w := Run(Initial(), steps);
    assert CommandOk(w, c) && CommandOk(w, d);
  }

  // ---- What one step may change -----------------------------------------------------

  /** Commands are only appended and never for a recipient whose outcome is unknown; estimates stay; no fence falls. */
  ghost predicate Advances(w: World, z: World) {
    && StopVersion(w) <= StopVersion(z)
    && (w.execution.Some? ==> z.execution.Some? && |z.recipients| == |w.recipients| && |z.budgets| == |w.budgets|)
    && |w.commands| <= |z.commands|
    && (forall c :: 0 <= c < |w.commands| ==>
          z.commands[c].recipient == w.commands[c].recipient && w.commands[c].fence <= z.commands[c].fence)
    && (w.execution.Some? ==> forall r :: 0 <= r < |w.budgets| ==> z.budgets[r].estimated == w.budgets[r].estimated)
    && (w.execution.Some? ==> forall r :: 0 <= r < |w.recipients| && w.recipients[r].state.UnknownRecipient? ==>
          z.recipients[r] == w.recipients[r]
          && forall c :: |w.commands| <= c < |z.commands| ==> z.commands[c].recipient != r)
  }

  /** No fence moves, neither the execution's nor a command's, and no queue row appears. */
  ghost predicate Quiet(w: World, z: World) {
    && StopVersion(z) == StopVersion(w) && |w.commands| <= |z.commands|
    && (forall c :: 0 <= c < |w.commands| ==> z.commands[c].fence == w.commands[c].fence)
    && (z.queue == w.queue || z.queue.None?)
  }

  lemma {:induction false} PlanEachAdvances(w: World, ids: seq<nat>, fillable: set<nat>, version: nat)
    requires |w.recipients| == |w.budgets| && w.execution.Some?
    requires forall i :: 0 <= i < |ids| ==> ids[i] < |w.recipients| && !w.recipients[ids[i]].state.UnknownRecipient?
    ensures Advances(w, PlanEach(w, ids, fillable, version)) && Quiet(w, PlanEach(w, ids, fillable, version))
  {
    if ids != [] { PlanEachAdvances(w, ids[..|ids| - 1], fillable, version); }
  }

  lemma {:induction false} RetryEachAdvances(w: World, ids: seq<nat>, version: nat)
    requires |w.recipients| == |w.budgets| && w.execution.Some?
    requires forall i :: 0 <= i < |ids| ==> ids[i] < |w.recipients| && !w.recipients[ids[i]].state.UnknownRecipient?
    ensures Advances(w, RetryEach(w, ids, version)) && Quiet(w, RetryEach(w, ids, version))
    ensures RetryEach(w, ids, version).queue == w.queue
  {
    if ids != [] { RetryEachAdvances(w, ids[..|ids| - 1], version); }
  }

  lemma PlanAdvances(w: World, now: int, limit: nat, fillable: set<nat>)
    requires Inv(w)
    ensures Advances(w, PlanCall(w, now, limit, fillable).0) && Quiet(w, PlanCall(w, now, limit, fillable).0)
  {
    if Due(w, now) && Runnable(w) {
      var ids := PlannedIds(w.recipients, limit);
      assert forall i :: 0 <= i < |ids| ==> ids[i] in ids;
      PlanEachAdvances(Started(w), ids, fillable, w.execution.value.stopVersion);
    }
  }

  lemma RetryAdvances(w: World)
    requires Inv(w) && RetryRefusal(w).None?
    ensures Advances(w, Retried(w))
    ensures StopVersion(Retried(w)) == StopVersion(w) + 1 && Retried(w).queue == w.queue
    ensures forall c :: 0 <= c < |w.commands| ==> Retried(w).commands[c].fence == w.commands[c].fence
  {
    var ids := FailedIds(w);
    assert forall i :: 0 <= i < |ids| ==> ids[i] in ids;
    var version := w.execution.value.stopVersion + 1;
    RetryEachAdvances(w.(execution := Some(Execution(Running, version))), ids, version);
  }

  lemma ControlAdvances(w: World, action: Action, now: int)
    requires Inv(w) && ControlTarget(w.control, action).Some?
    ensures Advances(w, Controlled(w, action, now))
    ensures StopVersion(Controlled(w, action, now)) == StopVersion(w) + 1
    ensures QueueFresh(Controlled(w, action, now))
    ensures |Controlled(w, action, now).commands| == |w.commands|
    ensures forall c :: 0 <= c < |w.commands| ==>
      Controlled(w, action, now).commands[c].fence == w.commands[c].fence
      || (action.ResumeAction? && Controlled(w, action, now).commands[c].fence ==
             StopVersion(Controlled(w, action, now)))
  {
    forall r | 0 <= r < |w.recipients| ensures RecipientOk(w, r) { }
    var z := Controlled(w, action, now);
    forall c | 0 <= c < |w.commands| ensures w.commands[c].fence <= z.commands[c].fence {
      assert CommandOk(w, c);
    }
  }

  lemma ClaimAdvances(w: World, id: nat, c: nat)
    requires Inv(w)
    ensures Advances(w, Claim(w, id, c)) && Quiet(w, Claim(w, id, c))
  { }

  lemma PrepareAdvances(w: World, id: nat, around: Circumstances)
    requires Inv(w)
    ensures Advances(w, Prepare(w, id, around)) && Quiet(w, Prepare(w, id, around))
  {
    if WorkerRefsOk(w, id) && w.workers[id].Claimed? && !Permitted(w, w.workers[id].recipient, around) {
      RefusalAdvances(w, id, around);
    }
  }

  lemma RefusalAdvances(w: World, id: nat, around: Circumstances)
    requires Inv(w) && WorkerRefsOk(w, id) && w.workers[id].Claimed? && !Permitted(w, w.workers[id].recipient, around)
    ensures Advances(w, Prepare(w, id, around)) && Quiet(w, Prepare(w, id, around))
  {
    assert WorkerOk(w, w.workers[id]);
  }

  lemma SendAdvances(w: World, id: nat, took: bool, answer: Answer)
    requires Inv(w)
    ensures Advances(w, Send(w, id, took, answer)) && Quiet(w, Send(w, id, took, answer))
  { }

  lemma RecordAdvances(w: World, id: nat)
    requires Inv(w)
    ensures Advances(w, Record(w, id)) && Quiet(w, Record(w, id))
  { }

  lemma ProjectAdvances(w: World, id: nat)
    requires Inv(w)
    ensures Advances(w, ProjectRecorded(w, id)) && Quiet(w, ProjectRecorded(w, id))
  {
    if WorkerRefsOk(w, id) { assert WorkerOk(w, w.workers[id]); }
  }

  lemma RecoverAdvances(w: World, a: nat)
    requires Inv(w)
    ensures Advances(w, Recover(w, a)) && Quiet(w, Recover(w, a))
  {
    if a < |w.attempts| { assert AttemptOk(w, a); }
  }

  lemma ReceiveAdvances(w: World, c: nat, receipt: Receipt)
    requires Inv(w)
    ensures Advances(w, Receive(w, c, receipt)) && Quiet(w, Receive(w, c, receipt))
  { }

  lemma LaunchAdvances(w: World, q: LaunchRequest)
    requires Inv(w)
    ensures Advances(w, Apply(w, Launch(q)))
  { }

  lemma CrashAdvances(w: World, id: nat)
    requires Inv(w)
    ensures Advances(w, Apply(w, Crash(id))) && Quiet(w, Apply(w, Crash(id)))
  { }

  predicate Moves(s: Step) {
    s.Launch? || s.Control? || s.Retry?
  }

  /** Only a plan or a retry makes a command. */
  lemma OnlyPlansAndRetriesCommand(w: World, s: Step)
    requires |w.recipients| == |w.budgets|
    requires |Apply(w, s).commands| != |w.commands|
    ensures s.Plan? || s.Retry?
  { }

  lemma StepAdvances(w: World, s: Step)
    requires Inv(w)
    ensures Advances(w, Apply(w, s))
    ensures !Moves(s) ==> Quiet(w, Apply(w, s))
  {
    match s
    case Launch(q) => LaunchAdvances(w, q);
    case Control(action, now) => if ControlTarget(w.control, action).Some? { ControlAdvances(w, action, now); }
    case Retry => if RetryRefusal(w).None? { RetryAdvances(w); }
    case Plan(now, limit, fillable) => PlanAdvances(w, now, limit, fillable);
    case ClaimStep(id, c) => ClaimAdvances(w, id, c);
    case PrepareStep(id, around) => PrepareAdvances(w, id, around);
    case SendStep(id, took, answer) => SendAdvances(w, id, took, answer);
    case RecordStep(id) => RecordAdvances(w, id);
    case ProjectStep(id) => ProjectAdvances(w, id);
    case Crash(id) => CrashAdvances(w, id);
    case RecoverStep(a) => RecoverAdvances(w, a);
    case ReceiptStep(c, receipt) => ReceiveAdvances(w, c, receipt);
  }

  lemma {:induction false} RunAdvances(w: World, steps: seq<Step>)
    requires Inv(w)
    ensures Advances(w, Run(w, steps))
    decreases |steps|
  {
    if steps != [] {
      var front := steps[..|steps| - 1];
      RunAdvances(w, front);
      RunKeeps(w, front);
      var m := Run(w, front);
      StepAdvances(m, steps[|steps| - 1]);
      assert Run(w, steps) == Apply(m, steps[|steps| - 1]);
      AdvancesChain(w, m, Apply(m, steps[|steps| - 1]));
    }
  }

  lemma AdvancesChain(w: World, m: World, z: World)
    requires Advances(w, m) && Advances(m, z)
    ensures Advances(w, z)
  { }

  /** A recipient whose outcome is unknown keeps its command for good, and no later command is ever made for it. */
  lemma UnknownIsFinal(before: seq<Step>, after: seq<Step>, r: nat)
    requires r < |Run(Initial(), before).recipients| && Run(Initial(), before).recipients[r].state.UnknownRecipient?
    ensures var w := Run(Initial(), before);
      var z := Run(Initial(), before + after);
      && r < |z.recipients| && z.recipients[r] == w.recipients[r]
      && forall c :: |w.commands| <= c < |z.commands| ==> z.commands[c].recipient != r
  {
    Reachable(before);
    RunAppend(Initial(), before, after);
    RunAdvances(Run(Initial(), before), after);
  }

  // ---- Fencing ----------------------------------------------------------------------

  /** An operator action that commits. */
  predicate Accepts(w: World, s: Step) {
    |w.recipients| == |w.budgets|
    && match s
       case Control(action, _) => ControlTarget(w.control, action).Some?
       case Retry => RetryRefusal(w).None?
       case _ => false
  }

  predicate RefencedBy(w: World, s: Step, c: nat) {
    s.Control? && s.action.ResumeAction? && c < |w.commands| && c < |Apply(w, s).commands|
    && w.commands[c].fence < Apply(w, s).commands[c].fence == StopVersion(Apply(w, s))
  }

  /**
   * Every accepted operator action raises the fence by one; nothing else moves it, and only a
   * resume renews a command's.
   */
  lemma FenceStep(w: World, s: Step, c: nat)
    requires Inv(w) && c < |w.commands|
    ensures var z := Apply(w, s);
      && StopVersion(z) == StopVersion(w) + (if Accepts(w, s) then 1 else 0)
      && c < |z.commands|
      && (z.commands[c].fence == w.commands[c].fence || RefencedBy(w, s, c))
  {
    assert CommandOk(w, c);
    StepAdvances(w, s);
    match s
    case Control(action, now) => if Accepts(w, s) { ControlAdvances(w, action, now); }
    case Retry => if Accepts(w, s) { RetryAdvances(w); }
    case _ =>
  }

  /** A command behind the fence catches up only at a resume that renewed it. */
  lemma {:induction false} CatchesUpOnlyByResume(w: World, steps: seq<Step>, c: nat)
    requires Inv(w) && c < |w.commands| && w.commands[c].fence < StopVersion(w)
    ensures var z := Run(w, steps);
      && c < |z.commands| && z.commands[c].fence <= StopVersion(z)
      && (z.commands[c].fence == StopVersion(z) ==>
            exists i :: 0 <= i < |steps| && RefencedBy(Run(w, steps[..i]), steps[i], c))
    decreases |steps|
  {
    if steps != [] {
      var front := steps[..|steps| - 1];
      var m := Run(w, front);
      CatchesUpOnlyByResume(w, front, c);
      RunKeeps(w, front);
      CatchUpStep(m, steps[|steps| - 1], c);
      Reappears(w, steps, c);
    }
  }

  lemma Reappears(w: World, steps: seq<Step>, c: nat)
    requires steps != []
    ensures var front := steps[..|steps| - 1];
      (exists i :: 0 <= i < |front| && RefencedBy(Run(w, front[..i]), front[i], c))
        || RefencedBy(Run(w, front), steps[|steps| - 1], c) ==>
        exists i :: 0 <= i < |steps| && RefencedBy(Run(w, steps[..i]), steps[i], c)
  {
    var front := steps[..|steps| - 1];
    forall i | 0 <= i < |front| && RefencedBy(Run(w, front[..i]), front[i], c)
      ensures RefencedBy(Run(w, steps[..i]), steps[i], c)
    {
      assert front[..i] == steps[..i];
    }
  }

  lemma CatchUpStep(w: World, s: Step, c: nat)
    requires Inv(w) && c < |w.commands|
    ensures var z := Apply(w, s);
      && c < |z.commands| && z.commands[c].fence <= StopVersion(z)
      && (z.commands[c].fence == StopVersion(z) ==> w.commands[c].fence == StopVersion(w) || RefencedBy(w, s, c))
  {
    FenceStep(w, s, c);
    ApplyKeeps(w, s);
    assert CommandOk(w, c) && CommandOk(Apply(w, s), c);
  }

  predicate SendsNext(w: World, id: nat, around: Circumstances) {
    WorkerRefsOk(w, id) && w.workers[id].Claimed? && |Prepare(w, id, around).attempts| > |w.attempts|
  }

  /** The guard lets a worker send exactly when nothing changed since its command was last fenced. */
  lemma GuardMeans(w: World, id: nat, around: Circumstances)
    requires Inv(w) && WorkerRefsOk(w, id) && w.workers[id].Claimed?
    ensures SendsNext(w, id, around) <==>
      && w.execution.Some? && w.execution.value.state.Running?
      && w.commands[w.workers[id].command].fence == w.execution.value.stopVersion
      && around.approved && !around.consentWithdrawn && around.otherwisePermitted
      && (around.expiresAt.Some? ==> around.now < around.expiresAt.value)
  {
    assert WorkerOk(w, w.workers[id]);
  }

  /** After a pause or a cancel, an earlier command is sent only if a later resume renewed its fence. */
  lemma NoSendAcrossAStop(before: seq<Step>, stop: Step, after: seq<Step>, id: nat, around: Circumstances)
    requires stop.Control? && !stop.action.ResumeAction? && Accepts(Run(Initial(), before), stop)
    requires SendsNext(Run(Initial(), before + [stop] + after), id, around)
    requires Run(Initial(), before + [stop] + after).workers[id].command < |Run(Initial(), before).commands|
    ensures var w := Run(Initial(), before + [stop] + after);
      var c := w.workers[id].command;
      && w.execution.Some? && w.execution.value.state.Running?
      && exists i :: 0 <= i < |after| && RefencedBy(Run(Initial(), before + [stop] + after[..i]), after[i], c)
  {
    var w0 := Run(Initial(), before);
    Reachable(before);
    RunAppend(Initial(), before, [stop]);
    var w1 := Apply(w0, stop);
    assert Run(w0, [stop]) == w1 by { assert [stop][..0] == []; }
    ApplyKeeps(w0, stop);
    RunAppend(Initial(), before + [stop], after);
    var z := Run(w1, after);
    RunKeeps(w1, after);
    var c := z.workers[id].command;
    assert CommandOk(w0, c);
    FenceStep(w0, stop, c);
    assert WorkerOk(z, z.workers[id]);
    GuardMeans(z, id, around);
    CatchesUpOnlyByResume(w1, after, c);
    var i :| 0 <= i < |after| && RefencedBy(Run(w1, after[..i]), after[i], c);
    RunAppend(Initial(), before + [stop], after[..i]);
  }

  // ---- Reservations -----------------------------------------------------------------

  /**
   * A reservation's state is fixed by its recipient; a failure keeps the money only when the
   * provider had taken the message.
   */
  lemma ReservationFollowsRecipient(steps: seq<Step>, r: nat)
    requires r < |Run(Initial(), steps).recipients|
    ensures var w := Run(Initial(), steps);
      && |w.budgets| == |w.recipients|
      && (w.budgets[r].state.Reserved? <==> Open(w.recipients[r].state))
      && (w.budgets[r].state.HeldUnknown? <==> w.recipients[r].state.UnknownRecipient?)
      && (w.budgets[r].state.Released? <==>
            w.recipients[r].state.SkippedRecipient? || w.recipients[r].state.CancelledRecipient?
            || (w.recipients[r].state.FailedRecipient? && HasCommand(w, r)
                && !w.commands[w.recipients[r].command.value].state.ProviderAccepted?))
      && (w.budgets[r].state.Committed? <==>
            w.recipients[r].state.Accepted? || w.recipients[r].state.Delivered? || w.recipients[r].state.Read?
            || (w.recipients[r].state.FailedRecipient? && HasCommand(w, r)
                && w.commands[w.recipients[r].command.value].state.ProviderAccepted?))
  {
    Reachable(steps);
    assert RecipientOk(Run(Initial(), steps), r);
  }

  function Held(bs: seq<Reservation>): nat {
    if bs == [] then 0
    else (if bs[0].state.Reserved? || bs[0].state.HeldUnknown? then bs[0].reserved else 0) + Held(bs[1..])
  }

  function Spent(bs: seq<Reservation>): nat {
    if bs == [] then 0
    else (if bs[0].state.Committed? && bs[0].committed.Some? then bs[0].committed.value else 0) + Spent(bs[1..])
  }

  function Freed(bs: seq<Reservation>): nat {
    if bs == [] then 0 else (if bs[0].state.Released? then bs[0].estimated else 0) + Freed(bs[1..])
  }

  lemma {:induction false} SplitOfEqualShares(bs: seq<Reservation>, share: nat)
    requires forall i :: 0 <= i < |bs| ==> bs[i].estimated == share && BudgetOk(bs[i])
    ensures Held(bs) + Spent(bs) + Freed(bs) == |bs| * share
  {
    if bs == [] {
    } else {
      assert BudgetOk(bs[0]);
      SplitOfEqualShares(bs[1..], share);
      assert |bs| * share == share + (|bs| - 1) * share;
    }
  }

  /** Held, spent and freed money always add up to the shares of the launch, whatever happens afterwards. */
  lemma BudgetIsConserved(w: World, q: LaunchRequest, steps: seq<Step>)
    requires Inv(w) && LaunchRefusal(w, q).None?
    ensures var bs := Run(w, [Launch(q)] + steps).budgets;
      Held(bs) + Spent(bs) + Freed(bs) == q.eligible.value * Share(q.budget, q.eligible.value)
  {
    var l := Launched(w, q);
    RunAppend(w, [Launch(q)], steps);
    assert Run(w, [Launch(q)]) == l by { assert [Launch(q)][..0] == []; }
    LaunchKeeps(w, q);
    RunAdvances(l, steps);
    RunKeeps(l, steps);
    var z := Run(l, steps);
    forall i | 0 <= i < |z.budgets| ensures BudgetOk(z.budgets[i]) { assert RecipientOk(z, i); }
    SplitOfEqualShares(z.budgets, Share(q.budget, q.eligible.value));
  }

  /**
   * Six stored decimals lose the remainder: the shares add up to the budget exactly when
   * the audience divides it, and otherwise miss it by at most half a unit a recipient.
   */
  lemma SharesAddUp(budget: nat, eligible: nat)
    requires eligible > 0
    ensures eligible * Share(budget, eligible) == budget <==> budget % eligible == 0
    ensures eligible * (2 * Share(budget, eligible) - 1) <= 2 * budget < eligible * (2 * Share(budget, eligible) + 1)
  {
    var n: int := eligible;
    var s: int := Share(budget, eligible);
    assert 2 * budget + n == 2 * n * s + (2 * budget + n) % (2 * n);
    assert 2 * n * s == 2 * (n * s);
    assert n * (2 * s - 1) == 2 * (n * s) - n && n * (2 * s + 1) == 2 * (n * s) + n;
    if budget % eligible == 0 {
      var k := budget / eligible;
      assert 2 * budget + n == (2 * n) * k + n;
      QuotientOf(2 * eligible, k, eligible);
    } else if eligible * s == budget {
      QuotientOf(eligible, s, 0);
    }
  }

  // ---- Nobody is stranded -----------------------------------------------------------

  /** A live planned recipient always has queued work, under the current fence. */
  lemma PlannedHasWork(steps: seq<Step>, r: nat)
    requires r < |Run(Initial(), steps).recipients| && Run(Initial(), steps).recipients[r].state.Planned?
    ensures var w := Run(Initial(), steps);
      && w.execution.Some?
      && (w.execution.value.state.Scheduled? || w.execution.value.state.Running? || w.execution.value.state.Paused?)
      && (!w.execution.value.state.Paused? ==>
             w.queue.Some? && w.queue.value.stopVersion == w.execution.value.stopVersion)
  {
    Reachable(steps);
    var w := Run(Initial(), steps);
    assert AnyPlanned(w.recipients);
    assert Open(w.recipients[r].state);
  }

  predicate QueueFresh(w: World) {
    w.queue.Some? ==> w.execution.Some? && w.queue.value.stopVersion == w.execution.value.stopVersion
  }

  /** Every step keeps the queue row under the current fence, except a retry that finds a row already there. */
  lemma QueueFreshStep(w: World, s: Step)
    requires Inv(w) && QueueFresh(w)
    ensures QueueFresh(Apply(w, s)) <==> !(s.Retry? && Accepts(w, s) && w.queue.Some?)
  {
    StepAdvances(w, s);
    match s
    case Control(action, now) => if Accepts(w, s) { ControlAdvances(w, action, now); }
    case Retry => if Accepts(w, s) { RetryAdvances(w); }
    case _ =>
  }

  /** One recipient, one command, one worker: the worlds the stale-row run passes through from its third step on. */
  function Stage(i: nat): World {
    var whole := Reservation(100, 100, None, Reserved);
    var one := (state, stop, queue, r, b, c, outbox, attempts, workers) =>
      World(state, Some(Execution(state, stop)), queue, [Recipient(r, Some(0))], [b], [c], outbox, attempts, workers,
          [0]);
    var row := Some(QueueRow(0, 2));
    var lost := [Attempt(0, Some(AnswerRejected(false)))];
    if i <= 2 then one(Running, 0, None, Queued, whole, Command(0, CommandQueued, 0, 0), map[0 := 0], [], map[])
    else if i == 3 then one(Running, 0, None, InFlight, whole, Command(0, Dispatching, 0, 1), map[0 := 1], [],
                            map[7 := Claimed(0, Some(0), 1, 1)])
    else if i == 4 then one(Running, 0, None, InFlight, whole, Command(0, Dispatching, 0, 1), map[0 := 1],
                            [Attempt(0, None)], map[7 := Prepared(0, Some(0), 1, 1, 0)])
    else if i == 5 then one(Paused, 1, None, InFlight, whole, Command(0, Dispatching, 0, 1), map[0 := 1],
                            [Attempt(0, None)], map[7 := Prepared(0, Some(0), 1, 1, 0)])
    else if i == 6 then one(Running, 2, row, InFlight, whole, Command(0, Dispatching, 0, 1), map[0 := 1],
                            [Attempt(0, None)], map[7 := Prepared(0, Some(0), 1, 1, 0)])
    else if i == 7 then one(Running, 2, row, InFlight, whole, Command(0, Dispatching, 0, 1), map[0 := 1],
                            [Attempt(0, None)], map[7 := Answered(0, Some(0), 1, 1, 0, AnswerRejected(false))])
    else if i == 8 then one(Running, 2, row, InFlight, whole, Command(0, Rejected, 0, 2), map[], lost,
                            map[7 := Recorded(0, Some(0), OutcomeRejected)])
    else one(DispatchCompleted, 2, row, FailedRecipient, Reservation(100, 0, None, Released),
             Command(0, Rejected, 0, 2), map[], lost, map[])
  }

  const STALE_RUN: seq<Step> :=
    [Launch(LaunchRequest(None, 0, true, None, true, Some(1), 100)), Plan(0, 1, {0}), ClaimStep(7, 0),
     PrepareStep(7, Circumstances(true, None, 0, false, true)), Control(PauseAction, 0), Control(ResumeAction, 0),
     SendStep(7, false, AnswerRejected(false)), RecordStep(7), ProjectStep(7), Retry]

  lemma RunNext(w: World, steps: seq<Step>, i: nat, mid: World)
    requires i < |steps| && Run(w, steps[..i]) == mid
    ensures Run(w, steps[..i + 1]) == Apply(mid, steps[i])
  {
    assert steps[..i + 1][..i] == steps[..i];
  }

  lemma StaleRunPlans()
    ensures Run(Initial(), STALE_RUN[..2]) == Stage(2)
  {
    var w1 := Launched(Initial(), STALE_RUN[0].request);
    assert w1.recipients == [Recipient(Planned, None)] && w1.budgets == [Reservation(100, 100, None, Reserved)]
      && w1.deliveries == [0];
    assert PlannedIds(w1.recipients, 1) == [0] by { assert PlannedIds(w1.recipients, 0, 1) == []; }
    assert PlanEach(w1, [0], {0}, 0) == PlanOne(w1, 0, true, 0) by { assert [0][..0] == []; }
    assert STALE_RUN[..0] == [];
    RunNext(Initial(), STALE_RUN, 0, Initial());
    RunNext(Initial(), STALE_RUN, 1, w1);
  }

  lemma StageClaims()
    ensures Apply(Stage(2), STALE_RUN[2]) == Stage(3) && Apply(Stage(3), STALE_RUN[3]) == Stage(4)
  { }

  lemma StageResumes()
    ensures Apply(Stage(4), STALE_RUN[4]) == Stage(5) && Apply(Stage(5), STALE_RUN[5]) == Stage(6)
  {
    assert Controlled(Stage(5), ResumeAction, 0).commands == Stage(6).commands;
  }

  lemma StageSends()
    ensures Apply(Stage(6), STALE_RUN[6]) == Stage(7) && Apply(Stage(7), STALE_RUN[7]) == Stage(8)
  { }

  lemma StageProjects()
    ensures Apply(Stage(8), STALE_RUN[8]) == Stage(9)
  { }

  lemma StageStep(i: nat)
    requires 2 <= i < 9
    ensures Apply(Stage(i), STALE_RUN[i]) == Stage(i + 1)
  {
    if i <= 3 { StageClaims(); } else if i <= 5 { StageResumes(); } else if i <= 7 { StageSends(); }
    else { StageProjects(); }
  }

  lemma {:induction false} StaleRunReaches(i: nat)
    requires 2 <= i <= 9
    ensures Run(Initial(), STALE_RUN[..i]) == Stage(i)
  {
    if i == 2 {
      StaleRunPlans();
    } else {
      StaleRunReaches(i - 1);
      RunNext(Initial(), STALE_RUN, i - 1, Stage(i - 1));
      StageStep(i - 1);
    }
  }

  /** Pausing and resuming around a send leaves a queue row behind; the retry then makes it stale. */
  lemma QueueRowCanGoStale()
    ensures !QueueFresh(Run(Initial(), STALE_RUN))
  {
    StaleRunReaches(9);
    var w := Run(Initial(), STALE_RUN[..9]);
    Reachable(STALE_RUN[..9]);
    assert FailedIds(w) == [0] by { assert FailedIds(w, 1) == []; }
    QueueFreshStep(w, Retry);
    assert STALE_RUN[..|STALE_RUN| - 1] == STALE_RUN[..9];
  }

  // ---- The planner drains -----------------------------------------------------------

  function PlannedSet(rs: seq<Recipient>): set<nat> {
    set r: nat | r < |rs| && rs[r].state.Planned?
  }

  function Members(ids: seq<nat>): set<nat> {
    set i | 0 <= i < |ids| :: ids[i]
  }

  lemma {:induction false} DistinctCount(ids: seq<nat>)
    requires forall i, j :: 0 <= i < j < |ids| ==> ids[i] < ids[j]
    ensures |Members(ids)| == |ids|
  {
    if ids != [] {
      var front := ids[..|ids| - 1];
      DistinctCount(front);
      assert Members(ids) == Members(front) + {ids[|ids| - 1]};
      assert ids[|ids| - 1] !in Members(front);
    }
  }

  /** One due call plans exactly `limit` recipients, or all that are left, and keeps the row while any remain. */
  lemma PlanCallProgress(w: World, now: int, limit: nat, fillable: set<nat>)
    requires Inv(w) && Due(w, now) && Runnable(w)
    ensures var (z, handled) := PlanCall(w, now, limit, fillable);
      && handled <= limit
      && |PlannedSet(z.recipients)| == |PlannedSet(w.recipients)| - handled
      && (handled < limit ==> PlannedSet(z.recipients) == {})
      && (PlannedSet(z.recipients) != {} ==> Due(z, now) && Runnable(z))
  {
    var ids := PlannedIds(w.recipients, limit);
    var s := Started(w);
    SameRowsKeep(w, s);
    assert forall i :: 0 <= i < |ids| ==> ids[i] in ids;
    var y := PlanEach(s, ids, fillable, w.execution.value.stopVersion);
    PlanEachKeeps(s, ids, fillable, w.execution.value.stopVersion);
    PlannedShrinks(w.recipients, y.recipients, ids, limit);
    if PlannedSet(y.recipients) != {} {
      var r :| r in PlannedSet(y.recipients);
      assert AnyPlanned(y.recipients);
    }
  }

  lemma PlannedShrinks(before: seq<Recipient>, after: seq<Recipient>, ids: seq<nat>, limit: nat)
    requires |before| == |after| && ids == PlannedIds(before, limit)
    requires forall r :: 0 <= r < |before| && r !in ids ==> after[r] == before[r]
    requires forall r :: r in ids ==> r < |after| && !after[r].state.Planned?
    ensures |PlannedSet(after)| == |PlannedSet(before)| - |ids|
    ensures |ids| < limit ==> PlannedSet(after) == {}
  {
    DistinctCount(ids);
    assert forall r :: r in Members(ids) <==> r in ids;
    assert PlannedSet(after) == PlannedSet(before) - Members(ids);
    assert Members(ids) <= PlannedSet(before);
  }

  function PlanMany(w: World, now: int, limit: nat, fills: seq<set<nat>>): World
    requires |w.recipients| == |w.budgets|
    decreases |fills|
  {
    if fills == [] then w
    else
      var m := PlanMany(w, now, limit, fills[..|fills| - 1]);
      if |m.recipients| == |m.budgets| then PlanCall(m, now, limit, fills[|fills| - 1]).0 else m
  }

  function Less(n: nat, m: nat): nat {
    if n <= m then 0 else n - m
  }

  ghost predicate StillDue(w: World, now: int) {
    PlannedSet(w.recipients) != {} ==> Due(w, now) && Runnable(w)
  }

  /** `n` recipients are planned, and the queue row is due if there are any. */
  ghost predicate Left(w: World, now: int, n: nat) {
    Inv(w) && StillDue(w, now) && |PlannedSet(w.recipients)| == n
  }

  lemma PlanDrainStep(w: World, now: int, limit: nat, fillable: set<nat>, n: nat) returns (z: World)
    requires Left(w, now, n)
    ensures |w.recipients| == |w.budgets| && z == PlanCall(w, now, limit, fillable).0 && Left(z, now, Less(n, limit))
  {
    z := PlanCall(w, now, limit, fillable).0;
    PlanKeeps(w, now, limit, fillable);
    if PlannedSet(w.recipients) != {} { PlanCallProgress(w, now, limit, fillable); }
    else { PlansNobody(w, now, limit, fillable); }
  }

  lemma {:induction false} PlanManyDrains(w: World, now: int, limit: nat, fills: seq<set<nat>>, n: nat)
    returns (z: World)
    requires Left(w, now, n) && |w.recipients| == |w.budgets|
    ensures z == PlanMany(w, now, limit, fills) && Left(z, now, LessEach(n, |fills|, limit))
    decreases |fills|
  {
    if fills == [] {
      z := w;
    } else {
      var front := fills[..|fills| - 1];
      var m := PlanManyDrains(w, now, limit, front, n);
      z := PlanDrainStep(m, now, limit, fills[|fills| - 1], LessEach(n, |front|, limit));
    }
  }

  function LessEach(n: nat, calls: nat, limit: nat): nat {
    if calls == 0 then n else Less(LessEach(n, calls - 1, limit), limit)
  }

  lemma {:induction false} LessInAll(n: nat, calls: nat, limit: nat)
    ensures LessEach(n, calls, limit) == Less(n, calls * limit)
  {
    if calls > 0 {
      LessInAll(n, calls - 1, limit);
      assert calls * limit == (calls - 1) * limit + limit;
    }
  }

  /** With no operator action in between, `ceil(n / limit)` calls leave nobody planned. */
  lemma PlannerDrains(w: World, now: int, limit: nat, fills: seq<set<nat>>)
    requires Inv(w) && StillDue(w, now)
    ensures var z := PlanMany(w, now, limit, fills);
      Inv(z) && StillDue(z, now) && |PlannedSet(z.recipients)| == Less(|PlannedSet(w.recipients)|, |fills| * limit)
  {
    var z := PlanManyDrains(w, now, limit, fills, |PlannedSet(w.recipients)|);
    LessInAll(|PlannedSet(w.recipients)|, |fills|, limit);
  }

  lemma PlansNobody(w: World, now: int, limit: nat, fillable: set<nat>)
    requires Inv(w) && PlannedSet(w.recipients) == {}
    ensures PlannedSet(PlanCall(w, now, limit, fillable).0.recipients) == {}
  {
    var ids := PlannedIds(w.recipients, limit);
    assert forall r :: r in ids ==> r in PlannedSet(w.recipients);
    DistinctCount(ids);
    assert Members(ids) == {};
  }

  // ---- Retry ------------------------------------------------------------------------

  predicate FailedAfterAcceptance(w: World, r: nat) {
    r < |w.recipients| && w.recipients[r].state.FailedRecipient? && w.recipients[r].command.Some?
    && w.recipients[r].command.value < |w.commands| && w.commands[w.recipients[r].command.value].state.ProviderAccepted?
  }

  lemma FailedRow(w: World, r: nat)
    requires RowsOk(w) && r < |w.recipients| && w.recipients[r].state.FailedRecipient?
    ensures w.recipients[r].command.Some? && (w.budgets[r].state.Released? <==> !FailedAfterAcceptance(w, r))
  {
    assert RecipientOk(w, r);
  }

  /** A completed campaign with failures can be retried exactly when no failure came after the provider's acceptance. */
  lemma RetryPossible(steps: seq<Step>)
    requires var w := Run(Initial(), steps);
      && w.execution.Some? && w.execution.value.state.DispatchCompleted?
      && exists r :: 0 <= r < |w.recipients| && w.recipients[r].state.FailedRecipient?
    ensures var w := Run(Initial(), steps);
      Accepts(w, Retry) <==> forall r :: 0 <= r < |w.recipients| ==> !FailedAfterAcceptance(w, r)
  {
    Reachable(steps);
    var w := Run(Initial(), steps);
    RetryPossibleIn(w);
  }

  lemma RetryPossibleIn(w: World)
    requires RowsOk(w) && ControlOk(w) && w.execution.Some? && w.execution.value.state.DispatchCompleted?
    requires exists r :: 0 <= r < |w.recipients| && w.recipients[r].state.FailedRecipient?
    ensures Accepts(w, Retry) <==> forall r :: 0 <= r < |w.recipients| ==> !FailedAfterAcceptance(w, r)
  {
    var ids := FailedIds(w);
    forall r | 0 <= r < |w.recipients| && w.recipients[r].state.FailedRecipient?
      ensures r in ids && (w.budgets[r].state.Released? <==> !FailedAfterAcceptance(w, r))
    {
      FailedRow(w, r);
    }
    if RetryRefusal(w).None? {
      assert !exists r | r in ids :: !w.budgets[r].state.Released?;
      forall r | 0 <= r < |w.recipients|
        ensures !FailedAfterAcceptance(w, r) { assert FailedAfterAcceptance(w, r) ==> r in ids; }
    }
  }

  /** A rescheduled send is claimable again exactly when no operator action overtook it on the wire. */
  lemma RescheduledIsClaimable(w: World, id: nat)
    requires Inv(w) && WorkerRefsOk(w, id) && w.workers[id].Recorded? && w.workers[id].outcome.OutcomeRetry?
    ensures var c := w.workers[id].command;
      Claimable(ProjectRecorded(w, id), c) <==>
        w.execution.Some? && w.execution.value.state.Running? && w.commands[c].fence == w.execution.value.stopVersion
  {
    assert WorkerOk(w, w.workers[id]) && CommandOk(w, w.workers[id].command);
  }

  /** A campaign completes only when no recipient is planned, queued or in flight. */
  lemma CompletedMeansDrained(steps: seq<Step>, r: nat)
    requires r < |Run(Initial(), steps).recipients|
    ensures var w := Run(Initial(), steps);
      && (w.control.DispatchCompleted? ==> !Open(w.recipients[r].state))
      && (w.control.Cancelled? ==> !w.recipients[r].state.Planned?)
  {
    Reachable(steps);
    var w := Run(Initial(), steps);
    if w.recipients[r].state.Planned? { assert AnyPlanned(w.recipients); }
  }
}
