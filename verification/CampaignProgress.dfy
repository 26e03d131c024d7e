/** Which recipients can still settle, and which campaigns can still complete. */
module CampaignProgress {
  import opened Shared
  import opened CampaignLifecycle
  import opened CampaignModel
  import opened CampaignInvariant
  import opened CampaignTheorems

  // ---- A recipient in flight --------------------------------------------------------

  ghost predicate InFlightWith(w: World, r: nat, c: nat) {
    r < |w.recipients| && w.recipients[r] == Recipient(InFlight, Some(c))
  }

  /** A live worker holds the command, or an attempt on it was never answered. */
  ghost predicate Attended(w: World, c: nat) {
    (exists id :: id in w.workers && w.workers[id].command == c) || !NoOpenAttempt(w, c)
  }

  /** What a worker still has to do, at whatever stage it is; steps already made are refused. */
  function Finishing(id: nat, around: Circumstances, took: bool, answer: Answer): seq<Step> {
    [PrepareStep(id, around), SendStep(id, took, answer), RecordStep(id), ProjectStep(id)]
  }

  lemma RunFinishing(w: World, id: nat, around: Circumstances, took: bool, answer: Answer)
    ensures Run(w, Finishing(id, around, took, answer)) ==
            Apply(Apply(Apply(Apply(w, PrepareStep(id, around)), SendStep(id, took, answer)), RecordStep(id)),
                ProjectStep(id))
  {
    var e := Finishing(id, around, took, answer);
    assert e[..0] == [];
    RunNext(w, e, 0, w);
    RunNext(w, e, 1, Run(w, e[..1]));
    RunNext(w, e, 2, Run(w, e[..2]));
    RunNext(w, e, 3, Run(w, e[..3]));
    assert e[..4] == e;
  }

  /** How far a worker has got with a recipient in flight. */
  ghost predicate HeldBy(w: World, r: nat, c: nat, id: nat) {
    Inv(w) && InFlightWith(w, r, c) && id in w.workers && w.workers[id].command == c
  }

  lemma HolderOf(w: World, r: nat, c: nat, id: nat)
    requires HeldBy(w, r, c, id)
    ensures WorkerRefsOk(w, id) && w.workers[id].recipient == Some(r) && w.commands[c].recipient == r
    ensures w.workers[id].Prepared? || w.workers[id].Answered? ==> w.commands[c].version == w.workers[id].version
  {
    assert RecipientOk(w, r) && WorkerOk(w, w.workers[id]) && CommandOk(w, c);
  }

  /** Either the recipient is settled, or the worker has come on. */
  lemma Prepares(w: World, r: nat, c: nat, id: nat, around: Circumstances) returns (z: World)
    requires HeldBy(w, r, c, id)
    ensures z == Apply(w, PrepareStep(id, around)) && r < |z.recipients|
    ensures (z.recipients[r].state.SkippedRecipient? && id !in z.workers)
      || (HeldBy(z, r, c, id) && !z.workers[id].Claimed?)
  {
    HolderOf(w, r, c, id);
    z := Apply(w, PrepareStep(id, around));
    ApplyKeeps(w, PrepareStep(id, around));
  }

  lemma Sends(w: World, r: nat, c: nat, id: nat, took: bool, answer: Answer) returns (z: World)
    requires HeldBy(w, r, c, id) && !w.workers[id].Claimed? && Honest(took, answer)
    ensures z == Apply(w, SendStep(id, took, answer)) && HeldBy(z, r, c, id) && !z.workers[id].Claimed?
      && !z.workers[id].Prepared?
  {
    HolderOf(w, r, c, id);
    z := Apply(w, SendStep(id, took, answer));
    ApplyKeeps(w, SendStep(id, took, answer));
  }

  lemma Records(w: World, r: nat, c: nat, id: nat) returns (z: World)
    requires HeldBy(w, r, c, id) && !w.workers[id].Claimed? && !w.workers[id].Prepared?
    ensures z == Apply(w, RecordStep(id)) && HeldBy(z, r, c, id) && z.workers[id].Recorded?
  {
    HolderOf(w, r, c, id);
    z := Apply(w, RecordStep(id));
    ApplyKeeps(w, RecordStep(id));
  }

  lemma Projects(w: World, r: nat, c: nat, id: nat) returns (z: World)
    requires HeldBy(w, r, c, id) && w.workers[id].Recorded?
    ensures z == Apply(w, ProjectStep(id)) && r < |z.recipients| && !z.recipients[r].state.InFlight?
  {
    HolderOf(w, r, c, id);
    z := Apply(w, ProjectStep(id));
  }

  lemma GoneStays(w: World, id: nat, took: bool, answer: Answer)
    requires id !in w.workers
    ensures Apply(Apply(Apply(w, SendStep(id, took, answer)), RecordStep(id)), ProjectStep(id)) == w
  { }

  /** A live worker settles its recipient, whatever the guard and the provider say. */
  lemma WorkerSettles(w: World, r: nat, c: nat, id: nat, around: Circumstances, took: bool, answer: Answer)
    requires HeldBy(w, r, c, id) && Honest(took, answer)
    ensures var z := Run(w, Finishing(id, around, took, answer)); r < |z.recipients| && !z.recipients[r].state.InFlight?
  {
    RunFinishing(w, id, around, took, answer);
    var x := Prepares(w, r, c, id, around);
    if id in x.workers {
      var y := Sends(x, r, c, id, took, answer);
      y := Records(y, r, c, id);
      y := Projects(y, r, c, id);
    } else {
      GoneStays(x, id, took, answer);
    }
  }

  lemma RecoverySettles(w: World, r: nat, c: nat, a: nat)
    requires Inv(w) && InFlightWith(w, r, c) && a < |w.attempts| && w.attempts[a].command == c
      && w.attempts[a].answer.None?
    ensures var z := Run(w, [RecoverStep(a)]); r < |z.recipients| && z.recipients[r].state.UnknownRecipient?
  {
    assert RecipientOk(w, r) && CommandOk(w, c) && AttemptOk(w, a);
    assert [RecoverStep(a)][..0] == [];
  }

  // ---- Left in flight for good ------------------------------------------------------

  ghost predicate Stranded(w: World, r: nat, c: nat) {
    Inv(w) && InFlightWith(w, r, c) && !Attended(w, c)
  }

  /** A step that does not concern recipient `r` nor command `c`. */
  ghost predicate Elsewhere(w: World, z: World, r: nat, c: nat) {
    && r < |w.recipients| && r < |z.recipients| && z.recipients[r] == w.recipients[r]
    && (forall id :: id in z.workers && z.workers[id].command == c ==> id in w.workers && w.workers[id].command == c)
    && (forall a :: 0 <= a < |z.attempts| && z.attempts[a].command == c && z.attempts[a].answer.None? ==>
          a < |w.attempts| && w.attempts[a] == z.attempts[a])
  }

  lemma NotTheirs(w: World, r: nat, c: nat, id: nat)
    requires Stranded(w, r, c) && WorkerRefsOk(w, id)
    ensures w.workers[id].command != c && w.workers[id].recipient.Some? && w.workers[id].recipient.value != r
    ensures w.commands[w.workers[id].command].recipient == w.workers[id].recipient.value
  {
    assert RecipientOk(w, r) && WorkerOk(w, w.workers[id]);
    assert CommandOk(w, w.workers[id].command) && CommandOk(w, c);
  }

  lemma PrepareElsewhere(w: World, r: nat, c: nat, id: nat, around: Circumstances)
    requires Stranded(w, r, c)
    ensures Elsewhere(w, Prepare(w, id, around), r, c)
  {
    if WorkerRefsOk(w, id) { NotTheirs(w, r, c, id); }
  }

  lemma SendElsewhere(w: World, r: nat, c: nat, id: nat, took: bool, answer: Answer)
    requires Stranded(w, r, c)
    ensures Elsewhere(w, Send(w, id, took, answer), r, c)
  {
    if WorkerRefsOk(w, id) { NotTheirs(w, r, c, id); }
  }

  lemma RecordElsewhere(w: World, r: nat, c: nat, id: nat)
    requires Stranded(w, r, c)
    ensures Elsewhere(w, Record(w, id), r, c)
  {
    if WorkerRefsOk(w, id) { NotTheirs(w, r, c, id); }
  }

  lemma ProjectElsewhere(w: World, r: nat, c: nat, id: nat)
    requires Stranded(w, r, c)
    ensures Elsewhere(w, ProjectRecorded(w, id), r, c)
  {
    if WorkerRefsOk(w, id) { NotTheirs(w, r, c, id); }
  }

  lemma ClaimElsewhere(w: World, r: nat, c: nat, id: nat, d: nat)
    requires Stranded(w, r, c)
    ensures Elsewhere(w, Claim(w, id, d), r, c)
  {
    if d < |w.commands| { assert CommandOk(w, d) && RecipientOk(w, r); }
  }

  lemma RecoverElsewhere(w: World, r: nat, c: nat, a: nat)
    requires Stranded(w, r, c)
    ensures Elsewhere(w, Recover(w, a), r, c)
  {
    if a < |w.attempts| { assert AttemptOk(w, a); }
  }

  lemma PlanElsewhere(w: World, r: nat, c: nat, now: int, limit: nat, fillable: set<nat>)
    requires Stranded(w, r, c)
    ensures Elsewhere(w, PlanCall(w, now, limit, fillable).0, r, c)
  {
    if Due(w, now) && Runnable(w) {
      var ids := PlannedIds(w.recipients, limit);
      assert forall i :: 0 <= i < |ids| ==> ids[i] in ids;
      PlanEachTouches(Started(w), ids, fillable, w.execution.value.stopVersion);
    }
  }

  /** Planning writes planned recipients, commands and outbox rows, and nothing of the dispatcher's. */
  lemma {:induction false} PlanEachTouches(w: World, ids: seq<nat>, fillable: set<nat>, version: nat)
    requires |w.recipients| == |w.budgets| && forall i :: 0 <= i < |ids| ==> ids[i] < |w.recipients|
    ensures var z := PlanEach(w, ids, fillable, version);
      && z.workers == w.workers && z.attempts == w.attempts
      && forall q :: 0 <= q < |w.recipients| ==>
           if q !in ids then z.recipients[q] == w.recipients[q]
           else if q in fillable then z.recipients[q].state.Queued? else z.recipients[q].state.SkippedRecipient?
  {
    if ids != [] {
      assert ids == ids[..|ids| - 1] + [ids[|ids| - 1]];
      PlanEachTouches(w, ids[..|ids| - 1], fillable, version);
    }
  }

  lemma StaysStranded(w: World, s: Step, r: nat, c: nat)
    requires Stranded(w, r, c)
    ensures Stranded(Apply(w, s), r, c)
  {
    ApplyKeeps(w, s);
    StepElsewhere(w, s, r, c);
  }

  lemma ControlElsewhere(w: World, r: nat, c: nat, action: Action, now: int)
    requires Stranded(w, r, c) && ControlTarget(w.control, action).Some?
    ensures Elsewhere(w, Controlled(w, action, now), r, c)
  { }

  lemma ReceiveElsewhere(w: World, r: nat, c: nat, d: nat, receipt: Receipt)
    requires Stranded(w, r, c)
    ensures Elsewhere(w, Receive(w, d, receipt), r, c)
  { }

  /** There is an execution, which is neither launched again nor retried. */
  lemma StrandedOwns(w: World, r: nat, c: nat)
    requires Stranded(w, r, c)
    ensures w.execution.Some? && RetryRefusal(w).Some?
  {
    assert RecipientOk(w, r);
    assert CommandOk(w, c) && Open(w.recipients[r].state);
  }

  lemma StepElsewhere(w: World, s: Step, r: nat, c: nat)
    requires Stranded(w, r, c)
    ensures Elsewhere(w, Apply(w, s), r, c)
  {
    assert |w.recipients| == |w.budgets|;
    match s
    case Launch(_) => StrandedOwns(w, r, c);
    case Control(action, now) => if ControlTarget(w.control, action).Some? { ControlElsewhere(w, r, c, action, now); }
    case Retry => StrandedOwns(w, r, c);
    case Plan(now, limit, fillable) => PlanElsewhere(w, r, c, now, limit, fillable);
    case ClaimStep(id, d) => ClaimElsewhere(w, r, c, id, d);
    case PrepareStep(id, around) => PrepareElsewhere(w, r, c, id, around);
    case SendStep(id, took, answer) => SendElsewhere(w, r, c, id, took, answer);
    case RecordStep(id) => RecordElsewhere(w, r, c, id);
    case ProjectStep(id) => ProjectElsewhere(w, r, c, id);
    case Crash(_) =>
    case RecoverStep(a) => RecoverElsewhere(w, r, c, a);
    case ReceiptStep(d, receipt) => ReceiveElsewhere(w, r, c, d, receipt);
  }

  /**
   * Left without a worker and an open attempt, a recipient stays in flight and its money reserved,
   * and the campaign never completes.
   */
  lemma {:induction false} StrandedForGood(w: World, steps: seq<Step>, r: nat, c: nat)
    requires Stranded(w, r, c)
    ensures var z := Run(w, steps);
      Stranded(z, r, c) && r < |z.budgets| && z.budgets[r].state.Reserved? && !z.control.DispatchCompleted?
    decreases |steps|
  {
    if steps != [] {
      StrandedForGood(w, steps[..|steps| - 1], r, c);
      StaysStranded(Run(w, steps[..|steps| - 1]), steps[|steps| - 1], r, c);
    }
    var z := Run(w, steps);
    assert RecipientOk(z, r) && Open(z.recipients[r].state);
    assert CommandOk(z, c);
  }

  /**
   * A recipient in flight can still settle exactly when a live worker holds its command or an
   * attempt was never answered.
   */
  lemma CanSettleIff(w: World, r: nat, c: nat)
    requires Inv(w) && InFlightWith(w, r, c)
    ensures Attended(w, c) <==>
      exists steps :: r < |Run(w, steps).recipients| && !Run(w, steps).recipients[r].state.InFlight?
  {
    if id :| id in w.workers && w.workers[id].command == c {
      var around := Circumstances(true, None, 0, false, true);
      WorkerSettles(w, r, c, id, around, false, AnswerUnknown);
      assert !Run(w, Finishing(id, around, false, AnswerUnknown)).recipients[r].state.InFlight?;
    } else if a: nat :| a < |w.attempts| && w.attempts[a].command == c && w.attempts[a].answer.None? {
      RecoverySettles(w, r, c, a);
      assert !Run(w, [RecoverStep(a)]).recipients[r].state.InFlight?;
    } else {
      forall steps ensures r < |Run(w, steps).recipients| && Run(w, steps).recipients[r].state.InFlight? {
        StrandedForGood(w, steps, r, c);
      }
    }
  }

  // ---- Completing -------------------------------------------------------------------

  ghost predicate NobodyOpen(w: World) {
    forall r :: 0 <= r < |w.recipients| ==> !Open(w.recipients[r].state)
  }

  ghost predicate OnlyOpen(w: World, r: nat) {
    r < |w.recipients| && forall q :: 0 <= q < |w.recipients| && q != r ==> !Open(w.recipients[q].state)
  }

  /** The step settles `r`, which is in flight: a refusal, a recorded outcome that is final, or recovery. */
  ghost predicate Settles(w: World, s: Step, r: nat) {
    r < |w.recipients| && w.recipients[r].state.InFlight? && w.recipients[r].command.Some?
    && (var c := w.recipients[r].command.value;
        match s
        case PrepareStep(id, around) =>
          id in w.workers && w.workers[id].command == c && w.workers[id].Claimed? && !Permitted(w, Some(r), around)
        case ProjectStep(id) =>
          id in w.workers && w.workers[id].command == c && w.workers[id].Recorded?
            && !w.workers[id].outcome.OutcomeRetry?
        case RecoverStep(a) => a < |w.attempts| && w.attempts[a].command == c && w.attempts[a].answer.None?
        case _ => false)
  }

  predicate InState(w: World, state: CampaignState) {
    w.execution.Some? && w.execution.value.state == state
  }

  /** Settling the recipient leaves it not open, and completes a running campaign when nobody else is. */
  ghost predicate SettledBy(w: World, z: World, r: nat) {
    && |z.recipients| == |w.recipients|
    && (forall q :: 0 <= q < |w.recipients| && q != r ==> z.recipients[q] == w.recipients[q])
    && r < |z.recipients| && !Open(z.recipients[r].state)
    && z.execution == (if InState(w, Running) && NobodyOpen(z)
           then Some(w.execution.value.(state := DispatchCompleted)) else w.execution)
  }

  lemma SettlesRefused(w: World, r: nat, id: nat, around: Circumstances)
    requires Inv(w) && Settles(w, PrepareStep(id, around), r)
    ensures SettledBy(w, Prepare(w, id, around), r)
  {
    HolderOf(w, r, w.recipients[r].command.value, id);
  }

  lemma SettlesProjected(w: World, r: nat, id: nat)
    requires Inv(w) && Settles(w, ProjectStep(id), r)
    ensures SettledBy(w, ProjectRecorded(w, id), r)
  {
    HolderOf(w, r, w.recipients[r].command.value, id);
  }

  lemma SettlesRecovered(w: World, r: nat, a: nat)
    requires Inv(w) && Settles(w, RecoverStep(a), r)
    ensures SettledBy(w, Recover(w, a), r)
  {
    assert RecipientOk(w, r) && AttemptOk(w, a);
  }

  lemma SettlesIs(w: World, s: Step, r: nat)
    requires Inv(w) && Settles(w, s, r)
    ensures SettledBy(w, Apply(w, s), r)
  {
    match s
    case PrepareStep(id, around) => SettlesRefused(w, r, id, around);
    case ProjectStep(id) => SettlesProjected(w, r, id);
    case RecoverStep(a) => SettlesRecovered(w, r, a);
  }

  /** Everybody is as open as before, and the execution as it was. */
  ghost predicate SameOpen(w: World, z: World) {
    && |z.recipients| == |w.recipients| && z.execution == w.execution
    && forall q :: 0 <= q < |w.recipients| ==> (Open(z.recipients[q].state) <==> Open(w.recipients[q].state))
  }

  ghost predicate SettlesNobody(w: World, s: Step) {
    forall r: nat :: !Settles(w, s, r)
  }

  predicate Dispatches(s: Step) {
    !s.Launch? && !s.Control? && !s.Retry? && !s.Plan?
  }

  lemma PrepareOpens(w: World, id: nat, around: Circumstances)
    requires Inv(w) && SettlesNobody(w, PrepareStep(id, around))
    ensures SameOpen(w, Prepare(w, id, around))
  {
    if WorkerRefsOk(w, id) && w.workers[id].Claimed? {
      assert WorkerOk(w, w.workers[id]);
      assert !Settles(w, PrepareStep(id, around), w.workers[id].recipient.value);
    }
  }

  lemma ProjectOpens(w: World, id: nat)
    requires Inv(w) && SettlesNobody(w, ProjectStep(id))
    ensures SameOpen(w, ProjectRecorded(w, id))
  {
    if WorkerRefsOk(w, id) && w.workers[id].Recorded? {
      assert WorkerOk(w, w.workers[id]);
      assert !Settles(w, ProjectStep(id), w.workers[id].recipient.value);
    }
  }

  lemma RecoverOpens(w: World, a: nat)
    requires Inv(w) && SettlesNobody(w, RecoverStep(a))
    ensures SameOpen(w, Recover(w, a))
  {
    if a < |w.attempts| { OpenAttemptSettles(w, a); }
  }

  lemma OpenAttemptSettles(w: World, a: nat)
    requires Inv(w) && a < |w.attempts|
    ensures w.attempts[a].answer.None? ==> exists r: nat :: Settles(w, RecoverStep(a), r)
  {
    assert AttemptOk(w, a);
    assert w.attempts[a].answer.None? ==> Settles(w, RecoverStep(a), w.commands[w.attempts[a].command].recipient);
  }

  lemma DispatchOpens(w: World, s: Step)
    requires Inv(w) && Dispatches(s) && SettlesNobody(w, s)
    ensures SameOpen(w, Apply(w, s))
  {
    match s
    case PrepareStep(id, around) => PrepareOpens(w, id, around);
    case ProjectStep(id) => ProjectOpens(w, id);
    case RecoverStep(a) => RecoverOpens(w, a);
    case _ =>
  }

  lemma {:induction false} RetryEachOpens(w: World, ids: seq<nat>, version: nat)
    requires |w.recipients| == |w.budgets| && forall i :: 0 <= i < |ids| ==> ids[i] < |w.recipients|
    ensures var z := RetryEach(w, ids, version);
      z.execution == w.execution && forall r :: r in ids ==> z.recipients[r].state.Queued?
  {
    if ids != [] {
      assert ids == ids[..|ids| - 1] + [ids[|ids| - 1]];
      RetryEachOpens(w, ids[..|ids| - 1], version);
    }
  }

  lemma RetryOpens(w: World)
    requires |w.recipients| == |w.budgets| && RetryRefusal(w).None?
    ensures InState(Retried(w), Running) && !NobodyOpen(Retried(w))
  {
    var ids := FailedIds(w);
    assert forall i :: 0 <= i < |ids| ==> ids[i] in ids;
    var version := w.execution.value.stopVersion + 1;
    RetryEachOpens(w.(execution := Some(Execution(Transition(w.execution.value.state, RetryFailed).value, version))),
        ids, version);
    assert Open(Retried(w).recipients[ids[0]].state);
  }

  /** A due planner call that finds nobody open but recipients it skips. */
  ghost predicate SkipsTheLast(w: World, s: Step) {
    s.Plan? && Due(w, s.now) && Runnable(w)
    && forall q :: 0 <= q < |w.recipients| && Open(w.recipients[q].state) ==>
         q in PlannedIds(w.recipients, s.limit) && q !in s.fillable
  }

  lemma PlanOpens(w: World, now: int, limit: nat, fillable: set<nat>)
    requires Inv(w)
    ensures var z := PlanCall(w, now, limit, fillable).0;
      if Due(w, now) && Runnable(w) then InState(z, Running)
        && (NobodyOpen(z) <==> SkipsTheLast(w, Plan(now, limit, fillable)))
      else SameOpen(w, z)
  {
    if Due(w, now) && Runnable(w) {
      var ids := PlannedIds(w.recipients, limit);
      assert forall i :: 0 <= i < |ids| ==> ids[i] in ids;
      var z := PlanCall(w, now, limit, fillable).0;
      PlanEachTouches(Started(w), ids, fillable, w.execution.value.stopVersion);
      PlanEachFrame(Started(w), ids, fillable, w.execution.value.stopVersion);
      forall q | 0 <= q < |w.recipients|
        ensures Open(z.recipients[q].state) <==> Open(w.recipients[q].state) && !(q in ids && q !in fillable) { }
    }
  }

  lemma {:induction false} PlanEachFrame(w: World, ids: seq<nat>, fillable: set<nat>, version: nat)
    requires |w.recipients| == |w.budgets| && forall i :: 0 <= i < |ids| ==> ids[i] < |w.recipients|
    ensures PlanEach(w, ids, fillable, version).execution == w.execution
  {
    if ids != [] { PlanEachFrame(w, ids[..|ids| - 1], fillable, version); }
  }

  /** The step settles the one recipient that is open. */
  ghost predicate SettlesTheLast(w: World, s: Step) {
    exists r: nat :: Settles(w, s, r) && OnlyOpen(w, r)
  }

  /** What a dispatcher's or provider's step does to the execution and to who is open. */
  lemma DispatchIs(w: World, s: Step)
    requires Inv(w) && Dispatches(s)
    ensures var z := Apply(w, s);
      && (NobodyOpen(z) <==> NobodyOpen(w) || SettlesTheLast(w, s))
      && z.execution == if InState(w, Running) && SettlesTheLast(w, s)
           then Some(w.execution.value.(state := DispatchCompleted)) else w.execution
  {
    var z := Apply(w, s);
    if r: nat :| Settles(w, s, r) {
      SettlesIs(w, s, r);
      assert Open(w.recipients[r].state);
      assert NobodyOpen(z) <==> OnlyOpen(w, r);
    } else {
      DispatchOpens(w, s);
    }
  }

  /**
   * Exactly when a step completes a campaign: it runs, and the step settles the one
   * recipient still open. No other step ever looks.
   */
  lemma CompletesIff(w: World, s: Step)
    requires Inv(w) && !InState(w, DispatchCompleted)
    ensures InState(Apply(w, s), DispatchCompleted) <==> InState(w, Running) && SettlesTheLast(w, s)
  {
    match s
    case Launch(q) => if LaunchRefusal(w, q).None? { LaunchOpens(w, q); }
    case Control(action, now) => if ControlTarget(w.control, action).Some? { ControlOpens(w, action, now); }
    case Retry => if RetryRefusal(w).None? { RetryOpens(w); }
    case Plan(now, limit, fillable) => PlanOpens(w, now, limit, fillable);
    case _ => DispatchIs(w, s);
  }

  /** Launched, neither completed nor cancelled, and nobody is left to settle. */
  ghost predicate DrainedUnnoticed(w: World) {
    w.execution.Some? && !InState(w, DispatchCompleted) && !InState(w, Cancelled) && NobodyOpen(w)
  }

  /** A launch whose audience has nobody eligible. */
  ghost predicate LaunchesNobody(w: World, s: Step) {
    s.Launch? && LaunchRefusal(w, s.request).None? && s.request.eligible.value == 0
  }

  /**
   * Exactly how a campaign comes to be drained without completing: launched for nobody, its
   * planner skipping everybody left, or the last recipient settling while it does not run.
   */
  lemma DrainsUnnoticedIff(w: World, s: Step)
    requires Inv(w) && !DrainedUnnoticed(w)
    ensures DrainedUnnoticed(Apply(w, s)) <==>
      || LaunchesNobody(w, s)
      || SkipsTheLast(w, s)
      || (SettlesTheLast(w, s) && !InState(w, Running) && !InState(w, Cancelled))
  {
    match s
    case Launch(q) => if LaunchRefusal(w, q).None? { LaunchOpens(w, q); }
    case Control(action, now) => if ControlTarget(w.control, action).Some? { ControlOpens(w, action, now); }
    case Retry => if RetryRefusal(w).None? { RetryOpens(w); }
    case Plan(now, limit, fillable) => PlanOpens(w, now, limit, fillable);
    case _ => DispatchIs(w, s);
  }

  lemma LaunchOpens(w: World, q: LaunchRequest)
    requires Inv(w) && LaunchRefusal(w, q).None?
    ensures NobodyOpen(Launched(w, q)) <==> q.eligible.value == 0
    ensures InState(Launched(w, q), Running) || InState(Launched(w, q), Scheduled)
  {
    assert q.eligible.value > 0 ==> Open(Launched(w, q).recipients[0].state);
  }

  lemma ControlOpens(w: World, action: Action, now: int)
    requires Inv(w) && ControlTarget(w.control, action).Some?
    ensures InState(Controlled(w, action, now), Cancelled) || Controlled(w, action, now).recipients == w.recipients
    ensures w.execution.Some? && !InState(w, DispatchCompleted) && !InState(w, Cancelled)
    ensures !InState(Controlled(w, action, now), DispatchCompleted)
  { }

  /** Such a campaign never completes, whatever happens, so its failures are never retried either. */
  lemma {:induction false} NeverCompletes(w: World, steps: seq<Step>)
    requires Inv(w) && w.execution.Some? && NobodyOpen(w) && !InState(w, DispatchCompleted)
    ensures var z := Run(w, steps); Inv(z) && z.execution.Some? && NobodyOpen(z) && !InState(z, DispatchCompleted)
    decreases |steps|
  {
    if steps != [] {
      NeverCompletes(w, steps[..|steps| - 1]);
      StillDrained(Run(w, steps[..|steps| - 1]), steps[|steps| - 1]);
    }
  }

  lemma StillDrained(w: World, s: Step)
    requires Inv(w) && w.execution.Some? && NobodyOpen(w) && !InState(w, DispatchCompleted)
    ensures var z := Apply(w, s); Inv(z) && z.execution.Some? && NobodyOpen(z) && !InState(z, DispatchCompleted)
  {
    ApplyKeeps(w, s);
    CompletesIff(w, s);
    OpensNobody(w, s);
  }

  lemma OpensNobody(w: World, s: Step)
    requires Inv(w) && w.execution.Some? && NobodyOpen(w) && !InState(w, DispatchCompleted)
    ensures Apply(w, s).execution.Some? && NobodyOpen(Apply(w, s))
  {
    match s
    case Launch(_) =>
    case Control(action, now) => if ControlTarget(w.control, action).Some? { CancelOpens(w, action, now); }
    case Retry =>
    case Plan(now, limit, fillable) => PlanOpens(w, now, limit, fillable);
    case _ => DispatchIs(w, s);
  }

  lemma CancelOpens(w: World, action: Action, now: int)
    requires Inv(w) && ControlTarget(w.control, action).Some? && NobodyOpen(w)
    ensures NobodyOpen(Controlled(w, action, now)) && Controlled(w, action, now).execution.Some?
  { }
}
