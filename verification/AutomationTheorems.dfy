/** What holds of an automation run from its creation, whatever happens around it. */
module AutomationTheorems {
  import opened AutomationModel
  import opened AutomationInvariant

  ghost predicate Reached(s: Rows, steps: seq<Step>, at: int, events: seq<Event>) {
    s == Run(Start(steps, at), events)
  }

  lemma ReachedInv(s: Rows, steps: seq<Step>, at: int, events: seq<Event>)
    requires Reached(s, steps, at, events)
    ensures Inv(s) && s.steps == steps
  {
    StartKeeps(steps, at);
    RunKeeps(Start(steps, at), events);
    StepsFrozen(Start(steps, at), events);
  }

  lemma {:induction false} PlanFreezes(s: Rows, contacts: seq<Contact>, now: int)
    ensures PlanContacts(s, contacts, now).steps == s.steps
    decreases |contacts|
  {
    if contacts != [] {
      PlanFreezes(s, contacts[..|contacts| - 1], now);
    }
  }

  lemma {:induction false} StepsFrozen(s: Rows, events: seq<Event>)
    ensures Run(s, events).steps == s.steps
    decreases |events|
  {
    if events != [] {
      var t := Run(s, events[..|events| - 1]);
      StepsFrozen(s, events[..|events| - 1]);
      match events[|events| - 1]
      case Tick(limit, now, contacts, prepared) =>
        ExecuteActionsFrame(Reconcile(t), limit, now, prepared);
        if contacts.Some? { PlanFreezes(t, contacts.value, now); }
      case Outcome(_, _) =>
    }
  }

  /**
   * At every transaction boundary a recipient's steps are completed ones, then at most one
   * waiting or failed step, then only pending ones, and `current_step` counts the
   * completed. No step is attempted more than twice.
   */
  lemma StepsRunInOrder(s: Rows, steps: seq<Step>, at: int, events: seq<Event>, r: nat)
    requires Reached(s, steps, at, events) && r < |s.recipients|
    ensures |s.actions| == |s.recipients| && |s.actions[r]| == |steps| && s.recipients[r].currentStep <= |steps|
    ensures forall k :: 0 <= k < |steps| ==> (k < s.recipients[r].currentStep <==> s.actions[r][k].state.Completed?)
    ensures forall k :: s.recipients[r].currentStep < k < |steps| ==> s.actions[r][k].state.Pending?
    ensures s.recipients[r].currentStep < |steps| ==>
      s.actions[r][s.recipients[r].currentStep].state in {Pending, Waiting, Failed}
    ensures forall k :: 0 <= k < |steps| ==> s.actions[r][k].attempts <= 2
  {
    ReachedInv(s, steps, at, events);
    assert Fits(s, r);
  }

  /** The journal shows each recipient's steps taking effect once each, in the workflow's order, and nothing else. */
  lemma EachStepOnceInOrder(s: Rows, steps: seq<Step>, at: int, events: seq<Event>, r: nat)
    requires Reached(s, steps, at, events) && r < |s.recipients|
    ensures StepsOf(s.journal, r) == UpTo(s.recipients[r].currentStep)
  {
    ReachedInv(s, steps, at, events);
    assert Fits(s, r);
  }

  /** A message exists exactly for each completed template step of a recipient. */
  lemma OneMessagePerTemplateStep(s: Rows, steps: seq<Step>, at: int, events: seq<Event>, r: nat, k: nat)
    requires Reached(s, steps, at, events) && r < |s.recipients| && k < |steps|
    ensures |s.actions| == |s.recipients| && |s.actions[r]| == |steps|
    ensures (r, k) in s.messages <==> steps[k].Template? && s.actions[r][k].state.Completed?
  {
    ReachedInv(s, steps, at, events);
    StepsRunInOrder(s, steps, at, events, r);
    assert Fits(s, r);
  }

  /** A recipient waits for the latest of its messages, and for none only while it has none. */
  lemma WaitsForLatestMessage(s: Rows, steps: seq<Step>, at: int, events: seq<Event>, r: nat)
    requires Reached(s, steps, at, events) && r < |s.recipients|
    ensures match s.recipients[r].command
            case None => forall j: nat :: (r, j) !in s.messages
            case Some(k) => (r, k) in s.messages && forall j: nat :: (r, j) in s.messages ==> j <= k
  {
    ReachedInv(s, steps, at, events);
    assert Fits(s, r);
    var last := LastTemplate(s.steps, s.recipients[r].currentStep);
  }

  /** The run has a queue row exactly while it is not over. */
  lemma QueuedExactlyWhileOpen(s: Rows, steps: seq<Step>, at: int, events: seq<Event>)
    requires Reached(s, steps, at, events)
    ensures s.queue.Some? <==> !Terminal(s.status)
  {
    ReachedInv(s, steps, at, events);
  }

  lemma {:induction false} EarliestIsLeast(actions: seq<Action>, k: nat)
    requires k < |actions| && Open(actions[k])
    ensures EarliestOpen(actions).Some? && EarliestOpen(actions).value <= actions[k].availableAt
  {
    if k < |actions| - 1 {
      EarliestIsLeast(actions[..|actions| - 1], k);
    }
  }

  lemma {:induction false} NextDueIsLeast(actions: seq<seq<Action>>, r: nat, k: nat)
    requires r < |actions| && k < |actions[r]| && Open(actions[r][k])
    ensures NextDue(actions).Some? && NextDue(actions).value <= actions[r][k].availableAt
    decreases |actions|
  {
    if r < |actions| - 1 {
      NextDueIsLeast(actions[..|actions| - 1], r, k);
    } else {
      EarliestIsLeast(actions[r], k);
    }
  }

  /** No action sleeps past its time: the queue row of a running run comes due no later than any open action. */
  lemma WakesInTime(s: Rows, steps: seq<Step>, at: int, events: seq<Event>, r: nat, k: nat)
    requires Reached(s, steps, at, events) && s.status.RunningRun?
    requires r < |s.actions| && k < |s.actions[r]| && Open(s.actions[r][k])
    ensures s.queue.Some? && s.queue.value <= s.actions[r][k].availableAt
  {
    ReachedInv(s, steps, at, events);
    NextDueIsLeast(s.actions, r, k);
  }

  // ---- The end of a run -------------------------------------------------------------

  /** The statuses of recipients add up, and nobody is ever skipped or cancelled. */
  lemma StatusesAddUp(xs: seq<Recipient>)
    requires forall r :: 0 <= r < |xs| ==> !xs[r].status.SkippedOne? && !xs[r].status.CancelledOne?
    requires Tally(xs, ACTIVE) == 0
    ensures Tally(xs, PASSED_OVER) == 0
    ensures Tally(xs, {CompletedOne}) + Tally(xs, {SentOne}) + Tally(xs, RECEIVED) + Tally(xs, FAILED) == |xs|
  {
    TallyZero(xs, ACTIVE);
    TallyZero(xs, PASSED_OVER);
    var a, b := {CompletedOne} + {SentOne}, RECEIVED + FAILED;
    TallyUnion(xs, {CompletedOne}, {SentOne});
    TallyUnion(xs, RECEIVED, FAILED);
    TallyUnion(xs, a, b);
    forall r | 0 <= r < |xs| ensures xs[r].status in a + b {
      assert xs[r].status !in ACTIVE;
    }
    TallyAll(xs, a + b);
  }

  /**
   * An ended run has no pending or queued recipient, and its counters account for the
   * whole audience: those who completed without a message, those sent to, those failed.
   */
  lemma EndedRunAddsUp(s: Rows, steps: seq<Step>, at: int, events: seq<Event>)
    requires Reached(s, steps, at, events) && Terminal(s.status)
    ensures forall r :: 0 <= r < |s.recipients| ==>
      !s.recipients[r].status.PendingOne? && !s.recipients[r].status.QueuedOne?
    ensures Tally(s.recipients, {CompletedOne}) + s.counts.sent + s.counts.failed + s.counts.skipped ==
      s.counts.audience
    ensures s.counts.delivered <= s.counts.sent && s.counts.skipped == 0 && s.counts.audience == |s.recipients|
  {
    ReachedInv(s, steps, at, events);
    TallyZero(s.recipients, ACTIVE);
    EndedStatuses(s);
    StatusesAddUp(s.recipients);
  }

  lemma EndedStatuses(s: Rows)
    requires Inv(s)
    ensures forall r :: 0 <= r < |s.recipients| ==>
      !s.recipients[r].status.SkippedOne? && !s.recipients[r].status.CancelledOne?
  {
    forall r | 0 <= r < |s.recipients|
      ensures !s.recipients[r].status.SkippedOne? && !s.recipients[r].status.CancelledOne?
    {
      assert Fits(s, r);
    }
  }

  lemma VerdictCases(xs: seq<Recipient>)
    requires xs != [] && Tally(xs, ACTIVE) == 0
    requires forall r :: 0 <= r < |xs| ==> !xs[r].status.SkippedOne? && !xs[r].status.CancelledOne?
    ensures Verdict(xs).CompletedRun? <==> Tally(xs, FAILED) == 0
    ensures Verdict(xs).FailedRun? <==> Tally(xs, FAILED) == |xs|
    ensures Verdict(xs) in {CompletedRun, PartlyCompletedRun, FailedRun}
  {
    StatusesAddUp(xs);
  }

  lemma {:induction false} TallyFull(xs: seq<Recipient>, among: set<Status>)
    ensures Tally(xs, among) <= |xs|
    ensures Tally(xs, among) == |xs| <==> forall r :: 0 <= r < |xs| ==> xs[r].status in among
  {
    if xs != [] {
      TallyFull(xs[..|xs| - 1], among);
    }
  }

  /** The verdict of an ended run with an audience: completed when nobody failed, failed when everybody did. */
  lemma VerdictMeans(s: Rows, steps: seq<Step>, at: int, events: seq<Event>)
    requires Reached(s, steps, at, events) && Terminal(s.status) && s.recipients != []
    ensures s.status.CompletedRun? <==> forall r :: 0 <= r < |s.recipients| ==> s.recipients[r].status !in FAILED
    ensures s.status.FailedRun? <==> forall r :: 0 <= r < |s.recipients| ==> s.recipients[r].status in FAILED
    ensures s.status in {CompletedRun, PartlyCompletedRun, FailedRun}
  {
    ReachedInv(s, steps, at, events);
    EndedStatuses(s);
    VerdictCases(s.recipients);
    TallyZero(s.recipients, FAILED);
    TallyFull(s.recipients, FAILED);
  }

  /** Nothing that happens afterwards changes an ended run. */
  lemma {:induction false} EndIsFinal(s: Rows, more: seq<Event>)
    requires Inv(s) && Terminal(s.status)
    ensures Run(s, more) == s.(messages := Run(s, more).messages)
    decreases |more|
  {
    if more != [] {
      EndIsFinal(s, more[..|more| - 1]);
    }
  }
}
