/** When an ended run has done all of its work, and that runs do end. */
module AutomationCompleteness {
  import opened Shared
  import opened AutomationModel
  import opened AutomationInvariant
  import opened AutomationTheorems

  /** A recipient none of whose steps failed and who was still left with steps to do. */
  ghost predicate LeftBehind(s: Rows, r: nat) {
    r < |s.recipients| && r < |s.actions| && s.recipients[r].currentStep < |s.steps|
    && forall k :: 0 <= k < |s.actions[r]| ==> !s.actions[r][k].state.Failed?
  }

  /** Some template step that can be reached has a step after it. */
  ghost predicate StepAfterTemplate(steps: seq<Step>) {
    exists k :: TemplateReachable(steps, k) && k + 1 < |steps|
  }

  predicate TemplateReachable(steps: seq<Step>, k: int) {
    0 <= k < |steps| && steps[k].Template? && forall j :: 0 <= j <= k ==> CanPass(steps[j])
  }

  lemma LeftBehindNeedsTemplate(s: Rows, steps: seq<Step>, at: int, events: seq<Event>, r: nat)
    requires Reached(s, steps, at, events) && Terminal(s.status) && LeftBehind(s, r)
    ensures StepAfterTemplate(steps)
  {
    ReachedInv(s, steps, at, events);
    EndedRunAddsUp(s, steps, at, events);
    var x := s.recipients[r];
    assert Fits(s, r);
    assert !Broken(s.actions[r], x.currentStep);
    assert TemplateReachable(steps, x.command.value);
  }

  /**
   * When no step follows a template step, as in a workflow ending with its one message, an
   * ended run has finished every recipient none of whose steps failed.
   */
  lemma EndedRunFinishedEveryone(s: Rows, steps: seq<Step>, at: int, events: seq<Event>, r: nat)
    requires Reached(s, steps, at, events) && Terminal(s.status) && r < |s.recipients|
    requires forall k :: 0 <= k && k + 1 < |steps| ==> !steps[k].Template?
    requires s.recipients[r].status !in FAILED
    ensures s.recipients[r].currentStep == |steps|
    ensures |s.actions| == |s.recipients| && forall k :: 0 <= k < |s.actions[r]| ==> s.actions[r][k].state.Completed?
  {
    ReachedInv(s, steps, at, events);
    StepsRunInOrder(s, steps, at, events, r);
    assert Fits(s, r);
    if s.recipients[r].currentStep < |steps| {
      assert !Broken(s.actions[r], s.recipients[r].currentStep);
      LeftBehindNeedsTemplate(s, steps, at, events, r);
    }
  }

  // ---- Runs do end ------------------------------------------------------------------

  /** Nothing is left to do for a recipient: a step failed, or all are completed and any message is answered. */
  ghost predicate Settled(s: Rows, r: nat)
    requires r < |s.recipients| && r < |s.actions|
  {
    var x := s.recipients[r];
    && (x.currentStep == |s.steps| || Broken(s.actions[r], x.currentStep))
    && (x.command.Some? && (r, x.command.value) in s.messages ==>
          OutcomeOf(QueuedOne, s.messages[(r, x.command.value)]) != QueuedOne)
  }

  lemma SettledInactive(s: Rows, r: nat)
    requires RowsAgree(s) && r < |s.recipients| && Settled(s, r)
    requires s.recipients[r].command.Some? ==> (r, s.recipients[r].command.value) in s.messages
    ensures FinishOne(ReconcileOne(s, r), |s.steps|).status !in ACTIVE
  {
    assert Fits(s, r);
  }

  lemma CommandHasMessage(s: Rows, r: nat)
    requires RowsAgree(s) && r < |s.recipients| && s.recipients[r].command.Some?
    ensures (r, s.recipients[r].command.value) in s.messages
  {
    assert Fits(s, r);
  }

  lemma SettledNotDue(s: Rows, r: nat, k: nat, now: int)
    requires RowsAgree(s) && r < |s.recipients| && Settled(s, r)
    ensures !Eligible(Reconcile(s), r, k, now)
  {
    assert Fits(s, r);
  }

  lemma SettledNothingDue(s: Rows, limit: nat, now: int, prepared: set<(nat, nat)>)
    requires RowsAgree(s) && forall r :: 0 <= r < |s.recipients| ==> Settled(s, r)
    ensures ExecuteActions(Reconcile(s), limit, now, prepared) == Reconcile(s)
  {
    var t := Reconcile(s);
    var next := NextAction(t, now);
    if next.Some? {
      SettledNotDue(s, next.value.0, next.value.1, now);
    }
    NothingDueStays(t, 0, limit, now, prepared, t);
  }

  lemma SettledNobodyActive(s: Rows)
    requires RowsAgree(s) && forall r :: 0 <= r < |s.recipients| ==> Settled(s, r)
    ensures Tally(Finished(Reconcile(s)).recipients, ACTIVE) == 0
  {
    var z := Finished(Reconcile(s)).recipients;
    forall r | 0 <= r < |z| ensures z[r].status !in ACTIVE {
      if s.recipients[r].command.Some? { CommandHasMessage(s, r); }
      SettledInactive(s, r);
      assert z[r] == FinishOne(ReconcileOne(s, r), |s.steps|);
    }
    TallyZero(z, ACTIVE);
  }

  /** When nothing is left to do for anybody, the next due call ends the run. */
  lemma SettledRunEnds(s: Rows, steps: seq<Step>, at: int, events: seq<Event>, limit: nat, now: int,
                       contacts: Option<seq<Contact>>, prepared: set<(nat, nat)>)
    requires Reached(s, steps, at, events) && s.status.RunningRun?
    requires |s.actions| == |s.recipients| && forall r :: 0 <= r < |s.recipients| ==> Settled(s, r)
    requires s.queue.Some? && s.queue.value <= now
    ensures Terminal(Execute(s, limit, now, contacts, prepared).status)
    ensures Execute(s, limit, now, contacts, prepared).queue.None?
  {
    ReachedInv(s, steps, at, events);
    SettledNothingDue(s, limit, now, prepared);
    SettledNobodyActive(s);
  }

  // ---- The work of a run is bounded -------------------------------------------------

  function Attempts(actions: seq<Action>): nat {
    if actions == [] then 0 else Attempts(actions[..|actions| - 1]) + actions[|actions| - 1].attempts
  }

  function TotalAttempts(actions: seq<seq<Action>>): nat {
    if actions == [] then 0 else TotalAttempts(actions[..|actions| - 1]) + Attempts(actions[|actions| - 1])
  }

  lemma {:induction false} AttemptsUpdate(actions: seq<Action>, k: nat, a: Action)
    requires k < |actions|
    ensures Attempts(actions[k := a]) == Attempts(actions) - actions[k].attempts + a.attempts
  {
    var n := |actions| - 1;
    if k < n {
      AttemptsUpdate(actions[..n], k, a);
      assert actions[k := a][..n] == actions[..n][k := a];
    } else {
      assert actions[k := a][..n] == actions[..n];
    }
  }

  lemma {:induction false} TotalUpdate(actions: seq<seq<Action>>, r: nat, row: seq<Action>)
    requires r < |actions|
    ensures TotalAttempts(actions[r := row]) == TotalAttempts(actions) - Attempts(actions[r]) + Attempts(row)
  {
    var n := |actions| - 1;
    if r < n {
      TotalUpdate(actions[..n], r, row);
      assert actions[r := row][..n] == actions[..n][r := row];
    } else {
      assert actions[r := row][..n] == actions[..n];
    }
  }

  lemma {:induction false} AttemptsBounded(actions: seq<Action>)
    requires forall k :: 0 <= k < |actions| ==> actions[k].attempts <= 2
    ensures Attempts(actions) <= 2 * |actions|
  {
    if actions != [] {
      AttemptsBounded(actions[..|actions| - 1]);
    }
  }

  lemma {:induction false} TotalBounded(actions: seq<seq<Action>>, n: nat)
    requires forall r :: 0 <= r < |actions| ==> Attempts(actions[r]) <= n
    ensures TotalAttempts(actions) <= |actions| * n
  {
    if actions != [] {
      TotalBounded(actions[..|actions| - 1], n);
      assert (|actions| - 1) * n + n == |actions| * n;
    }
  }

  /** All the executions a run can ever make: two for every step of every recipient. */
  function MaxAttempts(s: Rows): nat {
    |s.actions| * (2 * |s.steps|)
  }

  lemma WorkBounded(s: Rows)
    requires RowsAgree(s)
    ensures TotalAttempts(s.actions) <= MaxAttempts(s)
  {
    forall r | 0 <= r < |s.actions| ensures Attempts(s.actions[r]) <= 2 * |s.steps| {
      assert Fits(s, r);
      AttemptsBounded(s.actions[r]);
    }
    TotalBounded(s.actions, 2 * |s.steps|);
  }

  lemma ExecutionCounts(s: Rows, r: nat, k: nat, now: int, prepared: set<(nat, nat)>)
    requires HasAction(s, r, k) && k < |s.steps|
    ensures TotalAttempts(ExecuteAction(s, r, k, now, prepared).actions) == TotalAttempts(s.actions) + 1
    ensures MaxAttempts(ExecuteAction(s, r, k, now, prepared)) == MaxAttempts(s)
  {
    var z := ExecuteAction(s, r, k, now, prepared);
    var a := z.actions[r][k];
    assert z.actions[r] == s.actions[r][k := a];
    assert z.actions == s.actions[r := z.actions[r]];
    assert a.attempts == s.actions[r][k].attempts + 1;
    AttemptsUpdate(s.actions[r], k, a);
    TotalUpdate(s.actions, r, s.actions[r][k := a]);
  }

  lemma OneMoreExecution(s: Rows, r: nat, k: nat, now: int, prepared: set<(nat, nat)>) returns (t: Rows)
    requires Work(s) && s.status.RunningRun? && Eligible(s, r, k, now)
    ensures r < |s.recipients| && t == ExecuteAction(s, r, k, now, prepared) && Work(t) && t.status.RunningRun?
    ensures TotalAttempts(t.actions) == TotalAttempts(s.actions) + 1 <= MaxAttempts(t) == MaxAttempts(s)
  {
    AtCursor(s, r, k, now);
    t := ExecuteActionKeeps(s, r, k, now, prepared);
    ExecuteActionFrame(s, r, k, now, prepared);
    ExecutionCounts(s, r, k, now, prepared);
    WorkBounded(t);
  }

  ghost predicate Shaped(s: Rows) {
    |s.actions| == |s.recipients| && forall r :: 0 <= r < |s.actions| ==> |s.actions[r]| == |s.steps|
  }

  lemma WorkShaped(s: Rows)
    requires RowsAgree(s)
    ensures Shaped(s)
  {
    forall r | 0 <= r < |s.actions| ensures |s.actions[r]| == |s.steps| {
      assert Fits(s, r);
    }
  }

  lemma ExecutionShapes(s: Rows, r: nat, k: nat, now: int, prepared: set<(nat, nat)>)
    requires Shaped(s) && HasAction(s, r, k)
    ensures Shaped(ExecuteAction(s, r, k, now, prepared))
  { }

  lemma TurnCounts(s: Rows, now: int, prepared: set<(nat, nat)>)
    requires Shaped(s)
    ensures Shaped(Turn(s, now, prepared)) && |Turn(s, now, prepared).actions| == |s.actions|
    ensures NextAction(s, now).Some? ==> TotalAttempts(Turn(s, now, prepared).actions) == TotalAttempts(s.actions) + 1
  {
    var next := NextAction(s, now);
    if next.Some? {
      ExecutionShapes(s, next.value.0, next.value.1, now, prepared);
      ExecutionCounts(s, next.value.0, next.value.1, now, prepared);
    }
  }

  /** The loop stops when nothing is due or when it has executed `limit` actions. */
  lemma {:induction false} LoopStops(s: Rows, limit: nat, now: int, prepared: set<(nat, nat)>) returns (z: Rows)
    requires Shaped(s)
    ensures z == ExecuteActions(s, limit, now, prepared) && Shaped(z)
    ensures NextAction(z, now).None? || TotalAttempts(z.actions) == TotalAttempts(s.actions) + limit
  {
    z := s;
    if limit > 0 {
      var t := LoopStops(s, limit - 1, now, prepared);
      TurnCounts(t, now, prepared);
      z := Turn(t, now, prepared);
    }
  }

  lemma NoneLeft(z: Rows, now: int, prepared: set<(nat, nat)>)
    requires Work(z) && z.status.RunningRun? && TotalAttempts(z.actions) >= MaxAttempts(z)
    ensures NextAction(z, now).None?
  {
    var next := NextAction(z, now);
    if next.Some? {
      var t := OneMoreExecution(z, next.value.0, next.value.1, now, prepared);
    }
  }

  lemma {:induction false} AudienceFixed(s: Rows, limit: nat, now: int, prepared: set<(nat, nat)>) returns (z: Rows)
    requires Shaped(s)
    ensures z == ExecuteActions(s, limit, now, prepared) && Shaped(z) && |z.actions| == |s.actions|
      && z.steps == s.steps
  {
    z := s;
    if limit > 0 {
      var t := AudienceFixed(s, limit - 1, now, prepared);
      TurnFrame(t, now, prepared);
      TurnCounts(t, now, prepared);
      z := Turn(t, now, prepared);
    }
  }

  /** A call whose limit covers the executions the run has left leaves nothing due. */
  lemma DueWorkDrains(s: Rows, limit: nat, now: int, prepared: set<(nat, nat)>) returns (z: Rows)
    requires Work(s) && s.status.RunningRun?
    requires TotalAttempts(s.actions) + limit >= MaxAttempts(s)
    ensures z == ExecuteActions(s, limit, now, prepared) && NextAction(z, now).None?
  {
    WorkShaped(s);
    z := ExecuteActionsKeeps(s, limit, now, prepared);
    var x := LoopStops(s, limit, now, prepared);
    var y := AudienceFixed(s, limit, now, prepared);
    if NextAction(z, now).Some? {
      assert MaxAttempts(z) == MaxAttempts(s);
      NoneLeft(z, now, prepared);
    }
  }
}
