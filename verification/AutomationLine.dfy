/** Whose turn it is: a recipient that has begun is served until it waits, fails or is done. */
module AutomationLine {
  import opened Shared
  import opened AutomationModel
  import opened AutomationInvariant

  /** Pending steps date from the planning, waiting ones from later. */
  ghost predicate TimedRow(actions: seq<Action>, t0: int) {
    forall k :: 0 <= k < |actions| ==>
      (actions[k].state.Pending? ==> actions[k].availableAt == t0)
        && (actions[k].state.Waiting? ==> actions[k].availableAt > t0)
  }

  ghost predicate Timed(s: Rows, t0: int) {
    forall r :: 0 <= r < |s.actions| ==> TimedRow(s.actions[r], t0)
  }

  /** The next step of `r` is pending. */
  predicate Ready(s: Rows, r: nat) {
    r < |s.recipients| && r < |s.actions| && s.recipients[r].currentStep < |s.actions[r]|
    && s.actions[r][s.recipients[r].currentStep].state.Pending?
  }

  predicate Begun(s: Rows, r: nat) {
    Ready(s, r) && s.recipients[r].currentStep > 0
  }

  /** At most one ready recipient has begun, and the others that are ready come after it. */
  ghost predicate OneBegun(s: Rows) {
    forall r: nat, q: nat :: Begun(s, r) && Ready(s, q) && q != r ==> !Begun(s, q) && r < q
  }

  ghost predicate Line(s: Rows, t0: int) {
    Work(s) && Timed(s, t0) && OneBegun(s)
  }

  /**
   * Only a ready recipient is picked while there is one, none that comes later, and the one that
   * has begun if any has.
   */
  lemma FirstPick(s: Rows, t0: int, now: int, r: nat)
    requires Line(s, t0) && t0 <= now && Ready(s, r)
    ensures var next := NextAction(s, now);
      && next.Some? && next.value.0 <= r && Ready(s, next.value.0)
      && next.value.1 == s.recipients[next.value.0].currentStep
      && (Begun(s, r) ==> next.value.0 == r)
  {
    assert Fits(s, r) && TimedRow(s.actions[r], t0);
    var k := s.recipients[r].currentStep;
    assert Eligible(s, r, k, now);
    NextIsFirst(s, |s.actions|, now, r, k);
    var next := NextAction(s, now).value;
    AtCursor(s, next.0, next.1, now);
    assert TimedRow(s.actions[next.0], t0);
    assert s.actions[next.0][next.1].state.Pending?;
    assert Ready(s, next.0);
    assert next.0 <= r;
  }

  /** What one turn does: nothing, or one of three things to the recipient picked. */
  lemma TurnIs(s: Rows, now: int, prepared: set<(nat, nat)>) returns (z: Rows)
    requires Work(s) && s.status.RunningRun?
    ensures z == Turn(s, now, prepared) && Work(z) && z.status.RunningRun? && z.queue == s.queue && z.steps == s.steps
    ensures match NextAction(s, now)
            case None => z == s
            case Some((p, k)) =>
              p < |s.recipients| && k == s.recipients[p].currentStep && HasAction(s, p, k) && k < |s.steps|
              && (if Passes(s, p, k, prepared) then Completes(s, z, p, k)
                  else if s.steps[k].Delay? && ValidDelay(s.steps[k]) then
                    Waits(s, z, p, k) && z.actions[p][k].availableAt == now + s.steps[k].seconds.value
                  else Fails(s, z, p, k))
  {
    z := TurnKeeps(s, now, prepared);
    TurnFrame(s, now, prepared);
    var next := NextAction(s, now);
    if next.Some? {
      var (p, k) := next.value;
      AtCursor(s, p, k, now);
      if Passes(s, p, k, prepared) {
        PassesCompletes(s, p, k, now, prepared);
      } else if s.steps[k].Delay? && ValidDelay(s.steps[k]) {
        DelayWaits(s, p, k, now, prepared);
      } else {
        StepFails(s, p, k, now, prepared);
      }
    }
  }

  lemma TurnLine(s: Rows, t0: int, now: int, prepared: set<(nat, nat)>) returns (z: Rows)
    requires Line(s, t0) && s.status.RunningRun? && t0 <= now
    ensures z == Turn(s, now, prepared) && Line(z, t0) && z.status.RunningRun? && z.queue == s.queue
      && z.steps == s.steps
  {
    z := TurnIs(s, now, prepared);
    var next := NextAction(s, now);
    if next.Some? {
      var (p, k) := next.value;
      forall r | 0 <= r < |z.actions| ensures TimedRow(z.actions[r], t0) {
        assert TimedRow(s.actions[r], t0);
      }
      forall r: nat, q: nat | Begun(z, r) && Ready(z, q) && q != r ensures !Begun(z, q) && r < q {
        if r == p {
          FirstPick(s, t0, now, q);
        } else if q == p {
          FirstPick(s, t0, now, r);
        } else {
          assert Begun(s, r) && Ready(s, q);
        }
      }
    }
  }

  lemma {:induction false} ActionsLine(s: Rows, t0: int, limit: nat, now: int, prepared: set<(nat, nat)>)
    returns (z: Rows)
    requires Line(s, t0) && s.status.RunningRun? && t0 <= now
    ensures z == ExecuteActions(s, limit, now, prepared) && Line(z, t0) && z.status.RunningRun? && z.queue == s.queue
      && z.steps == s.steps
  {
    z := s;
    if limit > 0 {
      var t := ActionsLine(s, t0, limit - 1, now, prepared);
      z := TurnLine(t, t0, now, prepared);
    }
  }

  /** Only statuses and columns of the run changed. */
  lemma LineSame(s: Rows, z: Rows, t0: int)
    requires Line(s, t0) && Work(z) && z.actions == s.actions && |z.recipients| == |s.recipients|
    requires forall r :: 0 <= r < |s.recipients| ==> z.recipients[r].currentStep == s.recipients[r].currentStep
    ensures Line(z, t0)
  {
    forall r: nat, q: nat | Begun(z, r) && Ready(z, q) && q != r ensures !Begun(z, q) && r < q {
      assert Begun(s, r) && Ready(s, q);
    }
  }

  lemma {:induction false} PlanTimes(s: Rows, contacts: seq<Contact>, now: int)
    requires s.actions == []
    ensures Timed(PlanContacts(s, contacts, now), now)
    decreases |contacts|
  {
    if contacts != [] {
      PlanTimes(s, contacts[..|contacts| - 1], now);
    }
  }

  lemma PlanLine(s: Rows, contacts: Option<seq<Contact>>, now: int)
    requires Inv(s) && s.status.QueuedRun? && s.actions == []
    ensures Line(Plan(s, contacts, now), now)
  {
    PlanKeeps(s, contacts, now);
    if contacts.Some? {
      PlanContactsPlans(s, contacts.value, now);
      PlanTimes(s, contacts.value, now);
    }
  }

  lemma ExecuteLine(s: Rows, t0: int, limit: nat, now: int, contacts: Option<seq<Contact>>, prepared: set<(nat, nat)>)
    requires Inv(s) && s.status.RunningRun? && Line(s, t0) && t0 <= now
    ensures Line(Execute(s, limit, now, contacts, prepared), t0)
  {
    if s.queue.Some? && s.queue.value <= now {
      ReconcileKeeps(s);
      LineSame(s, Reconcile(s), t0);
      var t := ActionsLine(Reconcile(s), t0, limit, now, prepared);
      FinalizeKeeps(t);
      LineSame(t, Finalize(t), t0);
      ExecuteKeeps(s, limit, now, contacts, prepared);
      LineSame(Finalize(t), Execute(s, limit, now, contacts, prepared), t0);
    }
  }

  // ---- Runs whose clock does not go back --------------------------------------------

  /** Every call takes between `low` and `high` actions at most, and no call's instant is before an earlier call's. */
  ghost predicate Orderly(events: seq<Event>, low: nat, high: nat) {
    && (forall i :: 0 <= i < |events| && events[i].Tick? ==> low <= events[i].limit <= high)
    && (forall i, j :: 0 <= i < j < |events| && events[i].Tick? && events[j].Tick? ==> events[i].now <= events[j].now)
  }

  ghost predicate Within(events: seq<Event>, from: int, to: int) {
    forall i :: 0 <= i < |events| && events[i].Tick? ==> from <= events[i].now <= to
  }

  ghost predicate NotAfter(events: seq<Event>, to: int) {
    forall i :: 0 <= i < |events| && events[i].Tick? ==> events[i].now <= to
  }

  lemma {:induction false} RunLine(steps: seq<Step>, at: int, events: seq<Event>, low: nat, high: nat, to: int)
    returns (t0: int)
    requires Orderly(events, low, high) && NotAfter(events, to)
    ensures var s := Run(Start(steps, at), events);
      && Inv(s) && (s.status.QueuedRun? ==> s.actions == []) && (s.status.RunningRun? ==> Line(s, t0) && t0 <= to)
    decreases |events|
  {
    StartKeeps(steps, at);
    RunKeeps(Start(steps, at), events);
    t0 := to;
    if events != [] {
      var front, e := events[..|events| - 1], events[|events| - 1];
      var s := Run(Start(steps, at), front);
      RunKeeps(Start(steps, at), front);
      t0 := RunLine(steps, at, front, low, high, if e.Tick? then e.now else to);
      match e
      case Tick(limit, now, contacts, prepared) =>
        if s.status.RunningRun? {
          ExecuteLine(s, t0, limit, now, contacts, prepared);
        } else if s.status.QueuedRun? && s.queue.Some? && s.queue.value <= now {
          t0 := now;
          PlanLine(s, contacts, now);
          LineSame(Plan(s, contacts, now), Apply(s, e), now);
        }
      case Outcome(id, m) =>
        if s.status.RunningRun? {
          LineSame(s, Settle(s, id, m), t0);
        }
    }
  }
}
