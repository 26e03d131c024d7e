/**
 * Which workflows let a run end with a recipient's steps undone, when no step of it
 * failed: exactly those that put enough, or a delay, behind a template step.
 */
module AutomationEarlyEnd {
  import opened Shared
  import opened AutomationModel
  import opened AutomationInvariant
  import opened AutomationTheorems
  import opened AutomationCompleteness
  import opened AutomationLine

  /** From template step `k`, which can be reached, to step `c` nothing fails and no other message is sent. */
  predicate Stretch(steps: seq<Step>, k: int, c: int) {
    TemplateReachable(steps, k) && k < c < |steps| && forall j :: k < j < c ==> CanPass(steps[j]) && !steps[j].Template?
  }

  predicate RealDelay(step: Step) {
    step.Delay? && ValidDelay(step)
  }

  /** Such a stretch leads to a delay, or past as many steps as a call is sure to take. */
  ghost predicate EndsEarly(steps: seq<Step>, low: nat) {
    exists k, c :: Stretch(steps, k, c) && (RealDelay(steps[c]) || c == k + 1 + low)
  }

  // ---- Only such workflows ----------------------------------------------------------

  /** `r` has a message, waits for none of this call's, and no step of it failed. */
  ghost predicate Sent(t: Rows, r: nat) {
    && r < |t.recipients| && r < |t.actions| && t.recipients[r].command.Some? && !t.recipients[r].status.QueuedOne?
    && !Broken(t.actions[r], t.recipients[r].currentStep)
  }

  /** It already had that message `n` turns before, and if it is ready and met no delay, all of them were its own. */
  ghost predicate Served(y: Rows, t: Rows, r: nat, n: nat) {
    && r < |y.recipients| && r < |t.recipients|
    && y.recipients[r].command == t.recipients[r].command
    && y.recipients[r].currentStep <= t.recipients[r].currentStep <= |t.steps|
    && (Ready(t, r) && (forall j :: y.recipients[r].currentStep <= j < t.recipients[r].currentStep ==>
             !t.steps[j].Delay?) ==>
          t.recipients[r].currentStep == y.recipients[r].currentStep + n)
  }

  /** How one turn leaves such a recipient: as it was, unless the turn was its own. */
  lemma SentBefore(u: Rows, t0: int, now: int, prepared: set<(nat, nat)>, r: nat) returns (t: Rows)
    requires Line(u, t0) && u.status.RunningRun? && t0 <= now
    ensures t == Turn(u, now, prepared)
    ensures Sent(t, r) ==>
      && Sent(u, r) && u.recipients[r].command == t.recipients[r].command
      && t.recipients[r].currentStep <= |t.steps| == |u.steps|
      && (t.recipients[r].currentStep == u.recipients[r].currentStep
             || t.recipients[r].currentStep == u.recipients[r].currentStep + 1)
      && (Ready(t, r) ==> t.recipients[r].currentStep == u.recipients[r].currentStep + 1)
      && (Ready(t, r) && !t.steps[u.recipients[r].currentStep].Delay? ==> Ready(u, r))
  {
    t := TurnLine(u, t0, now, prepared);
    var v := TurnIs(u, now, prepared);
    if Sent(t, r) {
      assert Fits(t, r) && Fits(u, r);
      if Ready(u, r) {
        FirstPick(u, t0, now, r);
      }
    }
  }

  lemma ServedMore(y: Rows, u: Rows, t0: int, now: int, prepared: set<(nat, nat)>, r: nat, n: nat) returns (t: Rows)
    requires Line(u, t0) && u.status.RunningRun? && t0 <= now && (Sent(u, r) ==> Served(y, u, r, n))
    ensures t == Turn(u, now, prepared) && Line(t, t0) && t.status.RunningRun? && t.steps == u.steps
    ensures Sent(t, r) ==> Served(y, t, r, n + 1)
  {
    t := SentBefore(u, t0, now, prepared, r);
    t := TurnLine(u, t0, now, prepared);
  }

  lemma ServedNow(y: Rows, r: nat)
    requires Work(y) && r < |y.recipients|
    ensures Served(y, y, r, 0)
  {
    assert Fits(y, r);
  }

  lemma {:induction false} OwnTurns(y: Rows, t0: int, limit: nat, now: int, prepared: set<(nat, nat)>, r: nat)
    returns (t: Rows)
    requires Line(y, t0) && y.status.RunningRun? && t0 <= now
    ensures t == ExecuteActions(y, limit, now, prepared) && Line(t, t0) && t.status.RunningRun? && t.steps == y.steps
    ensures Sent(t, r) ==> Served(y, t, r, limit)
  {
    t := y;
    if limit > 0 {
      var u := OwnTurns(y, t0, limit - 1, now, prepared, r);
      t := ServedMore(y, u, t0, now, prepared, r, limit - 1);
    } else if r < |y.recipients| {
      ServedNow(y, r);
    }
  }

  /** What finalizing left, it left as the loop did, save statuses; and nobody is active. */
  lemma LeftAfterFinalize(t: Rows, r: nat)
    requires Work(t) && t.status.RunningRun? && Terminal(Finalize(t).status) && LeftBehind(Finalize(t), r)
    ensures Sent(t, r) && t.recipients[r].currentStep < |t.steps|
  {
    TallyZero(Finished(t).recipients, ACTIVE);
    assert Finished(t).recipients[r] == FinishOne(t.recipients[r], |t.steps|);
    assert Fits(t, r);
  }

  /** A recipient with a message and nothing failed stands at the end of a stretch. */
  lemma StandsAfterStretch(t: Rows, r: nat)
    requires Work(t) && Sent(t, r) && t.recipients[r].currentStep < |t.steps|
    ensures Stretch(t.steps, t.recipients[r].command.value, t.recipients[r].currentStep)
    ensures Ready(t, r) || RealDelay(t.steps[t.recipients[r].currentStep])
  {
    assert Fits(t, r);
  }

  lemma EndingCall(s: Rows, t0: int, limit: nat, now: int, contacts: Option<seq<Contact>>, prepared: set<(nat, nat)>,
                   r: nat, low: nat)
    requires Inv(s) && s.status.RunningRun? && Line(s, t0) && t0 <= now && limit >= low
    requires Terminal(Execute(s, limit, now, contacts, prepared).status)
      && LeftBehind(Execute(s, limit, now, contacts, prepared), r)
    ensures EndsEarly(s.steps, low)
  {
    var y := Reconcile(s);
    ReconcileKeeps(s);
    LineSame(s, y, t0);
    var t := OwnTurns(y, t0, limit, now, prepared, r);
    assert Terminal(Finalize(t).status) && LeftBehind(Finalize(t), r);
    LeftAfterFinalize(t, r);
    StandsAfterStretch(t, r);
    Shortened(y, t, r, limit, low);
  }

  /** The stretch cut off at a delay, or at as many steps as the call was sure to take. */
  lemma Shortened(y: Rows, t: Rows, r: nat, limit: nat, low: nat)
    requires r < |t.recipients| && t.recipients[r].command.Some? && limit >= low
    requires Work(y) && y.steps == t.steps && Served(y, t, r, limit)
    requires Stretch(t.steps, t.recipients[r].command.value, t.recipients[r].currentStep)
    requires Ready(t, r) || RealDelay(t.steps[t.recipients[r].currentStep])
    ensures EndsEarly(t.steps, low)
  {
    var k, c := t.recipients[r].command.value, t.recipients[r].currentStep;
    assert Fits(y, r);
    assert k < y.recipients[r].currentStep;
    if j :| y.recipients[r].currentStep <= j < c && t.steps[j].Delay? {
      assert Stretch(t.steps, k, j) && RealDelay(t.steps[j]);
    } else if !RealDelay(t.steps[c]) {
      assert Stretch(t.steps, k, k + 1 + low);
    }
  }

  lemma {:induction false} LeftBehindEndsEarly(steps: seq<Step>, at: int, events: seq<Event>, low: nat, high: nat,
                                               r: nat)
    requires Orderly(events, low, high)
    requires Terminal(Run(Start(steps, at), events).status) && LeftBehind(Run(Start(steps, at), events), r)
    ensures EndsEarly(steps, low)
    decreases |events|
  {
    var front, e := events[..|events| - 1], events[|events| - 1];
    var s := Run(Start(steps, at), front);
    ReachedInv(s, steps, at, front);
    if Terminal(s.status) {
      LeftBehindEndsEarly(steps, at, front, low, high, r);
    } else if s.status.RunningRun? {
      var t0 := RunLine(steps, at, front, low, high, e.now);
      EndingCall(s, t0, e.limit, e.now, e.contacts, e.prepared, r, low);
    } else {
      PlanEnds(s, e.contacts, e.now);
    }
  }

  lemma PlanEnds(s: Rows, contacts: Option<seq<Contact>>, now: int)
    requires Inv(s) && s.status.QueuedRun? && Terminal(Plan(s, contacts, now).status)
    ensures Plan(s, contacts, now).recipients == []
  { }
}
