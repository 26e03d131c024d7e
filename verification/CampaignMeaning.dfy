/**
 * What each transaction of a campaign does, in terms of the rows it leaves: when work comes due,
 * for whom, under which fence.
 */
module CampaignMeaning {
  import opened Shared
  import opened CampaignLifecycle
  import opened CampaignModel
  import opened CampaignInvariant
  import opened CampaignTheorems
  import opened CampaignProgress

  // ---- The lifecycle ----------------------------------------------------------------

  /** The triggers a state reacts to, and what it reacts to no more: the table read by its rows. */
  lemma StatesLeave(t: Trigger)
    ensures Transition(Draft, t).Some? <==> t.Validate?
    ensures Transition(Validating, t).Some? <==> t.ValidationPassed? || t.ValidationFailed? || t.OrchestrationFailed?
    ensures Transition(Ready, t).Some? <==> t.LaunchNow? || t.LaunchScheduled?
    ensures Transition(Scheduled, t).Some? <==> t.ScheduleDue? || t.Cancel? || t.OrchestrationFailed?
    ensures Transition(Running, t).Some? <==> t.Pause? || t.DispatchFinished? || t.Cancel? || t.OrchestrationFailed?
    ensures Transition(Pausing, t).Some? <==>
            t.PauseSettled? || t.DispatchFinished? || t.Cancel? || t.OrchestrationFailed?
    ensures Transition(Paused, t).Some? <==> t.Resume? || t.Cancel? || t.OrchestrationFailed?
    ensures Transition(Cancelling, t).Some? <==> t.CancelSettled? || t.OrchestrationFailed?
    ensures Transition(DispatchCompleted, t).Some? <==> t.RetryFailed?
    ensures Transition(Failed, t).Some? <==> t.RetryFailed?
    ensures Transition(Cancelled, t).None?
  { }

  /** What leads into each state. */
  lemma StatesEnter(from: CampaignState, t: Trigger)
    requires Transition(from, t).Some?
    ensures var to := Transition(from, t).value;
      && (to.Running? <==> t.LaunchNow? || t.ScheduleDue? || t.Resume? || t.RetryFailed?)
      && (to.DispatchCompleted? <==> t.DispatchFinished?) && (to.Cancelled? <==> t.CancelSettled?)
      && (to.Paused? <==> t.PauseSettled?) && (to.Scheduled? <==> t.LaunchScheduled?)
      && (to.Pausing? <==> t.Pause?) && (to.Cancelling? <==> t.Cancel?) && (to.Failed? <==> t.OrchestrationFailed?)
      && (to.Validating? <==> t.Validate?) && (to.Ready? <==> t.ValidationPassed?)
      && (to.Draft? <==> t.ValidationFailed?)
  { }

  /** From which states an operator can act, and where that settles. */
  lemma ActionsSettle(from: CampaignState)
    ensures ControlTarget(from, PauseAction) == if from.Running? then Some(Paused) else None
    ensures ControlTarget(from, ResumeAction) == if from.Paused? then Some(Running) else None
    ensures ControlTarget(from, CancelAction) ==
            if from.Scheduled? || from.Running? || from.Pausing? || from.Paused? then Some(Cancelled) else None
  { }

  // ---- Launch -----------------------------------------------------------------------

  /** The instant asked for, or at once. */
  function LaunchTime(q: LaunchRequest): int {
    match q.scheduledFor
    case Some(t) => t
    case None => q.now
  }

  /** A launch is accepted exactly for an approved, unexpired campaign that is ready, over a connection that is too. */
  lemma LaunchAccepted(w: World, q: LaunchRequest)
    requires Inv(w)
    ensures LaunchRefusal(w, q).None? <==>
      && q.connectionReady && q.approved && q.eligible.Some? && w.control.Ready?
      && (q.expiresAt.Some? ==> q.now < q.expiresAt.value)
  { }

  /** Whether a launch comes too late. */
  predicate Expired(q: LaunchRequest) {
    q.expiresAt.Some? && q.expiresAt.value <= q.now
  }

  /** What a refused launch is told, each code exactly when; that the campaign was launched before it is never told. */
  lemma LaunchRefusedAs(w: World, q: LaunchRequest)
    requires Inv(w)
    ensures var code := LaunchRefusal(w, q);
      && (code == Some("connection_not_ready") <==> !q.connectionReady)
      && (code == Some("campaign_expired") <==> q.connectionReady && Expired(q))
      && (code == Some("approval_required") <==> q.connectionReady && !Expired(q) && !q.approved)
      && (code == Some("audience_required") <==> q.connectionReady && !Expired(q) && q.approved && q.eligible.None?)
      && (code == Some("invalid_campaign_transition") <==>
            q.connectionReady && !Expired(q) && q.approved && q.eligible.Some? && !w.control.Ready?)
      && code != Some("campaign_already_launched")
  { }

  /** Its work comes due at the time asked for, and everybody eligible is planned with an equal share reserved. */
  lemma LaunchMeans(w: World, q: LaunchRequest, t: int)
    requires Inv(w) && LaunchRefusal(w, q).None?
    ensures var z := Apply(w, Launch(q));
      && (Due(z, t) <==> t >= LaunchTime(q))
      && z.execution == Some(Execution(if q.scheduledFor.Some? then Scheduled else Running, 0))
      && z.control == z.execution.value.state
      && |z.recipients| == |z.budgets| == |z.deliveries| == q.eligible.value
      && (forall r :: 0 <= r < |z.recipients| ==>
            z.recipients[r] == Recipient(Planned, None) && z.deliveries[r] == 0
            && z.budgets[r].state.Reserved?
            && z.budgets[r].estimated == z.budgets[r].reserved == Share(q.budget, q.eligible.value))
      && z.commands == [] && z.outbox == map[] && z.workers == map[]
  {
    assert forall c :: c !in w.outbox;
  }

  /** Nothing has been planned for a scheduled campaign. */
  ghost predicate Unstarted(z: World, at: int) {
    && Inv(z) && z.commands == [] && z.execution.Some? && NothingUnderway(z)
    && ((InState(z, Scheduled) && z.queue.Some? && z.queue.value.availableAt == at
             && z.queue.value.stopVersion == z.execution.value.stopVersion)
        || InState(z, Cancelled))
  }

  ghost predicate NothingUnderway(z: World) {
    z.attempts == [] && z.workers == map[] && z.outbox == map[]
  }

  ghost predicate PlansBefore(steps: seq<Step>, at: int) {
    forall i :: 0 <= i < |steps| && steps[i].Plan? ==> steps[i].now < at
  }

  lemma UnstartedStep(z: World, s: Step, at: int)
    requires Unstarted(z, at) && (s.Plan? ==> s.now < at)
    ensures Unstarted(Apply(z, s), at)
  {
    ApplyKeeps(z, s);
    match s
    case Control(action, now) => if ControlTarget(z.control, action).Some? { UnstartedControl(z, action, now); }
    case Plan(now, limit, fillable) =>
    case _ =>
  }

  lemma UnstartedControl(z: World, action: Action, now: int)
    requires Inv(z) && z.commands == [] && z.execution.Some? && NothingUnderway(z)
    requires (InState(z, Scheduled) || InState(z, Cancelled)) && ControlTarget(z.control, action).Some?
    ensures var y := Controlled(z, action, now); InState(y, Cancelled) && y.commands == [] && NothingUnderway(y)
  {
    assert Controlled(z, action, now).outbox == map[];
  }

  /**
   * Until a planner call at or after its time a scheduled campaign stays scheduled, or is
   * cancelled, and nothing is planned or sent.
   */
  lemma {:induction false} ScheduledWaits(w: World, q: LaunchRequest, steps: seq<Step>)
    requires Inv(w) && LaunchRefusal(w, q).None? && q.scheduledFor.Some? && PlansBefore(steps, q.scheduledFor.value)
    ensures var z := Run(w, [Launch(q)] + steps);
      Unstarted(z, q.scheduledFor.value) && (InState(z, Scheduled) || InState(z, Cancelled)) && z.commands == []
    decreases |steps|
  {
    var all := [Launch(q)] + steps;
    if steps == [] {
      assert all[..0] == [];
      LaunchMeans(w, q, 0);
      ApplyKeeps(w, Launch(q));
    } else {
      var front := steps[..|steps| - 1];
      assert all[..|all| - 1] == [Launch(q)] + front;
      ScheduledWaits(w, q, front);
      UnstartedStep(Run(w, [Launch(q)] + front), steps[|steps| - 1], q.scheduledFor.value);
    }
  }

  /** And the first planner call from then on starts it. */
  lemma ScheduledStarts(z: World, at: int, now: int, limit: nat, fillable: set<nat>)
    requires Unstarted(z, at) && InState(z, Scheduled) && now >= at
    ensures InState(Apply(z, Plan(now, limit, fillable)), Running)
  {
    PlanOpens(z, now, limit, fillable);
  }

  // ---- Planning ---------------------------------------------------------------------

  /** How many planned recipients come before `r`. */
  function PlannedBefore(rs: seq<Recipient>, from: nat, r: nat): nat
    requires from <= r <= |rs|
    decreases r - from
  {
    if from == r then 0 else (if rs[from].state.Planned? then 1 else 0) + PlannedBefore(rs, from + 1, r)
  }

  lemma {:induction false} PlannedIdsAre(rs: seq<Recipient>, limit: nat, from: nat, r: nat)
    requires from <= r < |rs|
    ensures r in PlannedIds(rs, limit, from) <==> rs[r].state.Planned? && PlannedBefore(rs, from, r) < limit
    decreases |rs| - from
  {
    if limit > 0 {
      if from < r {
        PlannedIdsAre(rs, if rs[from].state.Planned? then limit - 1 else limit, from + 1, r);
      }
    }
  }

  /**
   * A command newly queued for `r` under the current stop version, which a dispatcher can claim if
   * the execution runs.
   */
  ghost predicate FreshCommand(w: World, z: World, r: nat) {
    && r < |z.recipients| && z.recipients[r].state.Queued? && z.recipients[r].command.Some?
    && (var c := z.recipients[r].command.value;
        && |w.commands| <= c < |z.commands| && z.commands[c].recipient == r && z.commands[c].state.CommandQueued?
        && z.commands[c].fence == StopVersion(z) && c in z.outbox)
  }

  ghost predicate Skipped(w: World, z: World, r: nat) {
    && r < |z.recipients| && z.recipients[r].state.SkippedRecipient? && z.recipients[r].command.None?
    && r < |z.budgets| && z.budgets[r].state.Released? && z.budgets[r].reserved == 0
  }

  /** What planning makes of recipient `r`, whether it is among those handled and can be filled. */
  ghost predicate PlanRow(w: World, z: World, r: nat, handled: bool, filled: bool)
    requires r < |w.recipients| == |w.budgets|
  {
    && r < |z.recipients| && r < |z.budgets|
    && (if !handled then z.recipients[r] == w.recipients[r] && z.budgets[r] == w.budgets[r]
        else if filled then FreshCommand(w, z, r) && z.budgets[r] == w.budgets[r]
        else Skipped(w, z, r))
  }

  ghost predicate PlanRows(w: World, z: World, ids: seq<nat>, fillable: set<nat>)
    requires |w.recipients| == |w.budgets|
  {
    && StopVersion(z) == StopVersion(w) && |w.commands| <= |z.commands|
    && |z.recipients| == |z.budgets| == |w.recipients|
    && forall r: nat :: r < |w.recipients| ==> PlanRow(w, z, r, r in ids, r in fillable)
  }

  lemma PlanOneMore(w: World, m: World, ids: seq<nat>, last: nat, fillable: set<nat>)
    requires |w.recipients| == |w.budgets| && PlanRows(w, m, ids, fillable) && last !in ids && last < |w.recipients|
    requires w.recipients[last] == Recipient(Planned, None) && w.budgets[last].state.Reserved? && w.execution.Some?
    ensures PlanRows(w, PlanOne(m, last, last in fillable, w.execution.value.stopVersion), ids + [last], fillable)
  {
    var z := PlanOne(m, last, last in fillable, w.execution.value.stopVersion);
    assert PlanRow(w, m, last, false, last in fillable);
    forall r: nat | r < |w.recipients| ensures PlanRow(w, z, r, r in ids + [last], r in fillable) {
      assert PlanRow(w, m, r, r in ids, r in fillable);
    }
  }

  lemma {:induction false} PlanEachMakes(w: World, ids: seq<nat>, fillable: set<nat>, version: nat)
    requires |w.recipients| == |w.budgets| && forall i :: 0 <= i < |ids| ==> ids[i] < |w.recipients|
    requires forall i, j :: 0 <= i < j < |ids| ==> ids[i] < ids[j]
    requires forall i :: 0 <= i < |ids| ==>
      w.recipients[ids[i]] == Recipient(Planned, None) && w.budgets[ids[i]].state.Reserved?
    requires w.execution.Some? && w.execution.value.stopVersion == version
    ensures PlanRows(w, PlanEach(w, ids, fillable, version), ids, fillable)
  {
    if ids != [] {
      var front, last := ids[..|ids| - 1], ids[|ids| - 1];
      assert ids == front + [last];
      PlanEachMakes(w, front, fillable, version);
      PlanOneMore(w, PlanEach(w, front, fillable, version), front, last, fillable);
    }
  }

  lemma PlanCallMakes(w: World, now: int, limit: nat, fillable: set<nat>)
    requires Inv(w) && Due(w, now) && Runnable(w)
    ensures PlanRows(w, PlanCall(w, now, limit, fillable).0, PlannedIds(w.recipients, limit), fillable)
  {
    var ids := PlannedIds(w.recipients, limit);
    assert forall i :: 0 <= i < |ids| ==> ids[i] in ids;
    forall i | 0 <= i < |ids|
      ensures w.recipients[ids[i]] == Recipient(Planned, None) && w.budgets[ids[i]].state.Reserved?
    {
      assert RecipientOk(w, ids[i]);
    }
    var s := Started(w);
    PlanEachMakes(s, ids, fillable, w.execution.value.stopVersion);
    RowsOfStart(w, s, PlanEach(s, ids, fillable, w.execution.value.stopVersion), PlanCall(w, now, limit, fillable).0,
        ids, fillable);
  }

  lemma RowsOfStart(w: World, s: World, y: World, z: World, ids: seq<nat>, fillable: set<nat>)
    requires |w.recipients| == |w.budgets| && s == w.(execution := s.execution, control := s.control)
    requires StopVersion(s) == StopVersion(w) && PlanRows(s, y, ids, fillable) && z == y.(queue := z.queue)
    ensures PlanRows(w, z, ids, fillable)
  {
    forall r: nat | r < |w.recipients| ensures PlanRow(w, z, r, r in ids, r in fillable) {
      assert PlanRow(s, y, r, r in ids, r in fillable);
    }
  }

  /**
   * A due planner call handles the first `limit` planned recipients in order: a command
   * under the current stop version for each whose content can be filled, which a dispatcher
   * can claim, and a skip with the reservation freed for the others; everybody else is left
   * as they were.
   */
  lemma PlanMeans(w: World, now: int, limit: nat, fillable: set<nat>, r: nat)
    requires Inv(w) && Due(w, now) && Runnable(w) && r < |w.recipients|
    ensures var z := Apply(w, Plan(now, limit, fillable));
      var handled := w.recipients[r].state.Planned? && PlannedBefore(w.recipients, 0, r) < limit;
      && PlanRow(w, z, r, handled, r in fillable)
      && (handled && r in fillable ==> Claimable(z, z.recipients[r].command.value))
  {
    PlanCallMakes(w, now, limit, fillable);
    PlannedIdsAre(w.recipients, limit, 0, r);
    PlanOpens(w, now, limit, fillable);
    var z := PlanCall(w, now, limit, fillable).0;
    assert PlanRow(w, z, r, r in PlannedIds(w.recipients, limit), r in fillable);
  }

  /** Nothing is planned before the queue row is due, nor in a campaign neither scheduled nor running. */
  lemma PlansOnlyWhenDue(w: World, now: int, limit: nat, fillable: set<nat>)
    requires Inv(w) && |Apply(w, Plan(now, limit, fillable)).commands| > |w.commands|
    ensures w.queue.Some? && w.queue.value.availableAt <= now
    ensures InState(w, Scheduled) || InState(w, Running)
  { }

  // ---- Retry ------------------------------------------------------------------------

  lemma {:induction false} RetryEachMakes(w: World, ids: seq<nat>, version: nat)
    requires |w.recipients| == |w.budgets| && forall i :: 0 <= i < |ids| ==> ids[i] < |w.recipients|
    requires forall i, j :: 0 <= i < j < |ids| ==> ids[i] < ids[j]
    requires StopVersion(w) == version
    ensures var z := RetryEach(w, ids, version);
      && StopVersion(z) == version && |z.commands| == |w.commands| + |ids|
      && forall r: nat :: r < |w.recipients| ==>
           if r in ids
           then
             && FreshCommand(w, z, r)
             && z.budgets[r] == w.budgets[r].(state := Reserved, reserved := w.budgets[r].estimated, committed := None)
           else z.recipients[r] == w.recipients[r] && z.budgets[r] == w.budgets[r]
  {
    if ids != [] {
      var front, last := ids[..|ids| - 1], ids[|ids| - 1];
      assert ids == front + [last];
      RetryEachMakes(w, front, version);
      var m := RetryEach(w, front, version);
      var z := RetryOne(m, last, version);
      assert last !in front;
      forall r: nat | r < |w.recipients| && r in front ensures FreshCommand(w, z, r) {
        assert FreshCommand(w, m, r);
      }
    }
  }

  /** Failed, and the money reserved for them released or not. */
  ghost predicate FailedWith(w: World, r: nat, released: bool) {
    r < |w.recipients| == |w.budgets| && w.recipients[r].state.FailedRecipient?
      && w.budgets[r].state.Released? == released
  }

  /** What a refused retry is told, each code exactly when. */
  lemma RetryRefusedAs(w: World)
    requires Inv(w)
    ensures var code := RetryRefusal(w); var terminal := InState(w, DispatchCompleted) || InState(w, Failed);
      var failed := exists r, released :: FailedWith(w, r, released);
      && (code == Some("campaign_retry_not_launched") <==> w.execution.None?)
      && (code == Some("campaign_retry_not_terminal") <==> w.execution.Some? && !terminal)
      && (code == Some("no_failed_recipients") <==> terminal && !failed)
      && (code == Some("campaign_retry_budget_unavailable") <==> terminal && exists r :: FailedWith(w, r, false))
      && (code.None? <==> terminal && failed && forall r :: !FailedWith(w, r, false))
  {
    var ids := FailedIds(w);
    forall r: nat | r < |w.recipients| && w.recipients[r].state.FailedRecipient? ensures w.recipients[r].command.Some? {
      assert RecipientOk(w, r);
    }
    forall r: nat ensures r in ids <==> FailedWith(w, r, true) || FailedWith(w, r, false) { }
    if ids != [] {
      assert ids[0] in ids;
    }
    if w.execution.Some? {
      RetryStates(w);
    }
  }

  lemma RetryStates(w: World)
    requires Inv(w) && w.execution.Some?
    ensures Transition(w.control, RetryFailed).Some? && Transition(w.execution.value.state, RetryFailed).Some? <==>
      InState(w, DispatchCompleted) || InState(w, Failed)
  { }

  /**
   * After an accepted retry every failed recipient is queued with a new command under the
   * raised stop version, which a dispatcher can claim at once, and its whole estimate is
   * reserved again; everybody else is left as they were.
   */
  lemma RetryMeans(w: World, r: nat)
    requires Inv(w) && RetryRefusal(w).None? && r < |w.recipients|
    ensures var z := Apply(w, Retry);
      if w.recipients[r].state.FailedRecipient?
      then FreshCommand(w, z, r) && Claimable(z, z.recipients[r].command.value)
           && r < |z.budgets| && z.budgets[r].state.Reserved? && z.budgets[r].reserved == w.budgets[r].estimated
      else r < |z.recipients| && z.recipients[r] == w.recipients[r] && r < |z.budgets| && z.budgets[r] == w.budgets[r]
    ensures InState(Apply(w, Retry), Running) && StopVersion(Apply(w, Retry)) == StopVersion(w) + 1
  {
    RetriedRows(w, r);
    assert RecipientOk(w, r);
    RetryOpens(w);
  }

  lemma RetriedRows(w: World, r: nat)
    requires Inv(w) && RetryRefusal(w).None? && r < |w.recipients|
    ensures var z := Retried(w);
      && StopVersion(z) == StopVersion(w) + 1 && |z.recipients| == |z.budgets| == |w.recipients|
      && if r in FailedIds(w)
         then FreshCommand(w, z, r)
              && z.budgets[r] == w.budgets[r].(state := Reserved, reserved := w.budgets[r].estimated, committed := None)
         else z.recipients[r] == w.recipients[r] && z.budgets[r] == w.budgets[r]
  {
    var ids := FailedIds(w);
    assert forall i :: 0 <= i < |ids| ==> ids[i] in ids;
    var version := w.execution.value.stopVersion + 1;
    var resumed := w.(execution := Some(Execution(Transition(w.execution.value.state, RetryFailed).value, version)));
    RetryEachMakes(resumed, ids, version);
    assert r in ids ==> FreshCommand(resumed, RetryEach(resumed, ids, version), r);
  }

  // ---- Claiming and answering -------------------------------------------------------

  /**
   * A dispatcher takes a command exactly for a queued recipient of a running campaign, under the
   * current stop version.
   */
  lemma ClaimMeans(w: World, id: nat, c: nat)
    requires Inv(w)
    ensures var z := Apply(w, ClaimStep(id, c));
      z != w <==>
        && id !in w.workers && c in w.outbox && c < |w.commands| && InState(w, Running)
        && w.commands[c].fence == StopVersion(w)
        && w.commands[c].recipient < |w.recipients|
        && w.recipients[w.commands[c].recipient] == Recipient(Queued, Some(c))
    ensures var z := Apply(w, ClaimStep(id, c));
      z != w ==>
        && c < |z.commands| && z.commands[c].state.Dispatching? && id in z.workers && z.workers[id].Claimed?
        && z.workers[id].command == c
        && z.recipients == w.recipients[w.commands[c].recipient := Recipient(InFlight, Some(c))]
        && c in w.outbox && z.outbox == w.outbox[c := w.outbox[c] + 1] && z.workers[id].tries == w.outbox[c] + 1
  {
    if c in w.outbox { assert CommandOk(w, c); }
  }

  /**
   * What lets a message pass the guard, of any row: both states running, in flight, fenced,
   * approved, in time, not withdrawn.
   */
  lemma GuardRow(p: PermitRow)
    ensures DispatchRefusal(Some(p)).None? <==>
      && p.executionState.Running? && p.campaignState.Running? && p.recipientState.InFlight?
      && p.commandFence == p.executionVersion
      && p.around.approved && !p.around.consentWithdrawn
      && (p.around.expiresAt.Some? ==> p.around.now < p.around.expiresAt.value)
    ensures DispatchRefusal(None) == Some("campaign_recipient_missing")
  { }

  /** A refused send skips its recipient, frees its money and takes the command out of the outbox. */
  lemma RefusalMeans(w: World, r: nat, c: nat, id: nat, around: Circumstances)
    requires HeldBy(w, r, c, id) && w.workers[id].Claimed? && !SendsNext(w, id, around)
    ensures var z := Apply(w, PrepareStep(id, around));
      && r < |z.recipients| && z.recipients[r] == Recipient(SkippedRecipient, Some(c)) && c < |z.commands|
      && z.commands[c].state.CommandSkipped?
      && r < |z.budgets| && z.budgets[r].state.Released? && z.budgets[r].reserved == 0
      && c !in z.outbox && id !in z.workers && z.attempts == w.attempts
  {
    HolderOf(w, r, c, id);
    assert RecipientOk(w, r);
  }

  /** What is left of recipient `r` and its command `c` when `answer` was written down after `tries` tries. */
  ghost predicate AnswerTaken(w: World, z: World, r: nat, c: nat, answer: Answer, tries: nat)
    requires r < |w.budgets|
  {
    && r < |z.recipients| && r < |z.budgets| && c < |z.commands|
    && match answer
       case AnswerAccepted =>
         z.recipients[r].state.Accepted? && z.commands[c].state.ProviderAccepted? && c !in z.outbox
         && z.budgets[r].state.Committed? && z.budgets[r].committed == Some(w.budgets[r].estimated)
       case AnswerUnknown =>
         z.recipients[r].state.UnknownRecipient? && z.commands[c].state.CommandUnknown? && c !in z.outbox
         && z.budgets[r].state.HeldUnknown? && z.budgets[r].reserved == w.budgets[r].estimated
       case AnswerRejected(retryable) =>
         if retryable && tries < 5
         then z.recipients[r].state.Queued? && z.commands[c].state.RetryScheduled? && c in z.outbox
           && z.budgets[r] == w.budgets[r]
         else z.recipients[r].state.FailedRecipient? && c !in z.outbox
              && z.budgets[r].state.Released? && z.budgets[r].reserved == 0
              && (if retryable then z.commands[c].state.CommandFailed? else z.commands[c].state.Rejected?)
  }

  /** What the worker remembers after writing the answer down, and what the command's row says. */
  ghost predicate AnswerNoted(m: World, c: nat, id: nat, answer: Answer, tries: nat) {
    && id in m.workers && m.workers[id].Recorded? && c < |m.commands|
    && var outcome := m.workers[id].outcome; var state := m.commands[c].state;
       match answer
       case AnswerAccepted => outcome.OutcomeAccepted? && state.ProviderAccepted? && c !in m.outbox
       case AnswerUnknown => outcome.OutcomeUnknown? && state.CommandUnknown? && c !in m.outbox
       case AnswerRejected(retryable) =>
         if retryable && tries < 5 then outcome.OutcomeRetry? && state.RetryScheduled? && c in m.outbox
         else
           && outcome.OutcomeRejected? && c !in m.outbox
           && (if retryable then state.CommandFailed? else state.Rejected?)
  }

  lemma AnswerRecorded(w: World, r: nat, c: nat, id: nat) returns (m: World)
    requires HeldBy(w, r, c, id) && w.workers[id].Answered?
    ensures m == Apply(w, RecordStep(id)) && HeldBy(m, r, c, id) && m.budgets == w.budgets
    ensures AnswerNoted(m, c, id, w.workers[id].answer, w.workers[id].tries)
  {
    m := Records(w, r, c, id);
    HolderOf(w, r, c, id);
    assert CommandOk(w, c);
  }

  lemma AnswerProjected(m: World, r: nat, c: nat, id: nat, answer: Answer, tries: nat)
    requires HeldBy(m, r, c, id) && AnswerNoted(m, c, id, answer, tries)
    ensures var z := Apply(m, ProjectStep(id)); AnswerTaken(m, z, r, c, answer, tries) && id !in z.workers
  {
    HolderOf(m, r, c, id);
    assert RecipientOk(m, r);
  }

  /** What the answer to a send, written down by the worker that still owns it, makes of the recipient and its money. */
  lemma AnswerMeans(w: World, r: nat, c: nat, id: nat)
    requires HeldBy(w, r, c, id) && w.workers[id].Answered?
    ensures var z := Apply(Apply(w, RecordStep(id)), ProjectStep(id));
      r < |w.budgets| && AnswerTaken(w, z, r, c, w.workers[id].answer, w.workers[id].tries) && id !in z.workers
  {
    HolderOf(w, r, c, id);
    var m := AnswerRecorded(w, r, c, id);
    AnswerProjected(m, r, c, id, w.workers[id].answer, w.workers[id].tries);
  }

  /** An attempt nobody answered makes its recipient's outcome unknown and holds its money. */
  lemma RecoveryMeans(w: World, r: nat, c: nat, a: nat)
    requires Inv(w) && InFlightWith(w, r, c) && a < |w.attempts| && w.attempts[a].command == c
      && w.attempts[a].answer.None?
    ensures var z := Apply(w, RecoverStep(a));
      && r < |z.recipients| && z.recipients[r] == Recipient(UnknownRecipient, Some(c)) && c < |z.commands|
      && z.commands[c].state.CommandUnknown?
      && r < |z.budgets| && z.budgets[r].state.HeldUnknown? && z.budgets[r].reserved == w.budgets[r].estimated
      && c !in z.outbox
  {
    assert RecipientOk(w, r) && CommandOk(w, c) && AttemptOk(w, a);
  }

  /**
   * A receipt moves an accepted recipient on and never back, except that one reported failed can
   * still turn out delivered or read.
   */
  lemma ReceiptMeans(w: World, r: nat, c: nat, receipt: Receipt)
    requires Inv(w) && r < |w.recipients| && w.recipients[r].command == Some(c) && c < |w.commands|
      && w.commands[c].state.ProviderAccepted?
    ensures var before := w.recipients[r].state; var z := Apply(w, ReceiptStep(c, receipt));
      && z == w.(recipients := z.recipients)
      && z.recipients == w.recipients[r := w.recipients[r].(state := z.recipients[r].state)]
      && (z.recipients[r].state != before <==>
            || (receipt.ReceiptFailed? && before.Accepted?)
            || (receipt.ReceiptDelivered? && (before.Accepted? || before.FailedRecipient?))
            || (receipt.ReceiptRead? && (before.Accepted? || before.FailedRecipient? || before.Delivered?)))
      && (z.recipients[r].state != before ==>
            z.recipients[r].state ==
              if receipt.ReceiptFailed? then FailedRecipient
              else if receipt.ReceiptDelivered? then Delivered else Read)
  {
    assert RecipientOk(w, r);
  }

  // ---- Pause, resume and cancel -----------------------------------------------------

  /** A resumed campaign's work is due at once; a paused or cancelled one has none. */
  lemma ControlMeans(w: World, action: Action, now: int, t: int)
    requires Inv(w) && w.execution.Some? && ControlTarget(w.control, action).Some?
    ensures var z := Apply(w, Control(action, now));
      && (Due(z, t) <==> action.ResumeAction? && t >= now)
      && InState(z, if action.PauseAction? then Paused else if action.ResumeAction? then Running else Cancelled)
      && (!action.CancelAction? ==> z.recipients == w.recipients && z.budgets == w.budgets && z.outbox == w.outbox)
  { }

  /** After a resume every command that waits for a queued recipient can be claimed. */
  lemma ResumedIsClaimable(w: World, now: int, c: nat)
    requires Inv(w) && InState(w, Paused) && c in w.outbox && Holder(w, c).Some?
      && w.recipients[Holder(w, c).value].state.Queued?
    ensures Claimable(Apply(w, Control(ResumeAction, now)), c)
  {
    assert CommandOk(w, c) && RecipientOk(w, Holder(w, c).value);
  }

  /** A cancellation ends everybody planned or queued, and frees their money; nobody else is touched. */
  lemma CancelMeans(w: World, now: int, r: nat)
    requires Inv(w) && w.execution.Some? && ControlTarget(w.control, CancelAction).Some? && r < |w.recipients|
    ensures var z := Apply(w, Control(CancelAction, now));
      if w.recipients[r].state.Planned? || w.recipients[r].state.Queued?
      then && r < |z.recipients| && z.recipients[r] == w.recipients[r].(state := CancelledRecipient)
           && r < |z.budgets| && z.budgets[r].state.Released? && z.budgets[r].reserved == 0
           && (w.recipients[r].command.Some? ==> w.recipients[r].command.value !in z.outbox)
      else r < |z.recipients| && z.recipients[r] == w.recipients[r] && r < |z.budgets| && z.budgets[r] == w.budgets[r]
  {
    assert RecipientOk(w, r);
  }
}
