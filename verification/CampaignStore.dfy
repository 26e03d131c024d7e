/**
 * The campaign services as they run: statement by statement against the tables, each
 * method one transaction, proved to commit exactly the transition the model states.
 */
module CampaignStore {
  import opened Shared
  import opened CampaignLifecycle
  import opened CampaignModel

  /** A planned or queued recipient points at command `c`. */
  predicate Cancels(w: World, c: nat)
    requires c < |w.commands|
  {
    var r := w.commands[c].recipient;
    r < |w.recipients| && Cancellable(w.recipients[r]) && w.recipients[r].command == Some(c)
  }

  /** The command of recipient `r` still waits to be sent. */
  predicate Awaits(w: World, r: nat) {
    r < |w.recipients| && w.recipients[r].state.Queued? && w.recipients[r].command.Some?
      && w.recipients[r].command.value < |w.commands|
    && w.commands[w.recipients[r].command.value].recipient == r
    && Waiting(w.commands[w.recipients[r].command.value].state)
  }

  /**
   * Every command a queued recipient waits for is under fence `version`, and nothing else about
   * any command changed.
   */
  ghost predicate Renewed(w: World, commands: seq<Command>, version: nat) {
    && |commands| == |w.commands|
    && (forall r: nat :: Awaits(w, r) ==> commands[w.recipients[r].command.value].fence == version)
    && (forall c :: 0 <= c < |commands| ==> commands[c] == w.commands[c].(fence := commands[c].fence))
    && (forall c: nat :: c < |commands| && commands[c] != w.commands[c] ==>
          Awaits(w, w.commands[c].recipient) && w.recipients[w.commands[c].recipient].command == Some(c))
  }

  lemma RenewedIs(w: World, commands: seq<Command>, version: nat)
    requires Renewed(w, commands, version)
    ensures commands == seq(|w.commands|, c requires 0 <= c < |w.commands| => Refenced(w, c, version))
  {
    forall c | 0 <= c < |commands| ensures commands[c] == Refenced(w, c, version) {
      assert commands[c] == w.commands[c].(fence := commands[c].fence);
      assert Refenced(w, c, version) != w.commands[c] || Holder(w, c).Some? ==>
        Holder(w, c) == Some(w.commands[c].recipient);
      assert Awaits(w, w.commands[c].recipient) && w.recipients[w.commands[c].recipient].command == Some(c) ==>
        commands[c].fence == version;
    }
  }

  lemma LaunchIs(w: World, q: LaunchRequest)
    requires |w.recipients| == |w.budgets|
    ensures Apply(w, Step.Launch(q)) == if LaunchRefusal(w, q).None? then Launched(w, q) else w
  { }

  class Store {
    var control: CampaignState
    var execution: Option<Execution>
    var queue: Option<QueueRow>
    var recipients: seq<Recipient>
    var budgets: seq<Reservation>
    var commands: seq<Command>
    var outbox: map<nat, nat>
    var attempts: seq<Attempt>
    var workers: map<nat, Worker>
    var deliveries: seq<nat>

    function Rows(): World
      reads this
    {
      World(control, execution, queue, recipients, budgets, commands, outbox, attempts, workers, deliveries)
    }

    /** One reservation a recipient: the unique constraint the statements rely on. */
    ghost predicate Valid()
      reads this
    {
      |recipients| == |budgets|
    }

    constructor ()
      ensures Rows() == Initial()
    {
      control, execution, queue := Ready, None, None;
      recipients, budgets, commands := [], [], [];
      outbox, attempts, workers, deliveries := map[], [], map[], [];
    }

    method Launch(q: LaunchRequest) returns (reply: Reply)
      requires Valid()
      modifies this
      ensures Valid() && Rows() == Apply(old(Rows()), Step.Launch(q))
      ensures reply == (if LaunchRefusal(old(Rows()), q).None? then Done
          else Conflict(LaunchRefusal(old(Rows()), q).value))
    {
      LaunchIs(Rows(), q);
      if !q.connectionReady { return Conflict("connection_not_ready"); }
      if q.expiresAt.Some? && q.expiresAt.value <= q.now { return Conflict("campaign_expired"); }
      if !q.approved { return Conflict("approval_required"); }
      if q.eligible.None? { return Conflict("audience_required"); }
      var next := Transition(control, if q.scheduledFor.None? then LaunchNow else LaunchScheduled);
      if next.None? { return Conflict("invalid_campaign_transition"); }
      if execution.Some? { return Conflict("campaign_already_launched"); }
      execution := Some(Execution(next.value, 0));
      queue := Some(QueueRow(if q.scheduledFor.Some? then q.scheduledFor.value else q.now, 0));
      var n := q.eligible.value;
      recipients := seq(n, i => Recipient(Planned, None));
      var share := Share(q.budget, n);
      budgets := seq(n, i => Reservation(share, share, None, Reserved));
      deliveries := seq(n, i => 0);
      control := next.value;
      return Done;
    }

    method ControlCampaign(action: Action, now: int) returns (reply: Reply)
      requires Valid()
      modifies this
      ensures Valid() && Rows() == Apply(old(Rows()), Step.Control(action, now))
      ensures reply == (if ControlTarget(old(control), action).Some? then Done
          else Conflict("invalid_campaign_transition"))
    {
      ghost var was := Rows();
      var trigger := match action case PauseAction => Pause case ResumeAction => Resume case CancelAction => Cancel;
      var first := Transition(control, trigger);
      if first.None? { return Conflict("invalid_campaign_transition"); }
      var state := first.value;
      if action.PauseAction? {
        var settled := Transition(state, PauseSettled);
        if settled.None? { return Conflict("invalid_campaign_transition"); }
        state := settled.value;
      }
      if action.CancelAction? {
        var settled := Transition(state, CancelSettled);
        if settled.None? { return Conflict("invalid_campaign_transition"); }
        state := settled.value;
      }
      control := state;
      if execution.None? { return Done; }
      execution := Some(Execution(state, execution.value.stopVersion + 1));
      if action.ResumeAction? {
        queue := Some(QueueRow(now, execution.value.stopVersion));
        ghost var fenced := Rows();
        RefenceWaiting();
        RenewedIs(fenced, commands, execution.value.stopVersion);
        assert Rows() == Controlled(was, action, now);
      } else {
        queue := None;
      }
      if action.CancelAction? { CancelOpen(); }
      return Done;
    }

    /**
     * Afterwards every command a queued recipient still waits for is under the current fence, and
     * nothing else is touched.
     */
    method RefenceWaiting()
      requires execution.Some?
      modifies this`commands
      ensures |commands| == |old(commands)|
      ensures Renewed(old(Rows()), commands, execution.value.stopVersion)
    {
      var rows := Rows();
      commands := seq(|commands|, c requires 0 <= c < |rows.commands| =>
          Refenced(rows, c, rows.execution.value.stopVersion));
    }

    /**
     * Afterwards nobody is planned or queued, and no cancelled recipient holds money, an
     * outbox row or a command that waits; what was sent, or is on the wire, stays.
     */
    method CancelOpen()
      requires |recipients| == |budgets|
      modifies this`recipients, this`outbox, this`commands, this`budgets
      ensures Rows() == CancelAll(old(Rows())) && |recipients| == |old(recipients)| && |commands| == |old(commands)|
      ensures forall r: nat :: r < |recipients| ==> !recipients[r].state.Planned? && !recipients[r].state.Queued?
      ensures forall r: nat :: r < |recipients| && recipients[r] != old(recipients)[r] ==>
        old(Cancellable(recipients[r])) && recipients[r] == old(recipients)[r].(state := CancelledRecipient)
      ensures forall r: nat :: r < |recipients| && recipients[r].state.CancelledRecipient? ==>
        !budgets[r].state.Reserved?
      ensures forall r: nat :: r < |recipients| && budgets[r] != old(budgets)[r] ==>
        recipients[r].state.CancelledRecipient? && old(budgets)[r].state.Reserved?
        && budgets[r] == old(budgets)[r].(state := Released, reserved := 0)
      ensures forall c :: c in outbox <==> c in old(outbox) && (c < |commands| ==> !Cancels(old(Rows()), c))
      ensures forall c :: c in outbox ==> outbox[c] == old(outbox)[c]
      ensures forall c :: 0 <= c < |commands| ==>
        if Cancels(old(Rows()), c) then !Waiting(commands[c].state) else commands[c] == old(commands)[c]
    {
      var rows := Rows();
      recipients := seq(|recipients|, i requires 0 <= i < |rows.recipients| =>
        if Cancellable(rows.recipients[i])
        then rows.recipients[i].(state := CancelledRecipient) else rows.recipients[i]);
      outbox := map c | c in rows.outbox && !CancelsRow(rows, c) :: rows.outbox[c];
      commands := seq(|commands|, c requires 0 <= c < |rows.commands| => CancelledCommand(rows, c));
      var cancelled := recipients;
      budgets := seq(|budgets|, i requires 0 <= i < |rows.budgets| =>
        if cancelled[i].state.CancelledRecipient? then Release(rows.budgets[i]) else rows.budgets[i]);
    }

    method RetryFailures() returns (reply: Reply)
      requires Valid()
      modifies this
      ensures Valid() && Rows() == Apply(old(Rows()), Step.Retry)
      ensures reply == (if RetryRefusal(old(Rows())).None? then Done else Conflict(RetryRefusal(old(Rows())).value))
    {
      var before := Rows();
      if execution.None? { return Conflict("campaign_retry_not_launched"); }
      var campaignTarget := Transition(control, RetryFailed);
      if campaignTarget.None? { return Conflict("campaign_retry_not_terminal"); }
      var executionTarget := Transition(execution.value.state, RetryFailed);
      if executionTarget.None? { return Conflict("campaign_retry_not_terminal"); }
      var failed := FailedIds(before);
      assert forall i :: 0 <= i < |failed| ==> failed[i] in failed;
      if failed == [] { return Conflict("no_failed_recipients"); }
      execution := Some(Execution(executionTarget.value, execution.value.stopVersion + 1));
      var ok := RetryEveryone(failed, execution.value.stopVersion);
      if !ok {
        Rollback(before);
        return Conflict("campaign_retry_budget_unavailable");
      }
      control := campaignTarget.value;
      return Done;
    }

    /** Replaces each failed recipient's command, stopping at the first reservation that is not free. */
    method RetryEveryone(failed: seq<nat>, version: nat) returns (ok: bool)
      requires Valid()
      requires forall i :: 0 <= i < |failed| ==> failed[i] < |recipients|
      requires forall i, j :: 0 <= i < j < |failed| ==> failed[i] < failed[j]
      modifies this
      ensures ok <==> forall r :: r in failed ==> old(budgets)[r].state.Released?
      ensures ok ==> Rows() == RetryEach(old(Rows()), failed, version)
    {
      ghost var start := Rows();
      var i := 0;
      while i < |failed|
        invariant 0 <= i <= |failed|
        invariant Valid() && |budgets| == |start.budgets|
        invariant forall k :: 0 <= k < i ==> start.budgets[failed[k]].state.Released?
        invariant Rows() == RetryEach(start, failed[..i], version)
        invariant forall k :: i <= k < |failed| ==> budgets[failed[k]] == start.budgets[failed[k]]
      {
        var replaced := RetryRecipient(failed[i], version);
        if !replaced {
          assert failed[i] in failed;
          return false;
        }
        assert failed[..i + 1][..i] == failed[..i];
        i := i + 1;
      }
      assert failed[..i] == failed;
      return true;
    }

    method RetryRecipient(r: nat, version: nat) returns (ok: bool)
      requires Valid() && r < |recipients|
      modifies this
      ensures ok == old(budgets)[r].state.Released?
      ensures ok ==> Rows() == RetryOne(old(Rows()), r, version)
    {
      var message := |commands|;
      commands := commands + [Command(r, CommandQueued, version, 0)];
      if !budgets[r].state.Released? { return false; }
      budgets := budgets[r := budgets[r].(state := Reserved, reserved := budgets[r].estimated, committed := None)];
      recipients := recipients[r := Recipient(Queued, Some(message))];
      outbox := outbox[message := 0];
      return true;
    }

    /** An exception inside the transaction puts every row back. */
    method Rollback(rows: World)
      modifies this
      ensures Rows() == rows
    {
      control, execution, queue := rows.control, rows.execution, rows.queue;
      recipients, budgets, commands := rows.recipients, rows.budgets, rows.commands;
      outbox, attempts, workers, deliveries := rows.outbox, rows.attempts, rows.workers, rows.deliveries;
    }

    method PlanBatch(now: int, limit: nat, fillable: set<nat>) returns (planned: nat)
      requires Valid()
      modifies this
      ensures Valid() && Rows() == Apply(old(Rows()), Step.Plan(now, limit, fillable))
      ensures planned == PlanCall(old(Rows()), now, limit, fillable).1
    {
      if execution.None? || queue.None? || queue.value.availableAt > now { return 0; }
      var runnable := MakeRunnable();
      if !runnable { return 1; }
      var ids := PlannedIds(recipients, limit);
      assert forall i :: 0 <= i < |ids| ==> ids[i] in ids;
      PlanEveryone(ids, fillable, execution.value.stopVersion);
      if !AnyPlanned(recipients) { queue := None; }
      return |ids|;
    }

    method PlanEveryone(ids: seq<nat>, fillable: set<nat>, version: nat)
      requires Valid()
      requires forall i :: 0 <= i < |ids| ==> ids[i] < |recipients|
      modifies this
      ensures Rows() == PlanEach(old(Rows()), ids, fillable, version)
    {
      ghost var start := Rows();
      var planned := 0;
      while planned < |ids|
        invariant 0 <= planned <= |ids|
        invariant Valid() && |recipients| == |start.recipients|
        invariant Rows() == PlanEach(start, ids[..planned], fillable, version)
      {
        PlanRecipient(ids[planned], ids[planned] in fillable, version);
        assert ids[..planned + 1][..planned] == ids[..planned];
        planned := planned + 1;
      }
      assert ids[..planned] == ids;
    }

    method PlanRecipient(r: nat, fillable: bool, version: nat)
      requires Valid() && r < |recipients|
      modifies this
      ensures Rows() == PlanOne(old(Rows()), r, fillable, version)
    {
      if !fillable {
        SkipInvalid(r);
        return;
      }
      var message := |commands|;
      commands := commands + [Command(r, CommandQueued, version, 0)];
      outbox := outbox[message := 0];
      recipients := recipients[r := Recipient(Queued, Some(message))];
    }

    /** Drops a stale or stopped queue row; a due scheduled execution starts running. */
    method MakeRunnable() returns (runnable: bool)
      requires execution.Some? && queue.Some?
      modifies this`queue, this`execution, this`control
      ensures runnable == Runnable(old(Rows()))
      ensures Rows() == if runnable then Started(old(Rows())) else old(Rows()).(queue := None)
    {
      if queue.value.stopVersion != execution.value.stopVersion {
        queue := None;
        return false;
      }
      if execution.value.state.Scheduled? {
        execution := Some(execution.value.(state := Running));
        control := Running;
        return true;
      }
      if execution.value.state.Running? { return true; }
      queue := None;
      return false;
    }

    method SkipInvalid(r: nat)
      requires r < |recipients| == |budgets|
      modifies this`recipients, this`budgets
      ensures recipients == old(recipients)[r := old(recipients)[r].(state := SkippedRecipient)]
      ensures budgets == old(budgets)[r := Release(old(budgets)[r])]
    {
      recipients := recipients[r := recipients[r].(state := SkippedRecipient)];
      if budgets[r].state.Reserved? {
        budgets := budgets[r := budgets[r].(state := Released, reserved := 0)];
      }
    }
  }
}
