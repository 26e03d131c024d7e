/**
 * `AutomationRunnerService` over its tables, statement by statement: a call to `Execute`
 * is one transaction, proved to commit exactly the transition the model states.
 */
module AutomationRunner {
  import opened Shared
  import opened AutomationModel
  import opened AutomationInvariant

  class Runner {
    const steps: seq<Step>
    var status: RunStatus
    var recipients: seq<Recipient>
    var actions: seq<seq<Action>>
    var messages: map<(nat, nat), Message>
    var journal: seq<(nat, nat)>
    var counts: Counts
    var queue: Option<int>

    function Tables(): Rows
      reads this
    {
      Rows(steps, status, recipients, actions, messages, journal, counts, queue)
    }

    /** One row of actions a recipient, one action a step: what planning inserts. */
    ghost predicate Valid()
      reads this
    {
      |recipients| == |actions| && forall r :: 0 <= r < |actions| ==> |actions[r]| == |steps|
    }

    constructor (workflow: seq<Step>, at: int)
      ensures Tables() == Start(workflow, at) && Valid()
    {
      steps, status, recipients, actions := workflow, QueuedRun, [], [];
      messages, journal, counts, queue := map[], [], Counts(0, 0, 0, 0, 0, 0), Some(at);
    }

    method ExecuteRun(limit: nat, now: int, contacts: Option<seq<Contact>>, prepared: set<(nat, nat)>)
      returns (handled: nat)
      requires Valid()
      modifies this
      ensures Valid() && Tables() == Apply(old(Tables()), Tick(limit, now, contacts, prepared))
      ensures handled == 0 <==> old(queue).None? || old(queue).value > now
    {
      if queue.None? || queue.value > now { return 0; }
      if Terminal(status) {
        queue := None;
        return 1;
      }
      if status.QueuedRun? {
        PlanRun(contacts, now);
        Schedule(now);
        return 1;
      }
      ReconcileOutbound();
      handled := HandleDue(limit, now, prepared);
      FinalizeRun();
      Schedule(now);
      handled := if handled == 0 then 1 else handled;
    }

    /** One turn of the loop: the next due action, if there is one. */
    method HandleNext(now: int, prepared: set<(nat, nat)>) returns (found: bool)
      requires Valid()
      modifies this
      ensures Valid() && found == NextAction(old(Tables()), now).Some?
      ensures Tables() == AutomationModel.Turn(old(Tables()), now, prepared)
    {
      var action := NextAction(Tables(), now);
      if action.None? { return false; }
      ExecuteOne(action.value.0, action.value.1, now, prepared);
      return true;
    }

    method HandleDue(limit: nat, now: int, prepared: set<(nat, nat)>) returns (handled: nat)
      requires Valid()
      modifies this
      ensures Valid() && Tables() == ExecuteActions(old(Tables()), limit, now, prepared)
      ensures handled <= limit
    {
      handled := 0;
      while handled < limit
        invariant handled <= limit && Valid()
        invariant Tables() == ExecuteActions(old(Tables()), handled, now, prepared)
      {
        var found := HandleNext(now, prepared);
        if !found {
          NothingDueStays(old(Tables()), handled, limit, now, prepared, Tables());
          return;
        }
        handled := handled + 1;
      }
    }

    method PlanRun(contacts: Option<seq<Contact>>, now: int)
      requires Valid()
      modifies this
      ensures Valid() && Tables() == Plan(old(Tables()), contacts, now)
    {
      if contacts.None? {
        status := FailedRun;
        return;
      }
      ghost var was := Tables();
      var template := FirstTemplate(steps);
      for i := 0 to |contacts.value|
        invariant Valid() && Tables() == PlanContacts(was, contacts.value[..i], now)
      {
        assert contacts.value[..i + 1][..i] == contacts.value[..i];
        var c := contacts.value[i];
        var identity := if template.None? then None else c.identity;
        if !Taken(recipients, c.id, identity) {
          recipients := recipients + [Recipient(c.id, identity, PendingOne, 0, None)];
          InsertActions(now);
        }
      }
      assert contacts.value[..|contacts.value|] == contacts.value;
      status := if |recipients| == 0 then CompletedRun else RunningRun;
      counts := counts.(audience := |recipients|, queued := |recipients|);
    }

    /** One action row for every step of the recipient just inserted. */
    method InsertActions(now: int)
      modifies this`actions
      ensures actions == old(actions) + [seq(|steps|, i => Action(Pending, now, 0))]
    {
      var rows: seq<Action> := [];
      for index := 0 to |steps|
        invariant rows == seq(index, i => Action(Pending, now, 0))
      {
        rows := rows + [Action(Pending, now, 0)];
      }
      actions := actions + [rows];
    }

    method WriteAction(r: nat, k: nat, a: Action)
      requires Valid() && r < |actions| && k < |actions[r]|
      modifies this`actions
      ensures Valid() && Tables() == SetAction(old(Tables()), r, k, a)
    {
      actions := actions[r := actions[r][k := a]];
    }

    method Fail(r: nat, k: nat)
      requires Valid() && r < |actions| && k < |actions[r]|
      modifies this
      ensures Valid() && Tables() == FailAction(old(Tables()), r, k)
    {
      WriteAction(r, k, actions[r][k].(state := Failed));
      recipients := recipients[r := recipients[r].(status := FailedOne)];
      counts := counts.(failed := counts.failed + 1);
    }

    method ExecuteOne(r: nat, k: nat, now: int, prepared: set<(nat, nat)>)
      requires Valid() && r < |actions| && k < |actions[r]|
      modifies this
      ensures Valid() && Tables() == ExecuteAction(old(Tables()), r, k, now, prepared)
    {
      var a := actions[r][k];
      WriteAction(r, k, a.(state := Running, attempts := a.attempts + 1));
      match steps[k] {
      case Delay(seconds) =>
        if !ValidDelay(steps[k]) { Fail(r, k); return; }
        if !a.state.Waiting? {
          WriteAction(r, k, actions[r][k].(state := Waiting, availableAt := now + seconds.value));
          return;
        }
      case Template(template) =>
        if template.None? || recipients[r].identity.None? || (r, k) !in prepared { Fail(r, k); return; }
        if (r, k) !in messages { messages := messages[(r, k) := Message(InFlight, NoReceipt)]; }
        recipients := recipients[r := recipients[r].(command := Some(k), status := QueuedOne)];
      case Label(named) =>
        if !named { Fail(r, k); return; }
      case Field(complete) =>
        if !complete { Fail(r, k); return; }
      case Condition(bare) =>
        if !bare { Fail(r, k); return; }
      case Unsupported =>
        Fail(r, k);
        return;
      }
      WriteAction(r, k, actions[r][k].(state := Completed));
      recipients := recipients[r := recipients[r].(currentStep := k + 1)];
      journal := journal + [(r, k)];
    }

    method ReconcileOutbound()
      requires Valid()
      modifies this`recipients
      ensures Valid() && Tables() == Reconcile(old(Tables()))
    {
      ghost var was := Tables();
      var updated: seq<Recipient> := [];
      for r := 0 to |recipients|
        invariant |updated| == r && Tables() == was
        invariant forall q :: 0 <= q < r ==> updated[q] == ReconcileOne(was, q)
      {
        updated := updated + [ReconcileOne(Tables(), r)];
      }
      recipients := updated;
    }

    method FinalizeRun()
      requires Valid()
      modifies this
      ensures Valid() && Tables() == Finalize(old(Tables()))
    {
      ghost var was := Tables();
      var updated: seq<Recipient> := [];
      for r := 0 to |recipients|
        invariant |updated| == r && Tables() == was
        invariant forall q :: 0 <= q < r ==> updated[q] == FinishOne(was.recipients[q], |steps|)
      {
        updated := updated + [FinishOne(recipients[r], |steps|)];
      }
      recipients := updated;
      assert Tables() == Finished(was);
      if Tally(recipients, ACTIVE) != 0 { return; }
      status := Verdict(recipients);
      var received := Tally(recipients, RECEIVED);
      counts := counts.(sent := Tally(recipients, {SentOne}) + received, delivered := received,
                        failed := Tally(recipients, FAILED), skipped := Tally(recipients, PASSED_OVER));
    }

    method Schedule(now: int)
      requires Valid()
      modifies this`queue
      ensures Valid() && Tables() == ScheduleNext(old(Tables()), now)
    {
      if Terminal(status) {
        queue := None;
        return;
      }
      var due := NextDue(actions);
      if queue.Some? { queue := Some(if due.Some? then due.value else now + POLL_SECONDS); }
    }
  }
}
