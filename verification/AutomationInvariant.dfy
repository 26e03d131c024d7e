/** What every transaction of an automation run keeps. */
module AutomationInvariant {
  import opened Shared
  import opened AutomationModel

  /**
   * Completed steps, then at most one waiting or failed step, then only pending ones; `c`
   * counts the completed. A step is attempted at most once more than it has waited.
   */
  ghost predicate Ordered(actions: seq<Action>, steps: seq<Step>, c: nat) {
    && |actions| == |steps| && c <= |steps|
    && (forall k :: 0 <= k < c ==> actions[k].state.Completed? && 1 <= actions[k].attempts <= 2 && CanPass(steps[k]))
    && (forall k :: c < k < |steps| ==> actions[k].state.Pending? && actions[k].attempts == 0)
    && (c < |steps| ==>
          match actions[c].state
          case Pending => actions[c].attempts == 0
          case Waiting => actions[c].attempts == 1 && steps[c].Delay? && ValidDelay(steps[c])
          case Failed => actions[c].attempts == 1
          case _ => false)
  }

  predicate Broken(actions: seq<Action>, c: nat) {
    c < |actions| && actions[c].state.Failed?
  }

  /** The last template step among the first `c`. */
  function LastTemplate(steps: seq<Step>, c: nat): (k: Option<nat>)
    requires c <= |steps|
    ensures k.Some? ==> k.value < c && steps[k.value].Template? && forall j :: k.value < j < c ==> !steps[j].Template?
    ensures k.None? ==> forall j :: 0 <= j < c ==> !steps[j].Template?
  {
    if c == 0 then None else if steps[c - 1].Template? then Some(c - 1) else LastTemplate(steps, c - 1)
  }

  /** A recipient's row agrees with its steps. */
  ghost predicate RecipientOk(steps: seq<Step>, actions: seq<Action>, x: Recipient) {
    && Ordered(actions, steps, x.currentStep)
    && x.command == LastTemplate(steps, x.currentStep)
    && (Broken(actions, x.currentStep) ==> x.status.FailedOne?)
    && (x.command.None? ==>
          x.status.PendingOne? || (x.status.FailedOne? && Broken(actions, x.currentStep))
          || (x.status.CompletedOne? && x.currentStep == |steps|))
    && (x.command.Some? ==> !x.status.PendingOne? && !x.status.CompletedOne?)
    && !x.status.SkippedOne? && !x.status.CancelledOne?
  }

  /** The steps the journal records for recipient `r`, in order. */
  function StepsOf(journal: seq<(nat, nat)>, r: nat): seq<nat> {
    if journal == [] then []
    else
      var last := journal[|journal| - 1];
      StepsOf(journal[..|journal| - 1], r) + (if last.0 == r then [last.1] else [])
  }

  function UpTo(c: nat): seq<nat> {
    seq(c, i requires 0 <= i < c => i)
  }

  function CountBroken(actions: seq<seq<Action>>, recipients: seq<Recipient>, n: nat): nat
    requires n <= |actions| && n <= |recipients|
  {
    if n == 0 then 0
    else
      CountBroken(actions, recipients, n - 1)
      + (if Broken(actions[n - 1], recipients[n - 1].currentStep) then 1 else 0)
  }

  /** Every completed template step has its one message, and every completed step its one journal entry. */
  ghost predicate EffectsOk(s: Rows, r: nat, c: nat) {
    && (forall k: nat :: (r, k) in s.messages <==> k < c && k < |s.steps| && s.steps[k].Template?)
    && StepsOf(s.journal, r) == UpTo(c)
  }

  ghost predicate Fits(s: Rows, r: nat) {
    && r < |s.recipients| && r < |s.actions|
    && RecipientOk(s.steps, s.actions[r], s.recipients[r])
    && EffectsOk(s, r, s.recipients[r].currentStep)
  }

  ghost predicate RowsAgree(s: Rows) {
    |s.actions| == |s.recipients| && forall r: nat :: r < |s.recipients| ==> Fits(s, r)
  }

  ghost predicate CountsAgree(s: Rows) {
    s.counts.audience == |s.recipients| && |s.actions| == |s.recipients|
    && (s.status.RunningRun? ==> s.counts.failed == CountBroken(s.actions, s.recipients, |s.recipients|))
  }

  /** An ended run: nobody is active, and the counters describe the recipients. */
  ghost predicate EndAgrees(s: Rows) {
    Terminal(s.status) ==>
      && Tally(s.recipients, ACTIVE) == 0
      && s.counts.sent == Tally(s.recipients, {SentOne}) + Tally(s.recipients, RECEIVED)
      && s.counts.delivered == Tally(s.recipients, RECEIVED)
      && s.counts.failed == Tally(s.recipients, FAILED)
      && s.counts.skipped == Tally(s.recipients, PASSED_OVER)
      && (s.recipients != [] ==> s.status == Verdict(s.recipients))
  }

  /** A queue row exactly while the run is not over, and never later than work becomes due. */
  ghost predicate QueueAgrees(s: Rows) {
    && (s.queue.Some? <==> !Terminal(s.status))
    && (s.status.RunningRun? && NextDue(s.actions).Some? ==> s.queue == NextDue(s.actions))
  }

  ghost predicate Work(s: Rows) {
    RowsAgree(s) && CountsAgree(s)
  }

  ghost predicate Blank(s: Rows) {
    s.recipients == [] && s.journal == [] && s.messages == map[] && s.counts == Counts(0, 0, 0, 0, 0, 0)
  }

  ghost predicate Inv(s: Rows) {
    && Work(s) && EndAgrees(s) && QueueAgrees(s)
    && (s.status.QueuedRun? ==> Blank(s))
  }

  // ---- Tallies ----------------------------------------------------------------------

  lemma {:induction false} TallyZero(xs: seq<Recipient>, among: set<Status>)
    ensures Tally(xs, among) == 0 <==> forall r :: 0 <= r < |xs| ==> xs[r].status !in among
  {
    if xs != [] {
      TallyZero(xs[..|xs| - 1], among);
    }
  }

  lemma {:induction false} TallyUnion(xs: seq<Recipient>, a: set<Status>, b: set<Status>)
    requires a !! b
    ensures Tally(xs, a + b) == Tally(xs, a) + Tally(xs, b)
  {
    if xs != [] {
      TallyUnion(xs[..|xs| - 1], a, b);
    }
  }

  lemma {:induction false} TallyAll(xs: seq<Recipient>, among: set<Status>)
    requires forall r :: 0 <= r < |xs| ==> xs[r].status in among
    ensures Tally(xs, among) == |xs|
  {
    if xs != [] {
      TallyAll(xs[..|xs| - 1], among);
    }
  }

  lemma {:induction false} CountBrokenSame(a: seq<seq<Action>>, xs: seq<Recipient>, b: seq<seq<Action>>,
                                           ys: seq<Recipient>, n: nat)
    requires n <= |a| && n <= |xs| && n <= |b| && n <= |ys|
    requires forall r :: 0 <= r < n ==> Broken(a[r], xs[r].currentStep) == Broken(b[r], ys[r].currentStep)
    ensures CountBroken(a, xs, n) == CountBroken(b, ys, n)
  {
    if n > 0 {
      CountBrokenSame(a, xs, b, ys, n - 1);
    }
  }

  lemma {:induction false} CountBrokenMore(a: seq<seq<Action>>, xs: seq<Recipient>, b: seq<seq<Action>>,
                                           ys: seq<Recipient>, n: nat, r: nat)
    requires r < n <= |a| && n <= |xs| && n <= |b| && n <= |ys|
    requires forall q :: 0 <= q < n && q != r ==> Broken(a[q], xs[q].currentStep) == Broken(b[q], ys[q].currentStep)
    requires !Broken(a[r], xs[r].currentStep) && Broken(b[r], ys[r].currentStep)
    ensures CountBroken(b, ys, n) == CountBroken(a, xs, n) + 1
  {
    if n - 1 == r {
      CountBrokenSame(a, xs, b, ys, r);
    } else {
      CountBrokenMore(a, xs, b, ys, n - 1, r);
    }
  }

  // ---- Planning ---------------------------------------------------------------------

  /** A recipient with nothing done. */
  ghost predicate Untouched(steps: seq<Step>, actions: seq<Action>, x: Recipient) {
    && x.status.PendingOne? && x.currentStep == 0 && x.command.None?
    && |actions| == |steps|
    && forall k :: 0 <= k < |steps| ==> actions[k].state.Pending? && actions[k].attempts == 0
  }

  lemma UntouchedOk(steps: seq<Step>, actions: seq<Action>, x: Recipient)
    requires Untouched(steps, actions, x)
    ensures RecipientOk(steps, actions, x) && !Broken(actions, x.currentStep)
  { }

  /** What planning builds up from a blank run. */
  ghost predicate Planned(s: Rows, z: Rows) {
    && z == s.(recipients := z.recipients, actions := z.actions) && |z.actions| == |z.recipients|
    && forall r :: 0 <= r < |z.recipients| ==> Untouched(z.steps, z.actions[r], z.recipients[r])
  }

  lemma {:induction false} PlanContactsPlans(s: Rows, contacts: seq<Contact>, now: int)
    requires |s.actions| == |s.recipients| == 0
    ensures Planned(s, PlanContacts(s, contacts, now))
    decreases |contacts|
  {
    if contacts != [] {
      PlanContactsPlans(s, contacts[..|contacts| - 1], now);
    }
  }

  lemma {:induction false} NoneBroken(actions: seq<seq<Action>>, xs: seq<Recipient>, n: nat)
    requires n <= |actions| && n <= |xs|
    requires forall r :: 0 <= r < n ==> !Broken(actions[r], xs[r].currentStep)
    ensures CountBroken(actions, xs, n) == 0
  {
    if n > 0 {
      NoneBroken(actions, xs, n - 1);
    }
  }

  lemma PlannedAgrees(s: Rows, z: Rows)
    requires Blank(s) && Planned(s, z)
    ensures RowsAgree(z) && CountBroken(z.actions, z.recipients, |z.recipients|) == 0
  {
    forall r: nat | r < |z.recipients| ensures Fits(z, r) && !Broken(z.actions[r], z.recipients[r].currentStep) {
      UntouchedOk(z.steps, z.actions[r], z.recipients[r]);
      assert UpTo(0) == [];
    }
    NoneBroken(z.actions, z.recipients, |z.recipients|);
  }

  lemma SameRowsAgree(s: Rows, z: Rows)
    requires RowsAgree(s)
    requires z.steps == s.steps && z.recipients == s.recipients && z.actions == s.actions && z.messages == s.messages
      && z.journal == s.journal
    ensures RowsAgree(z)
  {
    forall r: nat | r < |z.recipients| ensures Fits(z, r) {
      assert Fits(s, r);
    }
  }

  lemma PlanKeeps(s: Rows, contacts: Option<seq<Contact>>, now: int)
    requires Inv(s) && s.status.QueuedRun?
    ensures Work(Plan(s, contacts, now)) && EndAgrees(Plan(s, contacts, now))
    ensures !Plan(s, contacts, now).status.QueuedRun? && Plan(s, contacts, now).queue == s.queue
  {
    TallyZero(s.recipients, ACTIVE);
    if contacts.Some? {
      var p := PlanContacts(s, contacts.value, now);
      PlanContactsPlans(s, contacts.value, now);
      PlannedAgrees(s, p);
      SameRowsAgree(p, Plan(s, contacts, now));
    }
  }

  // ---- Picking ----------------------------------------------------------------------

  lemma {:induction false} CursorIsFirst(actions: seq<Action>)
    ensures forall j :: 0 <= j < Cursor(actions) ==> Done(actions[j])
    ensures Cursor(actions) < |actions| ==> !Done(actions[Cursor(actions)])
  {
    if actions != [] && Done(actions[0]) {
      CursorIsFirst(actions[1..]);
      assert forall j :: 0 < j < |actions| ==> actions[j] == actions[1..][j - 1];
    }
  }

  /** The query's pick is due no later than any other eligible action, and there is one whenever any is eligible. */
  lemma {:induction false} NextIsFirst(s: Rows, n: nat, now: int, q: nat, j: nat)
    requires n <= |s.actions| && q < n && Eligible(s, q, j, now)
    ensures NextAmong(s, n, now).Some?
    ensures Earlier(s, NextAmong(s, n, now).value.0, NextAmong(s, n, now).value.1, q, j)
    decreases n
  {
    var r := n - 1;
    CursorIsFirst(s.actions[r]);
    if q < r {
      NextIsFirst(s, r, now, q, j);
    }
  }

  // ---- Executing --------------------------------------------------------------------

  /** What the query picks is the recipient's first step that is not completed. */
  lemma AtCursor(s: Rows, r: nat, k: nat, now: int)
    requires RowsAgree(s) && Eligible(s, r, k, now)
    ensures r < |s.recipients| && k == s.recipients[r].currentStep && k < |s.steps| && !Broken(s.actions[r], k)
    ensures s.actions[r][k].state.Waiting? ==> s.steps[k].Delay? && ValidDelay(s.steps[k])
    ensures s.actions[r][k].attempts == if s.actions[r][k].state.Waiting? then 1 else 0
  {
    assert Fits(s, r);
  }

  /** `z` differs from `s` at one step of one recipient. */
  ghost predicate Touched(s: Rows, z: Rows, r: nat, k: nat) {
    && HasAction(s, r, k) && k < |s.steps| && HasAction(z, r, k)
    && z.actions == s.actions[r := s.actions[r][k := z.actions[r][k]]]
    && z.recipients == s.recipients[r := z.recipients[r]]
    && z.steps == s.steps && z.status == s.status && z.queue == s.queue
    && z.counts == s.counts.(failed := z.counts.failed)
    && z.messages.Keys <= s.messages.Keys + {(r, k)} && s.messages.Keys <= z.messages.Keys
    && (z.journal == s.journal || z.journal == s.journal + [(r, k)])
  }

  lemma StepsOfMore(journal: seq<(nat, nat)>, r: nat, k: nat, q: nat)
    ensures StepsOf(journal + [(r, k)], q) == StepsOf(journal, q) + (if q == r then [k] else [])
  {
    assert (journal + [(r, k)])[..|journal|] == journal;
  }

  lemma OthersFit(s: Rows, z: Rows, r: nat, k: nat, q: nat)
    requires Touched(s, z, r, k) && Fits(s, q) && q != r
    ensures Fits(z, q)
  {
    StepsOfMore(s.journal, r, k, q);
    forall h: nat ensures (q, h) in z.messages <==> (q, h) in s.messages { }
  }

  lemma TouchedAgrees(s: Rows, z: Rows, r: nat, k: nat)
    requires RowsAgree(s) && Touched(s, z, r, k) && Fits(z, r)
    ensures RowsAgree(z)
  {
    forall q: nat | q < |z.recipients| ensures Fits(z, q) {
      if q != r {
        OthersFit(s, z, r, k, q);
      }
    }
  }

  /** A step that now waits. */
  ghost predicate Waits(s: Rows, z: Rows, r: nat, k: nat) {
    && Touched(s, z, r, k) && s.actions[r][k].state.Pending? && s.steps[k].Delay? && ValidDelay(s.steps[k])
    && z.actions[r][k].state.Waiting? && z.actions[r][k].attempts == 1 && z.recipients[r] == s.recipients[r]
    && z.messages == s.messages && z.journal == s.journal && z.counts == s.counts
  }

  ghost predicate Fails(s: Rows, z: Rows, r: nat, k: nat) {
    && Touched(s, z, r, k) && s.actions[r][k].state.Pending?
    && z.actions[r][k].state.Failed? && z.actions[r][k].attempts == 1
    && z.recipients[r] == s.recipients[r].(status := FailedOne)
    && z.messages == s.messages && z.journal == s.journal && z.counts.failed == s.counts.failed + 1
  }

  /** A completed step: its journal entry and, for a template, its message. */
  ghost predicate Completes(s: Rows, z: Rows, r: nat, k: nat) {
    && Touched(s, z, r, k)
    && Open(s.actions[r][k]) && s.actions[r][k].attempts <= 1 && CanPass(s.steps[k])
    && z.actions[r][k].state.Completed? && z.actions[r][k].attempts == s.actions[r][k].attempts + 1
    && z.journal == s.journal + [(r, k)] && z.counts == s.counts
    && z.recipients[r].currentStep == k + 1
    && (if s.steps[k].Template?
        then z.recipients[r].command == Some(k) && z.recipients[r].status.QueuedOne? && (r, k) in z.messages
        else z.recipients[r] == s.recipients[r].(currentStep := k + 1) && z.messages == s.messages)
  }

  lemma WaitFits(s: Rows, z: Rows, r: nat, k: nat)
    requires Waits(s, z, r, k) && Fits(s, r) && k == s.recipients[r].currentStep
    ensures Fits(z, r) && !Broken(z.actions[r], k) && !Broken(s.actions[r], k)
  { }

  lemma FailFits(s: Rows, z: Rows, r: nat, k: nat)
    requires Fails(s, z, r, k) && Fits(s, r) && k == s.recipients[r].currentStep
    ensures Fits(z, r) && Broken(z.actions[r], k) && !Broken(s.actions[r], k)
  { }

  lemma CompleteFits(s: Rows, z: Rows, r: nat, k: nat)
    requires Completes(s, z, r, k) && Fits(s, r) && k == s.recipients[r].currentStep
    ensures Fits(z, r) && !Broken(z.actions[r], k + 1) && !Broken(s.actions[r], k)
  {
    StepsOfMore(s.journal, r, k, r);
    assert UpTo(k + 1) == UpTo(k) + [k];
    CompleteRecipient(s.steps, s.actions[r], s.recipients[r], z.actions[r], z.recipients[r]);
  }

  lemma CompleteRecipient(steps: seq<Step>, before: seq<Action>, x: Recipient, after: seq<Action>, y: Recipient)
    requires RecipientOk(steps, before, x) && x.currentStep < |steps|
    requires var k := x.currentStep;
      && |after| == |before| == |steps| && after == before[k := after[k]] && Open(before[k])
      && after[k].state.Completed? && 1 <= after[k].attempts <= 2 && CanPass(steps[k])
      && y.currentStep == k + 1
      && (if steps[k].Template? then y.command == Some(k) && y.status.QueuedOne? else y == x.(currentStep := k + 1))
    ensures RecipientOk(steps, after, y) && !Broken(after, y.currentStep)
  { }

  lemma WaitKeeps(s: Rows, z: Rows, r: nat, k: nat)
    requires Work(s) && s.status.RunningRun? && Waits(s, z, r, k) && k == s.recipients[r].currentStep
    ensures Work(z)
  {
    assert Fits(s, r);
    WaitFits(s, z, r, k);
    TouchedAgrees(s, z, r, k);
    CountBrokenSame(s.actions, s.recipients, z.actions, z.recipients, |s.recipients|);
  }

  lemma FailKeeps(s: Rows, z: Rows, r: nat, k: nat)
    requires Work(s) && s.status.RunningRun? && Fails(s, z, r, k) && k == s.recipients[r].currentStep
    ensures Work(z)
  {
    assert Fits(s, r);
    FailFits(s, z, r, k);
    TouchedAgrees(s, z, r, k);
    CountBrokenMore(s.actions, s.recipients, z.actions, z.recipients, |s.recipients|, r);
  }

  lemma CompleteKeeps(s: Rows, z: Rows, r: nat, k: nat)
    requires Work(s) && s.status.RunningRun? && Completes(s, z, r, k) && k == s.recipients[r].currentStep
    ensures Work(z)
  {
    assert Fits(s, r);
    CompleteFits(s, z, r, k);
    TouchedAgrees(s, z, r, k);
    CountBrokenSame(s.actions, s.recipients, z.actions, z.recipients, |s.recipients|);
  }

  /** Whether a due step is completed by this execution, and not failed or made to wait. */
  predicate Passes(s: Rows, r: nat, k: nat, prepared: set<(nat, nat)>)
    requires HasAction(s, r, k) && k < |s.steps|
  {
    match s.steps[k]
    case Delay(_) => ValidDelay(s.steps[k]) && s.actions[r][k].state.Waiting?
    case Template(_) => Sendable(s, r, k, prepared)
    case Label(named) => named
    case Field(complete) => complete
    case Condition(bare) => bare
    case Unsupported => false
  }

  lemma PassesCompletes(s: Rows, r: nat, k: nat, now: int, prepared: set<(nat, nat)>)
    requires HasAction(s, r, k) && k < |s.steps| && Passes(s, r, k, prepared)
    requires Open(s.actions[r][k]) && s.actions[r][k].attempts <= 1
    ensures Completes(s, ExecuteAction(s, r, k, now, prepared), r, k)
  {
    var z := ExecuteAction(s, r, k, now, prepared);
    assert s.actions[r][k := z.actions[r][k]] == z.actions[r];
  }

  lemma DelayWaits(s: Rows, r: nat, k: nat, now: int, prepared: set<(nat, nat)>)
    requires HasAction(s, r, k) && k < |s.steps| && s.steps[k].Delay? && ValidDelay(s.steps[k])
    requires s.actions[r][k].state.Pending? && s.actions[r][k].attempts == 0
    ensures Waits(s, ExecuteAction(s, r, k, now, prepared), r, k)
  {
    var z := ExecuteAction(s, r, k, now, prepared);
    assert s.actions[r][k := z.actions[r][k]] == z.actions[r];
  }

  lemma StepFails(s: Rows, r: nat, k: nat, now: int, prepared: set<(nat, nat)>)
    requires HasAction(s, r, k) && k < |s.steps|
    requires !Passes(s, r, k, prepared) && !(s.steps[k].Delay? && ValidDelay(s.steps[k]))
    requires s.actions[r][k].state.Pending? && s.actions[r][k].attempts == 0
    ensures Fails(s, ExecuteAction(s, r, k, now, prepared), r, k)
  {
    var z := ExecuteAction(s, r, k, now, prepared);
    assert s.actions[r][k := z.actions[r][k]] == z.actions[r];
  }

  lemma ExecuteActionFrame(s: Rows, r: nat, k: nat, now: int, prepared: set<(nat, nat)>)
    requires HasAction(s, r, k)
    ensures ExecuteAction(s, r, k, now, prepared).status == s.status
      && ExecuteAction(s, r, k, now, prepared).queue == s.queue
    ensures ExecuteAction(s, r, k, now, prepared).steps == s.steps
    ensures |ExecuteAction(s, r, k, now, prepared).recipients| == |s.recipients|
  { }

  lemma ExecuteActionKeeps(s: Rows, r: nat, k: nat, now: int, prepared: set<(nat, nat)>) returns (z: Rows)
    requires Work(s) && s.status.RunningRun? && Eligible(s, r, k, now)
    ensures r < |s.recipients| && z == ExecuteAction(s, r, k, now, prepared) && Work(z)
  {
    AtCursor(s, r, k, now);
    z := ExecuteAction(s, r, k, now, prepared);
    if Passes(s, r, k, prepared) {
      PassesCompletes(s, r, k, now, prepared);
      CompleteKeeps(s, z, r, k);
    } else if s.steps[k].Delay? && ValidDelay(s.steps[k]) {
      DelayWaits(s, r, k, now, prepared);
      WaitKeeps(s, z, r, k);
    } else {
      StepFails(s, r, k, now, prepared);
      FailKeeps(s, z, r, k);
    }
  }

  lemma TurnFrame(s: Rows, now: int, prepared: set<(nat, nat)>)
    ensures Turn(s, now, prepared).status == s.status && Turn(s, now, prepared).queue == s.queue
    ensures Turn(s, now, prepared).steps == s.steps
  {
    var next := NextAction(s, now);
    if next.Some? && next.value.0 < |s.recipients| {
      ExecuteActionFrame(s, next.value.0, next.value.1, now, prepared);
    }
  }

  lemma TurnKeeps(s: Rows, now: int, prepared: set<(nat, nat)>) returns (z: Rows)
    requires Work(s) && s.status.RunningRun?
    ensures z == Turn(s, now, prepared) && Work(z) && z.status.RunningRun? && z.queue == s.queue
  {
    z := Turn(s, now, prepared);
    TurnFrame(s, now, prepared);
    var next := NextAction(s, now);
    if next.Some? {
      z := ExecuteActionKeeps(s, next.value.0, next.value.1, now, prepared);
    }
  }

  lemma {:induction false} ExecuteActionsFrame(s: Rows, limit: nat, now: int, prepared: set<(nat, nat)>)
    ensures ExecuteActions(s, limit, now, prepared).status == s.status
      && ExecuteActions(s, limit, now, prepared).queue == s.queue
    ensures ExecuteActions(s, limit, now, prepared).steps == s.steps
  {
    if limit > 0 {
      ExecuteActionsFrame(s, limit - 1, now, prepared);
      TurnFrame(ExecuteActions(s, limit - 1, now, prepared), now, prepared);
    }
  }

  lemma {:induction false} ExecuteActionsKeeps(s: Rows, limit: nat, now: int, prepared: set<(nat, nat)>)
    returns (z: Rows)
    requires Work(s) && s.status.RunningRun?
    ensures z == ExecuteActions(s, limit, now, prepared)
    ensures Work(z) && z.status.RunningRun? && z.queue == s.queue
  {
    z := s;
    if limit > 0 {
      var t := ExecuteActionsKeeps(s, limit - 1, now, prepared);
      z := TurnKeeps(t, now, prepared);
    }
  }

  lemma IdleTurn(s: Rows, now: int, prepared: set<(nat, nat)>)
    requires NextAction(s, now).None?
    ensures Turn(s, now, prepared) == s
  { }

  /** Once nothing is due, the rest of the loop changes nothing. */
  lemma {:induction false} NothingDueStays(s: Rows, done: nat, limit: nat, now: int, prepared: set<(nat, nat)>, z: Rows)
    requires done <= limit && z == ExecuteActions(s, done, now, prepared) && NextAction(z, now).None?
    ensures ExecuteActions(s, limit, now, prepared) == z
  {
    if done < limit {
      NothingDueStays(s, done, limit - 1, now, prepared, z);
      IdleTurn(z, now, prepared);
    }
  }

  // ---- Reconciling, finalizing, scheduling ------------------------------------------

  /** Only the statuses of recipients changed. */
  ghost predicate Restated(s: Rows, z: Rows) {
    && z == s.(recipients := z.recipients) && |z.recipients| == |s.recipients|
    && forall r :: 0 <= r < |s.recipients| ==> z.recipients[r] == s.recipients[r].(status := z.recipients[r].status)
  }

  lemma RestatedKeeps(s: Rows, z: Rows)
    requires Work(s) && Restated(s, z)
    requires forall r :: 0 <= r < |s.recipients| ==> RecipientOk(s.steps, s.actions[r], z.recipients[r])
    ensures Work(z)
  {
    CountBrokenSame(s.actions, s.recipients, z.actions, z.recipients, |s.recipients|);
    forall r: nat | r < |z.recipients| ensures Fits(z, r) {
      assert Fits(s, r);
    }
  }

  lemma ReconciledOk(s: Rows, r: nat)
    requires Fits(s, r)
    ensures RecipientOk(s.steps, s.actions[r], ReconcileOne(s, r))
    ensures ReconcileOne(s, r) == s.recipients[r].(status := ReconcileOne(s, r).status)
  { }

  lemma ReconcileKeeps(s: Rows)
    requires Work(s)
    ensures Work(Reconcile(s))
  {
    var z := Reconcile(s);
    forall r | 0 <= r < |s.recipients|
      ensures RecipientOk(s.steps, s.actions[r], z.recipients[r])
        && z.recipients[r] == s.recipients[r].(status := z.recipients[r].status)
    {
      ReconciledOk(s, r);
    }
    RestatedKeeps(s, z);
  }

  lemma FinishedOk(steps: seq<Step>, actions: seq<Action>, x: Recipient)
    requires RecipientOk(steps, actions, x)
    ensures RecipientOk(steps, actions, FinishOne(x, |steps|))
  { }

  lemma FinishedKeeps(s: Rows)
    requires Work(s)
    ensures Work(Finished(s))
  {
    var z := Finished(s);
    forall r | 0 <= r < |s.recipients| ensures RecipientOk(s.steps, s.actions[r], z.recipients[r]) {
      assert Fits(s, r);
      FinishedOk(s.steps, s.actions[r], s.recipients[r]);
    }
    RestatedKeeps(s, z);
  }

  lemma ClosedKeeps(s: Rows)
    requires Work(s) && Tally(s.recipients, ACTIVE) == 0
    ensures Work(Closed(s)) && EndAgrees(Closed(s)) && Terminal(Closed(s).status)
  {
    SameRowsAgree(s, Closed(s));
  }

  lemma FinalizeKeeps(s: Rows)
    requires Work(s) && s.status.RunningRun?
    ensures Work(Finalize(s)) && EndAgrees(Finalize(s)) && !Finalize(s).status.QueuedRun?
    ensures Finalize(s).queue == s.queue && Finalize(s).actions == s.actions
  {
    FinishedKeeps(s);
    if Tally(Finished(s).recipients, ACTIVE) == 0 {
      ClosedKeeps(Finished(s));
    }
  }

  lemma ScheduleKeeps(s: Rows, now: int)
    requires Work(s) && EndAgrees(s) && !s.status.QueuedRun? && s.queue.Some?
    ensures Inv(ScheduleNext(s, now))
  {
    SameRowsAgree(s, ScheduleNext(s, now));
  }

  lemma ExecuteKeeps(s: Rows, limit: nat, now: int, contacts: Option<seq<Contact>>, prepared: set<(nat, nat)>)
    requires Inv(s)
    ensures Inv(Execute(s, limit, now, contacts, prepared))
  {
    if s.queue.Some? && s.queue.value <= now {
      if s.status.QueuedRun? {
        PlanKeeps(s, contacts, now);
        ScheduleKeeps(Plan(s, contacts, now), now);
      } else {
        ReconcileKeeps(s);
        var t := ExecuteActionsKeeps(Reconcile(s), limit, now, prepared);
        FinalizeKeeps(t);
        ScheduleKeeps(Finalize(t), now);
      }
    }
  }

  lemma SettleKeeps(s: Rows, id: (nat, nat), m: Message)
    requires Inv(s)
    ensures Inv(Settle(s, id, m))
  {
    var z := Settle(s, id, m);
    forall r: nat | r < |z.recipients| ensures Fits(z, r) {
      assert Fits(s, r);
      forall k: nat ensures (r, k) in z.messages <==> (r, k) in s.messages { }
    }
  }

  lemma ApplyKeeps(s: Rows, e: Event)
    requires Inv(s)
    ensures Inv(Apply(s, e))
  {
    match e
    case Tick(limit, now, contacts, prepared) => ExecuteKeeps(s, limit, now, contacts, prepared);
    case Outcome(id, m) => SettleKeeps(s, id, m);
  }

  lemma StartKeeps(steps: seq<Step>, at: int)
    ensures Inv(Start(steps, at))
  { }

  lemma {:induction false} RunKeeps(s: Rows, events: seq<Event>)
    requires Inv(s)
    ensures Inv(Run(s, events))
    decreases |events|
  {
    if events != [] {
      RunKeeps(s, events[..|events| - 1]);
      ApplyKeeps(Run(s, events[..|events| - 1]), events[|events| - 1]);
    }
  }
}
