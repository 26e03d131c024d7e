/**
 * A run that ends early, for every such workflow and every limit: as many recipients as a
 * call takes actions, all but the last failing at the template step. They reach it in
 * step with each other, so a call ends right after the last one's message.
 */
module AutomationStaging {
  import opened Shared
  import opened AutomationModel
  import opened AutomationInvariant
  import opened AutomationTheorems
  import opened AutomationCompleteness
  import opened AutomationLine
  import opened AutomationEarlyEnd

  /** The template step is `k`; `size` is the limit of every call, and the number of recipients. */
  datatype Staging = Staging(steps: seq<Step>, k: nat, size: nat)

  ghost predicate Staged(g: Staging) {
    g.size >= 1 && TemplateReachable(g.steps, g.k) && g.k + 1 < |g.steps|
  }

  /** Every template can be filled, except that of step `k` for anybody but the last recipient. */
  function Filled(g: Staging): set<(nat, nat)> {
    set r: nat, j: nat | r < g.size && j < |g.steps| && (j == g.k ==> r == g.size - 1) :: (r, j)
  }

  ghost predicate Unanswered(s: Rows) {
    && (forall id :: id in s.messages ==> s.messages[id] == Message(InFlight, NoReceipt))
    && (forall r :: 0 <= r < |s.recipients| && r < |s.actions| && !Broken(s.actions[r], s.recipients[r].currentStep) ==>
          s.recipients[r].status == if s.recipients[r].command.None? then PendingOne else QueuedOne)
  }

  ghost predicate Steady(g: Staging, s: Rows) {
    && Line(s, 0) && s.status.RunningRun? && s.steps == g.steps && |s.recipients| == g.size
    && (forall r :: 0 <= r < |s.recipients| ==> s.recipients[r].identity.Some?)
    && Unanswered(s)
  }

  // ---- Phases: from one delay to the next, or to the template step --------------------

  /** From step `d`, begun when `due` is over if it is a delay, up to and with step `e`. */
  datatype Phase = Phase(d: nat, e: nat, due: Option<int>, now: int)

  ghost predicate PhaseOk(g: Staging, h: Phase) {
    && h.d <= h.e <= g.k < |g.steps| && 0 <= h.now && (h.e == g.k || g.steps[h.e].Delay?)
    && (if h.due.Some? then h.d < h.e && g.steps[h.d].Delay? && h.due.value <= h.now else h.d == 0)
    && forall j :: (if h.due.Some? then h.d < j else h.d <= j) && j < h.e ==> !g.steps[j].Delay?
  }

  /** The executions one recipient takes in a phase. */
  function Length(h: Phase): nat {
    if h.d <= h.e then h.e - h.d + 1 else 0
  }

  /** Recipient `r` is about to take its first turn of the phase. */
  ghost predicate Parked(s: Rows, r: nat, d: nat, due: Option<int>) {
    r < |s.recipients| && r < |s.actions| && s.recipients[r].currentStep == d < |s.actions[r]|
    && (if due.None? then s.actions[r][d].state.Pending?
        else s.actions[r][d].state.Waiting? && s.actions[r][d].availableAt == due.value)
  }

  /** Its last turn is over. */
  ghost predicate Through(g: Staging, s: Rows, h: Phase, r: nat)
    requires h.e < |g.steps|
  {
    if g.steps[h.e].Delay? then
      g.steps[h.e].seconds.Some? && Parked(s, r, h.e, Some(h.now + g.steps[h.e].seconds.value))
    else if r < g.size - 1 then
      r < |s.recipients| && r < |s.actions| && s.recipients[r].currentStep == h.e && Broken(s.actions[r], h.e)
    else Ready(s, r) && s.recipients[r].currentStep == h.e + 1 && s.recipients[r].command == Some(h.e)
  }

  /** Those before `i` are through, `i` has had `m` turns, and those after it none. */
  ghost predicate Place(g: Staging, s: Rows, h: Phase, i: nat, m: nat)
    requires h.e < |g.steps|
  {
    && i <= g.size && (i == g.size ==> m == 0)
    && (forall q: nat :: q < i ==> Through(g, s, h, q))
    && (i < g.size ==> if m == 0 then Parked(s, i, h.d, h.due)
           else Ready(s, i) && s.recipients[i].currentStep == h.d + m)
    && (forall q: nat :: i < q < g.size ==> Parked(s, q, h.d, h.due))
  }

  lemma PicksInTurn(g: Staging, s: Rows, h: Phase, i: nat, m: nat)
    requires Staged(g) && Steady(g, s) && PhaseOk(g, h) && Place(g, s, h, i, m) && i < g.size
    ensures NextAction(s, h.now) == Some((i, h.d + m))
  {
    assert Fits(s, i);
    if Ready(s, i) {
      FirstPick(s, 0, h.now, i);
      var p := NextAction(s, h.now).value.0;
      assert p < i ==> Through(g, s, h, p);
    } else {
      assert Eligible(s, i, h.d, h.now);
      NextIsFirst(s, |s.actions|, h.now, i, h.d);
      var (p, k) := NextAction(s, h.now).value;
      AtCursor(s, p, k, h.now);
      assert p < i ==> Through(g, s, h, p);
      assert p > i ==> Parked(s, p, h.d, h.due);
      assert CanPass(g.steps[h.e]);
    }
  }

  lemma StaysUnanswered(s: Rows, now: int, prepared: set<(nat, nat)>)
    requires Work(s) && s.status.RunningRun? && Unanswered(s)
    ensures Unanswered(Turn(s, now, prepared))
  {
    var z := TurnIs(s, now, prepared);
    var next := NextAction(s, now);
    if next.Some? {
      var (p, k) := next.value;
      assert Fits(s, p);
      forall id | id in z.messages ensures z.messages[id] == Message(InFlight, NoReceipt) { }
    }
  }

  lemma StepPasses(g: Staging, s: Rows, h: Phase, i: nat, m: nat)
    requires Staged(g) && Steady(g, s) && PhaseOk(g, h) && Place(g, s, h, i, m) && i < g.size && m < Length(h)
    requires HasAction(s, i, h.d + m) && h.d + m < |s.steps|
    ensures Passes(s, i, h.d + m, Filled(g)) <==> h.d + m < h.e || (!g.steps[h.e].Delay? && i == g.size - 1)
    ensures h.d + m == h.e && g.steps[h.e].Delay? ==> ValidDelay(g.steps[h.e])
  {
    assert CanPass(g.steps[h.d + m]);
    assert Fits(s, i);
  }

  /** Recipient `i` has its turn, and nobody else's rows change. */
  ghost predicate OwnTurn(g: Staging, s: Rows, z: Rows, h: Phase, i: nat, j: nat)
    requires h.e < |g.steps|
  {
    && |z.recipients| == |s.recipients| == |z.actions| == |s.actions|
    && (forall q :: 0 <= q < |s.recipients| && q != i ==>
           z.recipients[q] == s.recipients[q] && z.actions[q] == s.actions[q])
    && (if j < h.e then Ready(z, i) && z.recipients[i].currentStep == j + 1 else Through(g, z, h, i))
  }

  lemma TakesTurn(g: Staging, s: Rows, h: Phase, i: nat, m: nat) returns (z: Rows)
    requires Staged(g) && Steady(g, s) && PhaseOk(g, h) && Place(g, s, h, i, m) && i < g.size && m < Length(h)
    ensures z == Turn(s, h.now, Filled(g)) && OwnTurn(g, s, z, h, i, h.d + m)
  {
    PicksInTurn(g, s, h, i, m);
    z := TurnIs(s, h.now, Filled(g));
    assert Fits(s, i);
    StepPasses(g, s, h, i, m);
    assert Fits(z, i);
  }

  lemma StaysSteady(g: Staging, s: Rows, now: int) returns (z: Rows)
    requires Steady(g, s) && 0 <= now
    ensures z == Turn(s, now, Filled(g)) && Steady(g, z) && z.queue == s.queue
  {
    z := TurnLine(s, 0, now, Filled(g));
    var y := TurnIs(s, now, Filled(g));
    StaysUnanswered(s, now, Filled(g));
  }

  lemma MovesOn(g: Staging, s: Rows, z: Rows, h: Phase, i: nat, m: nat)
    requires PhaseOk(g, h) && Place(g, s, h, i, m) && i < g.size == |s.recipients| && m < Length(h)
      && OwnTurn(g, s, z, h, i, h.d + m)
    ensures if m + 1 < Length(h) then Place(g, z, h, i, m + 1) else Place(g, z, h, i + 1, 0)
  {
    forall q: nat | q < i ensures Through(g, z, h, q) {
      assert Through(g, s, h, q);
    }
    forall q: nat | i < q < g.size ensures Parked(z, q, h.d, h.due) {
      assert Parked(s, q, h.d, h.due);
    }
  }

  lemma MoveOne(g: Staging, s: Rows, h: Phase, i: nat, m: nat) returns (z: Rows)
    requires Staged(g) && Steady(g, s) && PhaseOk(g, h) && Place(g, s, h, i, m) && i < g.size && m < Length(h)
    ensures z == Turn(s, h.now, Filled(g)) && Steady(g, z) && z.queue == s.queue
    ensures if m + 1 < Length(h) then Place(g, z, h, i, m + 1) else Place(g, z, h, i + 1, 0)
  {
    z := TakesTurn(g, s, h, i, m);
    MovesOn(g, s, z, h, i, m);
    z := StaysSteady(g, s, h.now);
  }

  // ---- Whole calls ------------------------------------------------------------------

  /** `n` times `size`, one after the other: recipients and their turns, or n and their actions. */
  function Times(n: nat, size: nat): nat {
    if n == 0 then 0 else Times(n - 1, size) + size
  }

  lemma {:induction false} TimesIs(n: nat, size: nat)
    ensures Times(n, size) == size * n
  {
    if n > 0 {
      TimesIs(n - 1, size);
      assert size * n == size * (n - 1) + size;
    }
  }

  lemma TimesSwap(a: nat, b: nat)
    ensures Times(a, b) == Times(b, a)
  {
    TimesIs(a, b);
    TimesIs(b, a);
    assert a * b == b * a;
  }

  lemma {:induction false} TimesMore(a: nat, b: nat, size: nat)
    requires a < b
    ensures Times(a, size) + size <= Times(b, size)
    decreases b
  {
    if a < b - 1 {
      TimesMore(a, b - 1, size);
    }
  }

  /** `x` executions of the phase have been made. */
  ghost predicate Made(g: Staging, s: Rows, h: Phase, x: nat)
    requires h.e < |g.steps|
  {
    exists i: nat, m: nat :: Times(i, Length(h)) + m == x && m < Length(h) && Place(g, s, h, i, m)
  }

  /** A phase's executions, all in all. */
  ghost predicate InAll(g: Staging, h: Phase, total: nat) {
    total == Times(g.size, Length(h))
  }

  lemma MakeOne(g: Staging, s: Rows, h: Phase, x: nat, total: nat) returns (z: Rows)
    requires Staged(g) && Steady(g, s) && PhaseOk(g, h) && Made(g, s, h, x) && x < total && InAll(g, h, total)
    ensures z == Turn(s, h.now, Filled(g)) && Steady(g, z) && z.queue == s.queue && Made(g, z, h, x + 1)
  {
    var i: nat, m: nat :| Times(i, Length(h)) + m == x && m < Length(h) && Place(g, s, h, i, m);
    z := MoveOne(g, s, h, i, m);
    if m + 1 < Length(h) {
      assert Times(i, Length(h)) + (m + 1) == x + 1;
    } else {
      assert Times(i + 1, Length(h)) + 0 == x + 1;
    }
  }

  /** What every turn before the `total`th carries on, all of them do. */
  lemma {:induction false} TurnByTurn(goal: (Rows, nat) -> bool, s: Rows, x: nat, n: nat, total: nat, now: int,
                                      prepared: set<(nat, nat)>)
    requires goal(s, x) && x + n <= total
    requires forall t: Rows, y: nat :: goal(t, y) && y < total ==> goal(Turn(t, now, prepared), y + 1)
    ensures goal(ExecuteActions(s, n, now, prepared), x + n)
  {
    if n > 0 {
      TurnByTurn(goal, s, x, n - 1, total, now, prepared);
    }
  }

  lemma MakeMany(g: Staging, s: Rows, h: Phase, x: nat, n: nat, total: nat)
    requires Staged(g) && Steady(g, s) && PhaseOk(g, h) && Made(g, s, h, x) && x + n <= total && InAll(g, h, total)
    ensures var z := ExecuteActions(s, n, h.now, Filled(g)); Steady(g, z) && z.queue == s.queue && Made(g, z, h, x + n)
  {
    ghost var goal := (t: Rows, y: nat) => Steady(g, t) && t.queue == s.queue && Made(g, t, h, y);
    forall t: Rows, y: nat | goal(t, y) && y < total ensures goal(Turn(t, h.now, Filled(g)), y + 1) {
      var z := MakeOne(g, t, h, y, total);
    }
    TurnByTurn(goal, s, x, n, total, h.now, Filled(g));
  }

  /** The last recipient is not past the step after the template step, nor anybody else past that step. */
  lemma PlaceBounds(g: Staging, s: Rows, h: Phase, i: nat, m: nat)
    requires Staged(g) && Steady(g, s) && PhaseOk(g, h) && Place(g, s, h, i, m) && m < Length(h)
    ensures forall q: nat :: q < g.size ==> q < |s.recipients| && s.recipients[q].currentStep <= g.k + 1
    ensures g.size - 1 < |s.actions| && !Broken(s.actions[g.size - 1], s.recipients[g.size - 1].currentStep)
    ensures |g.steps| - 1 < |s.actions[g.size - 1]| && s.actions[g.size - 1][|g.steps| - 1].state.Pending?
  {
    var last := g.size - 1;
    assert Fits(s, last);
    forall q: nat | q < g.size ensures q < |s.recipients| && s.recipients[q].currentStep <= g.k + 1 {
      if q < i { assert Through(g, s, h, q); } else if q > i { assert Parked(s, q, h.d, h.due); }
    }
    if last < i { assert Through(g, s, h, last); } else if last > i { assert Parked(s, last, h.d, h.due); }
  }

  ghost predicate Unfinished(g: Staging, s: Rows) {
    && Steady(g, s) && g.k + 1 < |g.steps| && g.size >= 1 && |s.actions| == g.size
    && (forall q: nat :: q < g.size ==> s.recipients[q].currentStep <= g.k + 1)
    && !Broken(s.actions[g.size - 1], s.recipients[g.size - 1].currentStep)
    && |g.steps| - 1 < |s.actions[g.size - 1]| && s.actions[g.size - 1][|g.steps| - 1].state.Pending?
  }

  /** Around the loop nothing changes but the queue row, which stays due. */
  lemma CallAround(g: Staging, s: Rows, t: Rows, now: int) returns (z: Rows)
    requires Steady(g, s) && Unfinished(g, t)
    ensures Reconcile(s) == s && Finalize(t) == t
    ensures z == ScheduleNext(t, now) && z == t.(queue := z.queue)
    ensures t.queue.Some? ==> z.queue.Some? && z.queue.value <= 0
  {
    assert Reconcile(s).recipients == s.recipients;
    assert Finished(t).recipients == t.recipients;
    var last := g.size - 1;
    TallyZero(t.recipients, ACTIVE);
    assert t.recipients[last].status in ACTIVE;
    assert TimedRow(t.actions[last], 0);
    NextDueIsLeast(t.actions, last, |g.steps| - 1);
    z := ScheduleNext(t, now);
  }

  lemma QueueAside(g: Staging, s: Rows, z: Rows)
    requires Steady(g, s) && z == s.(queue := z.queue)
    ensures Steady(g, z)
  {
    SameRowsAgree(s, z);
    LineSame(s, z, 0);
  }

  ghost function Call(g: Staging, now: int): Event {
    Tick(g.size, now, None, Filled(g))
  }

  lemma MakeCall(g: Staging, s: Rows, h: Phase, x: nat) returns (z: Rows)
    requires Staged(g) && Steady(g, s) && PhaseOk(g, h) && Made(g, s, h, x) && x + g.size <= Times(Length(h), g.size)
    requires s.queue.Some? && s.queue.value <= 0
    ensures z == Apply(s, Call(g, h.now)) && Steady(g, z) && Made(g, z, h, x + g.size)
    ensures z.queue.Some? && z.queue.value <= 0
  {
    var t := ExecuteActions(s, g.size, h.now, Filled(g));
    TimesSwap(Length(h), g.size);
    MakeMany(g, s, h, x, g.size, Times(Length(h), g.size));
    z := CallEnds(g, s, t, h, x + g.size);
  }

  lemma CallEnds(g: Staging, s: Rows, t: Rows, h: Phase, x: nat) returns (z: Rows)
    requires Staged(g) && Steady(g, s) && Steady(g, t) && PhaseOk(g, h) && Made(g, t, h, x) && t.queue.Some?
    ensures Reconcile(s) == s && z == ScheduleNext(Finalize(t), h.now) && Steady(g, z) && Made(g, z, h, x)
    ensures z.queue.Some? && z.queue.value <= 0
  {
    var i: nat, m: nat :| Times(i, Length(h)) + m == x && m < Length(h) && Place(g, t, h, i, m);
    PlaceBounds(g, t, h, i, m);
    assert Unfinished(g, t) by { assert Fits(t, g.size - 1); }
    z := CallAround(g, s, t, h.now);
    QueueAside(g, t, z);
    PlaceAside(g, t, z, h, i, m);
  }

  lemma PlaceAside(g: Staging, s: Rows, z: Rows, h: Phase, i: nat, m: nat)
    requires h.e < |g.steps| && Place(g, s, h, i, m) && z == s.(queue := z.queue)
    ensures Place(g, z, h, i, m)
  {
    forall q: nat | q < i ensures Through(g, z, h, q) { assert Through(g, s, h, q); }
    forall q: nat | i < q < g.size ensures Parked(z, q, h.d, h.due) { assert Parked(s, q, h.d, h.due); }
  }

  // ---- Runs -------------------------------------------------------------------------

  lemma {:induction false} RunAppend(s: Rows, a: seq<Event>, b: seq<Event>)
    ensures Run(s, a + b) == Run(Run(s, a), b)
    decreases |b|
  {
    if b == [] {
      assert a + b == a;
    } else {
      assert (a + b)[..|a + b| - 1] == a + b[..|b| - 1];
      RunAppend(s, a, b[..|b| - 1]);
    }
  }

  lemma RunOne(s: Rows, e: Event)
    ensures Run(s, [e]) == Apply(s, e)
  {
    assert [e][..0] == [];
  }

  /** Calls of one limit between two instants. */
  ghost predicate Calls(events: seq<Event>, limit: nat, from: int, to: int) {
    Orderly(events, limit, limit) && Within(events, from, to) && from <= to
  }

  lemma CallsJoin(a: seq<Event>, b: seq<Event>, limit: nat, from: int, mid: int, to: int)
    requires Calls(a, limit, from, mid) && Calls(b, limit, mid, to)
    ensures Calls(a + b, limit, from, to)
  { }

  /** From `s` such calls, and answers between them, lead to `z`. */
  ghost predicate Leads(s: Rows, events: seq<Event>, z: Rows, limit: nat, from: int, to: int) {
    z == Run(s, events) && Calls(events, limit, from, to)
  }

  lemma LeadsOn(s: Rows, a: seq<Event>, m: Rows, b: seq<Event>, z: Rows, limit: nat, from: int, mid: int, next: int,
                to: int)
    requires Leads(s, a, m, limit, from, mid) && Leads(m, b, z, limit, next, to) && mid <= next
    ensures Leads(s, a + b, z, limit, from, to)
  {
    RunAppend(s, a, b);
    CallsJoin(a, [], limit, from, mid, next);
    assert a + [] == a;
    CallsJoin(a, b, limit, from, next, to);
  }

  lemma LeadsOne(s: Rows, e: Event, limit: nat, now: int)
    requires e.Tick? ==> e.limit == limit && e.now == now
    ensures Leads(s, [e], Apply(s, e), limit, now, now)
  {
    RunOne(s, e);
  }

  /** Where a run has got: due, and `x` executions into the phase. */
  ghost predicate Reaches(g: Staging, s: Rows, h: Phase, x: nat) {
    && Staged(g) && Steady(g, s) && PhaseOk(g, h) && Made(g, s, h, x)
    && s.queue.Some? && s.queue.value <= 0
  }

  function Repeated(e: Event, n: nat): seq<Event> {
    seq(n, i requires 0 <= i < n => e)
  }

  /** What one call carries on, `n` such calls do. */
  lemma {:induction false} CallByCall(goal: (Rows, nat) -> bool, s: Rows, e: Event, from: nat, n: nat)
    requires goal(s, from) && forall t: Rows, a: nat :: goal(t, a) && a < from + n ==> goal(Apply(t, e), a + 1)
    ensures goal(Run(s, Repeated(e, n)), from + n)
  {
    if n > 0 {
      CallByCall(goal, s, e, from, n - 1);
      assert Repeated(e, n)[..n - 1] == Repeated(e, n - 1);
    }
  }

  lemma CallReaches(g: Staging, s: Rows, h: Phase, a: nat)
    requires Reaches(g, s, h, Times(a, g.size)) && a < Length(h)
    ensures Reaches(g, Apply(s, Call(g, h.now)), h, Times(a + 1, g.size))
  {
    TimesMore(a, Length(h), g.size);
    var z := MakeCall(g, s, h, Times(a, g.size));
  }

  lemma RepeatedCalls(e: Event, n: nat)
    requires e.Tick?
    ensures Calls(Repeated(e, n), e.limit, e.now, e.now)
  { }

  lemma PhaseRuns(g: Staging, s: Rows, h: Phase) returns (events: seq<Event>, z: Rows)
    requires Reaches(g, s, h, 0)
    ensures Leads(s, events, z, g.size, h.now, h.now) && Reaches(g, z, h, Times(Length(h), g.size))
  {
    ghost var goal := (t: Rows, a: nat) => Reaches(g, t, h, Times(a, g.size));
    events := Repeated(Call(g, h.now), Length(h));
    z := Run(s, events);
    forall t: Rows, a: nat | goal(t, a) && a < 0 + Length(h) ensures goal(Apply(t, Call(g, h.now)), a + 1) {
      CallReaches(g, t, h, a);
    }
    CallByCall(goal, s, Call(g, h.now), 0, Length(h));
    RepeatedCalls(Call(g, h.now), Length(h));
    assert goal(z, Length(h));
  }

  lemma PhaseOver(g: Staging, s: Rows, h: Phase)
    requires Reaches(g, s, h, Times(Length(h), g.size))
    ensures Place(g, s, h, g.size, 0)
  {
    var x := Times(Length(h), g.size);
    TimesSwap(Length(h), g.size);
    var i: nat, m: nat :| Times(i, Length(h)) + m == x && m < Length(h) && Place(g, s, h, i, m);
    if i < g.size {
      TimesMore(i, g.size, Length(h));
    }
  }

  /** The next delay, or the template step when there is none before it. */
  function NextStop(steps: seq<Step>, from: nat, k: nat): (e: nat)
    requires from <= k < |steps|
    ensures from <= e <= k && (e == k || steps[e].Delay?) && forall j :: from <= j < e ==> !steps[j].Delay?
    decreases k - from
  {
    if from == k || steps[from].Delay? then from else NextStop(steps, from + 1, k)
  }

  /** Everybody is about to take step `d`. */
  ghost predicate AllParked(g: Staging, s: Rows, d: nat, due: Option<int>) {
    && Staged(g) && Steady(g, s) && s.queue.Some? && s.queue.value <= 0
    && forall q: nat :: q < g.size ==> Parked(s, q, d, due)
  }

  /** The last recipient has just sent its message, and all others failed at theirs. */
  ghost predicate OneSent(g: Staging, s: Rows) {
    && Staged(g) && Steady(g, s) && s.queue.Some? && s.queue.value <= 0
    && Ready(s, g.size - 1) && s.recipients[g.size - 1].currentStep == g.k + 1
    && s.recipients[g.size - 1].command == Some(g.k)
    && forall q: nat :: q < g.size - 1 ==> Dropped(s, q)
  }

  ghost predicate Dropped(s: Rows, q: nat) {
    q < |s.recipients| && q < |s.actions| && Broken(s.actions[q], s.recipients[q].currentStep)
  }

  function PhaseFrom(g: Staging, d: nat, due: Option<int>, now: int): Phase
    requires d < g.k < |g.steps| || (d == 0 && due.None? && g.k < |g.steps|)
  {
    Phase(d, NextStop(g.steps, if due.None? then 0 else d + 1, g.k), due, now)
  }

  lemma OnePhase(g: Staging, s: Rows, d: nat, due: Option<int>, now: int) returns (events: seq<Event>, z: Rows)
    requires AllParked(g, s, d, due) && 0 <= now
    requires if due.None? then d == 0 else d < g.k && g.steps[d].Delay? && due.value <= now
    ensures var h := PhaseFrom(g, d, due, now);
      Leads(s, events, z, g.size, now, now) && Reaches(g, z, h, Times(Length(h), g.size))
  {
    var h := PhaseFrom(g, d, due, now);
    assert Place(g, s, h, 0, 0);
    assert Times(0, Length(h)) + 0 == 0;
    assert Made(g, s, h, 0);
    events, z := PhaseRuns(g, s, h);
  }

  lemma DelayReached(g: Staging, z: Rows, h: Phase)
    requires Reaches(g, z, h, Times(Length(h), g.size)) && g.steps[h.e].Delay?
    ensures h.e < g.k && ValidDelay(g.steps[h.e])
    ensures AllParked(g, z, h.e, Some(h.now + g.steps[h.e].seconds.value))
  {
    PhaseOver(g, z, h);
    assert CanPass(g.steps[h.e]);
    var due := Some(h.now + g.steps[h.e].seconds.value);
    forall q: nat | q < g.size ensures Parked(z, q, h.e, due) {
      assert Through(g, z, h, q);
    }
  }

  lemma TemplateReached(g: Staging, z: Rows, h: Phase)
    requires Reaches(g, z, h, Times(Length(h), g.size)) && !g.steps[h.e].Delay?
    ensures OneSent(g, z)
  {
    PhaseOver(g, z, h);
    assert Through(g, z, h, g.size - 1);
    forall q: nat | q < g.size - 1 ensures Dropped(z, q) {
      assert Through(g, z, h, q);
    }
  }

  lemma {:induction false} ReachesTemplate(g: Staging, s: Rows, d: nat, due: Option<int>, now: int)
    returns (events: seq<Event>, to: int, z: Rows)
    requires AllParked(g, s, d, due) && 0 <= now
    requires if due.None? then d == 0 else d < g.k && g.steps[d].Delay? && due.value <= now
    ensures Leads(s, events, z, g.size, now, to) && OneSent(g, z)
    decreases g.k - d, due.None?
  {
    var h := PhaseFrom(g, d, due, now);
    events, z := OnePhase(g, s, d, due, now);
    to := now;
    if g.steps[h.e].Delay? {
      DelayReached(g, z, h);
      var later := now + g.steps[h.e].seconds.value;
      var m, more := z, [];
      more, to, z := ReachesTemplate(g, m, h.e, Some(later), later);
      LeadsOn(s, events, m, more, z, g.size, now, now, later, to);
      events := events + more;
    } else {
      TemplateReached(g, z, h);
    }
  }

  // ---- The beginning and the end ----------------------------------------------------

  function Audience(n: nat): seq<Contact> {
    seq(n, i requires 0 <= i < n => Contact(i, Some(i)))
  }

  lemma {:induction false} EverybodyPlanned(steps: seq<Step>, n: nat)
    requires FirstTemplate(steps).Some?
    ensures var z := PlanContacts(Start(steps, 0), Audience(n), 0);
      |z.recipients| == n && forall q :: 0 <= q < n ==>
        z.recipients[q].customer == q && z.recipients[q].identity == Some(q)
  {
    if n > 0 {
      EverybodyPlanned(steps, n - 1);
      assert Audience(n)[..n - 1] == Audience(n - 1);
    }
  }

  lemma {:induction false} ReachableTemplateNamed(steps: seq<Step>, k: nat)
    requires TemplateReachable(steps, k)
    ensures FirstTemplate(steps).Some?
  {
    assert CanPass(steps[0]);
    if !steps[0].Template? {
      assert forall j :: 0 <= j <= k - 1 ==> steps[1..][j] == steps[j + 1];
      ReachableTemplateNamed(steps[1..], k - 1);
    }
  }

  lemma PlannedSteady(g: Staging) returns (p: Rows)
    requires Staged(g)
    ensures p == Plan(Start(g.steps, 0), Some(Audience(g.size)), 0) && Steady(g, p) && p.queue == Some(0)
    ensures |p.actions| == g.size && forall q: nat :: q < g.size ==> Parked(p, q, 0, None)
  {
    var s, contacts := Start(g.steps, 0), Audience(g.size);
    p := Plan(s, Some(contacts), 0);
    StartKeeps(g.steps, 0);
    ReachableTemplateNamed(g.steps, g.k);
    EverybodyPlanned(g.steps, g.size);
    PlanContactsPlans(s, contacts, 0);
    PlanLine(s, Some(contacts), 0);
  }

  lemma Planning(g: Staging) returns (events: seq<Event>, z: Rows)
    requires Staged(g)
    ensures Leads(Start(g.steps, 0), events, z, g.size, 0, 0) && AllParked(g, z, 0, None)
  {
    var e := Tick(g.size, 0, Some(Audience(g.size)), {});
    events := [e];
    LeadsOne(Start(g.steps, 0), e, g.size, 0);
    var p := PlannedSteady(g);
    assert Parked(p, 0, 0, None) && TimedRow(p.actions[0], 0);
    NextDueIsLeast(p.actions, 0, 0);
    z := ScheduleNext(p, 0);
    QueueAside(g, p, z);
    forall q: nat | q < g.size ensures Parked(z, q, 0, None) {
      assert Parked(p, q, 0, None);
    }
  }

  /**
   * Once the message was answered: everybody else failed, and the last recipient is at
   * step `j`, or waiting at the delay that is step `c`.
   */
  ghost predicate Closing(g: Staging, s: Rows, c: nat, j: nat, now: int) {
    && Line(s, 0) && s.status.RunningRun? && s.steps == g.steps && |s.recipients| == |s.actions| == g.size >= 1
    && (forall q: nat :: q < g.size ==> s.recipients[q].status !in ACTIVE)
    && (forall q: nat :: q < g.size - 1 ==> Dropped(s, q))
    && (var x, row := s.recipients[g.size - 1], s.actions[g.size - 1];
        (Ready(s, g.size - 1) && x.currentStep == j <= c)
        || (x.currentStep == c < |row| && row[c].state.Waiting? && row[c].availableAt > now))
  }

  /** Nobody but the last recipient has anything to do. */
  lemma LastOnly(g: Staging, s: Rows, c: nat, j: nat, now: int)
    requires Closing(g, s, c, j, now)
    ensures var next := NextAction(s, now);
      if Ready(s, g.size - 1) && 0 <= now then next == Some((g.size - 1, j)) else Ready(s, g.size - 1) || next.None?
  {
    var next := NextAction(s, now);
    if next.Some? {
      AtCursor(s, next.value.0, next.value.1, now);
      assert next.value.0 < g.size - 1 ==> Dropped(s, next.value.0);
    }
    if Ready(s, g.size - 1) && 0 <= now {
      FirstPick(s, 0, now, g.size - 1);
    }
  }

  /** How the last recipient is left by a turn. */
  lemma ClosingStep(g: Staging, s: Rows, c: nat, j: nat, now: int) returns (z: Rows)
    requires Stretch(g.steps, g.k, c) && Closing(g, s, c, j, now) && g.k < j && 0 <= now
    requires (j < c && !g.steps[j].Delay?) || (j >= c && RealDelay(g.steps[c]))
    ensures z == Turn(s, now, {}) && |z.recipients| == |z.actions| == g.size
    ensures forall q: nat :: q < g.size - 1 ==> z.recipients[q] == s.recipients[q] && z.actions[q] == s.actions[q]
    ensures z.recipients[g.size - 1].status == s.recipients[g.size - 1].status
    ensures var x, row := z.recipients[g.size - 1], z.actions[g.size - 1];
      (Ready(z, g.size - 1) && x.currentStep == j + 1 <= c)
      || (x.currentStep == c < |row| && row[c].state.Waiting? && row[c].availableAt > now)
  {
    z := TurnIs(s, now, {});
    LastOnly(g, s, c, j, now);
    assert Fits(s, g.size - 1) && Fits(z, g.size - 1);
  }

  lemma ClosingTurn(g: Staging, s: Rows, c: nat, j: nat, now: int) returns (z: Rows)
    requires Stretch(g.steps, g.k, c) && Closing(g, s, c, j, now) && g.k < j && 0 <= now
    requires (j < c && !g.steps[j].Delay?) || (j >= c && RealDelay(g.steps[c]))
    ensures z == Turn(s, now, {}) && Closing(g, z, c, j + 1, now)
  {
    z := ClosingStep(g, s, c, j, now);
    z := TurnLine(s, 0, now, {});
    forall q: nat | q < g.size ensures z.recipients[q].status !in ACTIVE {
      assert s.recipients[q].status !in ACTIVE;
    }
    forall q: nat | q < g.size - 1 ensures Dropped(z, q) {
      assert Dropped(s, q);
    }
  }

  /** For `n` turns the stretch goes on, or it leads to a delay. */
  ghost predicate Lasts(g: Staging, c: nat, n: nat) {
    Stretch(g.steps, g.k, c) && (forall j :: g.k < j < c ==> !g.steps[j].Delay?)
      && (RealDelay(g.steps[c]) || g.k + 1 + n <= c)
  }

  ghost predicate ClosingAfter(g: Staging, s: Rows, c: nat, y: nat, now: int) {
    Closing(g, s, c, g.k + 1 + y, now)
  }

  lemma ClosingNext(g: Staging, s: Rows, c: nat, y: nat, n: nat, now: int)
    requires Lasts(g, c, n) && y < n && ClosingAfter(g, s, c, y, now) && 0 <= now
    ensures ClosingAfter(g, Turn(s, now, {}), c, y + 1, now)
  {
    var z := ClosingTurn(g, s, c, g.k + 1 + y, now);
  }

  lemma ClosingTurns(g: Staging, s: Rows, c: nat, n: nat, now: int)
    requires Lasts(g, c, n) && ClosingAfter(g, s, c, 0, now) && 0 <= now
    ensures ClosingAfter(g, ExecuteActions(s, n, now, {}), c, n, now)
  {
    ghost var goal := (t: Rows, y: nat) => ClosingAfter(g, t, c, y, now);
    forall t: Rows, y: nat | goal(t, y) && y < n ensures goal(Turn(t, now, {}), y + 1) {
      ClosingNext(g, t, c, y, n, now);
    }
    assert goal(s, 0);
    TurnByTurn(goal, s, 0, n, n, now, {});
    assert goal(ExecuteActions(s, n, now, {}), n);
  }

  /** The provider takes the last recipient's message. */
  function Accepted(g: Staging): Event
    requires g.size >= 1
  {
    Outcome((g.size - 1, g.k), Message(ProviderAccepted, NoReceipt))
  }

  lemma AnswerCloses(g: Staging, s: Rows, c: nat, now: int) returns (y: Rows)
    requires OneSent(g, s) && Stretch(g.steps, g.k, c)
    ensures y == Reconcile(Apply(s, Accepted(g))) && Closing(g, y, c, g.k + 1, now)
  {
    var t, last := Apply(s, Accepted(g)), g.size - 1;
    y := Reconcile(t);
    AnswerInLine(g, s);
    assert Fits(s, last);
    forall q: nat | q < g.size ensures y.recipients[q].status !in ACTIVE && (q < last ==> Dropped(y, q)) {
      AnswerRow(g, s, q);
    }
  }

  lemma AnswerInLine(g: Staging, s: Rows)
    requires OneSent(g, s)
    ensures Line(Reconcile(Apply(s, Accepted(g))), 0)
  {
    var t := Apply(s, Accepted(g));
    assert Work(t) by { WorkStays(s, t); }
    LineSame(s, t, 0);
    ReconcileKeeps(t);
    LineSame(t, Reconcile(t), 0);
  }

  lemma AnswerRow(g: Staging, s: Rows, q: nat)
    requires OneSent(g, s) && q < g.size
    ensures var y := Reconcile(Apply(s, Accepted(g)));
      y.recipients[q].status !in ACTIVE && (q < g.size - 1 ==> Dropped(y, q))
  {
    var t := Apply(s, Accepted(g));
    assert Fits(s, q) && Reconcile(t).recipients[q] == ReconcileOne(t, q);
    assert q < g.size - 1 ==> Dropped(s, q);
  }

  lemma WorkStays(s: Rows, z: Rows)
    requires Work(s) && z == s.(messages := z.messages) && z.messages.Keys == s.messages.Keys
    ensures Work(z)
  {
    forall r: nat | r < |z.recipients| ensures Fits(z, r) {
      assert Fits(s, r);
      forall k: nat ensures (r, k) in z.messages <==> (r, k) in s.messages { }
    }
  }

  lemma ClosingEnds(g: Staging, t: Rows, c: nat, j: nat, now: int)
    requires Closing(g, t, c, j, now) && c < |g.steps|
    ensures Terminal(Finalize(t).status) && LeftBehind(Finalize(t), g.size - 1)
  {
    var last := g.size - 1;
    assert Fits(t, last);
    forall r | 0 <= r < |t.recipients| ensures Finished(t).recipients[r] == t.recipients[r] {
      assert t.recipients[r].status !in ACTIVE;
    }
    assert Finished(t).recipients == t.recipients;
    TallyZero(t.recipients, ACTIVE);
  }

  lemma CallAfterAnswer(g: Staging, t: Rows, y: Rows, c: nat, now: int)
    requires y == Reconcile(t) && t.queue.Some? && t.queue.value <= 0 <= now && t.status.RunningRun?
    requires Stretch(g.steps, g.k, c) && Closing(g, y, c, g.k + 1, now)
    requires (forall j :: g.k < j < c ==> !g.steps[j].Delay?) && (RealDelay(g.steps[c]) || g.k + 1 + g.size <= c)
    ensures var z := Apply(t, Tick(g.size, now, None, {})); Terminal(z.status) && LeftBehind(z, g.size - 1)
  {
    var x := ExecuteActions(y, g.size, now, {});
    ClosingTurns(g, y, c, g.size, now);
    ClosingEnds(g, x, c, g.k + 1 + g.size, now);
  }

  /** The call after that ends the run. */
  lemma LastCall(g: Staging, s: Rows, c: nat, now: int) returns (events: seq<Event>, z: Rows)
    requires OneSent(g, s) && Stretch(g.steps, g.k, c) && 0 <= now
    requires (forall j :: g.k < j < c ==> !g.steps[j].Delay?) && (RealDelay(g.steps[c]) || g.k + 1 + g.size <= c)
    ensures Leads(s, events, z, g.size, now, now) && Terminal(z.status) && LeftBehind(z, g.size - 1)
  {
    var t, e := Apply(s, Accepted(g)), Tick(g.size, now, None, {});
    var y := AnswerCloses(g, s, c, now);
    CallAfterAnswer(g, t, y, c, now);
    z := Apply(t, e);
    LeadsOne(s, Accepted(g), g.size, now);
    LeadsOne(t, e, g.size, now);
    LeadsOn(s, [Accepted(g)], t, [e], z, g.size, now, now, now, now);
    events := [Accepted(g)] + [e];
  }

  // ---- The theorem ------------------------------------------------------------------

  lemma EndsEarlyRun(steps: seq<Step>, k: nat, c: nat, limit: nat) returns (events: seq<Event>)
    requires Stretch(steps, k, c) && (forall j :: k < j < c ==> !steps[j].Delay?)
      && (RealDelay(steps[c]) || c == k + 1 + limit)
    requires limit >= 1
    ensures Orderly(events, limit, limit)
    ensures Terminal(Run(Start(steps, 0), events).status) && LeftBehind(Run(Start(steps, 0), events), limit - 1)
  {
    var g := Staging(steps, k, limit);
    var first, planned := Planning(g);
    var through, to, sent := ReachesTemplate(g, planned, 0, None, 0);
    var last, z := LastCall(g, sent, c, to);
    LeadsOn(Start(steps, 0), first, planned, through, sent, limit, 0, 0, 0, to);
    LeadsOn(Start(steps, 0), first + through, sent, last, z, limit, 0, to, to, to);
    events := first + through + last;
  }

  /** A stretch cut off at its first delay. */
  lemma FirstDelay(steps: seq<Step>, k: nat, c: nat, low: nat) returns (d: nat)
    requires Stretch(steps, k, c) && (RealDelay(steps[c]) || c == k + 1 + low)
    ensures Stretch(steps, k, d) && (forall j :: k < j < d ==> !steps[j].Delay?)
      && (RealDelay(steps[d]) || d == k + 1 + low)
  {
    d := NextStop(steps, k + 1, c);
  }

  /** The run is over, and recipient `r` was left behind. */
  ghost predicate EndedWithout(steps: seq<Step>, at: int, events: seq<Event>, r: nat) {
    Terminal(Run(Start(steps, at), events).status) && LeftBehind(Run(Start(steps, at), events), r)
  }

  /**
   * Exactly when does some run of a workflow end with steps of a recipient undone though
   * none of them failed? The run's calls take between `low` and `high` actions at most,
   * at instants that do not go back. It may end early when a template step that can be
   * reached is followed, with no further message, by a delay, or by `low` steps and one more.
   */
  lemma LeavesBehindIff(steps: seq<Step>, low: nat, high: nat)
    requires 1 <= low <= high
    ensures EndsEarly(steps, low) <==>
      exists at, events, r: nat :: Orderly(events, low, high) && EndedWithout(steps, at, events, r)
  {
    if EndsEarly(steps, low) {
      var k, c :| Stretch(steps, k, c) && (RealDelay(steps[c]) || c == k + 1 + low);
      var d := FirstDelay(steps, k, c, low);
      var events := EndsEarlyRun(steps, k, d, low);
      assert Orderly(events, low, high) && EndedWithout(steps, 0, events, low - 1);
    }
    forall at, events, r: nat | Orderly(events, low, high) && EndedWithout(steps, at, events, r)
      ensures EndsEarly(steps, low)
    {
      LeftBehindEndsEarly(steps, at, events, low, high, r);
    }
  }
}
