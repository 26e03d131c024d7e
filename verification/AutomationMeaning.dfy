/**
 * What an automation run does, in terms of its messages, contacts and instants: who counts as
 * what, who is planned, how long a step waits.
 */
module AutomationMeaning {
  import opened Shared
  import opened AutomationModel
  import opened AutomationInvariant
  import opened AutomationTheorems

  // ---- What a message says of its recipient ------------------------------------------

  predicate Received(m: Message) {
    m.receipt.DeliveredReceipt? || m.receipt.ReadReceipt?
  }

  predicate Refused(m: Message) {
    m.command in {Rejected, CommandFailed, CommandCancelled, CommandSkipped}
  }

  predicate Silent(m: Message) {
    !Received(m) && m.command.InFlight?
  }

  /** The status is the one the message stands for, and no other. */
  ghost predicate Shows(status: Status, m: Message) {
    && (status.ReadOne? <==> m.receipt.ReadReceipt?)
    && (status.DeliveredOne? <==> m.receipt.DeliveredReceipt?)
    && (status.SentOne? <==> m.command.ProviderAccepted? && !Received(m))
    && (status.UnknownOne? <==> m.command.OutcomeUnknown? && !Received(m))
    && (status.FailedOne? <==> Refused(m) && !Received(m))
    && (status.QueuedOne? <==> Silent(m))
  }

  /** One call takes a message's word for every recipient it still listens for, and for nobody else. */
  lemma ReconcileMeans(s: Rows, r: nat)
    requires r < |s.recipients|
    ensures var x, y := s.recipients[r], Reconcile(s).recipients[r];
      && |Reconcile(s).recipients| == |s.recipients|
      && y == x.(status := y.status)
      && (if x.command.Some? && (r, x.command.value) in s.messages && !Silent(s.messages[(r, x.command.value)])
             && x.status in {QueuedOne, SentOne, DeliveredOne}
          then Shows(y.status, s.messages[(r, x.command.value)])
          else y.status == x.status)
  { }

  // ---- What the calls of a run have read ---------------------------------------------

  /** This call works on a run that was planned before. */
  predicate Works(s: Rows, e: Event) {
    e.Tick? && s.queue.Some? && s.queue.value <= e.now && s.status.RunningRun?
  }

  /** After a read receipt, a refusal or an unknown outcome nothing more is read. */
  predicate Final(told: Option<Message>) {
    told.Some? && (told.value.receipt.ReadReceipt?
                   || (!Received(told.value) && (Refused(told.value) || told.value.command.OutcomeUnknown?)))
  }

  /** The word a call takes, if it still listens and there is one. */
  function Hear(told: Option<Message>, m: Message): Option<Message> {
    if Silent(m) || Final(told) then told else Some(m)
  }

  /** What message `id` said when a call last took its word. */
  ghost function Told(steps: seq<Step>, at: int, events: seq<Event>, id: (nat, nat)): Option<Message> {
    if events == [] then None
    else
      var front := events[..|events| - 1];
      var s := Run(Start(steps, at), front);
      var before := Told(steps, at, front, id);
      if Works(s, events[|events| - 1]) && id in s.messages then Hear(before, s.messages[id]) else before
  }

  ghost predicate Stands(status: Status, told: Option<Message>) {
    match told
    case None => status.QueuedOne?
    case Some(m) => !Silent(m) && Shows(status, m)
  }

  ghost predicate Stood(s: Rows, r: nat, told: Option<Message>) {
    r < |s.recipients| && r < |s.actions| && s.recipients[r].command.Some?
      && (!Broken(s.actions[r], s.recipients[r].currentStep) ==> Stands(s.recipients[r].status, told))
  }

  /** What a call's actions do to one recipient: fail it, leave its message alone, or write it a new one. */
  ghost predicate Ran(s: Rows, z: Rows, r: nat) {
    && s.messages.Keys <= z.messages.Keys
    && r < |s.recipients| == |z.recipients| && r < |s.actions| && r < |z.actions|
    && (Broken(s.actions[r], s.recipients[r].currentStep) ==> Broken(z.actions[r], z.recipients[r].currentStep))
    && (Broken(z.actions[r], z.recipients[r].currentStep) || Kept(s, z, r) || Anew(s, z, r))
  }

  ghost predicate Kept(s: Rows, z: Rows, r: nat)
    requires r < |s.recipients| && r < |z.recipients|
  {
    z.recipients[r].command == s.recipients[r].command && z.recipients[r].status == s.recipients[r].status
  }

  ghost predicate Anew(s: Rows, z: Rows, r: nat)
    requires r < |s.recipients| && r < |z.recipients|
  {
    var x := z.recipients[r];
    x.command.Some? && x.status.QueuedOne? && (r, x.command.value) !in s.messages
  }

  lemma RanOn(s: Rows, t: Rows, z: Rows, r: nat)
    requires Ran(s, t, r) && Ran(t, z, r)
    ensures Ran(s, z, r)
  { }

  lemma RanSame(s: Rows, r: nat)
    requires r < |s.recipients| && r < |s.actions|
    ensures Ran(s, s, r)
  { }

  lemma ExecutionRan(s: Rows, q: nat, k: nat, now: int, prepared: set<(nat, nat)>, r: nat)
    requires Work(s) && Eligible(s, q, k, now) && r < |s.recipients| && q < |s.recipients|
    ensures Ran(s, ExecuteAction(s, q, k, now, prepared), r)
  {
    AtCursor(s, q, k, now);
    assert Fits(s, q) && Fits(s, r);
    if Passes(s, q, k, prepared) {
      PassesCompletes(s, q, k, now, prepared);
    } else if s.steps[k].Delay? && ValidDelay(s.steps[k]) {
      DelayWaits(s, q, k, now, prepared);
    } else {
      StepFails(s, q, k, now, prepared);
    }
  }

  lemma TurnRan(s: Rows, now: int, prepared: set<(nat, nat)>, r: nat) returns (z: Rows)
    requires Work(s) && s.status.RunningRun? && r < |s.recipients|
    ensures z == Turn(s, now, prepared) && Work(z) && z.status.RunningRun? && Ran(s, z, r)
  {
    z := TurnKeeps(s, now, prepared);
    var next := NextAction(s, now);
    if next.Some? && next.value.0 < |s.recipients| {
      ExecutionRan(s, next.value.0, next.value.1, now, prepared, r);
    } else {
      RanSame(s, r);
    }
  }

  lemma {:induction false} ActionsRan(s: Rows, limit: nat, now: int, prepared: set<(nat, nat)>, r: nat)
    returns (z: Rows)
    requires Work(s) && s.status.RunningRun? && r < |s.recipients|
    ensures z == ExecuteActions(s, limit, now, prepared) && Work(z) && z.status.RunningRun? && Ran(s, z, r)
  {
    z := s;
    RanSame(s, r);
    if limit > 0 {
      var t := ActionsRan(s, limit - 1, now, prepared, r);
      z := TurnRan(t, now, prepared, r);
      RanOn(s, t, z, r);
    }
  }

  // ---- Every status is the word of a message ------------------------------------------

  /** Recipient `r` stands as its message was last heard. */
  ghost predicate Heard(s: Rows, steps: seq<Step>, at: int, events: seq<Event>, r: nat) {
    && r < |s.recipients|
    && (s.recipients[r].command.Some? ==> Stood(s, r, Told(steps, at, events, (r, s.recipients[r].command.value))))
  }

  lemma {:induction false} UnwrittenUntold(steps: seq<Step>, at: int, events: seq<Event>, id: (nat, nat))
    requires id !in Run(Start(steps, at), events).messages
    ensures Told(steps, at, events, id) == None
    decreases |events|
  {
    if events != [] {
      var front, e := events[..|events| - 1], events[|events| - 1];
      var s := Run(Start(steps, at), front);
      MessagesStay(s, e, id);
      UnwrittenUntold(steps, at, front, id);
    }
  }

  lemma MessagesStay(s: Rows, e: Event, id: (nat, nat))
    ensures id in s.messages ==> id in Apply(s, e).messages
  {
    match e
    case Tick(limit, now, contacts, prepared) =>
      ActionsKeepMessages(Reconcile(s), limit, now, prepared, id);
      if contacts.Some? {
        PlanKeepsMessages(s, contacts.value, now);
      }
    case Outcome(_, _) =>
  }

  lemma {:induction false} ActionsKeepMessages(s: Rows, limit: nat, now: int, prepared: set<(nat, nat)>, id: (nat, nat))
    ensures id in s.messages ==> id in ExecuteActions(s, limit, now, prepared).messages
  {
    if limit > 0 {
      ActionsKeepMessages(s, limit - 1, now, prepared, id);
      TurnKeepsMessages(ExecuteActions(s, limit - 1, now, prepared), now, prepared, id);
    }
  }

  lemma TurnKeepsMessages(s: Rows, now: int, prepared: set<(nat, nat)>, id: (nat, nat))
    ensures id in s.messages ==> id in Turn(s, now, prepared).messages
  { }

  lemma {:induction false} PlanKeepsMessages(s: Rows, contacts: seq<Contact>, now: int)
    ensures PlanContacts(s, contacts, now).messages == s.messages
    decreases |contacts|
  {
    if contacts != [] {
      PlanKeepsMessages(s, contacts[..|contacts| - 1], now);
    }
  }

  lemma ReconciledStands(s: Rows, r: nat, told: Option<Message>)
    requires Work(s) && Stood(s, r, told)
    ensures var id := (r, s.recipients[r].command.value);
      id in s.messages && Stood(Reconcile(s), r, Hear(told, s.messages[id]))
      && Reconcile(s).recipients[r].command == s.recipients[r].command
  {
    assert Fits(s, r);
    ReconcileMeans(s, r);
  }

  lemma RanStands(s: Rows, z: Rows, r: nat, told: Option<Message>, later: Option<Message>)
    requires Ran(s, z, r) && z.recipients[r].command.Some?
    requires s.recipients[r].command.Some? ==> Stood(s, r, told)
    requires z.recipients[r].command == s.recipients[r].command ==> later == told
    requires (r, z.recipients[r].command.value) !in s.messages ==> later == None
    requires s.recipients[r].command.Some? ==> (r, s.recipients[r].command.value) in s.messages
    ensures Stood(z, r, later)
  { }

  /** Closing the books touches nobody who waits for a message. */
  lemma FinalizeLeaves(t: Rows, now: int, r: nat)
    requires r < |t.recipients| && t.recipients[r].command.Some?
    ensures var z := ScheduleNext(Finalize(t), now);
      r < |z.recipients| && z.recipients[r] == t.recipients[r] && z.actions == t.actions
  { }

  lemma FinalizeCommands(t: Rows, now: int, r: nat)
    requires r < |t.recipients|
    ensures var z := ScheduleNext(Finalize(t), now);
      |z.recipients| == |t.recipients| && z.recipients[r].command == t.recipients[r].command
  { }

  lemma WorkingCall(steps: seq<Step>, at: int, front: seq<Event>, e: Event, s: Rows, r: nat) returns (z: Rows)
    requires Inv(s) && s == Run(Start(steps, at), front) && Works(s, e) && r < |s.recipients|
    requires Heard(s, steps, at, front, r)
    ensures z == Apply(s, e) && Heard(z, steps, at, front + [e], r)
  {
    z := Apply(s, e);
    var y := Reconcile(s);
    ReconcileMeans(s, r);
    ReconcileKeeps(s);
    var t := ActionsRan(y, e.limit, e.now, e.prepared, r);
    FinalizeCommands(t, e.now, r);
    assert (front + [e])[..|front|] == front;
    if z.recipients[r].command.Some? {
      FinalizeLeaves(t, e.now, r);
      var k := z.recipients[r].command.value;
      var later := Told(steps, at, front + [e], (r, k));
      if (r, k) !in s.messages {
        UnwrittenUntold(steps, at, front, (r, k));
      }
      if s.recipients[r].command.Some? {
        var j := s.recipients[r].command.value;
        ReconciledStands(s, r, Told(steps, at, front, (r, j)));
        RanStands(y, t, r, Hear(Told(steps, at, front, (r, j)), s.messages[(r, j)]), later);
      } else {
        RanStands(y, t, r, None, later);
      }
    }
  }

  /** A call or an outcome that does no work moves no recipient. */
  lemma QuietStep(steps: seq<Step>, at: int, front: seq<Event>, e: Event, s: Rows, r: nat)
    requires Inv(s) && s == Run(Start(steps, at), front) && !Works(s, e) && r < |Apply(s, e).recipients|
    requires r < |s.recipients| ==> Heard(s, steps, at, front, r)
    ensures Heard(Apply(s, e), steps, at, front + [e], r)
  {
    assert (front + [e])[..|front|] == front;
    if e.Tick? && s.status.QueuedRun? && e.contacts.Some? {
      PlanContactsPlans(s, e.contacts.value, e.now);
    }
  }

  lemma {:induction false} RunHeard(s: Rows, steps: seq<Step>, at: int, events: seq<Event>, r: nat)
    requires Reached(s, steps, at, events) && r < |s.recipients|
    ensures Heard(s, steps, at, events, r)
    decreases |events|
  {
    if events != [] {
      var front, e := events[..|events| - 1], events[|events| - 1];
      var t := Run(Start(steps, at), front);
      ReachedInv(t, steps, at, front);
      assert front + [e] == events;
      AudienceStays(t, e);
      if r < |t.recipients| {
        RunHeard(t, steps, at, front, r);
      }
      if Works(t, e) {
        var z := WorkingCall(steps, at, front, e, t, r);
      } else {
        QuietStep(steps, at, front, e, t, r);
      }
    }
  }

  lemma AudienceStays(s: Rows, e: Event)
    requires Inv(s)
    ensures Works(s, e) ==> |Apply(s, e).recipients| == |s.recipients|
  {
    if Works(s, e) {
      ReconcileKeeps(s);
      Audience(Reconcile(s), e.limit, e.now, e.prepared);
    }
  }

  lemma {:induction false} Audience(s: Rows, limit: nat, now: int, prepared: set<(nat, nat)>)
    ensures |ExecuteActions(s, limit, now, prepared).recipients| == |s.recipients|
  {
    if limit > 0 {
      Audience(s, limit - 1, now, prepared);
      TurnAudience(ExecuteActions(s, limit - 1, now, prepared), now, prepared);
    }
  }

  lemma TurnAudience(s: Rows, now: int, prepared: set<(nat, nat)>)
    ensures |Turn(s, now, prepared).recipients| == |s.recipients|
  {
    var next := NextAction(s, now);
    if next.Some? && next.value.0 < |s.recipients| {
      ExecuteActionFrame(s, next.value.0, next.value.1, now, prepared);
    }
  }

  /**
   * In every run a recipient whose steps have not failed has the status its latest message
   * stood for when a call last took its word: read, delivered, sent, refused or unknown,
   * each exactly by the command's state and the receipt. Unheard, it is queued; without a
   * message, pending or completed.
   */
  lemma StatusIsLastWord(s: Rows, steps: seq<Step>, at: int, events: seq<Event>, r: nat)
    requires Reached(s, steps, at, events) && r < |s.recipients|
    ensures |s.actions| == |s.recipients|
    ensures !Broken(s.actions[r], s.recipients[r].currentStep) ==>
      match s.recipients[r].command
      case None => s.recipients[r].status in {PendingOne, CompletedOne}
      case Some(k) => Stands(s.recipients[r].status, Told(steps, at, events, (r, k)))
    ensures Broken(s.actions[r], s.recipients[r].currentStep) ==> s.recipients[r].status.FailedOne?
  {
    ReachedInv(s, steps, at, events);
    assert Fits(s, r);
    RunHeard(s, steps, at, events, r);
  }

  // ---- What the counters of an ended run count ----------------------------------------

  /** The last word on each recipient, unless it has no message or its own steps failed. */
  ghost function LastWords(s: Rows, steps: seq<Step>, at: int, events: seq<Event>): seq<Option<Message>>
    requires |s.actions| == |s.recipients|
  {
    seq(|s.recipients|, r requires 0 <= r < |s.recipients| =>
      var x := s.recipients[r];
      if x.command.None? || Broken(s.actions[r], x.currentStep) then None
        else Told(steps, at, events, (r, x.command.value)))
  }

  predicate IsReceived(word: Option<Message>) {
    word.Some? && Received(word.value)
  }

  predicate IsTaken(word: Option<Message>) {
    word.Some? && (Received(word.value) || word.value.command.ProviderAccepted?)
  }

  predicate IsLost(word: Option<Message>) {
    word.Some? && !Received(word.value) && (Refused(word.value) || word.value.command.OutcomeUnknown?)
  }

  lemma {:induction false} TallyIsCount(xs: seq<Recipient>, among: set<Status>)
    ensures Tally(xs, among) == |set r: nat | r < |xs| && xs[r].status in among|
  {
    var n := |xs| - 1;
    var all := set r: nat | r < |xs| && xs[r].status in among;
    if xs != [] {
      TallyIsCount(xs[..n], among);
      var front := set r: nat | r < n && xs[..n][r].status in among;
      assert all == front + (if xs[n].status in among then {n} else {});
    } else {
      assert all == {};
    }
  }

  /** A recipient's status at the end, by its last word. */
  ghost predicate EndsAs(s: Rows, r: nat, word: Option<Message>)
    requires r < |s.recipients| && r < |s.actions|
  {
    var x := s.recipients[r];
    if Broken(s.actions[r], x.currentStep) then x.status.FailedOne? && word.None?
    else if word.None? then x.status.CompletedOne? && x.command.None?
    else !Silent(word.value) && Shows(x.status, word.value)
  }

  lemma EndedAs(s: Rows, steps: seq<Step>, at: int, events: seq<Event>, r: nat)
    requires Reached(s, steps, at, events) && Terminal(s.status) && r < |s.recipients|
    ensures |s.actions| == |s.recipients| && EndsAs(s, r, LastWords(s, steps, at, events)[r])
  {
    StatusIsLastWord(s, steps, at, events, r);
    EndedRunAddsUp(s, steps, at, events);
  }

  /**
   * The counters of an ended run, counted in messages: sent are those whose message was
   * last heard accepted or received, delivered those received, failed those refused or
   * unknown and those whose own steps failed. All others completed without a message.
   */
  lemma CountersMean(s: Rows, steps: seq<Step>, at: int, events: seq<Event>)
    requires Reached(s, steps, at, events) && Terminal(s.status)
    ensures |s.actions| == |s.recipients|
    ensures var words := LastWords(s, steps, at, events);
      && s.counts.sent == |set r: nat | r < |words| && IsTaken(words[r])|
      && s.counts.delivered == |set r: nat | r < |words| && IsReceived(words[r])|
      && s.counts.failed ==
         |set r: nat | r < |words| && (IsLost(words[r]) || Broken(s.actions[r], s.recipients[r].currentStep))|
  {
    ReachedInv(s, steps, at, events);
    var words := LastWords(s, steps, at, events);
    forall r: nat | r < |s.recipients| ensures EndsAs(s, r, words[r]) {
      EndedAs(s, steps, at, events, r);
    }
    CountersOf(s, words);
  }

  lemma CountersOf(s: Rows, words: seq<Option<Message>>)
    requires |words| == |s.recipients| == |s.actions| && EndAgrees(s) && Terminal(s.status)
    requires forall r: nat :: r < |words| ==> EndsAs(s, r, words[r])
    ensures s.counts.sent == |set r: nat | r < |words| && IsTaken(words[r])|
    ensures s.counts.delivered == |set r: nat | r < |words| && IsReceived(words[r])|
    ensures s.counts.failed ==
      |set r: nat | r < |words| && (IsLost(words[r]) || Broken(s.actions[r], s.recipients[r].currentStep))|
  {
    var xs := s.recipients;
    TallyUnion(xs, {SentOne}, RECEIVED);
    TallyIsCount(xs, {SentOne} + RECEIVED);
    TallyIsCount(xs, RECEIVED);
    TallyIsCount(xs, FAILED);
    assert (set r: nat | r < |xs| && xs[r].status in {SentOne} + RECEIVED) ==
      (set r: nat | r < |words| && IsTaken(words[r]));
    assert (set r: nat | r < |xs| && xs[r].status in RECEIVED) == (set r: nat | r < |words| && IsReceived(words[r]));
    assert (set r: nat | r < |xs| && xs[r].status in FAILED) ==
      (set r: nat | r < |words| && (IsLost(words[r]) || Broken(s.actions[r], s.recipients[r].currentStep)));
  }

  // ---- Who is planned -----------------------------------------------------------------

  /** The identity a contact is written to by: none where no template is sent. */
  function WrittenTo(steps: seq<Step>, c: Contact): Option<nat> {
    if FirstTemplate(steps).None? then None else c.identity
  }

  /** The template sent first decides; a step that names none leaves everybody without an identity. */
  lemma {:induction false} FirstTemplateMeans(steps: seq<Step>, k: nat)
    requires k <= |steps| && (forall j :: 0 <= j < k ==> !steps[j].Template?) && (k < |steps| ==> steps[k].Template?)
    ensures FirstTemplate(steps) == if k < |steps| then steps[k].template else None
  {
    if k > 0 {
      FirstTemplateMeans(steps[1..], k - 1);
    }
  }

  /** Recipient `r` of a plan: a contact of the list, with everything still to do at once. */
  ghost predicate Fresh(z: Rows, contacts: seq<Contact>, now: int, r: nat) {
    && r < |z.recipients| && r < |z.actions|
    && (exists i :: 0 <= i < |contacts| && IsFor(z, contacts[i], r))
    && z.recipients[r] == Recipient(z.recipients[r].customer, z.recipients[r].identity, PendingOne, 0, None)
    && |z.actions[r]| == |z.steps| && forall k :: 0 <= k < |z.steps| ==> z.actions[r][k] == Action(Pending, now, 0)
  }

  predicate IsFor(z: Rows, c: Contact, r: nat)
    requires r < |z.recipients|
  {
    z.recipients[r].customer == c.id && z.recipients[r].identity == WrittenTo(z.steps, c)
  }

  /** Everybody listed is a recipient, nobody else is, and nobody twice. */
  ghost predicate PlanIs(z: Rows, contacts: seq<Contact>, now: int) {
    && |z.actions| == |z.recipients|
    && (forall r: nat :: r < |z.recipients| ==> Fresh(z, contacts, now, r))
    && (forall i :: 0 <= i < |contacts| ==> Taken(z.recipients, contacts[i].id, WrittenTo(z.steps, contacts[i])))
    && (forall r, q :: 0 <= r < q < |z.recipients| ==>
          z.recipients[r].customer != z.recipients[q].customer || z.recipients[r].identity != z.recipients[q].identity)
  }

  lemma PlanOneMore(y: Rows, contacts: seq<Contact>, now: int)
    requires contacts != [] && PlanIs(y, contacts[..|contacts| - 1], now)
    ensures PlanIs(PlanContact(y, contacts[|contacts| - 1], now), contacts, now)
  {
    var n := |contacts| - 1;
    var z := PlanContact(y, contacts[n], now);
    forall r: nat | r < |z.recipients| ensures Fresh(z, contacts, now, r) {
      if r < |y.recipients| {
        assert Fresh(y, contacts[..n], now, r);
        var i :| 0 <= i < n && IsFor(y, contacts[..n][i], r);
        assert IsFor(z, contacts[i], r);
      } else {
        assert IsFor(z, contacts[n], r);
      }
    }
    forall i | 0 <= i < |contacts| ensures Taken(z.recipients, contacts[i].id, WrittenTo(z.steps, contacts[i])) {
      if i < n {
        assert contacts[..n][i] == contacts[i];
        TakenStays(y.recipients, z.recipients, contacts[i].id, WrittenTo(z.steps, contacts[i]));
      } else if |z.recipients| > |y.recipients| {
        assert z.recipients[|y.recipients|].customer == contacts[n].id;
      }
    }
  }

  lemma TakenStays(xs: seq<Recipient>, ys: seq<Recipient>, c: nat, identity: Option<nat>)
    requires Taken(xs, c, identity) && xs <= ys
    ensures Taken(ys, c, identity)
  {
    var r :| 0 <= r < |xs| && xs[r].customer == c && xs[r].identity == identity;
    assert ys[r] == xs[r];
  }

  lemma {:induction false} PlanContactsMean(s: Rows, contacts: seq<Contact>, now: int)
    requires s.recipients == [] && s.actions == []
    ensures PlanContacts(s, contacts, now).steps == s.steps && PlanIs(PlanContacts(s, contacts, now), contacts, now)
    decreases |contacts|
  {
    if contacts != [] {
      PlanContactsMean(s, contacts[..|contacts| - 1], now);
      PlanOneMore(PlanContacts(s, contacts[..|contacts| - 1], now), contacts, now);
    }
  }

  /**
   * Planning makes one recipient of every contact the target names, however often it names
   * it, with every step pending at once; with nobody the run is complete, and a target the
   * runner does not know fails it.
   */
  lemma PlanMeans(s: Rows, contacts: Option<seq<Contact>>, now: int)
    requires Inv(s) && s.status.QueuedRun?
    ensures var z := Plan(s, contacts, now);
      && (contacts.None? ==> z == s.(status := FailedRun))
      && (contacts.Some? ==>
            && PlanIs(z, contacts.value, now) && z.steps == s.steps
            && z.counts == s.counts.(audience := |z.recipients|, queued := |z.recipients|)
            && z.status == (if contacts.value == [] then CompletedRun else RunningRun))
  {
    if contacts.Some? {
      PlanContactsMean(s, contacts.value, now);
      PlanContactsPlans(s, contacts.value, now);
      var p := PlanContacts(s, contacts.value, now);
      var z := Plan(s, contacts, now);
      forall r: nat | r < |z.recipients| ensures Fresh(z, contacts.value, now, r) {
        assert Fresh(p, contacts.value, now, r);
        var i :| 0 <= i < |contacts.value| && IsFor(p, contacts.value[i], r);
        assert IsFor(z, contacts.value[i], r);
      }
      if contacts.value != [] {
        assert Taken(p.recipients, contacts.value[0].id, WrittenTo(p.steps, contacts.value[0]));
      }
    }
  }

  // ---- What one action does, and when -------------------------------------------------

  /**
   * A due step waits if it is a delay of 1 to 31,536,000 seconds just met, and for exactly
   * these; it completes if it is such a delay met again, a named template that can be
   * filled for a known identity, or a complete label, field or bare condition; and it
   * fails otherwise. Only the template writes a message, unanswered, and only its own.
   */
  lemma ActionMeans(s: Rows, r: nat, k: nat, now: int, prepared: set<(nat, nat)>)
    requires RowsAgree(s) && Eligible(s, r, k, now)
    ensures r < |s.recipients| && k < |s.steps|
    ensures var z := ExecuteAction(s, r, k, now, prepared); var before := s.actions[r][k].state;
      && r < |z.actions| && k < |z.actions[r]|
      && var after := z.actions[r][k].state; var step := s.steps[k];
      && (after.Waiting? <==>
            before.Pending? && step.Delay? && step.seconds.Some? && 1 <= step.seconds.value <= 31_536_000)
      && (after.Waiting? ==> z.actions[r][k].availableAt == now + step.seconds.value)
      && (after.Completed? <==>
            match step
            case Delay(_) => before.Waiting?
            case Template(template) => template.Some? && s.recipients[r].identity.Some? && (r, k) in prepared
            case Label(named) => named
            case Field(complete) => complete
            case Condition(bare) => bare
            case Unsupported => false)
      && (after.Waiting? || after.Completed? || after.Failed?)
      && (after.Failed? ==> z.recipients[r].status.FailedOne? && z.counts.failed == s.counts.failed + 1)
      && z.messages == if after.Completed? && step.Template? then s.messages[(r, k) := Message(InFlight, NoReceipt)]
           else s.messages
  {
    AtCursor(s, r, k, now);
    assert Fits(s, r);
  }

  // ---- A delay is waited for ----------------------------------------------------------

  /** Recipient `r` waits at step `k` until `until`. */
  ghost predicate Sleeps(s: Rows, r: nat, k: nat, until: int) {
    && r < |s.recipients| && r < |s.actions| && k < |s.actions[r]| && k == s.recipients[r].currentStep
    && s.actions[r][k].state.Waiting? && s.actions[r][k].availableAt == until
  }

  /** Nothing is done to recipient `r` but to restate what became of its message. */
  ghost predicate Alone(s: Rows, z: Rows, r: nat) {
    && r < |s.recipients| && r < |s.actions| && r < |z.recipients| && r < |z.actions|
    && z.actions[r] == s.actions[r] && z.recipients[r] == s.recipients[r].(status := z.recipients[r].status)
  }

  lemma SleepsThroughTurn(s: Rows, now: int, prepared: set<(nat, nat)>, r: nat, k: nat, until: int) returns (z: Rows)
    requires Work(s) && s.status.RunningRun? && Sleeps(s, r, k, until) && now < until
    ensures z == Turn(s, now, prepared) && Work(z) && z.status.RunningRun? && Alone(s, z, r)
  {
    z := TurnKeeps(s, now, prepared);
    var next := NextAction(s, now);
    if next.Some? && next.value.0 < |s.recipients| {
      AtCursor(s, next.value.0, next.value.1, now);
    }
  }

  lemma {:induction false} SleepsThroughActions(s: Rows, limit: nat, now: int, prepared: set<(nat, nat)>, r: nat,
                                                k: nat,
                                                until: int) returns (z: Rows)
    requires Work(s) && s.status.RunningRun? && Sleeps(s, r, k, until) && now < until
    ensures z == ExecuteActions(s, limit, now, prepared) && Work(z) && z.status.RunningRun? && Alone(s, z, r)
  {
    z := s;
    if limit > 0 {
      var t := SleepsThroughActions(s, limit - 1, now, prepared, r, k, until);
      z := SleepsThroughTurn(t, now, prepared, r, k, until);
    }
  }

  lemma SleepsThrough(s: Rows, e: Event, r: nat, k: nat, until: int)
    requires Inv(s) && Sleeps(s, r, k, until) && (e.Tick? ==> e.now < until)
    ensures Alone(s, Apply(s, e), r)
  {
    if Works(s, e) {
      ReconcileKeeps(s);
      ReconcileMeans(s, r);
      var t := SleepsThroughActions(Reconcile(s), e.limit, e.now, e.prepared, r, k, until);
    }
  }

  /** Until its delay is over no call does anything for a recipient: not this step, and none after it. */
  lemma {:induction false} DelayHolds(s: Rows, more: seq<Event>, r: nat, k: nat, until: int)
    requires Inv(s) && Sleeps(s, r, k, until)
    requires forall i :: 0 <= i < |more| && more[i].Tick? ==> more[i].now < until
    ensures Alone(s, Run(s, more), r)
    decreases |more|
  {
    if more != [] {
      var front := more[..|more| - 1];
      DelayHolds(s, front, r, k, until);
      RunKeeps(s, front);
      SleepsThrough(Run(s, front), more[|more| - 1], r, k, until);
    }
  }

  // ---- When the next call is due ------------------------------------------------------

  lemma {:induction false} EarliestAttained(actions: seq<Action>) returns (k: nat)
    requires EarliestOpen(actions).Some?
    ensures k < |actions| && Open(actions[k]) && EarliestOpen(actions) == Some(actions[k].availableAt)
  {
    var n := |actions| - 1;
    if Open(actions[n]) && EarliestOpen(actions) == Some(actions[n].availableAt) {
      k := n;
    } else {
      k := EarliestAttained(actions[..n]);
    }
  }

  lemma {:induction false} NextDueAttained(actions: seq<seq<Action>>) returns (r: nat, k: nat)
    requires NextDue(actions).Some?
    ensures r < |actions| && k < |actions[r]| && Open(actions[r][k])
      && NextDue(actions) == Some(actions[r][k].availableAt)
    decreases |actions|
  {
    var n := |actions| - 1;
    if NextDue(actions) == EarliestOpen(actions[n]) {
      r := n;
      k := EarliestAttained(actions[n]);
    } else {
      r, k := NextDueAttained(actions[..n]);
    }
  }

  /**
   * After a call on a run that goes on the queue row is due exactly when the first of its
   * pending or waiting actions is, and a second later when there is none.
   */
  lemma QueueRowMeans(s: Rows, e: Event)
    requires Inv(s) && Works(s, e) && !Terminal(Apply(s, e).status)
    ensures var z := Apply(s, e);
      z.queue.Some?
      && (forall r, k :: 0 <= r < |z.actions| && 0 <= k < |z.actions[r]| && Open(z.actions[r][k]) ==>
            z.queue.value <= z.actions[r][k].availableAt)
      && ((exists r, k :: 0 <= r < |z.actions| && 0 <= k < |z.actions[r]| && OpenAt(z, r, k, z.queue.value))
          || (z.queue.value == e.now + 1
              && forall r, k :: 0 <= r < |z.actions| && 0 <= k < |z.actions[r]| ==> !Open(z.actions[r][k])))
  {
    var z := Apply(s, e);
    ApplyKeeps(s, e);
    ReconcileKeeps(s);
    var t := ExecuteActionsKeeps(Reconcile(s), e.limit, e.now, e.prepared);
    var f := Finalize(t);
    assert z == ScheduleNext(f, e.now) && z.actions == f.actions;
    forall r, k | 0 <= r < |z.actions| && 0 <= k < |z.actions[r]| && Open(z.actions[r][k])
      ensures z.queue.value <= z.actions[r][k].availableAt && NextDue(z.actions).Some?
    {
      NextDueIsLeast(z.actions, r, k);
    }
    if NextDue(z.actions).Some? {
      var r, k := NextDueAttained(z.actions);
      assert OpenAt(z, r, k, z.queue.value);
    }
  }

  predicate OpenAt(s: Rows, r: int, k: int, at: int)
    requires 0 <= r < |s.actions| && 0 <= k < |s.actions[r]|
  {
    Open(s.actions[r][k]) && s.actions[r][k].availableAt == at
  }
}
