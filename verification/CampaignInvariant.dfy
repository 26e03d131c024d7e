/** What every reachable campaign keeps, and the proof that each transaction keeps it. */
module CampaignInvariant {
  import opened Shared
  import opened CampaignLifecycle
  import opened CampaignModel

  ghost predicate Unsettled(s: CommandState) {
    s.CommandQueued? || s.Dispatching? || s.RetryScheduled?
  }

  ghost predicate HasCommand(w: World, r: nat)
    requires r < |w.recipients|
  {
    w.recipients[r].command.Some? && w.recipients[r].command.value < |w.commands|
    && w.commands[w.recipients[r].command.value].recipient == r
  }

  /** Nothing is reserved after a release, and everything that was estimated is until then. */
  ghost predicate BudgetOk(b: Reservation) {
    && (b.state.Released? ==> b.reserved == 0)
    && (!b.state.Released? ==> b.reserved == b.estimated)
    && (b.state.Committed? ==> b.committed == Some(b.estimated))
  }

  /** A recipient's state fixes its reservation, its command's state and what the provider took. */
  ghost predicate RecipientOk(w: World, r: nat)
    requires r < |w.recipients| == |w.budgets| == |w.deliveries|
  {
    var x := w.recipients[r];
    var b := w.budgets[r].state;
    var n := w.deliveries[r];
    && BudgetOk(w.budgets[r])
    && n <= 1
    && (x.command.Some? ==> HasCommand(w, r))
    && match x.state
       case Planned => x.command.None? && b.Reserved? && n == 0
       case Queued => HasCommand(w, r) && Waiting(w.commands[x.command.value].state) && b.Reserved? && n == 0
       case InFlight =>
         HasCommand(w, r) && b.Reserved?
         && (var s := w.commands[x.command.value].state;
             s.Dispatching? || s.ProviderAccepted? || s.CommandUnknown?
             || ((s.Rejected? || s.CommandFailed? || s.RetryScheduled?) && n == 0))
       case FailedRecipient =>
         HasCommand(w, r)
         && (var s := w.commands[x.command.value].state;
             if s.ProviderAccepted? then b.Committed? else (s.Rejected? || s.CommandFailed?) && b.Released? && n == 0)
       case SkippedRecipient =>
         b.Released? && n == 0 && (x.command.Some? ==> w.commands[x.command.value].state.CommandSkipped?)
       case CancelledRecipient =>
         b.Released? && n == 0 && (x.command.Some? ==> w.commands[x.command.value].state.CommandCancelled?)
       case UnknownRecipient => HasCommand(w, r) && w.commands[x.command.value].state.CommandUnknown? && b.HeldUnknown?
       case _ => HasCommand(w, r) && w.commands[x.command.value].state.ProviderAccepted? && b.Committed?
  }

  /** Only a recipient's current command can be waiting, on the wire, accepted or unknown. */
  ghost predicate CommandOk(w: World, c: nat)
    requires c < |w.commands|
  {
    var x := w.commands[c];
    && x.recipient < |w.recipients|
    && (x.state.ProviderAccepted? || x.state.CommandUnknown? || Unsettled(x.state) ==>
          w.recipients[x.recipient].command == Some(c))
    && (c in w.outbox <==> Unsettled(x.state))
    && w.execution.Some?
    && x.fence <= w.execution.value.stopVersion
  }

  ghost predicate OnTheWire(w: World, c: nat) {
    c < |w.commands| && w.commands[c].state.Dispatching? && w.commands[c].recipient < |w.recipients|
    && w.recipients[w.commands[c].recipient] == Recipient(InFlight, Some(c))
  }

  ghost predicate GivenUp(w: World, c: nat) {
    c < |w.commands| && w.commands[c].state.CommandUnknown? && w.commands[c].recipient < |w.recipients|
    && w.recipients[w.commands[c].recipient] == Recipient(UnknownRecipient, Some(c))
  }

  ghost predicate AttemptOk(w: World, a: nat)
    requires a < |w.attempts|
  {
    w.attempts[a].command < |w.commands| && (w.attempts[a].answer.None? ==> OnTheWire(w, w.attempts[a].command))
  }

  ghost predicate NoOpenAttempt(w: World, c: nat) {
    forall a :: 0 <= a < |w.attempts| && w.attempts[a].answer.None? ==> w.attempts[a].command != c
  }

  ghost predicate OneOpenAttempt(w: World) {
    forall a, b :: 0 <= a < b < |w.attempts| && w.attempts[a].answer.None? && w.attempts[b].answer.None? ==>
      w.attempts[a].command != w.attempts[b].command
  }

  /** The worker still owns its command, or recovery gave the command up behind its back. */
  ghost predicate Owns(w: World, c: nat, version: nat, a: nat) {
    a < |w.attempts| && w.attempts[a].command == c
    && ((OnTheWire(w, c) && w.commands[c].version == version && w.attempts[a].answer.None?)
        || (GivenUp(w, c) && w.commands[c].version > version && w.attempts[a].answer.Some?))
  }

  ghost predicate OutcomeFits(s: CommandState, outcome: Outcome) {
    match outcome
    case OutcomeAccepted => s.ProviderAccepted?
    case OutcomeRejected => s.Rejected? || s.CommandFailed?
    case OutcomeUnknown => s.CommandUnknown?
    case OutcomeRetry => s.RetryScheduled?
  }

  ghost predicate WorkerOk(w: World, k: Worker) {
    && k.command < |w.commands|
    && w.commands[k.command].recipient < |w.deliveries|
    && k.recipient == Some(w.commands[k.command].recipient)
    && (var c := k.command;
        var n := w.deliveries[w.commands[c].recipient];
        match k
        case Claimed(_, _, v, _) => OnTheWire(w, c) && w.commands[c].version == v && NoOpenAttempt(w, c) && n == 0
        case Prepared(_, _, v, _, a) => Owns(w, c, v, a) && n == 0
        case Answered(_, _, v, _, a, answer) => Owns(w, c, v, a) && (answer.AnswerRejected? ==> n == 0)
        case Recorded(_, _, outcome) =>
          w.commands[c].recipient < |w.recipients|
          && w.recipients[w.commands[c].recipient] == Recipient(InFlight, Some(c))
          && NoOpenAttempt(w, c)
          && OutcomeFits(w.commands[c].state, outcome))
  }

  ghost predicate WorkersDistinct(w: World) {
    forall i, j :: i in w.workers && j in w.workers && i != j ==> w.workers[i].command != w.workers[j].command
  }

  ghost predicate Live(s: CampaignState) {
    s.Scheduled? || s.Running? || s.Paused? || s.DispatchCompleted? || s.Cancelled?
  }

  /** Planned recipients of a live execution always have a queue row under the current fence. */
  ghost predicate ExecutionOk(w: World) {
    && (w.execution.None? ==>
           w.queue.None? && w.recipients == [] && w.commands == [] && w.attempts == [] && w.workers == map[])
    && (w.execution.Some? ==>
          && Live(w.execution.value.state)
          && (w.queue.Some? ==> w.queue.value.stopVersion <= w.execution.value.stopVersion)
          && (w.execution.value.state.Paused? || w.execution.value.state.Cancelled? ==> w.queue.None?)
          && (AnyPlanned(w.recipients) ==>
                !w.execution.value.state.Cancelled?
                && (!w.execution.value.state.Paused? ==>
                      w.queue.Some? && w.queue.value.stopVersion == w.execution.value.stopVersion))
          && (w.execution.value.state.DispatchCompleted? ==>
                forall r :: 0 <= r < |w.recipients| ==> !Open(w.recipients[r].state)))
  }

  ghost predicate RowsOk(w: World) {
    && |w.recipients| == |w.budgets| == |w.deliveries|
    && (forall r :: 0 <= r < |w.recipients| ==> RecipientOk(w, r))
    && (forall c :: 0 <= c < |w.commands| ==> CommandOk(w, c))
    && (forall c :: c in w.outbox ==> c < |w.commands|)
  }

  ghost predicate WorkOk(w: World) {
    && |w.recipients| == |w.budgets| == |w.deliveries|
    && (forall a :: 0 <= a < |w.attempts| ==> AttemptOk(w, a))
    && OneOpenAttempt(w)
    && (forall id :: id in w.workers ==> WorkerOk(w, w.workers[id]))
    && WorkersDistinct(w)
  }

  ghost predicate CoreInv(w: World) {
    RowsOk(w) && WorkOk(w) && ExecutionOk(w)
  }

  /** The campaign and its one execution always agree on the control state. */
  ghost predicate ControlOk(w: World) {
    if w.execution.Some? then w.control == w.execution.value.state else w.control.Ready?
  }

  ghost predicate Inv(w: World) {
    CoreInv(w) && ControlOk(w)
  }

  lemma FinishKeeps(w: World)
    requires CoreInv(w)
    ensures CoreInv(FinishIfDrained(w))
    ensures ControlOk(w) ==> ControlOk(FinishIfDrained(w))
  {
    var z := FinishIfDrained(w);
    if AnyPlanned(z.recipients) {
      var r :| 0 <= r < |z.recipients| && z.recipients[r].state.Planned?;
      assert Open(z.recipients[r].state);
    }
    SameRowsKeep(w, z);
  }

  lemma LaunchKeeps(w: World, q: LaunchRequest)
    requires Inv(w) && LaunchRefusal(w, q).None?
    ensures Inv(Launched(w, q))
  {
    var z := Launched(w, q);
    forall r | 0 <= r < |z.recipients| ensures RecipientOk(z, r) { }
  }

  // ---- Dispatcher steps: one command and its recipient at a time --------------------

  /** `z` differs from `w` only in command `c`, the recipient that holds it, and work on `c`. */
  ghost predicate LocalChange(w: World, z: World, c: nat) {
    && c < |w.commands| == |z.commands| && w.commands[c].recipient < |w.recipients|
    && |z.recipients| == |z.budgets| == |z.deliveries| == |w.recipients| == |w.budgets| == |w.deliveries|
    && z.execution == w.execution && z.queue == w.queue && |z.attempts| == |w.attempts|
    && (var r := w.commands[c].recipient;
        && z.commands == w.commands[c := z.commands[c]] && z.commands[c].recipient == r
        && z.recipients == w.recipients[r := z.recipients[r]]
        && z.budgets == w.budgets[r := z.budgets[r]]
        && z.deliveries == w.deliveries[r := z.deliveries[r]]
        && z.recipients[r].command == w.recipients[r].command == Some(c))
    && (forall d :: d != c ==> (d in z.outbox <==> d in w.outbox))
    && (forall a :: 0 <= a < |w.attempts| ==>
          z.attempts[a] == w.attempts[a] || (z.attempts[a].command == w.attempts[a].command == c
              && z.attempts[a].answer.Some?))
    && (forall i :: i in z.workers && z.workers[i].command != c ==> i in w.workers && z.workers[i] == w.workers[i])
  }

  /** Everything about the other rows carries over, so only the changed command's rows need checking. */
  lemma LocalKeeps(w: World, z: World, c: nat)
    requires CoreInv(w) && LocalChange(w, z, c) && ExecutionOk(z)
    requires RecipientOk(z, w.commands[c].recipient) && CommandOk(z, c)
    requires OnTheWire(z, c) || NoOpenAttempt(z, c)
    requires forall i :: i in z.workers && z.workers[i].command == c ==> WorkerOk(z, z.workers[i])
    requires forall i, j :: i in z.workers && j in z.workers && i != j && z.workers[i].command == c ==>
      z.workers[j].command != c
    ensures CoreInv(z)
  {
    var h := w.commands[c].recipient;
    forall r | 0 <= r < |z.recipients| ensures RecipientOk(z, r) { if r != h { assert RecipientOk(w, r); } }
    forall d | 0 <= d < |z.commands| ensures CommandOk(z, d) { if d != c { assert CommandOk(w, d); } }
    forall a | 0 <= a < |z.attempts| ensures AttemptOk(z, a) { assert AttemptOk(w, a); }
    forall i | i in z.workers ensures WorkerOk(z, z.workers[i]) {
      if z.workers[i].command != c { OtherWorkerKeeps(w, z, c, i); }
    }
  }

  lemma NoWorkerOn(w: World, c: nat)
    requires CoreInv(w) && c < |w.commands|
    requires var r := w.commands[c].recipient; r < |w.recipients| ==>
      !w.recipients[r].state.InFlight? && !w.recipients[r].state.UnknownRecipient?
    ensures forall i :: i in w.workers ==> w.workers[i].command != c
    ensures NoOpenAttempt(w, c)
  {
    forall i | i in w.workers ensures w.workers[i].command != c { assert WorkerOk(w, w.workers[i]); }
    SettledHasNoOpen(w, c);
  }

  lemma SettledHasNoOpen(w: World, c: nat)
    requires WorkOk(w) && !OnTheWire(w, c)
    ensures NoOpenAttempt(w, c)
  {
    forall a | 0 <= a < |w.attempts| && w.attempts[a].answer.None?
      ensures w.attempts[a].command != c { assert AttemptOk(w, a); }
  }

  lemma OtherWorkerKeeps(w: World, z: World, c: nat, i: nat)
    requires CoreInv(w) && LocalChange(w, z, c) && i in z.workers && z.workers[i].command != c
    ensures WorkerOk(z, z.workers[i])
  {
    var k := w.workers[i];
    assert WorkerOk(w, k);
    assert CommandOk(w, k.command) && CommandOk(w, c);
    assert w.commands[k.command].recipient != w.commands[c].recipient;
  }

  lemma ClaimKeeps(w: World, id: nat, c: nat)
    requires Inv(w)
    ensures Inv(Claim(w, id, c))
  {
    var z := Claim(w, id, c);
    if z != w {
      assert CommandOk(w, c);
      var h := w.commands[c].recipient;
      assert RecipientOk(w, h);
      NoWorkerOn(w, c);
      SameOpenKeeps(w, z, h);
      LocalKeeps(w, z, c);
    }
  }

  /** A recipient that stays open, or leaves no queue obligation behind, does not disturb the execution. */
  lemma SameOpenKeeps(w: World, z: World, r: nat)
    requires ExecutionOk(w) && w.execution.Some? && r < |w.recipients| == |z.recipients|
    requires z.recipients == w.recipients[r := z.recipients[r]] && z.execution == w.execution && z.queue == w.queue
    requires !z.recipients[r].state.Planned?
    requires Open(w.recipients[r].state) || !Open(z.recipients[r].state)
    ensures ExecutionOk(z)
  {
    if AnyPlanned(z.recipients) {
      var i :| 0 <= i < |z.recipients| && z.recipients[i].state.Planned?;
      assert w.recipients[i].state.Planned?;
    }
    if w.execution.value.state.DispatchCompleted? { assert !Open(w.recipients[r].state); }
  }

  lemma SettleSkipKeeps(w: World, id: nat, around: Circumstances)
    requires Inv(w) && WorkerRefsOk(w, id) && w.workers[id].Claimed? && !Permitted(w, w.workers[id].recipient, around)
    ensures Inv(Prepare(w, id, around))
  {
    var k := w.workers[id];
    var c := k.command;
    var h := w.commands[c].recipient;
    assert WorkerOk(w, k) && RecipientOk(w, h) && CommandOk(w, c);
    var s := Settle(w, c, CommandSkipped);
    var y := s.(recipients := s.recipients[h := s.recipients[h].(state := SkippedRecipient)],
                budgets := s.budgets[h := Release(s.budgets[h])],
                outbox := s.outbox - {c}, workers := s.workers - {id});
    assert Prepare(w, id, around) == FinishIfDrained(y);
    SameOpenKeeps(w, y, h);
    LocalKeeps(w, y, c);
    FinishKeeps(y);
  }

  lemma PrepareKeeps(w: World, id: nat, around: Circumstances)
    requires Inv(w)
    ensures Inv(Prepare(w, id, around))
  {
    var z := Prepare(w, id, around);
    if z != w {
      var k := w.workers[id];
      if !Permitted(w, k.recipient, around) {
        SettleSkipKeeps(w, id, around);
      } else {
        AttemptKeeps(w, id, z);
      }
    }
  }

  /** Committing the attempt row, before anything is sent. */
  lemma AttemptKeeps(w: World, id: nat, z: World)
    requires Inv(w) && WorkerRefsOk(w, id) && w.workers[id].Claimed?
    requires var k := w.workers[id];
      z == w.(attempts := w.attempts + [Attempt(k.command, None)],
              workers := w.workers[id := Prepared(k.command, k.recipient, k.version, k.tries, |w.attempts|)])
    ensures Inv(z)
  {
    assert WorkerOk(w, w.workers[id]);
    forall r | 0 <= r < |z.recipients| ensures RecipientOk(z, r) { assert RecipientOk(w, r); }
    forall d | 0 <= d < |z.commands| ensures CommandOk(z, d) { assert CommandOk(w, d); }
    forall a | 0 <= a < |z.attempts| ensures AttemptOk(z, a) { if a < |w.attempts| { assert AttemptOk(w, a); } }
    forall i | i in z.workers ensures WorkerOk(z, z.workers[i]) { if i != id { assert WorkerOk(w, w.workers[i]); } }
  }

  lemma SendKeeps(w: World, id: nat, took: bool, answer: Answer)
    requires Inv(w)
    ensures Inv(Send(w, id, took, answer))
  {
    if Send(w, id, took, answer) != w { SentKeeps(w, id, took, answer); }
  }

  lemma SentKeeps(w: World, id: nat, took: bool, answer: Answer)
    requires Inv(w) && Send(w, id, took, answer) != w
    ensures Inv(Send(w, id, took, answer))
  {
    var z := Send(w, id, took, answer);
    var c := w.workers[id].command;
    SentLocally(w, id, took, answer);
    if !OnTheWire(w, c) { SettledHasNoOpen(w, c); }
    LocalKeeps(w, z, c);
  }

  lemma SentLocally(w: World, id: nat, took: bool, answer: Answer)
    requires Inv(w) && Send(w, id, took, answer) != w
    ensures var z := Send(w, id, took, answer); var c := w.workers[id].command;
      && LocalChange(w, z, c) && z.recipients == w.recipients && z.commands == w.commands && z.attempts == w.attempts
      && RecipientOk(z, w.commands[c].recipient) && CommandOk(z, c) && WorkerOk(z, z.workers[id])
  {
    var c := w.workers[id].command;
    assert WorkerOk(w, w.workers[id]) && CommandOk(w, c) && RecipientOk(w, w.commands[c].recipient);
  }

  lemma RecordKeeps(w: World, id: nat)
    requires Inv(w)
    ensures Inv(Record(w, id))
  {
    if WorkerRefsOk(w, id) && w.workers[id].Answered? {
      assert WorkerOk(w, w.workers[id]);
      if w.commands[w.workers[id].command].version != w.workers[id].version { StaleRecordKeeps(w, id); }
      else { OwnedRecordKeeps(w, id); }
    }
  }

  lemma StaleRecordKeeps(w: World, id: nat)
    requires Inv(w) && WorkerRefsOk(w, id) && w.workers[id].Answered?
    requires w.commands[w.workers[id].command].version != w.workers[id].version
    ensures Inv(Record(w, id))
  {
    var k := w.workers[id];
    assert WorkerOk(w, k) && CommandOk(w, k.command) && RecipientOk(w, w.commands[k.command].recipient);
    SettledHasNoOpen(w, k.command);
    LocalKeeps(w, Record(w, id), k.command);
  }

  lemma OwnedRecordKeeps(w: World, id: nat)
    requires Inv(w) && WorkerRefsOk(w, id) && w.workers[id].Answered?
    requires w.commands[w.workers[id].command].version == w.workers[id].version
    ensures Inv(Record(w, id))
  {
    var k := w.workers[id];
    var c := k.command;
    var z := Record(w, id);
    assert WorkerOk(w, k) && CommandOk(w, c) && RecipientOk(w, w.commands[c].recipient);
    assert OnTheWire(w, c) && w.attempts[k.attempt].answer.None?;
    assert NoOpenAttempt(z, c);
    assert RecipientOk(z, w.commands[c].recipient);
    assert CommandOk(z, c);
    assert WorkerOk(z, z.workers[id]);
    assert LocalChange(w, z, c);
    LocalKeeps(w, z, c);
  }

  lemma ProjectKeeps(w: World, id: nat)
    requires Inv(w)
    ensures Inv(ProjectRecorded(w, id))
  {
    var z := ProjectRecorded(w, id);
    if z != w {
      var k := w.workers[id];
      var c := k.command;
      assert WorkerOk(w, k) && CommandOk(w, c);
      var r := w.commands[c].recipient;
      assert RecipientOk(w, r);
      var p := ProjectionOf(k.outcome);
      var y := w.(workers := w.workers - {id},
                  recipients := w.recipients[r := w.recipients[r].(state := p.recipient)],
                  budgets := w.budgets[r := ProjectBudget(w.budgets[r], p.budget)]);
      SameOpenKeeps(w, y, r);
      LocalKeeps(w, y, c);
      FinishKeeps(y);
    }
  }

  lemma RecoverKeeps(w: World, a: nat)
    requires Inv(w)
    ensures Inv(Recover(w, a))
  {
    if a < |w.attempts| && w.attempts[a].answer.None? {
      assert AttemptOk(w, a) && CommandOk(w, w.attempts[a].command);
      var y := GivenUpKeeps(w, a);
      FinishKeeps(y);
      assert Recover(w, a) == FinishIfDrained(y);
    }
  }

  /** The rows recovery writes before it looks whether the campaign is drained. */
  lemma GivenUpKeeps(w: World, a: nat) returns (y: World)
    requires Inv(w) && a < |w.attempts| && w.attempts[a].answer.None? && w.attempts[a].command < |w.commands|
    requires w.commands[w.attempts[a].command].recipient < |w.recipients| == |w.budgets|
    ensures CoreInv(y) && y.control == w.control && y.execution == w.execution
    ensures var c := w.attempts[a].command; var r := w.commands[c].recipient;
      var s := Settle(w.(attempts := w.attempts[a := w.attempts[a].(answer := Some(AnswerUnknown))]), c,
          CommandUnknown);
      y == s.(recipients := s.recipients[r := s.recipients[r].(state := UnknownRecipient)],
              budgets := s.budgets[r := ProjectBudget(s.budgets[r], Some(HeldUnknown))],
              outbox := w.outbox - {c})
  {
    var c := w.attempts[a].command;
    var r := w.commands[c].recipient;
    assert AttemptOk(w, a) && CommandOk(w, c) && RecipientOk(w, r);
    var s := Settle(w.(attempts := w.attempts[a := w.attempts[a].(answer := Some(AnswerUnknown))]), c, CommandUnknown);
    y := s.(recipients := s.recipients[r := s.recipients[r].(state := UnknownRecipient)],
            budgets := s.budgets[r := ProjectBudget(s.budgets[r], Some(HeldUnknown))],
            outbox := w.outbox - {c});
    assert NoOpenAttempt(y, c);
    RecoveredWorkers(w, y, a);
    SameOpenKeeps(w, y, r);
    LocalKeeps(w, y, c);
  }

  /** A worker holding the attempt loses its fence, nobody else held it. */
  lemma RecoveredWorkers(w: World, y: World, a: nat)
    requires CoreInv(w) && a < |w.attempts| && w.attempts[a].answer.None?
    requires y.workers == w.workers && y.deliveries == w.deliveries
    requires var c := w.attempts[a].command;
      && y.attempts == w.attempts[a := Attempt(c, Some(AnswerUnknown))]
      && c < |w.commands|
      && y.commands == w.commands[c := w.commands[c].(state := CommandUnknown, version := w.commands[c].version + 1)]
      && w.commands[c].recipient < |w.recipients| == |y.recipients|
      && y.recipients[w.commands[c].recipient] == Recipient(UnknownRecipient, Some(c))
    ensures forall i :: i in y.workers && y.workers[i].command == w.attempts[a].command ==> WorkerOk(y, y.workers[i])
  {
    assert AttemptOk(w, a);
    forall i | i in y.workers && y.workers[i].command == w.attempts[a].command ensures WorkerOk(y, y.workers[i]) {
      assert WorkerOk(w, w.workers[i]);
    }
  }

  lemma ReceiveKeeps(w: World, c: nat, receipt: Receipt)
    requires Inv(w)
    ensures Inv(Receive(w, c, receipt))
  {
    var z := Receive(w, c, receipt);
    if z != w {
      assert RecipientOk(w, w.commands[c].recipient) && CommandOk(w, c);
      NoWorkerOn(w, c);
      SameOpenKeeps(w, z, w.commands[c].recipient);
      LocalKeeps(w, z, c);
    }
  }

  lemma CrashKeeps(w: World, id: nat)
    requires Inv(w)
    ensures Inv(w.(workers := w.workers - {id}))
  {
    var z := w.(workers := w.workers - {id});
    forall i | 0 <= i < |z.recipients| ensures RecipientOk(z, i) { assert RecipientOk(w, i); }
    forall d | 0 <= d < |z.commands| ensures CommandOk(z, d) { assert CommandOk(w, d); }
    forall a | 0 <= a < |z.attempts| ensures AttemptOk(z, a) { assert AttemptOk(w, a); }
    forall i | i in z.workers ensures WorkerOk(z, z.workers[i]) { assert WorkerOk(w, w.workers[i]); }
  }

  // ---- Operator actions -------------------------------------------------------------

  lemma ControlKeeps(w: World, action: Action, now: int)
    requires Inv(w) && ControlTarget(w.control, action).Some?
    ensures Inv(Controlled(w, action, now))
  {
    var z := Controlled(w, action, now);
    if w.execution.Some? {
      var state := ControlTarget(w.control, action).value;
      var version := w.execution.value.stopVersion + 1;
      var stopped := w.(control := state, execution := Some(Execution(state, version)), queue := None);
      match action
      case PauseAction => SameRowsKeep(w, z);
      case ResumeAction => ResumeKeeps(w, stopped.(queue := Some(QueueRow(now, version))), z);
      case CancelAction => CancelKeeps(w, stopped);
    }
  }

  lemma ResumeKeeps(w: World, queued: World, z: World)
    requires CoreInv(w) && w.execution.Some? && w.execution.value.state.Paused? && queued.queue.Some?
    requires var version := queued.queue.value.stopVersion;
      && version == w.execution.value.stopVersion + 1 && queued.execution == Some(Execution(Running, version))
      && queued == w.(control := queued.control, execution := queued.execution, queue := queued.queue)
      && z == queued.(commands := z.commands) && |z.commands| == |w.commands|
      && forall c :: 0 <= c < |w.commands| ==>
           z.commands[c] == w.commands[c] || z.commands[c] == w.commands[c].(fence := version)
    ensures CoreInv(z)
  {
    SameRowsKeep(w, queued);
    RefenceKeeps(queued, z);
  }

  /** Renewing fences up to the execution's own changes nothing else. */
  lemma RefenceKeeps(w: World, z: World)
    requires CoreInv(w) && w.execution.Some? && |z.commands| == |w.commands|
    requires z == w.(commands := z.commands)
    requires forall c :: 0 <= c < |w.commands| ==>
      z.commands[c] == w.commands[c] || z.commands[c] == w.commands[c].(fence := w.execution.value.stopVersion)
    ensures CoreInv(z)
  {
    forall i | 0 <= i < |z.recipients| ensures RecipientOk(z, i) { assert RecipientOk(w, i); }
    forall d | 0 <= d < |z.commands| ensures CommandOk(z, d) { assert CommandOk(w, d); }
    forall a | 0 <= a < |z.attempts| ensures AttemptOk(z, a) { assert AttemptOk(w, a); }
    forall i | i in z.workers ensures WorkerOk(z, z.workers[i]) { assert WorkerOk(w, w.workers[i]); }
  }

  lemma CancelKeeps(w: World, stopped: World)
    requires CoreInv(w) && w.execution.Some?
    requires stopped == w.(control := Cancelled, queue := None,
                           execution := Some(Execution(Cancelled, w.execution.value.stopVersion + 1)))
    ensures CoreInv(CancelAll(stopped))
  {
    var z := CancelAll(stopped);
    forall r | 0 <= r < |z.recipients| ensures RecipientOk(z, r) { CancelledRow(w, stopped, r); }
    forall c | 0 <= c < |z.commands| ensures CommandOk(z, c) {
      assert CommandOk(w, c) && RecipientOk(w, w.commands[c].recipient);
    }
    forall a | 0 <= a < |z.attempts| ensures AttemptOk(z, a) { assert AttemptOk(w, a); }
    forall i | i in z.workers ensures WorkerOk(z, z.workers[i]) { assert WorkerOk(w, w.workers[i]); }
  }

  lemma CancelledRow(w: World, stopped: World, r: nat)
    requires CoreInv(w) && r < |w.recipients|
    requires stopped.recipients == w.recipients && stopped.budgets == w.budgets && stopped.commands == w.commands
      && stopped.deliveries == w.deliveries
    ensures RecipientOk(CancelAll(stopped), r)
  {
    assert RecipientOk(w, r);
    if w.recipients[r].command.Some? { assert CommandOk(w, w.recipients[r].command.value); }
  }

  // ---- Planner and retry: a fold over the recipients they locked --------------------

  lemma PlanOneKeeps(w: World, r: nat, fillable: bool)
    requires CoreInv(w) && r < |w.recipients| && w.recipients[r].state.Planned?
    requires w.execution.Some? && w.execution.value.state.Running?
    ensures CoreInv(PlanOne(w, r, fillable, w.execution.value.stopVersion))
  {
    var z := PlanOne(w, r, fillable, w.execution.value.stopVersion);
    assert RecipientOk(w, r);
    forall i | 0 <= i < |z.recipients| ensures RecipientOk(z, i) { assert RecipientOk(w, i); }
    forall d | 0 <= d < |z.commands| ensures CommandOk(z, d) { if d < |w.commands| { assert CommandOk(w, d); } }
    forall a | 0 <= a < |z.attempts| ensures AttemptOk(z, a) { assert AttemptOk(w, a); }
    forall i | i in z.workers ensures WorkerOk(z, z.workers[i]) { assert WorkerOk(w, w.workers[i]); }
    assert AnyPlanned(w.recipients);
  }

  lemma {:induction false} PlanEachKeeps(w: World, ids: seq<nat>, fillable: set<nat>, version: nat)
    requires CoreInv(w) && w.execution == Some(Execution(Running, version))
    requires forall i :: 0 <= i < |ids| ==> ids[i] < |w.recipients| && w.recipients[ids[i]].state.Planned?
    requires forall i, j :: 0 <= i < j < |ids| ==> ids[i] < ids[j]
    ensures var z := PlanEach(w, ids, fillable, version);
      && CoreInv(z)
      && z.execution == w.execution && z.control == w.control && z.queue == w.queue
      && (forall r :: 0 <= r < |w.recipients| && r !in ids ==> z.recipients[r] == w.recipients[r])
      && (forall r :: r in ids ==> !z.recipients[r].state.Planned?)
  {
    if ids != [] {
      var front := ids[..|ids| - 1];
      var r := ids[|ids| - 1];
      assert ids == front + [r];
      PlanEachKeeps(w, front, fillable, version);
      PlanOneKeeps(PlanEach(w, front, fillable, version), r, r in fillable);
    }
  }

  lemma PlanKeeps(w: World, now: int, limit: nat, fillable: set<nat>)
    requires Inv(w)
    ensures Inv(PlanCall(w, now, limit, fillable).0)
  {
    if Due(w, now) {
      if Runnable(w) {
        var s := Started(w);
        SameRowsKeep(w, s);
        var ids := PlannedIds(w.recipients, limit);
        assert forall i :: 0 <= i < |ids| ==> ids[i] in ids;
        PlanEachKeeps(s, ids, fillable, w.execution.value.stopVersion);
        var z := PlanEach(s, ids, fillable, w.execution.value.stopVersion);
        if !AnyPlanned(z.recipients) { SameRowsKeep(z, z.(queue := None)); }
      } else {
        SameRowsKeep(w, w.(queue := None));
      }
    }
  }

  /** Only the execution's own columns changed, and they still fit. */
  lemma SameRowsKeep(w: World, z: World)
    requires CoreInv(w) && ExecutionOk(z)
    requires z == w.(execution := z.execution, control := z.control, queue := z.queue)
    requires w.execution.Some? <==> z.execution.Some?
    requires w.execution.Some? ==> w.execution.value.stopVersion <= z.execution.value.stopVersion
    ensures CoreInv(z)
  {
    forall i | 0 <= i < |z.recipients| ensures RecipientOk(z, i) { assert RecipientOk(w, i); }
    forall d | 0 <= d < |z.commands| ensures CommandOk(z, d) { assert CommandOk(w, d); }
    forall a | 0 <= a < |z.attempts| ensures AttemptOk(z, a) { assert AttemptOk(w, a); }
    forall i | i in z.workers ensures WorkerOk(z, z.workers[i]) { assert WorkerOk(w, w.workers[i]); }
  }

  lemma RetryOneKeeps(w: World, r: nat)
    requires CoreInv(w) && r < |w.recipients| && w.recipients[r].state.FailedRecipient? && w.budgets[r].state.Released?
    requires w.execution.Some? && w.execution.value.state.Running?
    ensures CoreInv(RetryOne(w, r, w.execution.value.stopVersion))
  {
    var z := RetryOne(w, r, w.execution.value.stopVersion);
    assert RecipientOk(w, r);
    forall i | 0 <= i < |z.recipients| ensures RecipientOk(z, i) { assert RecipientOk(w, i); }
    forall d | 0 <= d < |z.commands| ensures CommandOk(z, d) { if d < |w.commands| { assert CommandOk(w, d); } }
    forall a | 0 <= a < |z.attempts| ensures AttemptOk(z, a) { assert AttemptOk(w, a); }
    forall i | i in z.workers ensures WorkerOk(z, z.workers[i]) { assert WorkerOk(w, w.workers[i]); }
    if AnyPlanned(z.recipients) {
      var i :| 0 <= i < |z.recipients| && z.recipients[i].state.Planned?;
      assert w.recipients[i].state.Planned?;
    }
  }

  lemma {:induction false} RetryEachKeeps(w: World, ids: seq<nat>, version: nat)
    requires CoreInv(w) && w.execution == Some(Execution(Running, version))
    requires forall i :: 0 <= i < |ids| ==>
      ids[i] < |w.recipients| && w.recipients[ids[i]].state.FailedRecipient? && w.budgets[ids[i]].state.Released?
    requires forall i, j :: 0 <= i < j < |ids| ==> ids[i] < ids[j]
    ensures var z := RetryEach(w, ids, version);
      && CoreInv(z)
      && z.execution == w.execution && z.control == w.control && z.queue == w.queue && z.workers == w.workers
      && (forall r :: 0 <= r < |w.recipients| && r !in ids ==>
             z.recipients[r] == w.recipients[r] && z.budgets[r] == w.budgets[r])
      && (forall r :: r in ids ==> z.recipients[r].state.Queued?)
  {
    if ids != [] {
      var front := ids[..|ids| - 1];
      var r := ids[|ids| - 1];
      assert ids == front + [r];
      RetryEachKeeps(w, front, version);
      RetryOneKeeps(RetryEach(w, front, version), r);
    }
  }

  lemma RetryKeeps(w: World)
    requires Inv(w) && RetryRefusal(w).None?
    ensures Inv(Retried(w))
  {
    var version := w.execution.value.stopVersion + 1;
    var s := w.(execution := Some(Execution(Running, version)));
    assert !AnyPlanned(w.recipients) by {
      if AnyPlanned(w.recipients) {
        var i :| 0 <= i < |w.recipients| && w.recipients[i].state.Planned?;
        assert Open(w.recipients[i].state);
      }
    }
    SameRowsKeep(w, s);
    var ids := FailedIds(w);
    assert forall i :: 0 <= i < |ids| ==> ids[i] in ids;
    RetryEachKeeps(s, ids, version);
    SameRowsKeep(RetryEach(s, ids, version), Retried(w));
  }

  // ---- Every step, every run --------------------------------------------------------

  lemma ApplyKeeps(w: World, s: Step)
    requires Inv(w)
    ensures Inv(Apply(w, s))
  {
    match s
    case Launch(q) => if LaunchRefusal(w, q).None? { LaunchKeeps(w, q); }
    case Control(action, now) => if ControlTarget(w.control, action).Some? { ControlKeeps(w, action, now); }
    case Retry => if RetryRefusal(w).None? { RetryKeeps(w); }
    case Plan(now, limit, fillable) => PlanKeeps(w, now, limit, fillable);
    case ClaimStep(id, c) => ClaimKeeps(w, id, c);
    case PrepareStep(id, around) => PrepareKeeps(w, id, around);
    case SendStep(id, took, answer) => SendKeeps(w, id, took, answer);
    case RecordStep(id) => RecordKeeps(w, id);
    case ProjectStep(id) => ProjectKeeps(w, id);
    case Crash(id) => CrashKeeps(w, id);
    case RecoverStep(a) => RecoverKeeps(w, a);
    case ReceiptStep(c, receipt) => ReceiveKeeps(w, c, receipt);
  }

  lemma {:induction false} RunKeeps(w: World, steps: seq<Step>)
    requires Inv(w)
    ensures Inv(Run(w, steps))
    decreases |steps|
  {
    if steps != [] {
      RunKeeps(w, steps[..|steps| - 1]);
      ApplyKeeps(Run(w, steps[..|steps| - 1]), steps[|steps| - 1]);
    }
  }
}
