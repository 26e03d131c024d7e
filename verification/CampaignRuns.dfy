/** Runs that reach the states in which the campaign services fall short of what one would expect. */
module CampaignRuns {
  import opened Shared
  import opened CampaignLifecycle
  import opened CampaignModel
  import opened CampaignTheorems
  import opened CampaignProgress

  lemma RunThree(w: World, a: Step, b: Step, c: Step)
    ensures Run(w, [a, b, c]) == Apply(Apply(Apply(w, a), b), c)
  {
    var e := [a, b, c];
    assert e[..0] == [] && e[..3] == e;
    RunNext(w, e, 0, w);
    RunNext(w, e, 1, Run(w, e[..1]));
    RunNext(w, e, 2, Run(w, e[..2]));
  }

  /** After the first `n` steps of the run of `Stage`, three more. */
  lemma AfterStage(n: nat, a: Step, b: Step, c: Step)
    requires 2 <= n <= 9
    ensures Run(Initial(), STALE_RUN[..n] + [a, b, c]) == Apply(Apply(Apply(Stage(n), a), b), c)
  {
    StaleRunReaches(n);
    RunAppend(Initial(), STALE_RUN[..n], [a, b, c]);
    RunThree(Stage(n), a, b, c);
  }

  // ---- A failure after the acceptance -----------------------------------------------

  /** Launched, planned, claimed, prepared, accepted and completed. */
  function CompletedRun(): seq<Step> {
    STALE_RUN[..4] + [SendStep(7, true, AnswerAccepted), RecordStep(7), ProjectStep(7)]
  }

  /** One recipient, one command and one attempt: the worlds these runs end with. */
  function Whole(state: CampaignState, stop: nat, queue: Option<QueueRow>, r: RecipientState, b: Reservation,
                 c: Command, outbox: map<nat, nat>, answer: Option<Answer>, workers: map<nat, Worker>,
                 taken: nat): World {
    World(state, Some(Execution(state, stop)), queue, [Recipient(r, Some(0))], [b], [c], outbox,
        [Attempt(0, answer)], workers, [taken])
  }

  const RESERVED: Reservation := Reservation(100, 100, None, Reserved)

  function AcceptedWorld(receipt: RecipientState): World {
    Whole(DispatchCompleted, 0, None, receipt, Reservation(100, 100, Some(100), Committed),
          Command(0, ProviderAccepted, 0, 2), map[],
          Some(AnswerAccepted), map[], 1)
  }

  function SentWorld(): World {
    Whole(Running, 0, None, InFlight, RESERVED, Command(0, Dispatching, 0, 1), map[0 := 1], None,
          map[7 := Answered(0, Some(0), 1, 1, 0, AnswerAccepted)], 1)
  }

  function RecordedWorld(): World {
    Whole(Running, 0, None, InFlight, RESERVED, Command(0, ProviderAccepted, 0, 2), map[], Some(AnswerAccepted),
          map[7 := Recorded(0, Some(0), OutcomeAccepted)], 1)
  }

  lemma CompletedSends()
    ensures Apply(Stage(4), SendStep(7, true, AnswerAccepted)) == SentWorld()
  { }

  lemma CompletedRecords()
    ensures Apply(SentWorld(), RecordStep(7)) == RecordedWorld()
  { }

  lemma CompletedProjects()
    ensures Apply(RecordedWorld(), ProjectStep(7)) == AcceptedWorld(Accepted)
  { }

  lemma CompletedRunReaches()
    ensures Run(Initial(), CompletedRun()) == AcceptedWorld(Accepted)
  {
    AfterStage(4, SendStep(7, true, AnswerAccepted), RecordStep(7), ProjectStep(7));
    CompletedSends();
    CompletedRecords();
    CompletedProjects();
  }

  lemma FailedCannotBeRetried()
    ensures Apply(AcceptedWorld(Accepted), ReceiptStep(0, ReceiptFailed)) == AcceptedWorld(FailedRecipient)
    ensures RetryRefusal(AcceptedWorld(FailedRecipient)) == Some("campaign_retry_budget_unavailable")
  {
    var w := AcceptedWorld(FailedRecipient);
    assert FailedIds(w) == [0] by { assert FailedIds(w, 1) == []; }
  }

  /** A receipt of failure after the acceptance: the completed campaign cannot be retried. */
  lemma RetryCanBeRefused()
    ensures var w := Run(Initial(), CompletedRun() + [ReceiptStep(0, ReceiptFailed)]);
      && InState(w, DispatchCompleted) && w.recipients == [Recipient(FailedRecipient, Some(0))] && |w.budgets| == 1
      && RetryRefusal(w) == Some("campaign_retry_budget_unavailable")
  {
    CompletedRunReaches();
    FailedCannotBeRetried();
    var e := ReceiptStep(0, ReceiptFailed);
    RunAppend(Initial(), CompletedRun(), [e]);
    assert [e][..0] == [];
  }

  // ---- An answer overtaken on the wire ----------------------------------------------

  /** Launched, planned, claimed, prepared, paused, resumed; then the provider asks to try again. */
  function OvertakenRun(): seq<Step> {
    STALE_RUN[..6] + [SendStep(7, false, AnswerRejected(true)), RecordStep(7), ProjectStep(7)]
  }

  function OvertakenWorld(r: RecipientState, c: Command, answer: Option<Answer>, workers: map<nat, Worker>): World {
    Whole(Running, 2, Some(QueueRow(0, 2)), r, RESERVED, c, map[0 := 1], answer, workers, 0)
  }

  function AskedAgain(): World {
    OvertakenWorld(InFlight, Command(0, Dispatching, 0, 1), None,
        map[7 := Answered(0, Some(0), 1, 1, 0, AnswerRejected(true))])
  }

  function Rescheduled(): World {
    OvertakenWorld(InFlight, Command(0, RetryScheduled, 0, 2), Some(AnswerRejected(true)),
        map[7 := Recorded(0, Some(0), OutcomeRetry)])
  }

  function QueuedBehind(): World {
    OvertakenWorld(Queued, Command(0, RetryScheduled, 0, 2), Some(AnswerRejected(true)), map[])
  }

  lemma OvertakenSends()
    ensures Apply(Stage(6), SendStep(7, false, AnswerRejected(true))) == AskedAgain()
  { }

  lemma OvertakenRecords()
    ensures Apply(AskedAgain(), RecordStep(7)) == Rescheduled()
  { }

  lemma OvertakenProjects()
    ensures Apply(Rescheduled(), ProjectStep(7)) == QueuedBehind()
  { }

  lemma OvertakenRunReaches()
    ensures Run(Initial(), OvertakenRun()) == QueuedBehind()
  {
    AfterStage(6, SendStep(7, false, AnswerRejected(true)), RecordStep(7), ProjectStep(7));
    OvertakenSends();
    OvertakenRecords();
    OvertakenProjects();
  }

  /** The queued recipient's command cannot be claimed, not before a later resume renews it. */
  lemma QueuedCanBeUnclaimable(more: seq<Step>)
    ensures var w := Run(Initial(), OvertakenRun());
      && InState(w, Running) && w.recipients == [Recipient(Queued, Some(0))] && 0 in w.outbox && !Claimable(w, 0)
      && (Holder(Run(w, more), 0).Some? && Claimable(Run(w, more), 0) ==>
            exists i :: 0 <= i < |more| && RefencedBy(Run(w, more[..i]), more[i], 0))
  {
    OvertakenRunReaches();
    Reachable(OvertakenRun());
    CatchesUpOnlyByResume(QueuedBehind(), more, 0);
  }

  // ---- A worker lost between its transactions ---------------------------------------

  /** A worker that dies between claiming and preparing leaves its recipient in flight for good. */
  lemma RecipientCanBeStranded()
    ensures Stranded(Run(Initial(), STALE_RUN[..3] + [Crash(7)]), 0, 0)
  {
    var s := STALE_RUN[..3] + [Crash(7)];
    StaleRunReaches(3);
    RunAppend(Initial(), STALE_RUN[..3], [Crash(7)]);
    assert [Crash(7)][..0] == [];
    Reachable(s);
    var w := Apply(Stage(3), Crash(7));
    assert w.workers == map[] && w.attempts == [];
  }

  // ---- Drained without notice -------------------------------------------------------

  /** A campaign whose one recipient the planner skips runs on, completed by nothing. */
  lemma CampaignCanRunOnEmpty(more: seq<Step>)
    ensures var steps := [STALE_RUN[0], Plan(0, 1, {})];
      && DrainedUnnoticed(Run(Initial(), steps)) && InState(Run(Initial(), steps), Running)
      && !InState(Run(Run(Initial(), steps), more), DispatchCompleted)
  {
    var steps := [STALE_RUN[0], Plan(0, 1, {})];
    assert steps[..0] == [] && steps[..2] == steps;
    RunNext(Initial(), steps, 0, Initial());
    var w := Launched(Initial(), STALE_RUN[0].request);
    assert w.recipients == [Recipient(Planned, None)];
    RunNext(Initial(), steps, 1, w);
    Reachable(steps[..1]);
    Reachable(steps);
    assert PlannedIds(w.recipients, 1) == [0] by { assert PlannedIds(w.recipients, 0, 1) == []; }
    PlanOpens(w, 0, 1, {});
    NeverCompletes(Run(Initial(), steps), more);
  }
}
