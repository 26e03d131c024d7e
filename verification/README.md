# Model of the campaign platform's engines and codecs

A Dafny model of seven parts of the platform, with proofs of what they promise over every
input and every run. `dafny verify dfyconfig.toml` checks all of it.

Where the source changes rows, fields or buffers step by step, a class or a method does the
same and is proved equal to a transaction on values; the theorems are about runs of those
transactions. Where it computes, there are functions and lemmas.

- **Campaigns** (`Campaign*.dfy`): launch, pause, resume, cancel, retry, the planner, and the
  dispatcher with its claims, answers, receipts, crashes and recovery, as transactions on
  one state, taken one after the other. The lifecycle table is `packages/domain/src/campaigns/lifecycle.ts:69-139`. A run is
  any interleaving. `deliveries` counts what the provider really took; no table stores it.
- **Broker relay** (`Relay*.dfy`): every SQL statement is a step of its own, workers hold their
  claims between statements, and a crash may come anywhere. Late settlements are not fenced.
- **Automations** (`Automation*.dfy`): one run, from planning to its verdict. The worker calls `execute` with ten
  times its configured concurrency (`apps/api/src/workers/worker-roles.ts:212-221`); theorems that depend on the
  limit state it.
- **Tree reconciliation** (`Dom*.dfy`): heap objects patched in place. `Snap` is a tree with the
  objects that show it; `Patched` says which objects the result is made of.
- **Workbook and CSV** (`Crc*.dfy`, `Utf8.dfy`, `Zip*.dfy`, `Csv.dfy`, `Columns.dfy`, `Sheet*.dfy`).
- **URL state** (`Percent.dfy`, `Router.dfy`, `UrlState.dfy`, `UrlSync.dfy`, `RouteMeaning.dfy`).
- **Pages and the limiter** (`Cursor.dfy`, `Paging.dfy`, `PageSorts.dfy`, `Limiter.dfy`).

The modules called `...Meaning` say what single transactions and functions do in terms of the rows,
messages, names and numbers themselves, independently of the definitions the others are built on.
`Shared.dfy` holds `Option` and facts on counting and division, `Words.dfy` the words of a text; `Instances.dfy`
shows packings, codecs and case mappings that meet what theorems ask of their parameters.

## What the proofs found

Properties one would expect, that the code has only under a condition. Each is stated with
the exact condition, for all inputs.

- A retry raises the stop version and leaves the work queue alone, so a row a resume left there
  keeps the old version (`QueueFreshStep`, `QueueRowCanGoStale`). It plans nobody and is dropped.
- One recipient that failed after the provider accepted makes `retryFailures` refuse the whole
  campaign, for its reservation is committed (`RetryPossible`; a run: `RetryCanBeRefused`).
- A retryable answer arriving after a pause and resume leaves a queued recipient behind the
  fence, where it cannot be claimed before another resume (`RescheduledIsClaimable`; a run:
  `QueuedCanBeUnclaimable`).
- A worker that dies between claiming and preparing, or between recording and projecting,
  leaves its recipient in flight and its money reserved for good (`CanSettleIff`,
  `StrandedForGood`; a run: `RecipientCanBeStranded`).
- Only settling a recipient completes a campaign. One launched for nobody, one whose planner
  skips everybody left, and one whose last recipient settles during a pause are never
  completed (`CompletesIff`, `DrainsUnnoticedIff`, `NeverCompletes`; a run: `CampaignCanRunOnEmpty`).
  Nor need it be when the last settlements overlap: each looks for open recipients without
  seeing what the other has not committed (`CompletedIffOneLooksLast`; a run: `OverlapCanLeaveItRunning`).
- Per-recipient estimates sum to the budget exactly when the audience divides it (`SharesAddUp`).
- `replay` spends the dead letter before it inserts the new row; a crash in between keeps the
  evidence but delivers nothing (`CrashLoses`, `UndeliverableIff`; a run: `ReplayCrashLosesDelivery`).
- An automation run may end with steps never run for a recipient whose message was answered
  and none of whose steps failed. For calls that take at least `low` actions, at instants that
  do not go back, it may exactly in workflows where a template step that can be reached is
  followed, without a further message, by a delay, or by `low` steps and one more (`LeavesBehindIff`).
- An SVG element with the class token `page` never matches itself, because its `className`
  is an object, so an equal tree is replaced (`EqualTreesQuiet`).
- An empty parameter value, a parameter called `__proto__` and an empty inbox conversation id
  do not survive the hash (`Router.RoundTripIff`); filters the reader refuses are dropped on
  reading, so the URL changes once more (`SyncSettlesIff`;
  an instance: `DroppedFilterChangesUrl`).
- A row without cells is printed as an empty line and read as one empty cell (`Csv.RoundTripIff`).
- Following cursors is refused midway exactly when a page's cursor is longer than `decode` takes,
  or is presented 900 seconds after its page or later (`CursorsReturnTheSortedList`; instances:
  `ThreePagesFollowed`, `LateFollowerRefused`).
- Sorting automations by update time orders by the instant and compares cursors as text; a
  session time zone whose clock goes back is enough to lose a row (`UpdatedPagesRightIff`; an
  instance: `RepeatedHourLosesRow`).

## Model

| member | source | states |
|---|---|---|
| CampaignInvariant.ApplyKeeps | apps/api/src/campaigns/campaign.service.ts:476-764 | every transaction of operators, planner, dispatcher, recovery and receipts, and every crash between them, keeps the whole invariant tying recipients, reservations, commands, outbox rows, attempts, workers, the queue row and the fence together |
| CampaignInvariant.RunKeeps | apps/api/src/channels/dispatcher.service.ts:233-312 | so does every interleaving of them, however long |
| CampaignTheorems.AtMostOneDelivery | apps/api/src/channels/dispatcher.service.ts:312-450 | over any run with any retries, crashes and recoveries the provider takes at most one message for a recipient, and none for one that is not in flight, unknown or committed |
| CampaignTheorems.OneCommandAtATime | apps/api/src/campaigns/campaign.service.ts:620-685 | two commands of one recipient are never both unsettled, accepted or unknown |
| CampaignTheorems.RunAdvances | apps/api/src/campaigns/campaign.service.ts:718-740 | over any run commands are never removed nor handed to another recipient, fences and the stop version never fall |
| CampaignTheorems.StepAdvances | apps/api/src/campaigns/campaign.service.ts:640-685 | the same of one step; and a step that is neither a launch nor an operator action moves no fence, adds no queue row and does not change one |
| CampaignTheorems.OnlyPlansAndRetriesCommand | apps/api/src/campaigns/campaign-planner.service.ts:82-119 | only a planner call or a retry makes a command |
| CampaignTheorems.UnknownIsFinal | apps/api/src/campaigns/campaign-dispatch.ts:123-136 | once a recipient's outcome is unknown its row never changes again and no later command is ever made for it |
| CampaignTheorems.FenceStep | apps/api/src/campaigns/campaign.service.ts:718-740 | every accepted pause, resume, cancel or retry raises the stop version by exactly one, nothing else moves it, and only a resume renews a command's fence |
| CampaignTheorems.CatchesUpOnlyByResume | apps/api/src/campaigns/campaign.service.ts:725-740 | a command behind the fence is current again only after a resume in the run renewed that very command |
| CampaignTheorems.GuardMeans | apps/api/src/campaigns/campaign-dispatch.ts:88-114 | in every state satisfying the invariant a claimed command is sent if and only if the execution is running, the command's fence is current, and approval, consent, expiry and permission allow it |
| CampaignTheorems.NoSendAcrossAStop | apps/api/src/campaigns/campaign-dispatch.ts:88-114 | nothing is sent while paused or cancelled; a command older than a pause or cancel passes the guard only if a later resume renewed its fence |
| CampaignTheorems.ReservationFollowsRecipient | apps/api/src/campaigns/campaign.service.ts:524-540 | in every reachable state the reservation state is fixed, both ways, by the recipient state; a failed recipient's money is kept exactly when the provider had accepted the message |
| CampaignTheorems.BudgetIsConserved | apps/api/src/campaigns/campaign.service.ts:524-540 | from launch on, held, spent and freed money always sum to the launch's shares, through plan, skip, cancel, settle, retry and crash |
| CampaignTheorems.SharesAddUp | packages/database/migrations/0020_campaign_core.sql:204-223 | the six stored decimals of a share are the nearest to the budget divided by the audience, a half upwards; they sum to the budget exactly when the audience divides it |
| CampaignTheorems.PlannedHasWork | apps/api/src/campaigns/campaign-planner.service.ts:49-144 | a planned recipient always has a live execution, and unless that is paused a queue row under the current stop version |
| CampaignTheorems.QueueFreshStep | apps/api/src/campaigns/campaign.service.ts:595-706 | every step keeps the queue row under the current stop version, except exactly a retry that finds a row already there |
| CampaignTheorems.QueueRowCanGoStale | apps/api/src/campaigns/campaign.service.ts:595-706 | a concrete run (send, pause, resume, settle, retry) that leaves a stale queue row |
| CampaignTheorems.PlanCallProgress | apps/api/src/campaigns/campaign-planner.service.ts:82-143 | one due planner call takes exactly its limit of planned recipients or all that are left, and keeps the queue row due while any remain |
| CampaignTheorems.PlannerDrains | apps/api/src/campaigns/campaign-planner.service.ts:47-145 | `m` due planner calls with limit `l` leave exactly `max(0, n - m * l)` of `n` planned recipients |
| CampaignTheorems.RetryPossible | apps/api/src/campaigns/campaign.service.ts:595-706 | a completed campaign with failures can be retried if and only if no recipient failed after the provider had accepted |
| CampaignTheorems.RescheduledIsClaimable | apps/api/src/channels/dispatcher.service.ts:233-310 | a send rescheduled by its own answer can be claimed again if and only if the execution runs and no operator action overtook it on the wire |
| CampaignTheorems.CompletedMeansDrained | apps/api/src/channels/dispatcher.service.ts:844-863 | a completed campaign has no recipient planned, queued or in flight; a cancelled one none planned |
| CampaignProgress.CanSettleIff | apps/api/src/channels/dispatcher.service.ts:153-312 | a recipient in flight can still settle if and only if a live worker holds its command or an attempt on it was never answered |
| CampaignProgress.WorkerSettles | apps/api/src/channels/dispatcher.service.ts:312-450 | a live worker, at whatever stage, settles its recipient by its remaining steps, whatever the guard and the provider say |
| CampaignProgress.StrandedForGood | apps/api/src/channels/dispatcher.service.ts:233-310 | otherwise the recipient stays in flight and its money reserved over every further run, and the campaign never completes |
| CampaignProgress.CompletesIff | apps/api/src/channels/dispatcher.service.ts:798-863 | a step completes a campaign if and only if it runs and the step settles the one recipient still open |
| CampaignProgress.DrainsUnnoticedIff | apps/api/src/campaigns/campaign-planner.service.ts:92-143 | exactly which steps leave a live campaign with nobody open and not completed: a launch for nobody, a planner call skipping all that are left, the last settlement while it does not run |
| CampaignProgress.NeverCompletes | apps/api/src/channels/dispatcher.service.ts:844-863 | such a campaign is never completed by any further run |
| CampaignOverlap.CompletedIffOneLooksLast | apps/api/src/channels/dispatcher.service.ts:822-863 | of settlements whose transactions overlap, with no row locked by the look: when all have committed the campaign is completed if and only if at some moment all but one of them had, and that one had yet to look |
| CampaignOverlap.SerialCompletes | apps/api/src/channels/dispatcher.service.ts:844-863 | settlements that do not overlap complete it |
| CampaignOverlap.OverlapCanLeaveItRunning | apps/api/src/channels/dispatcher.service.ts:844-863 | two that do: both settle and nobody completes it |
| CampaignRuns.RetryCanBeRefused | apps/api/src/campaigns/campaign.service.ts:665-674 | a run to a completed campaign with a failed recipient whose retry is refused for its committed reservation |
| CampaignRuns.QueuedCanBeUnclaimable | apps/api/src/channels/dispatcher.service.ts:233-310 | a run to a queued recipient whose command cannot be claimed in any continuation before a resume renews it |
| CampaignRuns.RecipientCanBeStranded | apps/api/src/channels/dispatcher.service.ts:233-310 | a run that strands its recipient in flight |
| CampaignRuns.CampaignCanRunOnEmpty | apps/api/src/campaigns/campaign-planner.service.ts:191-201 | a run to a running campaign with nobody open, which no continuation completes |
| CampaignStore.Store.Launch | apps/api/src/campaigns/campaign.service.ts:476-546 | the row-by-row launch is the launch transaction, with its refusals in the source's order; what that makes due is `LaunchMeans` |
| CampaignStore.Store.ControlCampaign | apps/api/src/campaigns/campaign.service.ts:708-764 | the row updates of pause, resume and cancel are the control transaction, and it refuses exactly where the lifecycle table does |
| CampaignStore.Store.RefenceWaiting | apps/api/src/campaigns/campaign.service.ts:732-737 | afterwards every command a queued recipient still waits for is under the current fence, and no other command and no other column is touched |
| CampaignStore.Store.CancelOpen | apps/api/src/campaigns/campaign.service.ts:741-759 | afterwards nobody is planned or queued and no cancelled recipient holds money, an outbox row or a waiting command; recipients in flight or settled, their commands and money stay as they were |
| CampaignStore.Store.RetryFailures | apps/api/src/campaigns/campaign.service.ts:595-706 | the loop over failed recipients is all or nothing: every row of the retry transaction, or the rows as they were; what the rows are is `RetryMeans` |
| CampaignStore.Store.RetryEveryone | apps/api/src/campaigns/campaign.service.ts:647-685 | the loop succeeds exactly when every failed recipient's reservation is free |
| CampaignStore.Store.RetryRecipient | apps/api/src/campaigns/campaign.service.ts:648-684 | one replaced command: budget first, and refused when it is not free |
| CampaignStore.Store.PlanBatch | apps/api/src/campaigns/campaign-planner.service.ts:47-145 | the planner's row updates are the planning transaction and it reports how many recipients it handled |
| CampaignStore.Store.PlanEveryone | apps/api/src/campaigns/campaign-planner.service.ts:82-139 | the loop plans the locked recipients in order, each once |
| CampaignStore.Store.PlanRecipient | apps/api/src/campaigns/campaign-planner.service.ts:94-119 | one recipient becomes a fenced command or a skip with a freed reservation |
| CampaignStore.Store.MakeRunnable | apps/api/src/campaigns/campaign-planner.service.ts:176-189 | a stale or stopped queue row is dropped; a due scheduled execution starts |
| CampaignStore.Store.SkipInvalid | apps/api/src/campaigns/campaign-planner.service.ts:191-201 | skipping touches that recipient's row and reservation only |
| CampaignMeaning.StatesLeave | packages/domain/src/campaigns/lifecycle.ts:69-139 | which triggers each state of a campaign reacts to, and no others |
| CampaignMeaning.StatesEnter | packages/domain/src/campaigns/lifecycle.ts:69-139 | which triggers lead into each state |
| CampaignMeaning.ActionsSettle | apps/api/src/campaigns/campaign.service.ts:708-764 | from which states an operator can pause, resume or cancel, and the state that settles in |
| CampaignMeaning.LaunchAccepted | apps/api/src/campaigns/campaign.service.ts:476-518 | a launch is accepted if and only if the connection is ready, the campaign approved, ready and not expired, and its audience counted |
| CampaignMeaning.LaunchRefusedAs | apps/api/src/campaigns/campaign.service.ts:476-518 | each refusal is told exactly when; "already launched" can never be |
| CampaignMeaning.LaunchMeans | apps/api/src/campaigns/campaign.service.ts:519-540 | after a launch the work is due at an instant if and only if that is not before the time asked for, or the launch when none was; every recipient is planned with an equal share reserved |
| CampaignMeaning.ScheduledWaits | apps/api/src/campaigns/campaign-planner.service.ts:49-80 | over every run without a planner call at or after that time a scheduled campaign stays scheduled, or is cancelled, with no command and nothing sent |
| CampaignMeaning.ScheduledStarts | apps/api/src/campaigns/campaign-planner.service.ts:176-189 | and the first planner call from then on starts it |
| CampaignMeaning.PlanMeans | apps/api/src/campaigns/campaign-planner.service.ts:82-143 | a due call handles exactly the first `limit` planned recipients: a command under the current stop version that can be claimed, or a skip with the money freed; everybody else is left as they were |
| CampaignMeaning.PlansOnlyWhenDue | apps/api/src/campaigns/campaign-planner.service.ts:49-80 | no command is planned before the queue row is due nor in a campaign neither scheduled nor running |
| CampaignMeaning.RetryMeans | apps/api/src/campaigns/campaign.service.ts:640-685 | after an accepted retry exactly the failed recipients are queued, each with a new command under the raised stop version that can be claimed at once and its whole estimate reserved; everybody else is left as they were |
| CampaignMeaning.RetryRefusedAs | apps/api/src/campaigns/campaign.service.ts:595-674 | each refusal of a retry is told exactly when |
| CampaignMeaning.ControlMeans | apps/api/src/campaigns/campaign.service.ts:708-740 | after an accepted action the campaign is paused, running or cancelled, and work is due only after a resume, from that instant |
| CampaignMeaning.ResumedIsClaimable | apps/api/src/campaigns/campaign.service.ts:732-737 | after a resume every command that waits for a queued recipient can be claimed |
| CampaignMeaning.CancelMeans | apps/api/src/campaigns/campaign.service.ts:741-759 | a cancel cancels exactly the planned and queued recipients, frees their money and takes their commands out of the outbox |
| CampaignMeaning.ClaimMeans | apps/api/src/channels/dispatcher.service.ts:233-310 | a dispatcher takes a command if and only if it waits in the outbox for a queued recipient of a running campaign under the current stop version; the recipient is then in flight and the try counted |
| CampaignMeaning.GuardRow | apps/api/src/campaigns/campaign-dispatch.ts:88-114 | of any row: the send passes if and only if both states run, the recipient is in flight, the fence current, and approval, expiry and consent allow it |
| CampaignMeaning.RefusalMeans | apps/api/src/campaigns/campaign-dispatch.ts:88-114 | a refused send skips its recipient, frees its money and leaves no attempt |
| CampaignMeaning.AnswerMeans | apps/api/src/channels/dispatcher.service.ts:312-450 | what each answer makes of recipient, command, money and outbox; a retryable rejection waits again before the fifth try and fails at it |
| CampaignMeaning.RecoveryMeans | apps/api/src/channels/dispatcher.service.ts:153-190 | an attempt that never got an answer leaves its recipient and command unknown, the money held and nothing in the outbox |
| CampaignMeaning.ReceiptMeans | apps/api/src/channels/dispatcher.service.ts:922-942 | which receipts move an accepted message's recipient, from which states, and where to |
| RelayInvariant.ApplyKeeps | apps/api/src/broker/relay.service.ts:75-146 | every single SQL statement of every worker, and a crash before it, keeps the invariant |
| RelayInvariant.RunKeeps | apps/api/src/broker/relay.service.ts:54-247 | every interleaving of statements keeps it |
| RelayTheorems.EnvelopeKept | apps/api/src/broker/relay.service.ts:75-146 | every envelope ever enqueued still has an outbox row or a dead letter with its tenant, topic and payload |
| RelayTheorems.PublishedWasConfirmed | apps/api/src/broker/relay.service.ts:113-124 | a row is marked published only when the broker confirmed that very id, stale workers included |
| RelayTheorems.StaysDeliverable | apps/api/src/broker/relay.service.ts:214-247 | an envelope stays deliverable (published, waiting, dead-lettered or being replayed) unless a replay of it died between its two statements |
| RelayTheorems.DescendantDelivers | apps/api/src/broker/relay.service.ts:214-247 | the same from any row descending from the envelope by replays |
| RelayTheorems.CrashLoses | apps/api/src/broker/relay.service.ts:214-232 | a crash of a replaying worker loses its envelope if and only if no row, unspent dead letter or other replay carries it |
| RelayTheorems.UndeliverableIff | apps/api/src/broker/relay.service.ts:214-247 | over every run in which no row of the envelope was dead-lettered twice: it can no longer be delivered if and only if a replay of it died and no row carries it |
| RelayTheorems.ReplayCrashLosesDelivery | apps/api/src/broker/relay.service.ts:214-232 | a concrete run in which that happens: the dead letter stays as evidence and nothing will ever deliver it |
| RelayTheorems.RescheduledAtMostSevenTimes | apps/api/src/broker/relay.service.ts:126-143 | one outbox row is rescheduled at most seven times, whatever leases expire and workers overlap |
| RelayTheorems.ClaimsClimb | apps/api/src/broker/relay.service.ts:84-101 | a claim captures an attempt number above every one held or rescheduled before for that row |
| RelayTheorems.EffectAtMostOncePerId | apps/api/src/broker/relay.service.ts:155-180 | a consumer's committed effect happens at most once for an id, however often it is redelivered |
| RelayTheorems.EffectsPerEnvelope | apps/api/src/broker/relay.service.ts:214-232 | for one envelope it happens at most once plus once for every completed replay |
| RelayTheorems.RowsMadeByRun | apps/api/src/broker/relay.service.ts:214-232 | the rows ever made for an envelope are its enqueue and its completed replays |
| RelayStore.Relay.EnqueueEnvelope | apps/api/src/broker/relay.service.ts:54-66 | one row more, ready at once, under an id no row and no letter ever had; the envelope is deliverable and nothing else changes |
| RelayStore.Relay.Oldest | apps/api/src/broker/relay.service.ts:89-89 | the pick is the row longest available |
| RelayStore.Relay.ReadyIds | apps/api/src/broker/relay.service.ts:84-92 | the claim takes ready rows oldest first, and a ready row it leaves out is no older than any it took and the limit was reached |
| RelayStore.Relay.Drain | apps/api/src/broker/relay.service.ts:75-146 | one drain is a run of the statement model; claimed = published + retried + dead-lettered, each counter equal to what happened to the tables; what a claim may take is `RelayMeaning.ClaimMeans` |
| RelayStore.Relay.PublishAndSettle | apps/api/src/broker/relay.service.ts:106-142 | one claimed row is settled by exactly the statements its answer and attempt number call for |
| RelayStore.Relay.ClaimDelivery | apps/api/src/broker/relay.service.ts:155-180 | true if and only if the (id, consumer) pair was never claimed; afterwards the consumer has acted exactly once for it, and a redelivery adds no effect |
| RelayStore.Relay.Replay | apps/api/src/broker/relay.service.ts:214-232 | an undisturbed replay spends exactly that tenant's unspent letter and writes one new row for its envelope, or changes nothing |
| RelayMeaning.ClaimMeans | apps/api/src/broker/relay.service.ts:84-101 | a claim takes distinct rows, none published, none before it is available, none under a lease that stands; each is leased for a minute and its attempt counted, and no other row changes |
| RelayMeaning.FreeRowsCanBeClaimed | apps/api/src/broker/relay.service.ts:84-92 | every row free in that sense can be claimed |
| RelayMeaning.SettleMeans | apps/api/src/broker/relay.service.ts:106-142 | by the answer: the row is published, or dead-lettered when refused or at the eighth attempt, or waits five seconds doubled for every attempt before; no other row changes |
| RelayMeaning.RemovalMeans | apps/api/src/broker/relay.service.ts:234-247 | after its dead letter exactly that row is removed |
| RelayMeaning.PublishedNeverClaimed | apps/api/src/broker/relay.service.ts:85-88 | over every run: a row once published or removed is never claimed again |
| RelayMeaning.LeaseHolds | apps/api/src/broker/relay.service.ts:84-101 | over every run: for a minute no claim takes a row from the only worker that claimed it, before that worker writes something |
| RelayMeaning.RescheduledWaits | apps/api/src/broker/relay.service.ts:135-142 | over every run: a rescheduled row nobody else held is claimed no earlier than its next attempt is due |
| RelayMeaning.ReplayMarkMeans | apps/api/src/broker/relay.service.ts:214-226 | a replay starts if and only if the letter is there, unspent and of that tenant, and spends it and nothing else |
| RelayMeaning.ReplayInsertMeans | apps/api/src/broker/relay.service.ts:227-230 | its second statement writes the letter's envelope into one new row, free at once and never tried |
| RelayMeaning.ConsumeMeans | apps/api/src/broker/relay.service.ts:155-180 | every committed delivery is counted, the first of them has the effect, and one rolled back leaves nothing |
| AutomationInvariant.ApplyKeeps | apps/api/src/automations/automation-runner.service.ts:71-92 | every call and every outcome of a message keeps the run's invariant |
| AutomationInvariant.RunKeeps | apps/api/src/automations/automation-runner.service.ts:71-108 | every sequence of them keeps it |
| AutomationInvariant.NextIsFirst | apps/api/src/automations/automation-runner.service.ts:147-149 | the query's pick comes no later than any eligible action in (available_at, recipient, step) order |
| AutomationInvariant.AtCursor | apps/api/src/automations/automation-runner.service.ts:147-149 | what is eligible is the recipient's first unfinished step, nothing failed before it, and it has had at most the one attempt that began its delay |
| AutomationInvariant.ExecuteActionKeeps | apps/api/src/automations/automation-runner.service.ts:151-182 | executing an eligible action keeps the working invariant, whatever branch it takes |
| AutomationInvariant.ReconcileKeeps | apps/api/src/automations/automation-runner.service.ts:186-186 | so does taking over the outcomes of messages |
| AutomationInvariant.FinalizeKeeps | apps/api/src/automations/automation-runner.service.ts:188-193 | finalizing keeps it, closes the run's books when it ends it and leaves queue and actions alone |
| AutomationInvariant.PassesCompletes | apps/api/src/automations/automation-runner.service.ts:151-182 | a step that can pass completes, moves that recipient one step on and is logged once |
| AutomationInvariant.DelayWaits | apps/api/src/automations/automation-runner.service.ts:153-156 | a valid delay met for the first time waits, and nobody else is touched |
| AutomationInvariant.StepFails | apps/api/src/automations/automation-runner.service.ts:184-184 | any other step fails its recipient only |
| AutomationTheorems.StepsRunInOrder | apps/api/src/automations/automation-runner.service.ts:71-108 | at every boundary a recipient has a completed prefix of length `current_step`, then at most one waiting or failed step, then pending ones; no step is attempted more than twice |
| AutomationTheorems.EachStepOnceInOrder | apps/api/src/automations/automation-runner.service.ts:151-182 | the log shows each recipient's steps taking effect once each, in the workflow's order |
| AutomationTheorems.OneMessagePerTemplateStep | apps/api/src/automations/automation-runner.service.ts:157-170 | a message exists exactly for each completed template step of a recipient |
| AutomationTheorems.WaitsForLatestMessage | apps/api/src/automations/automation-runner.service.ts:157-170 | a recipient refers to the latest of its messages |
| AutomationTheorems.QueuedExactlyWhileOpen | apps/api/src/automations/automation-runner.service.ts:195-196 | the run has a work-queue row exactly while it is not terminal |
| AutomationTheorems.WakesInTime | apps/api/src/automations/automation-runner.service.ts:195-195 | the queue row of a running run is due no later than any open action |
| AutomationTheorems.EndedRunAddsUp | apps/api/src/automations/automation-runner.service.ts:188-193 | a planned run ends with nobody pending or queued, and message-free completions + sent + failed + skipped = audience, delivered <= sent |
| AutomationTheorems.VerdictMeans | apps/api/src/automations/automation-runner.service.ts:188-193 | completed if and only if nobody failed, failed if and only if everybody did, otherwise partially completed |
| AutomationTheorems.EndIsFinal | apps/api/src/automations/automation-runner.service.ts:71-92 | after the end nothing but the messages' own outcomes changes |
| AutomationCompleteness.EndedRunFinishedEveryone | apps/api/src/automations/automation-runner.service.ts:188-193 | when no step follows a template step, an ended run has completed every step of every recipient that did not fail |
| AutomationCompleteness.LeftBehindNeedsTemplate | apps/api/src/automations/automation-runner.service.ts:188-193 | a recipient left behind by an ended run needs a template step, reachable and not last |
| AutomationStaging.LeavesBehindIff | apps/api/src/automations/automation-runner.service.ts:71-92 | for calls of between `low` and `high` actions (`low` at least 1) at instants that do not go back: some run ends with a recipient left behind if and only if a reachable template step is followed, without a further message, by a delay, or by `low` passable steps and one more |
| AutomationStaging.EndsEarlyRun | apps/api/src/automations/automation-runner.service.ts:71-92 | for every such workflow and every limit a run with calls of exactly that limit that leaves its last recipient behind |
| AutomationEarlyEnd.LeftBehindEndsEarly | apps/api/src/automations/automation-runner.service.ts:188-193 | over every such run, a recipient left behind by the end means such a workflow |
| AutomationEarlyEnd.OwnTurns | apps/api/src/automations/automation-runner.service.ts:81-88 | within one call, a recipient that has its message from before, and ends the call ready without having met a delay, had every one of the call's actions |
| AutomationLine.FirstPick | apps/api/src/automations/automation-runner.service.ts:147-149 | while anybody has a pending step to take, the query picks nobody who comes later, and the one recipient that has begun if there is one |
| AutomationLine.RunLine | apps/api/src/automations/automation-runner.service.ts:71-108 | at every boundary of a run whose clock does not go back at most one ready recipient has begun and all other ready ones come after it; pending actions date from the planning |
| AutomationCompleteness.SettledRunEnds | apps/api/src/automations/automation-runner.service.ts:188-193 | when nothing is left to do for anybody, the next due call ends the run and drops its queue row |
| AutomationCompleteness.WorkBounded | apps/api/src/automations/automation-runner.service.ts:71-92 | a run executes at most a fixed number of actions in all |
| AutomationCompleteness.LoopStops | apps/api/src/automations/automation-runner.service.ts:81-88 | the loop stops only when nothing is due or `limit` actions have been executed |
| AutomationCompleteness.DueWorkDrains | apps/api/src/automations/automation-runner.service.ts:81-88 | a call whose limit covers the executions the run has left leaves nothing due |
| AutomationRunner.Runner.ExecuteRun | apps/api/src/automations/automation-runner.service.ts:71-92 | the call on the tables is the transaction on their values; it does nothing exactly when no row is due |
| AutomationRunner.Runner.HandleDue | apps/api/src/automations/automation-runner.service.ts:81-88 | the loop executes due actions one after the other, at most `limit` |
| AutomationRunner.Runner.HandleNext | apps/api/src/automations/automation-runner.service.ts:81-88 | one turn of the loop |
| AutomationRunner.Runner.PlanRun | apps/api/src/automations/automation-runner.service.ts:95-108 | planning writes a recipient for each contact, once even without an identity, and an action for each of its steps, or fails the run |
| AutomationRunner.Runner.InsertActions | apps/api/src/automations/automation-runner.service.ts:95-108 | one pending action for every step |
| AutomationRunner.Runner.ExecuteOne | apps/api/src/automations/automation-runner.service.ts:151-182 | the in-place execution of one action in each of its branches |
| AutomationRunner.Runner.Fail | apps/api/src/automations/automation-runner.service.ts:184-184 | failing changes the action and its recipient only |
| AutomationRunner.Runner.ReconcileOutbound | apps/api/src/automations/automation-runner.service.ts:186-186 | the update in a loop over recipients; what it makes of them is `ReconcileMeans` and `StatusIsLastWord` |
| AutomationRunner.Runner.FinalizeRun | apps/api/src/automations/automation-runner.service.ts:188-193 | both updates and the counters |
| AutomationRunner.Runner.Schedule | apps/api/src/automations/automation-runner.service.ts:195-195 | the queue row is dropped or moved to the earliest wake-up |
| AutomationMeaning.ReconcileMeans | apps/api/src/automations/automation-runner.service.ts:186-186 | one call: a recipient it still listens for gets the status its message stands for, failed if and only if refused, sent if and only if accepted without a later receipt, and so on; nobody else changes |
| AutomationMeaning.StatusIsLastWord | apps/api/src/automations/automation-runner.service.ts:71-92 | over every run: a recipient whose steps did not fail has the status of its latest message as a call last took its word, queued if none did, pending or completed if there is no message |
| AutomationMeaning.CountersMean | apps/api/src/automations/automation-runner.service.ts:188-193 | an ended run counts as sent the recipients whose last word was accepted or received, as delivered those received, as failed those refused or unknown and those whose own steps failed |
| AutomationMeaning.FirstTemplateMeans | apps/api/src/automations/automation-runner.service.ts:198-198 | the template step that comes first decides, and one that names no template leaves everybody without an identity |
| AutomationMeaning.PlanMeans | apps/api/src/automations/automation-runner.service.ts:95-108 | planning makes one recipient of everybody the target names, however often, and of nobody else, every step pending at once; with nobody the run is complete, and an unknown target fails it |
| AutomationMeaning.ActionMeans | apps/api/src/automations/automation-runner.service.ts:151-184 | a due step waits, for exactly its seconds, if and only if it is a delay of 1 to 31,536,000 seconds just met; it completes if and only if it is that delay again, a template that can be sent, or complete; otherwise it fails; only the template writes a message |
| AutomationMeaning.DelayHolds | apps/api/src/automations/automation-runner.service.ts:147-156 | over every run: until its delay is over no call takes a step for a recipient |
| AutomationMeaning.QueueRowMeans | apps/api/src/automations/automation-runner.service.ts:195-195 | after a call on a run that goes on, the queue row is due exactly when the first pending or waiting action is, or a second later when there is none |
| DomPatch.Reconcile | apps/web/src/dom.ts:60-68 | afterwards the live parent shows exactly what was wanted, as a full replace would, in the objects the patch model names, and nothing was written if and only if every child was already quiet; terminates. Which nodes match is `IdentityMeans` |
| DomPatch.PatchNode | apps/web/src/dom.ts:80-120 | the live node is patched or replaced in place, its siblings and everything outside both trees untouched, writing nothing if and only if the two are quiet |
| DomPatch.PatchChildren | apps/web/src/dom.ts:108-114 | the child loop and the removal of surplus children give the patched children |
| DomPatch.PatchChild | apps/web/src/dom.ts:109-113 | one turn: patch in place or append, all earlier and later children still standing |
| DomPatch.RemoveSurplus | apps/web/src/dom.ts:114-114 | exactly the children past the end go, one write each |
| DomPatch.PatchElement | apps/web/src/dom.ts:100-114 | a matching but different element becomes what the next one shows, with at least one write |
| DomPatch.PatchText | apps/web/src/dom.ts:92-99 | a text or comment only changes its data |
| DomPatch.PatchAttributes | apps/web/src/dom.ts:102-107 | the attributes become the next ones and each write is a difference |
| DomPatch.RemoveAttributes | apps/web/src/dom.ts:102-104 | the first loop removes exactly the attributes the next element lacks |
| DomPatch.SetAttributes | apps/web/src/dom.ts:105-107 | the second writes exactly the values that differ |
| DomPatch.IsEqualNode | apps/web/src/dom.ts:91-91 | the deep comparison on live objects decides equality of what they show |
| DomTheorems.PatchedIsNext | apps/web/src/dom.ts:80-120 | patching gives the same tree as replacing |
| DomTheorems.KidsAreNext | apps/web/src/dom.ts:108-114 | child by child, whatever the two numbers of children |
| DomTheorems.SurvivesIffMatches | apps/web/src/dom.ts:72-84 | the object standing at a place is the old one if and only if identity matches at every place on its path, and otherwise the new tree's |
| DomTheorems.NewPlacesAreNew | apps/web/src/dom.ts:109-113 | a place the old tree lacked is taken by the new tree's object |
| DomTheorems.EqualTreesQuiet | apps/web/src/dom.ts:76-91 | equal trees cause no write and keep every object, except exactly when the root can never match itself |
| DomTheorems.AllQuietEqual | apps/web/src/dom.ts:60-68 | no writes means the children were equal already |
| DomTheorems.IdentityOfEqual | apps/web/src/dom.ts:70-78 | a head matches itself if and only if it is not a foreign element carrying the class token `page` |
| DomTheorems.NoAttrWritesIffEqual | apps/web/src/dom.ts:102-107 | attributes are written if and only if they differ |
| DomTheorems.PatchedProper | apps/web/src/dom.ts:80-120 | the result is a proper tree: no object twice, none from outside the two trees |
| DomTheorems.PatchedKidsProper | apps/web/src/dom.ts:108-114 | the same of a row of children |
| DomMeaning.IdentityMeans | apps/web/src/dom.ts:70-78 | two nodes match if and only if they are of one kind and name and, elements, of one namespace, not two containers of different pages, and in none of the eight attributes different, absence included |
| DomMeaning.RootSurvives | apps/web/src/dom.ts:80-84 | so the live object at the root is kept exactly then |
| DomMeaning.PathSurvives | apps/web/src/dom.ts:80-114 | and at a place below exactly when that holds at every place down to it, until an equal subtree is met |
| DomMeaning.DifferingReplaced | apps/web/src/dom.ts:70-84 | an `id`, `data-act` or other of the eight attributes that differs anywhere on the path puts the next tree's object there |
| Crc.BuildTable | apps/web/src/xlsx.ts:26-34 | every table entry is eight shift steps of its index |
| Crc.Crc32 | apps/web/src/xlsx.ts:36-40 | the table-driven loop computes the bit-by-bit checksum, for every byte sequence |
| Crc.Fold | apps/web/src/xlsx.ts:38-38 | the loop over the bytes folds them into the register |
| Crc.FoldByte | apps/web/src/xlsx.ts:38-38 | one table lookup is eight shift steps |
| Crc.EightStepsLinear | apps/web/src/xlsx.ts:29-31 | eight shift steps are linear over exclusive or |
| Crc.ByteStep | apps/web/src/xlsx.ts:38-38 | so the low byte can go through the table and the rest be shifted |
| CrcDivision.ChecksumIsRemainder | apps/web/src/xlsx.ts:36-40 | the checksum is the remainder of polynomial division of the complemented message (section 8 of RFC 1952) |
| CrcDivision.SerialDivides | apps/web/src/xlsx.ts:29-31 | the shift register is the running remainder of long division, bit by bit |
| CrcDivision.RegisterIsSerial | apps/web/src/xlsx.ts:36-40 | the byte-at-a-time register is the bit-at-a-time one |
| CrcDivision.DivisorIsPolynomial | apps/web/src/xlsx.ts:30-30 | the constant is the generator polynomial with its bits reflected |
| CrcDivision.OneByteChangeDetected | apps/web/src/xlsx.ts:36-40 | changing any one byte changes the checksum |
| Utf8.RoundTrip | apps/web/src/xlsx.ts:60-60 | decoding an encoded name gives it back |
| Zip.ReadsBack | apps/web/src/xlsx.ts:53-102 | reading an archive from its end record gives the entries back, names, bytes and order, for all entries within the field limits |
| Zip.EntryReads | apps/web/src/xlsx.ts:59-92 | each central record's offset points at a local header with the same name, size and checksum, followed by the entry's bytes |
| Zip.LaidReads | apps/web/src/xlsx.ts:93-102 | an archive whose records stand where its end record and directory say reads back |
| Zip.ArchiveLaid | apps/web/src/xlsx.ts:53-102 | a written archive is laid out so: offsets are the lengths written before |
| Zip.CentralReads | apps/web/src/xlsx.ts:75-88 | an independent reader of section 4.3.12 of APPNOTE.TXT reads a written central record |
| Zip.LocalReads | apps/web/src/xlsx.ts:63-74 | one of section 4.3.7 reads a written local header and its data |
| ZipWriter.WriteArchive | apps/web/src/xlsx.ts:53-102 | the writer's loop with its running offset produces the archive, for entries of any number and size |
| ZipWriter.Records | apps/web/src/xlsx.ts:60-88 | one turn writes the local header and the central record for the same entry and offset |
| ZipWriter.LocalRecord | apps/web/src/xlsx.ts:63-74 | the buffer written field by field is the local header |
| ZipWriter.CentralRecord | apps/web/src/xlsx.ts:75-88 | the buffer written field by field is the central record |
| ZipWriter.EndOfDirectory | apps/web/src/xlsx.ts:93-100 | the buffer written field by field is the end record |
| ZipWriter.ConcatParts | apps/web/src/xlsx.ts:42-50 | the copied buffer is the concatenation of its parts |
| ZipMeaning.LocalHeaderIs | apps/web/src/xlsx.ts:63-74 | every field of a local header at its offset (section 4.3.7 of APPNOTE.TXT): signature, version 2.0, UTF-8 flag, stored, stamp, checksum, both sizes, name |
| ZipMeaning.CentralRecordIs | apps/web/src/xlsx.ts:75-88 | every field of a central record (section 4.3.12), its offset included |
| ZipMeaning.EndRecordIs | apps/web/src/xlsx.ts:94-100 | every field of the end record (section 4.3.16) |
| ZipMeaning.StampReads | apps/web/src/xlsx.ts:54-55 | a stamp is read as the very day and time, to two seconds, if and only if the year is from 1980 to 2107 |
| Csv.CsvRows | apps/web/src/lead-sheet.ts:53-73 | the index loop is the state machine, with its unterminated-quote error |
| Csv.PrintedTableParses | apps/web/src/xlsx.ts:227-232 | parsing a printed table gives every cell as a reader sees it, quotes, commas and line ends included |
| Csv.RoundTripIff | apps/web/src/lead-sheet.ts:53-73 | it is the very table if and only if no row is empty and no cell looks like a formula (section 2 of RFC 4180) |
| Csv.ScanQuoted | apps/web/src/lead-sheet.ts:60-68 | inside quotes everything is taken as it is and a doubled quote once |
| Csv.ScanField | apps/web/src/xlsx.ts:227-232 | a printed field is read as one cell whatever it holds |
| Csv.ScanTable | apps/web/src/lead-sheet.ts:53-73 | rows printed one after the other are read one after the other |
| Csv.NoFormulaReadBack | apps/web/src/xlsx.ts:227-232 | no text that was typed is read back beginning with one of the six characters a spreadsheet runs; those come back behind an apostrophe and everything else as it was |
| Csv.AnyLineEnd | apps/web/src/lead-sheet.ts:65-72 | rows of plain cells are read whichever of the three line ends each has, the last one even without |
| Csv.BadQuotes | apps/web/src/lead-sheet.ts:60-71 | a quote inside plain text is refused, and a quoted text never closed |
| Columns.ColumnName | apps/web/src/xlsx.ts:116-120 | the loop writes the letters of a column |
| Columns.ColumnNumber | apps/web/src/lead-sheet.ts:121-122 | the loop reads the number of letters |
| Columns.NumberOfLetters | apps/web/src/xlsx.ts:116-120 | reading written letters gives the column back |
| Columns.LettersOfNumber | apps/web/src/lead-sheet.ts:119-122 | writing read letters gives the letters back, so every name belongs to one column |
| Columns.ReferenceColumn | apps/web/src/lead-sheet.ts:119-122 | a cell reference is read as the column it was written for |
| Columns.NamesInOrder | apps/web/src/xlsx.ts:116-120 | columns are named in order: shorter names first, and letter by letter among those of one length |
| Columns.FirstNames | apps/web/src/xlsx.ts:115-120 | the first is A, the last of one letter Z, the next AA |
| SheetNames.SheetNamesOf | apps/web/src/xlsx.ts:126-135 | terminates and gives names distinct ignoring case, each non-blank, at most 31 units and free of forbidden characters, whatever the inputs, each with the lowest free counter |
| SheetNames.FreeName | apps/web/src/xlsx.ts:130-131 | the search ends by pigeonhole with the first name not taken |
| SheetNames.NumberedDistinct | apps/web/src/xlsx.ts:131-131 | distinct counters give distinct names after truncation and lower-casing |
| Instances.LoweringKeepsSuffix | apps/web/src/xlsx.ts:131-132 | lower-casing the letters A to Z keeps every numbered suffix telling |
| SheetNames.SuffixTells | apps/web/src/xlsx.ts:131-131 | a text ends with the suffix of at most one counter |
| SheetNames.NumberedAcceptable | apps/web/src/xlsx.ts:131-131 | a numbered name stays acceptable |
| SheetNames.BaseAcceptable | apps/web/src/xlsx.ts:129-129 | the cleaned base name is acceptable whatever was typed |
| SheetMeaning.BaseMeans | apps/web/src/xlsx.ts:129-129 | the base is the words of what was typed, parted by white space and the seven forbidden characters, with one space between, cut off after 31 units, and "Sheet" if there are none |
| SheetMeaning.OwnBase | apps/web/src/xlsx.ts:129-129 | a name that can be used as it was typed is its own base |
| SheetMeaning.NumberedMeans | apps/web/src/xlsx.ts:131-131 | a numbered name keeps as much of the base as leaves room for a space and the counter in brackets |
| SheetMeaning.DigitsMean | apps/web/src/xlsx.ts:131-131 | the counter is written in decimal, without a zero in front |
| SheetMeaning.SecondIsTwo | apps/web/src/xlsx.ts:131-131 | the second sheet of a name gets the counter two, unless that is taken too |
| Percent.ComponentRoundTrip | apps/web/src/router.ts:57-67 | decoding an encoded component gives it back (section 2.1 of RFC 3986) |
| Percent.EncodedCharacters | apps/web/src/router.ts:57-67 | encoded text holds no delimiter |
| Percent.OneEncodes | apps/web/src/router.ts:57-67 | letters, digits and nine marks stand for themselves and nothing else does |
| Percent.EscapeByteIs | apps/web/src/router.ts:57-67 | every other byte is a percent sign and two digits, in capitals |
| Percent.EscapesReadEither | apps/web/src/router.ts:44-52 | an escape is read in capitals or not |
| Router.ParseHash | apps/web/src/router.ts:37-55 | the loops over segments and pairs compute the parse |
| Router.PrintedRouteParses | apps/web/src/router.ts:57-67 | parsing a printed route gives its normal form, in whatever order its parameters are listed |
| Router.RoundTripIff | apps/web/src/router.ts:37-67 | it gives the route itself if and only if its conversation id is not empty and on the inbox only, no value is empty and no name is `__proto__` |
| Router.Host.WriteRoute | apps/web/src/router.ts:80-85 | afterwards the location holds the hash, which reads back as the route's normal form; it is assigned, and the listeners hear of it, if and only if it did not hold it already |
| RouteMeaning.PathMeans | apps/web/src/router.ts:38-45 | a hash opens the screen its first segment names, else the inbox; there the second segment is a conversation, and a malformed escape in it fails the hash |
| RouteMeaning.EmptyHash | apps/web/src/router.ts:38-45 | the empty hash is the inbox without a conversation and without parameters |
| RouteMeaning.SignOptional | apps/web/src/router.ts:38-38 | the sign in front can be left out |
| RouteMeaning.PairMeans | apps/web/src/router.ts:48-52 | a hand-written plus sign is a space in a value and itself in a name, and a name without an equals sign has an empty value |
| RouteMeaning.QueryMeans | apps/web/src/router.ts:46-54 | of every name the last value counts, and what follows a second question mark is ignored |
| UrlState.ProjectionFixed | apps/web/src/state.ts:230-339 | projecting, applying and projecting again changes nothing if and only if, on the inbox, the filters are ones the reader accepts |
| Instances.DroppedFilterChangesUrl | apps/web/src/state.ts:345-354 | with a codec written out in full: an inbox with a filter the reader does not admit is projected differently the second time |
| UrlState.InboxFixed | apps/web/src/state.ts:345-354 | the inbox part, with the exact condition on its filters |
| UrlState.AnalyticsFixed | apps/web/src/state.ts:230-286 | all ten analytics filters, the view and the agent come back |
| UrlState.ScreenFixed | apps/web/src/state.ts:230-286 | every other screen keeps its own parameters when projected, applied and projected again |
| RouteMeaning.LinkCarries | apps/web/src/state.ts:230-286 | for every screen and every one of the 21 names: the value a link carries for it, or that it carries none; so which of the parameters it was opened with a screen keeps, the one-time token included |
| RouteMeaning.UuidMeans | apps/web/src/state.ts:260-260 | an agent is five groups of hexadecimal digits of a version from 1 to 8 |
| RouteMeaning.InboxLinkOpens | apps/web/src/state.ts:311-320 | what a link to the inbox opens, whoever wrote it: the scope alone opens everything |
| RouteMeaning.SortOpens | apps/web/src/state.ts:318-318 | an order nobody knows is the default one |
| RouteMeaning.LanguageOpens | apps/web/src/state.ts:307-310 | a link without a language keeps the one in use |
| RouteMeaning.FiltersOpen | apps/web/src/state.ts:345-354 | filters are taken if and only if they are at most 6000 units of text, at most twenty and each admitted |
| RouteMeaning.AnalyticsLinkOpens | apps/web/src/state.ts:322-325 | the older name of the overview keeps its meaning and a view nobody knows is the campaigns |
| UrlSync.App.ApplyRoute | apps/web/src/state.ts:304-339 | applying a route assigns exactly these fields and leaves the location alone |
| UrlSync.App.RouteParams | apps/web/src/state.ts:230-286 | the record built by assignments is the projection |
| UrlSync.App.FilterParams | apps/web/src/state.ts:246-256 | ten assignments, each only for a filter that is set |
| UrlSync.App.SyncUrl | apps/web/src/app.ts:592-600 | the location becomes the printed projection, assigned once if and only if that changes it |
| UrlSync.LocationReads | apps/web/src/app.ts:592-600 | a synchronized location reads back as the screen, the projection and the conversation in normal form |
| UrlSync.SecondSync | apps/web/src/app.ts:592-600 | a second synchronization writes the same if and only if the projection is the same and the conversation id is not the empty text |
| UrlSync.SyncSettlesIff | apps/web/src/app.ts:592-600 | write, read back, write again is the same location if and only if, on the inbox, the filters are accepted and the conversation id is not the empty text |
| Cursor.DecodesWhatWasEncoded | apps/api/src/pagination.ts:54-114 | decode after encode in every case: too long or another binding, expired, or the position itself |
| Cursor.AcceptedWasSigned | apps/api/src/pagination.ts:71-114 | nothing is accepted but a text carrying the signature of its own payload, bound and in time |
| Paging.SelectIs | apps/api/src/automations/automation.service.ts:43-43 | the query returns the rows beyond the cursor in order, and nothing below its last row is left out |
| Paging.PageIs | apps/api/src/campaigns/assignment-report.service.ts:69-98 | one page of limit + 1: in order, beyond the cursor, with a next cursor exactly leading to everything still left |
| Paging.FollowedAscend | apps/api/src/automations/automation.service.ts:47-53 | whatever is inserted or deleted between requests, no row comes twice and the order is kept |
| Paging.SteadyRowsReturned | apps/api/src/automations/automation.service.ts:47-53 | a row present at every request is returned by the last page |
| Paging.PagesAreTheSortedList | apps/api/src/campaigns/assignment-report.service.ts:69-98 | over an unchanged table the pages concatenate to the sorted list, for every limit of at least one |
| Paging.SortedIs | apps/api/src/automations/automation.service.ts:43-43 | that list holds every row once, in order, and nothing else |
| Paging.AscendingUnique | apps/api/src/automations/automation.service.ts:43-43 | and it is the only such list |
| Paging.FollowEnds | apps/api/src/automations/automation.service.ts:44-45 | following ends: every next page leaves fewer rows |
| Paging.ZeroLimitEndsEmpty | apps/api/src/automations/automation.service.ts:44-45 | with limit zero it ends at once with nothing, whatever the table holds |
| Paging.CursorsArePositions | apps/api/src/campaigns/assignment-report.service.ts:69-98 | for any tables, limit and instants: following signed cursors is following positions, and the client is refused on its way if and only if some page's cursor is too long, or is presented after its time |
| Paging.CursorsReturnTheSortedList | apps/api/src/automations/automation.service.ts:35-53 | from no cursor to no next cursor over an unchanged table: exactly the matching rows, each once, in order, unless, and only unless, a page but the last ends with a row whose cursor is too long or is followed up too late |
| Paging.NextInSorted | apps/api/src/automations/automation.service.ts:43-45 | over an unchanged table page `i` ends with row `(i + 1) * limit` of the sorted list, and is the last if and only if there are no more rows |
| Paging.SelectSlice | apps/api/src/automations/automation.service.ts:43-43 | a query from behind the first `j` rows returns the slice of the sorted list that starts there |
| Instances.ThreePagesFollowed | apps/api/src/campaigns/assignment-report.service.ts:69-98 | with a packing written out in full: three rows in pages of one come back through their cursors |
| Instances.LateFollowerRefused | apps/api/src/pagination.ts:98-104 | the same, the second request 900 seconds after the first: refused |
| Paging.OtherQueryRefused | apps/api/src/pagination.ts:95-101 | a cursor presented with another tenant, query or sort is refused |
| PageSorts.PagesRightIffAgree | apps/api/src/automations/automation.service.ts:146-147 | a sort pages correctly for every table and limit if and only if its cursor condition is the same relation as its order |
| PageSorts.NamePagesRight | apps/api/src/automations/automation.service.ts:146-147 | both name sorts do |
| PageSorts.UpdatedPagesRightIff | apps/api/src/automations/automation.service.ts:146-147 | the update-time sort does if and only if written instants sort as instants do |
| PageSorts.SecondRowLost | apps/api/src/automations/automation.service.ts:146-147 | otherwise two rows are enough: the second is never returned |
| PageSorts.RepeatedHourLosesRow | apps/api/src/automations/automation.service.ts:146-147 | a Berlin session on 25 October 2026: of updates at 02:30 and, 45 minutes later, 02:15, pages of one never return the earlier |
| Limiter.AuthRateLimiter.Consume | apps/api/src/auth/auth-rate-limiter.ts:33-66 | an attempt counts against its own row only and is decided by the count it made |
| Limiter.AuthRateLimiter.Reset | apps/api/src/auth/auth-rate-limiter.ts:68-72 | only that row goes |
| Limiter.RetryDelayIsExact | apps/api/src/auth/auth-rate-limiter.ts:42-66 | blocked at an instant, the next attempt with none between is allowed exactly from the window's end; the advertised delay reaches it, one second less would not; a blocked attempt does not move it |
| Limiter.DelayIsPositive | apps/api/src/auth/auth-rate-limiter.ts:54-66 | whatever the clock does, nobody blocked is told to come back at once |
| Limiter.RateBound | apps/api/src/auth/auth-rate-limiter.ts:33-66 | any half-open interval of `k` windows holds fewer than `(k + 1) * maxAttempts` allowed attempts |
| Limiter.AllowedPerWindow | apps/api/src/auth/auth-rate-limiter.ts:33-66 | allowed attempts are bounded by the windows that began in the interval and one begun before |
| Limiter.OpeningsApart | apps/api/src/auth/auth-rate-limiter.ts:42-52 | windows begin at least a window's length apart |
| Limiter.RowSane | apps/api/src/auth/auth-rate-limiter.ts:42-52 | after every attempt the row's window is the one the attempt falls in, and the row is kept at least until it ends |
| Limiter.NoneAllowed | apps/api/src/auth/auth-rate-limiter.ts:33-66 | a maximum of zero allows nothing |
| Limiter.BoundIsReached | apps/api/src/auth/auth-rate-limiter.ts:33-66 | the bound is tight: two a window, three within one |

## Left out

- BudgetIsConserved: sums the stored shares; how they relate to the budget is `SharesAddUp`. The scale of the database's intermediate quotient is not modelled.
- PlannerDrains: covers calls that find the queue row due, with no operator action in between.
- ReadsBack: within the 16- and 32-bit field limits, as the format promises; beyond them the writer is modelled with its truncation, and nothing is claimed of reading.
- RetryDelayIsExact: the counter row's own width (32 bits) is not modelled.
- RateBound: limits are constant over a trace, times do not decrease and no reset comes between.
- SheetNamesOf: lower-casing is a parameter that keeps a numbered suffix telling; fewer than 2^32 - 1 names.
- LeavesBehindIff: between `low` and `high` each call's limit is free; the audience is free, and the run that is shown has `low` recipients.
- UpdatedPagesRightIff: how the database writes instants and its collation are parameters.
- CursorsReturnTheSortedList: that each position is read back from its text is a hypothesis; which rows' cursors are too long depends on how payloads are packed, a parameter.
- Campaigns: audience selection, content filling, consent and connection checks are inputs of the steps; outbox leases, backoff times and traffic order are not modelled, so a claim may come at any time a claim is permitted. The lifecycle state `failed` is in the table but no service enters it.
- Campaigns: the eligible count a snapshot stores is the number of its eligible members; the planner call's first transaction, which repairs inbox entries, is left out.
- CompletesIff, DrainsUnnoticedIff: as all theorems on campaign runs, with transactions taken one after the other. `CampaignOverlap` alone lets the statements of settlements interleave.
- Campaigns: the two-step pause and cancel happen in one transaction, as in the source; several campaigns at once are not modelled.
- Relay: tenants' row-level security, trace columns and the broker client are left out; the broker's answer and whether it took the message are inputs.
- Relay: `SKIP LOCKED` is any set of distinct ready rows in the run theorems; only `ReadyIds` models the order.
- Automations: choice among runs, tenants, event enqueueing, schedules and audience resolution; contacts and whether a template can be filled are inputs. Changes to labels and contact fields, and log entries other than completed actions, are not modelled.
- Tree: live form-control values, `select` replacement, focus and scrolling. Attributes are known by qualified name. A parent pointer is an argument (`owner`, `from`), and the next tree shares no object with the live one.
- Workbook: sheet XML, styles and the byte-order mark of `csv()`. The writer takes the archive's stamp as a value; how an instant is packed into one is `ZipMeaning.StampOf`.
- Texts are sequences of Unicode scalar values (`SheetNames`: of UTF-16 code units); lone surrogates, for which `encodeURIComponent` throws, are not modelled. A malformed escape gives nothing where the source throws.
- URL state: JSON and the recognizer of one filter are parameters, reading being the inverse of writing.
- Cursors: JSON, base64url and HMAC are parameters with the inverse and separator hypotheses of `Sound`; `encode`'s refusal of a lifetime below one second is not modelled, the services pass 900.
- Pages: assembling the SQL text and its parameter list; the query's meaning is modelled on sets of rows, and filters as the set they leave.
- Authorization, idempotency keys of requests, reporting SQL, the report-export worker, request parsers and UI rendering.
