/**
 * The broker relay at the granularity of its SQL statements. The relay works on the
 * connection pool, so a crash or another worker can come between any two statements.
 *
 * `origin` (which enqueue a row descends from), `source`, `reborn`, `abandoned`, `retries`
 * and `taken` are bookkeeping of the model: they name things the theorems talk about and
 * no statement reads them.
 */
module RelayModel {
  import opened Shared

  datatype Envelope = Envelope(tenant: string, topic: string, payload: string)
  datatype Row = Row(envelope: Envelope, origin: nat, availableAt: int, published: bool, attempts: nat,
                     leaseUntil: Option<int>)
  datatype Letter = Letter(envelope: Envelope, origin: nat, source: nat, attempts: nat, replayed: bool,
                           reborn: Option<nat>)

  datatype Claim = Claim(id: nat, envelope: Envelope, origin: nat, attempts: nat)
  datatype Answer = Confirmed | Refused | Unknown
  datatype Phase = Publishing | Settling(answer: Answer) | Removing
  datatype Worker =
    | Draining(pending: seq<Claim>, phase: Phase)
    | Replaying(letter: nat)

  datatype State = State(
    enqueued: seq<Envelope>,
    nextId: nat,
    outbox: map<nat, Row>,
    letters: seq<Letter>,
    workers: map<nat, Worker>,
    deliveries: map<(nat, string), nat>,
    taken: set<nat>,
    confirmed: set<nat>,
    effects: seq<(nat, string)>,
    retries: seq<(nat, nat)>,
    abandoned: set<nat>,
    origins: seq<nat>)

  function Initial(): State {
    State([], 0, map[], [], map[], map[], {}, {}, [], [], {}, [])
  }

  const MAX_PUBLISH_ATTEMPTS: nat := 8
  const LEASE_SECONDS: int := 60
  const BACKOFF_BASE_SECONDS: int := 5

  /** Seconds before attempt `attempts + 1`: the base, doubled for every attempt after the first. */
  function Backoff(attempts: nat): int {
    if attempts <= 1 then BACKOFF_BASE_SECONDS else 2 * Backoff(attempts - 1)
  }

  function InsertRow(s: State, e: Envelope, origin: nat, now: int): State {
    s.(outbox := s.outbox[s.nextId := Row(e, origin, now, false, 0, None)],
       nextId := s.nextId + 1,
       origins := s.origins + [origin])
  }

  function Enqueue(s: State, e: Envelope, now: int): State {
    InsertRow(s, e, |s.enqueued|, now).(enqueued := s.enqueued + [e])
  }

  predicate ReadyRow(row: Row, now: int) {
    !row.published && row.availableAt <= now && (row.leaseUntil.None? || row.leaseUntil.value < now)
  }

  /** What one claim statement may take: distinct ready rows. */
  predicate Claimable(s: State, ids: seq<nat>, now: int) {
    (forall i :: 0 <= i < |ids| ==> ids[i] in s.outbox && ReadyRow(s.outbox[ids[i]], now))
    && forall i, j :: 0 <= i < j < |ids| ==> ids[i] != ids[j]
  }

  function Leased(row: Row, now: int): Row {
    row.(leaseUntil := Some(now + LEASE_SECONDS), attempts := row.attempts + 1)
  }

  function ClaimOf(id: nat, row: Row): Claim {
    Claim(id, row.envelope, row.origin, row.attempts)
  }

  function ClaimRows(s: State, worker: nat, ids: seq<nat>, now: int): State {
    if worker in s.workers || !Claimable(s, ids, now) then s
    else
      s.(outbox := map id | id in s.outbox :: if id in ids then Leased(s.outbox[id], now) else s.outbox[id],
         workers := s.workers[worker := Draining(
           seq(|ids|, i requires 0 <= i < |ids| => ClaimOf(ids[i], Leased(s.outbox[ids[i]], now))), Publishing)])
  }

  predicate Drains(s: State, worker: nat) {
    worker in s.workers && s.workers[worker].Draining? && s.workers[worker].pending != []
  }

  /** The broker's answer; an unknown one may still have been taken. */
  function Publish(s: State, worker: nat, answer: Answer, took: bool): State {
    if !Drains(s, worker) || !s.workers[worker].phase.Publishing? || (answer.Confirmed? && !took)
      || (answer.Refused? && took) then s
    else
      var k := s.workers[worker];
      s.(workers := s.workers[worker := k.(phase := Settling(answer))],
         taken := if took then s.taken + {k.pending[0].id} else s.taken,
         confirmed := if answer.Confirmed? then s.confirmed + {k.pending[0].id} else s.confirmed)
  }

  predicate Exhausted(answer: Answer, attempts: nat) {
    answer.Refused? || attempts >= MAX_PUBLISH_ATTEMPTS
  }

  function NextClaim(s: State, worker: nat): map<nat, Worker>
    requires Drains(s, worker)
  {
    s.workers[worker := Draining(s.workers[worker].pending[1..], Publishing)]
  }

  /** The settlement statements write by id alone, whoever holds the lease by then. */
  function MarkPublished(s: State, worker: nat): State
    requires Drains(s, worker)
  {
    var c := s.workers[worker].pending[0];
    s.(outbox := if c.id in s.outbox
                 then s.outbox[c.id := s.outbox[c.id].(published := true, leaseUntil := None)] else s.outbox,
       workers := NextClaim(s, worker))
  }

  function InsertLetter(s: State, worker: nat): State
    requires Drains(s, worker)
  {
    var c := s.workers[worker].pending[0];
    s.(letters := s.letters + [Letter(c.envelope, c.origin, c.id, c.attempts, false, None)],
       workers := s.workers[worker := s.workers[worker].(phase := Removing)])
  }

  function RemoveRow(s: State, worker: nat): State
    requires Drains(s, worker)
  {
    s.(outbox := s.outbox - {s.workers[worker].pending[0].id}, workers := NextClaim(s, worker))
  }

  function Reschedule(s: State, worker: nat, now: int): State
    requires Drains(s, worker)
  {
    var c := s.workers[worker].pending[0];
    s.(outbox := if c.id in s.outbox
                 then s.outbox[c.id := s.outbox[c.id].(leaseUntil := None, availableAt := now + Backoff(c.attempts))]
                 else s.outbox,
       retries := s.retries + [(c.id, c.attempts)],
       workers := NextClaim(s, worker))
  }

  /** The next statement after the broker's answer. */
  function SettleStatement(s: State, worker: nat, now: int): State {
    if !Drains(s, worker) then s
    else match s.workers[worker].phase
      case Publishing => s
      case Settling(answer) =>
        if answer.Confirmed? then MarkPublished(s, worker)
        else if Exhausted(answer, s.workers[worker].pending[0].attempts) then InsertLetter(s, worker)
        else Reschedule(s, worker, now)
      case Removing => RemoveRow(s, worker)
  }

  /** First statement of a replay: the dead letter is spent. */
  function ReplayMark(s: State, worker: nat, letter: nat, tenant: string): State {
    if worker in s.workers || letter >= |s.letters| || s.letters[letter].replayed
      || s.letters[letter].envelope.tenant != tenant then s
    else
      s.(letters := s.letters[letter := s.letters[letter].(replayed := true)],
         workers := s.workers[worker := Replaying(letter)])
  }

  /** Second statement of a replay: a new outbox row. */
  function ReplayInsert(s: State, worker: nat, now: int): State {
    if worker !in s.workers || !s.workers[worker].Replaying? || s.workers[worker].letter >= |s.letters| then s
    else
      var l := s.workers[worker].letter;
      var x := s.letters[l];
      InsertRow(s, x.envelope, x.origin, now).(
        letters := s.letters[l := x.(reborn := Some(s.nextId))], workers := s.workers - {worker})
  }

  function Crash(s: State, worker: nat): State {
    if worker !in s.workers then s
    else
      s.(workers := s.workers - {worker},
         abandoned := if s.workers[worker].Replaying? then s.abandoned + {s.workers[worker].letter} else s.abandoned)
  }

  /** A consumer's transaction: the marker, and the effect only when the marker was new. A rollback leaves neither. */
  function Consume(s: State, id: nat, consumer: string, commits: bool): State {
    if id !in s.taken || !commits then s
    else if (id, consumer) in s.deliveries then
      s.(deliveries := s.deliveries[(id, consumer) := s.deliveries[(id, consumer)] + 1])
    else
      s.(deliveries := s.deliveries[(id, consumer) := 1], effects := s.effects + [(id, consumer)])
  }

  datatype Step =
    | EnqueueStep(envelope: Envelope, now: int)
    | ClaimStep(worker: nat, ids: seq<nat>, now: int)
    | PublishStep(worker: nat, answer: Answer, took: bool)
    | SettleStep(worker: nat, now: int)
    | ReplayMarkStep(worker: nat, letter: nat, tenant: string)
    | ReplayInsertStep(worker: nat, now: int)
    | CrashStep(worker: nat)
    | ConsumeStep(id: nat, consumer: string, commits: bool)

  function Apply(s: State, step: Step): State {
    match step
    case EnqueueStep(e, now) => Enqueue(s, e, now)
    case ClaimStep(k, ids, now) => ClaimRows(s, k, ids, now)
    case PublishStep(k, answer, took) => Publish(s, k, answer, took)
    case SettleStep(k, now) => SettleStatement(s, k, now)
    case ReplayMarkStep(k, l, tenant) => ReplayMark(s, k, l, tenant)
    case ReplayInsertStep(k, now) => ReplayInsert(s, k, now)
    case CrashStep(k) => Crash(s, k)
    case ConsumeStep(id, consumer, commits) => Consume(s, id, consumer, commits)
  }

  function Run(s: State, steps: seq<Step>): State
    decreases |steps|
  {
    if steps == [] then s else Apply(Run(s, steps[..|steps| - 1]), steps[|steps| - 1])
  }
}
