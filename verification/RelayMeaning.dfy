/**
 * What the relay's statements do, in terms of the rows: which a claim takes, what an answer makes
 * of them, and how long they are left alone.
 */
module RelayMeaning {
  import opened Shared
  import opened RelayModel
  import opened RelayInvariant
  import opened RelayTheorems

  // ---- One claim --------------------------------------------------------------------

  /**
   * A claim takes distinct rows, none of them published, none before it is available, and
   * none while a lease on it stands; it leases them for a minute and counts the attempt.
   */
  lemma ClaimMeans(s: State, worker: nat, ids: seq<nat>, now: int)
    ensures var z := Apply(s, ClaimStep(worker, ids, now));
      z != s ==>
        && worker !in s.workers
        && (forall i :: 0 <= i < |ids| ==>
              && ids[i] in s.outbox && !s.outbox[ids[i]].published && s.outbox[ids[i]].availableAt <= now
              && (s.outbox[ids[i]].leaseUntil.Some? ==> s.outbox[ids[i]].leaseUntil.value < now)
              && ids[i] in z.outbox
              && z.outbox[ids[i]] == s.outbox[ids[i]].(leaseUntil := Some(now + 60),
                     attempts := s.outbox[ids[i]].attempts + 1))
        && (forall id :: id in s.outbox && id !in ids ==> id in z.outbox && z.outbox[id] == s.outbox[id])
        && worker in z.workers && z.workers[worker].Draining? && |z.workers[worker].pending| == |ids|
        && (forall i :: 0 <= i < |ids| ==>
              && z.workers[worker].pending[i].id == ids[i]
              && z.workers[worker].pending[i].envelope == s.outbox[ids[i]].envelope
              && z.workers[worker].pending[i].attempts == s.outbox[ids[i]].attempts + 1)
  { }

  /** And every row that is free to take can be taken. */
  lemma FreeRowsCanBeClaimed(s: State, worker: nat, id: nat, now: int)
    requires worker !in s.workers && id in s.outbox && !s.outbox[id].published && s.outbox[id].availableAt <= now
    requires s.outbox[id].leaseUntil.Some? ==> s.outbox[id].leaseUntil.value < now
    ensures worker in Apply(s, ClaimStep(worker, [id], now)).workers
  { }

  // ---- One settlement ---------------------------------------------------------------

  function Doubled(n: nat): int {
    if n == 0 then 1 else 2 * Doubled(n - 1)
  }

  lemma {:induction false} BackoffDoubles(attempts: nat)
    requires attempts >= 1
    ensures Backoff(attempts) == 5 * Doubled(attempts - 1)
  {
    if attempts > 1 {
      BackoffDoubles(attempts - 1);
    }
  }

  /**
   * What the next statement does with the first claim of a worker, by the broker's answer:
   * confirmed, the row is published; refused, or unknown at the eighth attempt, a dead
   * letter is written and then the row removed; unknown before, the row waits.
   */
  lemma SettleMeans(s: State, worker: nat, now: int)
    requires Inv(s) && Drains(s, worker) && s.workers[worker].phase.Settling?
    ensures var z := Apply(s, SettleStep(worker, now));
      var c := s.workers[worker].pending[0];
      var answer := s.workers[worker].phase.answer;
      && (forall id :: id != c.id ==> (id in z.outbox <==> id in s.outbox))
      && (forall id :: id != c.id && id in s.outbox ==> z.outbox[id] == s.outbox[id])
      && (c.id in z.outbox <==> c.id in s.outbox)
      && (if answer.Confirmed? then
            z.letters == s.letters && (c.id in s.outbox ==>
                z.outbox[c.id] == s.outbox[c.id].(published := true, leaseUntil := None))
          else if answer.Refused? || c.attempts >= 8 then
            && |z.letters| == |s.letters| + 1 && z.letters[..|s.letters|] == s.letters && z.outbox == s.outbox
            && z.letters[|s.letters|].envelope == c.envelope && z.letters[|s.letters|].source == c.id
            && z.letters[|s.letters|].attempts == c.attempts && !z.letters[|s.letters|].replayed
            && worker in z.workers && z.workers[worker].Draining? && z.workers[worker].phase.Removing?
          else
            && z.letters == s.letters
            && (c.id in s.outbox ==>
                  z.outbox[c.id] == s.outbox[c.id].(leaseUntil := None,
                      availableAt := now + 5 * Doubled(c.attempts - 1))))
  {
    var c := s.workers[worker].pending[0];
    assert WorkerOk(s, worker) && ClaimOk(s, c);
    BackoffDoubles(c.attempts);
  }

  /** The statement after a dead letter removes its row, and no other. */
  lemma RemovalMeans(s: State, worker: nat, now: int)
    requires Drains(s, worker) && s.workers[worker].phase.Removing?
    ensures var z := Apply(s, SettleStep(worker, now)); var c := s.workers[worker].pending[0];
      z.outbox == s.outbox - {c.id} && z.letters == s.letters
  { }

  // ---- Published rows are left alone ------------------------------------------------

  /** Nothing claims row `id`: it is published, or gone for good. */
  ghost predicate Spent(s: State, id: nat) {
    id < s.nextId && (id in s.outbox ==> s.outbox[id].published)
  }

  lemma {:induction false} StaysSpent(s: State, more: seq<Step>, id: nat)
    requires Spent(s, id)
    ensures Spent(Run(s, more), id)
    decreases |more|
  {
    if more != [] {
      StaysSpent(s, more[..|more| - 1], id);
      SpentStep(Run(s, more[..|more| - 1]), more[|more| - 1], id);
    }
  }

  lemma SpentStep(s: State, e: Step, id: nat)
    requires Spent(s, id)
    ensures Spent(Apply(s, e), id)
  { }

  /** Once a row was marked published no claim ever takes it again, nor once it was removed. */
  lemma PublishedNeverClaimed(s: State, more: seq<Step>, worker: nat, ids: seq<nat>, now: int, id: nat)
    requires id < s.nextId && (id !in s.outbox || s.outbox[id].published) && id in ids
    ensures var z := Run(s, more); Apply(z, ClaimStep(worker, ids, now)) == z
  {
    StaysSpent(s, more, id);
    ClaimMeans(Run(s, more), worker, ids, now);
  }

  // ---- Rows leased or rescheduled are left alone -------------------------------------

  /** No worker but `k` has a claim on row `id`. */
  ghost predicate OnlyHolder(s: State, id: nat, k: nat) {
    forall j :: j in s.workers && s.workers[j].Draining? && j != k ==>
      forall i :: 0 <= i < |s.workers[j].pending| ==> s.workers[j].pending[i].id != id
  }

  /** Row `id` is not free before or at `until`. */
  ghost predicate Reserved(s: State, id: nat, until: int) {
    id in s.outbox && ((s.outbox[id].leaseUntil.Some? && s.outbox[id].leaseUntil.value >= until)
        || s.outbox[id].availableAt > until)
  }

  /** The claims of a run come no later than `until`, and none of its statements is worker `k`'s. */
  ghost predicate Without(more: seq<Step>, k: nat, until: int) {
    forall n :: 0 <= n < |more| ==>
      match more[n]
      case ClaimStep(j, _, now) => j != k && now <= until
      case PublishStep(j, _, _) => j != k
      case SettleStep(j, _) => j != k
      case _ => true
  }

  lemma ReservedStep(s: State, e: Step, id: nat, k: nat, until: int)
    requires Reserved(s, id, until) && OnlyHolder(s, id, k) && Without([e], k, until) && id < s.nextId
    ensures var z := Apply(s, e);
      Reserved(z, id, until) && z.outbox[id] == s.outbox[id] && OnlyHolder(z, id, k) && id < z.nextId
  {
    assert [e][0] == e;
  }

  lemma {:induction false} StaysReserved(s: State, more: seq<Step>, id: nat, k: nat, until: int)
    requires Reserved(s, id, until) && OnlyHolder(s, id, k) && Without(more, k, until) && id < s.nextId
    ensures var z := Run(s, more);
      Reserved(z, id, until) && z.outbox[id] == s.outbox[id] && OnlyHolder(z, id, k) && id < z.nextId
    decreases |more|
  {
    if more != [] {
      var front, e := more[..|more| - 1], more[|more| - 1];
      StaysReserved(s, front, id, k, until);
      assert [e][0] == more[|more| - 1];
      ReservedStep(Run(s, front), e, id, k, until);
    }
  }

  /**
   * A row just claimed, that nobody else had a claim on, is left to its worker for a
   * minute: until that worker writes something, no claim up to then takes it.
   */
  lemma LeaseHolds(s: State, k: nat, ids: seq<nat>, now: int, id: nat, more: seq<Step>, worker: nat,
                   others: seq<nat>, at: int)
    requires Inv(s) && k !in s.workers && Apply(s, ClaimStep(k, ids, now)) != s && id in ids && OnlyHolder(s, id, k)
    requires Without(more, k, now + 60) && id in others && at <= now + 60
    ensures var z := Run(Apply(s, ClaimStep(k, ids, now)), more); Apply(z, ClaimStep(worker, others, at)) == z
  {
    var m := Apply(s, ClaimStep(k, ids, now));
    ClaimMeans(s, k, ids, now);
    assert RowOk(s, id);
    StaysReserved(m, more, id, k, now + 60);
    ClaimMeans(Run(m, more), worker, others, at);
  }

  /**
   * A row whose answer was unknown, that nobody else had a claim on, is left alone until
   * its next attempt is due: five seconds, doubled with every attempt made before.
   */
  lemma RescheduledWaits(s: State, k: nat, now: int, more: seq<Step>, worker: nat, ids: seq<nat>, at: int)
    requires Inv(s) && Drains(s, k) && s.workers[k].phase == Settling(Unknown) && s.workers[k].pending[0].attempts < 8
    requires var c := s.workers[k].pending[0]; c.id in s.outbox && OnlyHolder(s, c.id, k) && c.id in ids
    requires var due := now + 5 * Doubled(s.workers[k].pending[0].attempts - 1); Without(more, k, due - 1) && at < due
    ensures var z := Run(Apply(s, SettleStep(k, now)), more); Apply(z, ClaimStep(worker, ids, at)) == z
  {
    var c := s.workers[k].pending[0];
    var m := Apply(s, SettleStep(k, now));
    var due := now + 5 * Doubled(c.attempts - 1);
    SettleMeans(s, k, now);
    assert RowOk(s, c.id);
    StaysReserved(m, more, c.id, k, due - 1);
    ClaimMeans(Run(m, more), worker, ids, at);
  }

  // ---- Replays and deliveries --------------------------------------------------------

  /** A replay starts exactly for an unspent letter of that very tenant, and spends it and nothing else. */
  lemma ReplayMarkMeans(s: State, worker: nat, l: nat, tenant: string)
    ensures var z := Apply(s, ReplayMarkStep(worker, l, tenant));
      (z != s <==>
         worker !in s.workers && l < |s.letters| && !s.letters[l].replayed && s.letters[l].envelope.tenant == tenant)
      && (z != s ==>
            && z == s.(letters := z.letters, workers := s.workers[worker := Replaying(l)])
            && l < |s.letters| && z.letters == s.letters[l := s.letters[l].(replayed := true)])
  { }

  /** It ends by writing the letter's envelope into a new row that is free at once and was never tried. */
  lemma ReplayInsertMeans(s: State, worker: nat, now: int)
    requires Inv(s) && worker in s.workers && s.workers[worker].Replaying? && s.workers[worker].letter < |s.letters|
    ensures var z := Apply(s, ReplayInsertStep(worker, now)); var envelope :=
      s.letters[s.workers[worker].letter].envelope;
      && s.nextId !in s.outbox && s.nextId in z.outbox && z.outbox == s.outbox[s.nextId := z.outbox[s.nextId]]
      && z.outbox[s.nextId].envelope == envelope && z.outbox[s.nextId].availableAt == now
      && !z.outbox[s.nextId].published && z.outbox[s.nextId].attempts == 0 && z.outbox[s.nextId].leaseUntil.None?
      && z.nextId == s.nextId + 1 && worker !in z.workers
  {
    assert s.nextId in s.outbox ==> RowOk(s, s.nextId);
  }

  /** How often consumer `c` has committed a delivery of `id`. */
  function Seen(s: State, id: nat, c: string): nat {
    if (id, c) in s.deliveries then s.deliveries[(id, c)] else 0
  }

  /** Every committed delivery of a message the broker took is counted, and the first of them has the effect. */
  lemma ConsumeMeans(s: State, id: nat, c: string, commits: bool)
    ensures var z := Apply(s, ConsumeStep(id, c, commits));
      && Seen(z, id, c) == Seen(s, id, c) + (if commits && id in s.taken then 1 else 0)
      && z.effects == s.effects + (if commits && id in s.taken && (id, c) !in s.deliveries then [(id, c)] else [])
      && forall j: nat, d: string :: (j, d) != (id, c) ==> Seen(z, j, d) == Seen(s, j, d)
  { }
}
