/**
 * `BrokerRelayService` as it runs when nothing interferes: its loops and statements over
 * the tables, proved to be a run of the statement-level model.
 */
module RelayStore {
  import opened RelayModel
  import opened RelayInvariant
  import opened RelayTheorems

  datatype RelayResult = RelayResult(claimed: nat, published: nat, retried: nat, deadLettered: nat)

  /** What the broker says to the publishes of one drain, and whether it took the envelope. */
  datatype Said = Said(answer: Answer, took: bool)

  predicate Honest(x: Said) {
    (x.answer.Confirmed? ==> x.took) && (x.answer.Refused? ==> !x.took)
  }

  function CountConfirmed(said: seq<Said>, n: nat): nat
    requires n <= |said|
  {
    if n == 0 then 0 else CountConfirmed(said, n - 1) + (if said[n - 1].answer.Confirmed? then 1 else 0)
  }

  lemma {:induction false} RunAppend(s: State, a: seq<Step>, b: seq<Step>)
    ensures Run(s, a + b) == Run(Run(s, a), b)
    decreases |b|
  {
    if b == [] {
      assert a + b == a;
    } else {
      assert (a + b)[..|a + b| - 1] == a + b[..|b| - 1];
      RunAppend(s, a, b[..|b| - 1]);
    }
  }

  lemma RunTwo(s: State, x: Step, y: Step)
    ensures Run(s, [x]) == Apply(s, x) && Run(s, [x, y]) == Apply(Apply(s, x), y)
  {
    assert [x][..0] == [] && [x, y][..1] == [x];
  }

  lemma RunThree(s: State, x: Step, y: Step, z: Step)
    ensures Run(s, [x, y, z]) == Apply(Apply(Apply(s, x), y), z)
  {
    RunTwo(s, x, y);
    assert [x, y, z][..2] == [x, y];
  }

  datatype Verdict = WasPublished | WasRetried | WasDeadLettered

  /** Where a drain stands: what it did is a run, and it still holds `rest`. */
  ghost predicate Going(was: State, now: State, trace: seq<Step>, worker: nat, rest: seq<Claim>) {
    now == Run(was, trace) && worker in now.workers && now.workers[worker] == Draining(rest, Publishing)
  }

  lemma GoesOn(was: State, mid: State, now: State, trace: seq<Step>, steps: seq<Step>, worker: nat,
               claims: seq<Claim>, i: nat)
    requires i < |claims| && Going(was, mid, trace, worker, claims[i..])
      && Going(mid, now, steps, worker, claims[i..][1..])
    ensures Going(was, now, trace + steps, worker, claims[i + 1..])
  {
    assert claims[i..][1..] == claims[i + 1..];
    RunAppend(was, trace, steps);
  }

  /** What stands in a list without repetitions stands there once. */
  lemma {:induction false} StandsOnce<T>(xs: seq<T>, i: nat)
    requires i < |xs| && forall j, k :: 0 <= j < k < |xs| ==> xs[j] != xs[k]
    ensures multiset(xs)[xs[i]] == 1
  {
    var n := |xs| - 1;
    assert xs == xs[..n] + [xs[n]];
    if i < n {
      StandsOnce(xs[..n], i);
      assert xs[..n][i] == xs[i];
    } else {
      assert xs[n] !in xs[..n];
    }
  }

  lemma ActedOnce(s: State, d: (nat, string))
    requires EffectsOk(s) && d in s.deliveries
    ensures multiset(s.effects)[d] == 1
  {
    var i :| 0 <= i < |s.effects| && s.effects[i] == d;
    StandsOnce(s.effects, i);
  }

  class Relay {
    var state: State

    constructor ()
      ensures state == Initial()
    {
      state := Initial();
    }

    /** One row more, under an id that was never used, and its envelope can be delivered; nothing else changes. */
    method EnqueueEnvelope(e: Envelope, now: int) returns (id: nat)
      modifies this
      ensures state == Apply(old(state), EnqueueStep(e, now))
      ensures Inv(old(state)) ==> Inv(state) && id !in old(state).outbox && !HasLetter(old(state), id)
      ensures state.outbox.Keys == old(state).outbox.Keys + {id} && forall k :: k in old(state).outbox && k != id ==>
        state.outbox[k] == old(state).outbox[k]
      ensures state.outbox[id].envelope == e && ReadyRow(state.outbox[id], now) && state.outbox[id].attempts == 0
      ensures state.letters == old(state).letters && state.workers == old(state).workers
        && state.deliveries == old(state).deliveries
      ensures state.enqueued == old(state).enqueued + [e] && Deliverable(state, |old(state).enqueued|)
    {
      if Inv(state) {
        EnqueueKeeps(state, e, now);
        forall l | 0 <= l < |state.letters|
          ensures state.letters[l].source < state.nextId { assert LetterOk(state, l); }
        assert forall k :: k in state.outbox ==> RowOk(state, k);
        assert !HasLetter(state, state.nextId);
      }
      id := state.nextId;
      state := Enqueue(state, e, now);
    }

    /** The oldest of the ready rows in `left`. */
    method Oldest(left: set<nat>) returns (best: nat)
      requires left != {} && left <= state.outbox.Keys
      ensures best in left
      ensures forall id :: id in left ==> state.outbox[best].availableAt <= state.outbox[id].availableAt
    {
      best :| best in left;
      var rest := left - {best};
      while rest != {}
        invariant rest <= left && best in left
        invariant forall id :: id in left && id !in rest ==>
          state.outbox[best].availableAt <= state.outbox[id].availableAt
        decreases |rest|
      {
        var id :| id in rest;
        if state.outbox[id].availableAt < state.outbox[best].availableAt { best := id; }
        rest := rest - {id};
      }
    }

    /** Ready rows, oldest first, at most `limit`: a row left out is no older than any row taken. */
    method ReadyIds(limit: nat, now: int) returns (ids: seq<nat>)
      ensures Claimable(state, ids, now) && |ids| <= limit
      ensures forall i, j :: 0 <= i < j < |ids| ==> state.outbox[ids[i]].availableAt <= state.outbox[ids[j]].availableAt
      ensures forall id :: id in state.outbox && ReadyRow(state.outbox[id], now) && id !in ids ==>
        |ids| == limit && forall i :: 0 <= i < |ids| ==>
          state.outbox[ids[i]].availableAt <= state.outbox[id].availableAt
    {
      var left := set id | id in state.outbox && ReadyRow(state.outbox[id], now);
      ids := [];
      while |ids| < limit && left != {}
        invariant |ids| <= limit && Claimable(state, ids, now)
        invariant forall id :: id in left ==> id in state.outbox && ReadyRow(state.outbox[id], now) && id !in ids
        invariant forall id :: id in state.outbox && ReadyRow(state.outbox[id], now) ==> id in left || id in ids
        invariant forall i, j :: 0 <= i < j < |ids| ==>
          state.outbox[ids[i]].availableAt <= state.outbox[ids[j]].availableAt
        invariant forall i, id :: 0 <= i < |ids| && id in left ==>
          state.outbox[ids[i]].availableAt <= state.outbox[id].availableAt
        decreases |left|
      {
        var best := Oldest(left);
        left := left - {best};
        ids := ids + [best];
      }
    }

    /**
     * One drain by a single worker: every claimed row is published once and settled once,
     * and the whole is a run of the statement-level model.
     */
    method Drain(limit: nat, worker: nat, now: int, said: seq<Said>)
      returns (result: RelayResult, ghost trace: seq<Step>)
      requires worker !in state.workers && |said| >= limit
      requires forall i :: 0 <= i < |said| ==> Honest(said[i])
      modifies this
      ensures state == Run(old(state), trace)
      ensures worker in state.workers && state.workers[worker] == Draining([], Publishing)
      ensures result.claimed <= limit
      ensures result.claimed == result.published + result.retried + result.deadLettered
      ensures result.published == CountConfirmed(said, result.claimed)
      ensures |state.letters| == |old(state).letters| + result.deadLettered
      ensures |state.retries| == |old(state).retries| + result.retried
    {
      ghost var was := state;
      var ids := ReadyIds(limit, now);
      state := ClaimRows(state, worker, ids, now);
      var claims := state.workers[worker].pending;
      trace := [ClaimStep(worker, ids, now)];
      RunTwo(was, trace[0], trace[0]);
      var published, retried, deadLettered := 0, 0, 0;
      var i := 0;
      while i < |claims|
        invariant 0 <= i <= |claims| <= limit
        invariant Going(was, state, trace, worker, claims[i..])
        invariant i == published + retried + deadLettered
        invariant published == CountConfirmed(said, i)
        invariant |state.letters| == |was.letters| + deadLettered
        invariant |state.retries| == |was.retries| + retried
      {
        ghost var mid := state;
        var verdict;
        ghost var steps;
        verdict, steps := PublishAndSettle(worker, said[i], now);
        GoesOn(was, mid, state, trace, steps, worker, claims, i);
        trace := trace + steps;
        match verdict {
        case WasPublished => published := published + 1;
        case WasRetried => retried := retried + 1;
        case WasDeadLettered => deadLettered := deadLettered + 1;
        }
        i := i + 1;
      }
      result := RelayResult(|claims|, published, retried, deadLettered);
    }

    /** One claimed row: published, then settled by the statements its answer calls for. */
    method PublishAndSettle(worker: nat, said: Said, now: int) returns (verdict: Verdict, ghost steps: seq<Step>)
      requires Drains(state, worker) && state.workers[worker].phase.Publishing? && Honest(said)
      modifies this
      ensures state == Run(old(state), steps)
      ensures worker in state.workers && state.workers[worker] ==
        Draining(old(state).workers[worker].pending[1..], Publishing)
      ensures verdict.WasPublished? <==> said.answer.Confirmed?
      ensures verdict.WasDeadLettered? <==>
        !said.answer.Confirmed? && Exhausted(said.answer, old(state).workers[worker].pending[0].attempts)
      ensures |state.letters| == |old(state).letters| + (if verdict.WasDeadLettered? then 1 else 0)
      ensures |state.retries| == |old(state).retries| + (if verdict.WasRetried? then 1 else 0)
    {
      ghost var was := state;
      ghost var publish := PublishStep(worker, said.answer, said.took);
      ghost var settle := SettleStep(worker, now);
      var attempts := state.workers[worker].pending[0].attempts;
      state := Publish(state, worker, said.answer, said.took);
      steps := [publish, settle];
      RunTwo(was, publish, settle);
      if said.answer.Confirmed? {
        state := MarkPublished(state, worker);
        verdict := WasPublished;
      } else if Exhausted(said.answer, attempts) {
        state := InsertLetter(state, worker);
        state := RemoveRow(state, worker);
        steps := [publish, settle, settle];
        RunThree(was, publish, settle, settle);
        verdict := WasDeadLettered;
      } else {
        state := Reschedule(state, worker, now);
        verdict := WasRetried;
      }
    }

    /**
     * Inside the consumer's transaction: true exactly the first time. Then the consumer has
     * acted once for this id, and any later claim is only counted.
     */
    method ClaimDelivery(id: nat, consumer: string) returns (first: bool)
      requires id in state.taken
      modifies this
      ensures state == Apply(old(state), ConsumeStep(id, consumer, true))
      ensures first <==> (id, consumer) !in old(state).deliveries
      ensures (id, consumer) in state.deliveries && forall d :: d != (id, consumer) ==>
        (d in state.deliveries <==> d in old(state).deliveries)
      ensures state == old(state).(deliveries := state.deliveries, effects := state.effects)
      ensures !first ==> state.effects == old(state).effects
      ensures Inv(old(state)) ==> Inv(state) && multiset(state.effects)[(id, consumer)] == 1
    {
      if Inv(state) {
        ConsumeKeeps(state, id, consumer, true);
        ActedOnce(Consume(state, id, consumer, true), (id, consumer));
      }
      first := (id, consumer) !in state.deliveries;
      state := Consume(state, id, consumer, true);
    }

    /** An undisturbed replay spends the letter and writes one new row for its envelope. */
    method Replay(tenant: string, letter: nat, worker: nat, now: int) returns (done: bool)
      requires worker !in state.workers
      modifies this
      ensures done == (letter < |old(state).letters| && !old(state).letters[letter].replayed
                       && old(state).letters[letter].envelope.tenant == tenant)
      ensures state == Apply(Apply(old(state), ReplayMarkStep(worker, letter, tenant)), ReplayInsertStep(worker, now))
      ensures done ==> (old(state).nextId in state.outbox && state.letters[letter].replayed
                        && state.outbox[old(state).nextId].envelope == old(state).letters[letter].envelope)
      ensures !done ==> state == old(state)
    {
      var marked := ReplayMark(state, worker, letter, tenant);
      if marked == state { return false; }
      state := marked;
      state := ReplayInsert(state, worker, now);
      return true;
    }
  }
}
