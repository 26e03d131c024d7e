/** What the relay promises over whole runs, and the one window in which it breaks its promise. */
module RelayTheorems {
  import opened Shared
  import opened Counting
  import opened RelayModel
  import opened RelayInvariant

  // ---- Nothing is forgotten ---------------------------------------------------------

  /** Every envelope ever enqueued is still in the outbox or among the dead letters, with its topic and payload. */
  lemma EnvelopeKept(steps: seq<Step>, o: nat)
    requires o < |Run(Initial(), steps).enqueued|
    ensures var s := Run(Initial(), steps);
      (exists id :: id in s.outbox && s.outbox[id].envelope == s.enqueued[o])
      || (exists l :: 0 <= l < |s.letters| && s.letters[l].envelope == s.enqueued[o])
  {
    RunKeeps(steps);
    var s := Run(Initial(), steps);
    assert HasRow(s, o);
    var id :| 0 <= id < |s.origins| && s.origins[id] == o;
    if id in s.outbox {
      assert RowOk(s, id);
    } else {
      assert HasLetter(s, id);
      var l :| 0 <= l < |s.letters| && s.letters[l].source == id;
      assert LetterOk(s, l);
    }
  }

  /** A row is marked published only when the broker confirmed that very id. */
  lemma PublishedWasConfirmed(steps: seq<Step>, id: nat)
    requires id in Run(Initial(), steps).outbox && Run(Initial(), steps).outbox[id].published
    ensures id in Run(Initial(), steps).confirmed
  {
    RunKeeps(steps);
    assert RowOk(Run(Initial(), steps), id);
  }

  /** The envelope can still be delivered: a row, an unspent dead letter, or a replay about to write the row. */
  ghost predicate Deliverable(s: State, o: nat) {
    (exists id :: id in s.outbox && s.outbox[id].origin == o)
    || (exists l :: 0 <= l < |s.letters| && s.letters[l].origin == o && !s.letters[l].replayed)
    || (exists k :: k in s.workers && ReplaysOrigin(s, k, o))
  }

  ghost predicate ReplaysOrigin(s: State, k: nat, o: nat)
    requires k in s.workers
  {
    s.workers[k].Replaying? && s.workers[k].letter < |s.letters| && s.letters[s.workers[k].letter].origin == o
  }

  ghost predicate ReplayDied(s: State, o: nat) {
    exists l :: l in s.abandoned && l < |s.letters| && s.letters[l].origin == o
  }

  lemma {:induction false} DescendantDelivers(s: State, id: nat, o: nat)
    requires Inv(s) && id < s.nextId && s.origins[id] == o && !ReplayDied(s, o)
    ensures Deliverable(s, o)
    decreases s.nextId - id
  {
    if id in s.outbox {
      assert RowOk(s, id);
    } else {
      assert HasLetter(s, id);
      var l :| 0 <= l < |s.letters| && s.letters[l].source == id;
      assert LetterOk(s, l);
      var x := s.letters[l];
      if x.replayed {
        if x.reborn.Some? {
          DescendantDelivers(s, x.reborn.value, o);
        } else {
          assert l !in s.abandoned;
          var k :| k in s.workers && s.workers[k] == Replaying(l);
          assert ReplaysOrigin(s, k, o);
        }
      }
    }
  }

  /** Crashes, stale settlements and repeated replays lose nothing, unless a replay died between its two statements. */
  lemma StaysDeliverable(steps: seq<Step>, o: nat)
    requires o < |Run(Initial(), steps).enqueued| && !ReplayDied(Run(Initial(), steps), o)
    ensures Deliverable(Run(Initial(), steps), o)
  {
    RunKeeps(steps);
    var s := Run(Initial(), steps);
    assert HasRow(s, o);
    var id :| 0 <= id < |s.origins| && s.origins[id] == o;
    DescendantDelivers(s, id, o);
  }

  /** Losing a replayer loses its envelope exactly when nothing else carries it. */
  lemma CrashLoses(s: State, k: nat, o: nat)
    requires Inv(s) && k in s.workers && ReplaysOrigin(s, k, o)
    ensures !Deliverable(Crash(s, k), o) <==>
      && (forall id :: id in s.outbox ==> s.outbox[id].origin != o)
      && (forall l :: 0 <= l < |s.letters| && s.letters[l].origin == o ==> s.letters[l].replayed)
      && (forall j :: j in s.workers && j != k ==> !ReplaysOrigin(s, j, o))
    ensures !Deliverable(Crash(s, k), o) ==> ReplayDied(Crash(s, k), o)
  {
    var z := Crash(s, k);
    assert WorkerOk(s, k);
    assert s.workers[k].letter in z.abandoned;
    if exists j :: j in s.workers && j != k && ReplaysOrigin(s, j, o) {
      var j :| j in s.workers && j != k && ReplaysOrigin(s, j, o);
      assert j in z.workers && ReplaysOrigin(z, j, o);
    }
    if exists j :: j in z.workers && ReplaysOrigin(z, j, o) {
      var j :| j in z.workers && ReplaysOrigin(z, j, o);
      assert j in s.workers && j != k && ReplaysOrigin(s, j, o);
    }
  }

  const LOST: Envelope := Envelope("tenant", "topic", "payload")
  const LOSING_RUN: seq<Step> :=
    [EnqueueStep(LOST, 0), ClaimStep(1, [0], 0), PublishStep(1, Refused, false), SettleStep(1, 0), SettleStep(1, 0),
     ReplayMarkStep(2, 0, "tenant"), CrashStep(2)]

  lemma RunNext(steps: seq<Step>, i: nat, mid: State)
    requires i < |steps| && Run(Initial(), steps[..i]) == mid
    ensures Run(Initial(), steps[..i + 1]) == Apply(mid, steps[i])
  {
    assert steps[..i + 1][..i] == steps[..i];
  }

  lemma LastTwo(steps: seq<Step>, mid: State)
    requires |steps| == 7 && Run(Initial(), steps[..5]) == mid
    ensures Run(Initial(), steps) == Apply(Apply(mid, steps[5]), steps[6])
  {
    RunNext(steps, 5, mid);
    RunNext(steps, 6, Apply(mid, steps[5]));
    assert steps[..7] == steps;
  }

  const LOST_CLAIM: Claim := Claim(0, LOST, 0, 1)

  lemma ClaimedOnly(r: seq<Step>)
    requires r == LOSING_RUN
    ensures var s := Run(Initial(), r[..2]);
      s.outbox.Keys == {0} && s.letters == [] && s.enqueued == [LOST]
        && s.workers == map[1 := Draining([LOST_CLAIM], Publishing)]
  {
    assert r[..0] == [];
    RunNext(r, 0, Initial());
    var s := Enqueue(Initial(), LOST, 0);
    assert s.outbox == map[0 := Row(LOST, 0, 0, false, 0, None)];
    RunNext(r, 1, s);
    assert ClaimRows(s, 1, [0], 0).workers[1].pending == [LOST_CLAIM];
  }

  /** One envelope refused by the broker: its row is gone and its dead letter is open. */
  lemma QuarantineOnly(r: seq<Step>)
    requires r == LOSING_RUN
    ensures var s := Run(Initial(), r[..5]);
      s.outbox == map[] && s.letters == [Letter(LOST, 0, 0, 1, false, None)] && s.enqueued == [LOST]
      && s.workers == map[1 := Draining([], Publishing)]
  {
    ClaimedOnly(r);
    var s2 := Run(Initial(), r[..2]);
    RunNext(r, 2, s2);
    var s3 := s2.(workers := map[1 := Draining([LOST_CLAIM], Settling(Refused))]);
    assert Publish(s2, 1, Refused, false) == s3;
    RunNext(r, 3, s3);
    RunNext(r, 4, InsertLetter(s3, 1));
    RefusedIsRemoved(s3);
  }

  lemma RefusedIsRemoved(s: State)
    requires s.outbox.Keys == {0} && s.letters == [] && s.workers == map[1 := Draining([LOST_CLAIM], Settling(Refused))]
    ensures var z := SettleStatement(SettleStatement(s, 1, 0), 1, 0);
      z == s.(outbox := map[], letters := [Letter(LOST, 0, 0, 1, false, None)],
          workers := map[1 := Draining([], Publishing)])
  {
    var z := InsertLetter(s, 1);
    assert z.workers == map[1 := Draining([LOST_CLAIM], Removing)];
    assert RemoveRow(z, 1).outbox == map[];
    assert [LOST_CLAIM][1..] == [];
    assert RemoveRow(z, 1).workers == map[1 := Draining([], Publishing)];
  }

  /** Spending the only dead letter and dying leaves nothing that carries the envelope. */
  lemma LastCopyDies(s: State)
    requires s.outbox == map[] && s.letters == [Letter(LOST, 0, 0, 1, false, None)]
      && s.workers == map[1 := Draining([], Publishing)]
    ensures var z := Crash(ReplayMark(s, 2, 0, "tenant"), 2);
      !Deliverable(z, 0) && z.enqueued == s.enqueued && |z.letters| == 1 && z.letters[0].envelope == LOST
  {
    var m := ReplayMark(s, 2, 0, "tenant");
    assert m == s.(letters := [Letter(LOST, 0, 0, 1, true, None)], workers := s.workers[2 := Replaying(0)]);
    assert Crash(m, 2).workers == s.workers;
  }

  /** A refused envelope whose replay crashes between its statements stays on record and is never delivered again. */
  lemma ReplayCrashLosesDelivery(steps: seq<Step>)
    requires steps == LOSING_RUN
    ensures var s := Run(Initial(), steps);
      |s.enqueued| == 1 && !Deliverable(s, 0) && |s.letters| == 1 && s.letters[0].envelope == LOST
  {
    QuarantineOnly(steps);
    var s5 := Run(Initial(), steps[..5]);
    LastTwo(steps, s5);
    LastCopyDies(s5);
  }

  // ---- Bounded rescheduling ---------------------------------------------------------

  function AttemptsOf(log: seq<(nat, nat)>, id: nat): (xs: seq<nat>)
    ensures |xs| == Count(Ids(log), id)
  {
    if log == [] then []
    else
      var front := AttemptsOf(log[..|log| - 1], id);
      assert Ids(log)[..|log| - 1] == Ids(log[..|log| - 1]);
      if log[|log| - 1].0 == id then front + [log[|log| - 1].1] else front
  }

  function Ids(log: seq<(nat, nat)>): seq<nat> {
    seq(|log|, i requires 0 <= i < |log| => log[i].0)
  }

  lemma {:induction false} AttemptsDistinct(log: seq<(nat, nat)>, id: nat)
    requires forall i, j :: 0 <= i < j < |log| ==> log[i] != log[j]
    requires forall i :: 0 <= i < |log| ==> 1 <= log[i].1 < MAX_PUBLISH_ATTEMPTS
    ensures forall i, j :: 0 <= i < j < |AttemptsOf(log, id)| ==> AttemptsOf(log, id)[i] != AttemptsOf(log, id)[j]
    ensures forall i :: 0 <= i < |AttemptsOf(log, id)| ==> 1 <= AttemptsOf(log, id)[i] < MAX_PUBLISH_ATTEMPTS
    ensures forall i :: 0 <= i < |AttemptsOf(log, id)| ==> (id, AttemptsOf(log, id)[i]) in log
  {
    if log != [] {
      var front := log[..|log| - 1];
      AttemptsDistinct(front, id);
      var ys := AttemptsOf(front, id);
      forall i | 0 <= i < |ys| ensures (id, ys[i]) in log && (id, ys[i]) != log[|log| - 1] {
        assert 1 <= ys[i] && (id, ys[i]) in front;
        var n :| 0 <= n < |front| && front[n] == (id, ys[i]);
        assert log[n] == front[n];
      }
    }
  }

  /** However leases expire and workers overlap, one row is rescheduled at most seven times. */
  lemma RescheduledAtMostSevenTimes(steps: seq<Step>, id: nat)
    ensures Count(Ids(Run(Initial(), steps).retries), id) <= 7
  {
    RunKeeps(steps);
    var log := Run(Initial(), steps).retries;
    AttemptsDistinct(log, id);
    DistinctInSet(AttemptsOf(log, id), {1, 2, 3, 4, 5, 6, 7});
  }

  /** A claim captures an attempt number above every one held or rescheduled before it. */
  lemma ClaimsClimb(steps: seq<Step>, worker: nat, ids: seq<nat>, now: int, i: nat)
    requires var s := Run(Initial(), steps); worker !in s.workers && Claimable(s, ids, now) && i < |ids|
    ensures var s := Run(Initial(), steps);
      var z := ClaimRows(s, worker, ids, now);
      && Holds(z, worker, i, ids[i], z.outbox[ids[i]].attempts)
      && (forall k: nat, j: int, a: nat :: Holds(s, k, j, ids[i], a) ==> a < z.outbox[ids[i]].attempts)
      && (forall n :: 0 <= n < |s.retries| && s.retries[n].0 == ids[i] ==> s.retries[n].1 < z.outbox[ids[i]].attempts)
  {
    RunKeeps(steps);
    var s := Run(Initial(), steps);
    forall k: nat, j: int, a: nat | Holds(s, k, j, ids[i], a) ensures a <= s.outbox[ids[i]].attempts {
      assert WorkerOk(s, k) && ClaimOk(s, s.workers[k].pending[j]);
    }
  }

  // ---- Consumers --------------------------------------------------------------------

  /** However often an id is redelivered, a consumer's effect happens at most once for it. */
  lemma EffectAtMostOncePerId(steps: seq<Step>, i: nat, j: nat)
    requires i < |Run(Initial(), steps).effects| && j < |Run(Initial(), steps).effects|
    requires Run(Initial(), steps).effects[i] == Run(Initial(), steps).effects[j]
    ensures i == j
  {
    RunKeeps(steps);
  }

  function Reborn(ls: seq<Letter>, o: nat): nat {
    if ls == [] then 0
    else Reborn(ls[..|ls| - 1], o) + (if ls[|ls| - 1].origin == o && ls[|ls| - 1].reborn.Some? then 1 else 0)
  }

  lemma {:induction false} RebornUpdate(ls: seq<Letter>, l: nat, id: nat, o: nat)
    requires l < |ls| && ls[l].reborn.None?
    ensures Reborn(ls[l := ls[l].(reborn := Some(id))], o) == Reborn(ls, o) + (if ls[l].origin == o then 1 else 0)
  {
    var n := |ls| - 1;
    var ms := ls[l := ls[l].(reborn := Some(id))];
    if l == n {
      assert ms[..n] == ls[..n];
    } else {
      assert ms[..n] == ls[..n][l := ls[l].(reborn := Some(id))];
      RebornUpdate(ls[..n], l, id, o);
    }
  }

  lemma {:induction false} RebornReplayed(ls: seq<Letter>, l: nat, o: nat)
    requires l < |ls|
    ensures Reborn(ls[l := ls[l].(replayed := true)], o) == Reborn(ls, o)
  {
    var n := |ls| - 1;
    var ms := ls[l := ls[l].(replayed := true)];
    if l == n {
      assert ms[..n] == ls[..n];
    } else {
      assert ms[..n] == ls[..n][l := ls[l].(replayed := true)];
      RebornReplayed(ls[..n], l, o);
    }
  }

  /** Rows made for an envelope: one for its enqueue, and one for every replay that wrote both its statements. */
  ghost predicate RowsCounted(s: State, o: nat) {
    Count(s.origins, o) == (if o < |s.enqueued| then 1 else 0) + Reborn(s.letters, o)
  }

  lemma ReplayCounted(s: State, k: nat, now: int, o: nat)
    requires Inv(s) && RowsCounted(s, o)
    ensures RowsCounted(ReplayInsert(s, k, now), o)
  {
    if ReplayInsert(s, k, now) != s {
      assert WorkerOk(s, k);
      var l := s.workers[k].letter;
      assert LetterOk(s, l);
      CountSnoc(s.origins, s.letters[l].origin, o);
      RebornUpdate(s.letters, l, s.nextId, o);
    }
  }

  lemma SettleCounted(s: State, k: nat, now: int, o: nat)
    requires RowsCounted(s, o)
    ensures RowsCounted(SettleStatement(s, k, now), o)
  {
    var z := SettleStatement(s, k, now);
    if |z.letters| == |s.letters| + 1 { assert z.letters[..|s.letters|] == s.letters; }
  }

  lemma RowsMade(s: State, step: Step, o: nat)
    requires Inv(s) && RowsCounted(s, o)
    ensures RowsCounted(Apply(s, step), o)
  {
    match step
    case EnqueueStep(e, now) => CountSnoc(s.origins, |s.enqueued|, o);
    case ReplayMarkStep(k, l, tenant) => if Apply(s, step) != s { RebornReplayed(s.letters, l, o); }
    case ReplayInsertStep(k, now) => ReplayCounted(s, k, now, o);
    case SettleStep(k, now) => SettleCounted(s, k, now, o);
    case _ =>
  }

  lemma {:induction false} RowsMadeByRun(steps: seq<Step>, o: nat)
    ensures RowsCounted(Run(Initial(), steps), o)
    decreases |steps|
  {
    if steps != [] {
      RunKeeps(steps[..|steps| - 1]);
      RowsMadeByRun(steps[..|steps| - 1], o);
      RowsMade(Run(Initial(), steps[..|steps| - 1]), steps[|steps| - 1], o);
    }
  }

  /** The ids for which `consumer` acted on behalf of envelope `o`. */
  function ActedIds(s: State, n: nat, o: nat, consumer: string): (ids: seq<nat>)
    requires n <= |s.effects|
    ensures forall i :: 0 <= i < |ids| ==>
      (ids[i], consumer) in s.effects[..n] && ids[i] < |s.origins| && s.origins[ids[i]] == o
  {
    if n == 0 then []
    else
      var front := ActedIds(s, n - 1, o, consumer);
      var (id, c) := s.effects[n - 1];
      assert s.effects[..n - 1] <= s.effects[..n];
      assert (id, c) == s.effects[..n][n - 1];
      assert forall i :: 0 <= i < |front| ==> (front[i], consumer) in s.effects[..n - 1];
      assert forall x :: x in s.effects[..n - 1] ==> x in s.effects[..n];
      if c == consumer && id < |s.origins| && s.origins[id] == o then front + [id] else front
  }

  lemma {:induction false} ActedDistinct(s: State, n: nat, o: nat, consumer: string)
    requires n <= |s.effects| && forall i, j :: 0 <= i < j < |s.effects| ==> s.effects[i] != s.effects[j]
    ensures forall i, j :: 0 <= i < j < |ActedIds(s, n, o, consumer)| ==>
      ActedIds(s, n, o, consumer)[i] != ActedIds(s, n, o, consumer)[j]
  {
    if n > 0 {
      ActedDistinct(s, n - 1, o, consumer);
      var front := ActedIds(s, n - 1, o, consumer);
      forall i | 0 <= i < |front| ensures (front[i], consumer) != s.effects[n - 1] {
        assert (front[i], consumer) in s.effects[..n - 1];
        var m :| 0 <= m < n - 1 && s.effects[..n - 1][m] == (front[i], consumer);
      }
    }
  }

  /** A consumer acts on one envelope at most once, plus once for every completed replay of it. */
  lemma EffectsPerEnvelope(steps: seq<Step>, o: nat, consumer: string)
    ensures var s := Run(Initial(), steps);
      |ActedIds(s, |s.effects|, o, consumer)| <= (if o < |s.enqueued| then 1 else 0) + Reborn(s.letters, o)
  {
    RunKeeps(steps);
    RowsMadeByRun(steps, o);
    ActedBounded(Run(Initial(), steps), o, consumer);
  }

  lemma ActedBounded(s: State, o: nat, consumer: string)
    requires forall i, j :: 0 <= i < j < |s.effects| ==> s.effects[i] != s.effects[j]
    ensures |ActedIds(s, |s.effects|, o, consumer)| <= Count(s.origins, o)
  {
    var ids := ActedIds(s, |s.effects|, o, consumer);
    ActedDistinct(s, |s.effects|, o, consumer);
    CountIsCardinality(s.origins, o);
    DistinctInSet(ids, Positions(s.origins, o));
  }

  // ---- Exactly when an envelope is lost ----------------------------------------------

  /** The rows whose dead letters stand for envelope `o`. */
  function SourcesOf(ls: seq<Letter>, o: nat): seq<nat> {
    if ls == [] then []
    else SourcesOf(ls[..|ls| - 1], o) + (if ls[|ls| - 1].origin == o then [ls[|ls| - 1].source] else [])
  }

  function Unwritten(ls: seq<Letter>, o: nat): nat {
    if ls == [] then 0
    else Unwritten(ls[..|ls| - 1], o) + (if ls[|ls| - 1].origin == o && ls[|ls| - 1].reborn.None? then 1 else 0)
  }

  lemma {:induction false} SourcesCounted(ls: seq<Letter>, o: nat)
    ensures |SourcesOf(ls, o)| == Reborn(ls, o) + Unwritten(ls, o)
  {
    if ls != [] { SourcesCounted(ls[..|ls| - 1], o); }
  }

  lemma {:induction false} SourceAt(ls: seq<Letter>, o: nat, i: nat) returns (l: nat)
    requires i < |SourcesOf(ls, o)|
    ensures l < |ls| && ls[l].origin == o && ls[l].source == SourcesOf(ls, o)[i]
  {
    var n := |ls| - 1;
    if i < |SourcesOf(ls[..n], o)| { l := SourceAt(ls[..n], o, i); } else { l := n; }
  }

  /** No row was dead-lettered twice, which takes a worker whose lease ran out. */
  ghost predicate OneLetterARow(ls: seq<Letter>, o: nat) {
    forall l, m :: 0 <= l < m < |ls| && ls[l].origin == o && ls[m].origin == o ==> ls[l].source != ls[m].source
  }

  lemma {:induction false} SourcesDistinct(ls: seq<Letter>, o: nat)
    requires OneLetterARow(ls, o)
    ensures forall i, j :: 0 <= i < j < |SourcesOf(ls, o)| ==> SourcesOf(ls, o)[i] != SourcesOf(ls, o)[j]
  {
    if ls != [] {
      var n := |ls| - 1;
      SourcesDistinct(ls[..n], o);
      var front := SourcesOf(ls[..n], o);
      forall i | 0 <= i < |front| ensures ls[n].origin == o ==> front[i] != ls[n].source {
        var l := SourceAt(ls[..n], o, i);
        assert ls[..n][l] == ls[l];
      }
    }
  }

  lemma {:induction false} AtLeast(ls: seq<Letter>, o: nat, l: nat)
    requires l < |ls| && ls[l].origin == o && ls[l].reborn.None?
    ensures Unwritten(ls, o) >= 1
    ensures forall m :: 0 <= m < |ls| && m != l && ls[m].origin == o && ls[m].reborn.None? ==> Unwritten(ls, o) >= 2
  {
    var n := |ls| - 1;
    if l < n {
      AtLeast(ls[..n], o, l);
      assert forall m :: 0 <= m < n ==> ls[..n][m] == ls[m];
    } else {
      forall m | 0 <= m < n && ls[m].origin == o && ls[m].reborn.None? ensures Unwritten(ls, o) >= 2 {
        AtLeast(ls[..n], o, m);
      }
    }
  }

  /** All letters of an envelope but one have become rows. */
  lemma OneUnwritten(s: State, o: nat, l: nat, m: nat)
    requires Inv(s) && RowsCounted(s, o) && o < |s.enqueued| && OneLetterARow(s.letters, o)
    requires l < |s.letters| && s.letters[l].origin == o && s.letters[l].reborn.None?
    requires m < |s.letters| && s.letters[m].origin == o && s.letters[m].reborn.None?
    ensures l == m
  {
    var sources := SourcesOf(s.letters, o);
    SourcesCounted(s.letters, o);
    SourcesDistinct(s.letters, o);
    forall i | 0 <= i < |sources| ensures sources[i] in Positions(s.origins, o) {
      var k := SourceAt(s.letters, o, i);
      assert LetterOk(s, k);
    }
    DistinctInSet(sources, Positions(s.origins, o));
    CountIsCardinality(s.origins, o);
    AtLeast(s.letters, o, l);
  }

  /**
   * Unless a row of it was dead-lettered twice, an envelope can no longer be delivered
   * exactly when a replay of it died and no row carries it.
   */
  lemma UndeliverableIff(steps: seq<Step>, o: nat)
    requires o < |Run(Initial(), steps).enqueued| && OneLetterARow(Run(Initial(), steps).letters, o)
    ensures var s := Run(Initial(), steps);
      !Deliverable(s, o) <==> ReplayDied(s, o) && forall id :: id in s.outbox ==> s.outbox[id].origin != o
  {
    var s := Run(Initial(), steps);
    RunKeeps(steps);
    RowsMadeByRun(steps, o);
    if !ReplayDied(s, o) {
      StaysDeliverable(steps, o);
    } else {
      var l :| l in s.abandoned && l < |s.letters| && s.letters[l].origin == o;
      assert LetterOk(s, l);
      forall m | 0 <= m < |s.letters| && s.letters[m].origin == o ensures s.letters[m].replayed {
        assert LetterOk(s, m);
        if s.letters[m].reborn.None? { OneUnwritten(s, o, l, m); }
      }
      forall k | k in s.workers ensures !ReplaysOrigin(s, k, o) {
        assert WorkerOk(s, k);
        if ReplaysOrigin(s, k, o) { OneUnwritten(s, o, l, s.workers[k].letter); }
      }
    }
  }
}
