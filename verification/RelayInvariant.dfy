/** What the relay's statements keep, whatever crashes or overtakes them. */
module RelayInvariant {
  import opened RelayModel

  ghost predicate Descends(s: State, id: nat, e: Envelope, origin: nat) {
    id < s.nextId == |s.origins| && s.origins[id] == origin < |s.enqueued| && s.enqueued[origin] == e
  }

  ghost predicate RowOk(s: State, id: nat)
    requires id in s.outbox
  {
    Descends(s, id, s.outbox[id].envelope, s.outbox[id].origin) && (s.outbox[id].published ==> id in s.confirmed)
  }

  ghost predicate HasLetter(s: State, id: nat) {
    exists l :: 0 <= l < |s.letters| && s.letters[l].source == id
  }

  /** A spent letter became a later row, is becoming one, or was abandoned by a crash. */
  ghost predicate LetterOk(s: State, l: nat)
    requires l < |s.letters|
  {
    var x := s.letters[l];
    && Descends(s, x.source, x.envelope, x.origin)
    && x.attempts >= 1
    && (x.reborn.Some? ==> x.replayed && x.source < x.reborn.value && Descends(s, x.reborn.value, x.envelope, x.origin))
    && (x.replayed && x.reborn.None? && l !in s.abandoned ==>
           exists k :: k in s.workers && s.workers[k] == Replaying(l))
    && (l in s.abandoned ==> x.replayed && x.reborn.None?)
  }

  ghost predicate ClaimOk(s: State, c: Claim) {
    Descends(s, c.id, c.envelope, c.origin) && c.attempts >= 1
    && (c.id in s.outbox ==> c.attempts <= s.outbox[c.id].attempts)
  }

  ghost predicate WorkerOk(s: State, k: nat)
    requires k in s.workers
  {
    match s.workers[k]
    case Draining(pending, phase) =>
      && (forall i :: 0 <= i < |pending| ==> ClaimOk(s, pending[i]))
      && (!phase.Publishing? ==> pending != [])
      && (phase.Settling? && phase.answer.Confirmed? ==> pending[0].id in s.confirmed)
      && (phase.Removing? ==> HasLetter(s, pending[0].id))
    case Replaying(l) => l < |s.letters| && s.letters[l].replayed && s.letters[l].reborn.None? && l !in s.abandoned
  }

  ghost predicate OneReplayer(s: State) {
    forall k, j :: k in s.workers && j in s.workers && k != j && s.workers[k].Replaying? && s.workers[j].Replaying? ==>
      s.workers[k].letter != s.workers[j].letter
  }

  /** Attempt `a` of row `id` is held by the `i`-th claim of worker `k`. */
  ghost predicate Holds(s: State, k: nat, i: int, id: nat, a: nat) {
    k in s.workers && s.workers[k].Draining? && 0 <= i < |s.workers[k].pending|
    && s.workers[k].pending[i].id == id && s.workers[k].pending[i].attempts == a
  }

  /** No attempt number of a row is held twice, or held after it was rescheduled, or rescheduled twice. */
  ghost predicate TicketsUnique(s: State) {
    && (forall k: nat, i: int, j: int, h: nat, id: nat, a: nat :: Holds(s, k, i, id, a) && Holds(s, h, j, id, a) ==>
           k == h && i == j)
    && (forall n: int, k: nat, i: int, id: nat, a: nat :: 0 <= n < |s.retries| && Holds(s, k, i, id, a) ==>
           s.retries[n] != (id, a))
    && (forall m, n :: 0 <= m < n < |s.retries| ==> s.retries[m] != s.retries[n])
    && (forall n :: 0 <= n < |s.retries| ==>
          1 <= s.retries[n].1 < MAX_PUBLISH_ATTEMPTS && s.retries[n].0 < s.nextId
          && (s.retries[n].0 in s.outbox ==> s.retries[n].1 <= s.outbox[s.retries[n].0].attempts))
  }

  ghost predicate EffectsOk(s: State) {
    && (forall i, j :: 0 <= i < j < |s.effects| ==> s.effects[i] != s.effects[j])
    && (forall i :: 0 <= i < |s.effects| ==> s.effects[i] in s.deliveries)
    && (forall d :: d in s.deliveries ==> d in s.effects)
  }

  ghost predicate Inv(s: State) {
    && |s.origins| == s.nextId
    && (forall id :: 0 <= id < |s.origins| ==> s.origins[id] < |s.enqueued|)
    && (forall id :: id in s.outbox ==> RowOk(s, id))
    && (forall l :: 0 <= l < |s.letters| ==> LetterOk(s, l))
    && (forall id :: 0 <= id < s.nextId && id !in s.outbox ==> HasLetter(s, id))
    && (forall k :: k in s.workers ==> WorkerOk(s, k))
    && OneReplayer(s)
    && TicketsUnique(s)
    && EffectsOk(s)
    && s.confirmed <= s.taken
    && (forall id :: id in s.taken ==> id < s.nextId)
    && (forall l :: l in s.abandoned ==> l < |s.letters|)
    && (forall o :: 0 <= o < |s.enqueued| ==> HasRow(s, o))
  }

  ghost predicate HasRow(s: State, o: nat) {
    exists id :: 0 <= id < |s.origins| && s.origins[id] == o
  }

  // ---- One frame lemma for every statement ------------------------------------------

  ghost predicate SameLetter(x: Letter, y: Letter) {
    y.(replayed := x.replayed, reborn := x.reborn) == x
  }

  /** `z` grew out of `s` by a statement of worker `t`: nothing another worker relies on went away. */
  ghost predicate Frame(s: State, z: State, t: nat) {
    && s.enqueued <= z.enqueued && s.origins <= z.origins && |z.origins| == z.nextId && s.nextId <= z.nextId
    && s.confirmed <= z.confirmed && s.taken <= z.taken
    && |s.letters| <= |z.letters|
    && (forall l :: 0 <= l < |s.letters| ==> SameLetter(s.letters[l], z.letters[l]))
    && (forall l :: 0 <= l < |s.letters| && z.letters[l] != s.letters[l] ==>
          !s.letters[l].replayed || (t in s.workers && s.workers[t] == Replaying(l)))
    && (forall id :: id in z.outbox && id < s.nextId ==>
          id in s.outbox && z.outbox[id].envelope == s.outbox[id].envelope && z.outbox[id].origin == s.outbox[id].origin
          && s.outbox[id].attempts <= z.outbox[id].attempts)
    && (forall k :: k in z.workers && k != t ==> k in s.workers && z.workers[k] == s.workers[k])
    && (forall k :: k in s.workers && k != t ==> k in z.workers)
    && s.abandoned <= z.abandoned
    && (forall l :: l in z.abandoned ==> l in s.abandoned || (t in s.workers && s.workers[t] == Replaying(l)))
  }

  /** The letters a statement of worker `t` may have to answer for. */
  ghost predicate Involved(s: State, z: State, t: nat, l: nat)
    requires l < |z.letters|
  {
    l >= |s.letters| || z.letters[l] != s.letters[l] || (t in s.workers && s.workers[t] == Replaying(l))
  }

  lemma FrameKeeps(s: State, z: State, t: nat)
    requires Inv(s) && Frame(s, z, t)
    requires forall id :: id in z.outbox && id >= s.nextId ==> RowOk(z, id)
    requires forall id :: id in z.outbox && id < s.nextId && z.outbox[id].published ==>
      (id in s.outbox && s.outbox[id].published) || id in z.confirmed
    requires forall l :: 0 <= l < |z.letters| && Involved(s, z, t, l) ==> LetterOk(z, l)
    requires forall id :: 0 <= id < z.nextId && id !in z.outbox ==>
      (id < s.nextId && id !in s.outbox) || HasLetter(z, id)
    requires t in z.workers ==> WorkerOk(z, t)
    requires t in z.workers && z.workers[t].Replaying? ==>
      z.workers[t].letter < |s.letters| && !s.letters[z.workers[t].letter].replayed
    requires TicketsUnique(z) && EffectsOk(z)
    requires z.confirmed <= z.taken && forall id :: id in z.taken ==> id < z.nextId
    requires forall id :: s.nextId <= id < z.nextId ==> z.origins[id] < |z.enqueued|
    requires forall o :: |s.enqueued| <= o < |z.enqueued| ==> HasRow(z, o)
    ensures Inv(z)
  {
    FrameRows(s, z, t);
    forall l | 0 <= l < |z.letters| ensures LetterOk(z, l) { if !Involved(s, z, t, l) { FrameLetter(s, z, t, l); } }
    forall id | 0 <= id < z.nextId && id !in z.outbox ensures HasLetter(z, id) {
      if id < s.nextId && id !in s.outbox { FrameGone(s, z, t, id); }
    }
    forall k | k in z.workers ensures WorkerOk(z, k) { if k != t { FrameWorker(s, z, t, k); } }
    forall k | k in z.workers && k != t && z.workers[k].Replaying? ensures s.letters[z.workers[k].letter].replayed {
      assert WorkerOk(s, k);
    }
  }

  lemma FrameRows(s: State, z: State, t: nat)
    requires Inv(s) && Frame(s, z, t)
    requires forall id :: id in z.outbox && id >= s.nextId ==> RowOk(z, id)
    requires forall id :: id in z.outbox && id < s.nextId && z.outbox[id].published ==>
      (id in s.outbox && s.outbox[id].published) || id in z.confirmed
    requires forall o :: |s.enqueued| <= o < |z.enqueued| ==> HasRow(z, o)
    requires forall id :: s.nextId <= id < z.nextId ==> z.origins[id] < |z.enqueued|
    ensures forall id :: id in z.outbox ==> RowOk(z, id)
    ensures forall id :: 0 <= id < |z.origins| ==> z.origins[id] < |z.enqueued|
    ensures forall o :: 0 <= o < |z.enqueued| ==> HasRow(z, o)
  {
    forall id | id in z.outbox ensures RowOk(z, id) { if id < s.nextId { assert RowOk(s, id); } }
    forall o | 0 <= o < |z.enqueued| ensures HasRow(z, o) {
      if o < |s.enqueued| {
        assert HasRow(s, o);
        var id :| 0 <= id < |s.origins| && s.origins[id] == o;
        assert z.origins[id] == o;
      }
    }
  }

  lemma FrameLetter(s: State, z: State, t: nat, l: nat)
    requires Inv(s) && Frame(s, z, t) && l < |z.letters| && !Involved(s, z, t, l)
    ensures LetterOk(z, l)
  {
    assert LetterOk(s, l);
    if s.letters[l].replayed && s.letters[l].reborn.None? && l !in s.abandoned {
      var k :| k in s.workers && s.workers[k] == Replaying(l);
      assert k in z.workers && z.workers[k] == Replaying(l);
    }
  }

  lemma FrameGone(s: State, z: State, t: nat, id: nat)
    requires Frame(s, z, t) && HasLetter(s, id)
    ensures HasLetter(z, id)
  {
    var l :| 0 <= l < |s.letters| && s.letters[l].source == id;
    assert SameLetter(s.letters[l], z.letters[l]);
  }

  lemma FrameClaim(s: State, z: State, t: nat, c: Claim)
    requires Frame(s, z, t) && ClaimOk(s, c)
    ensures ClaimOk(z, c)
  { }

  lemma FrameWorker(s: State, z: State, t: nat, k: nat)
    requires Inv(s) && Frame(s, z, t) && k in z.workers && k != t
    ensures WorkerOk(z, k)
  {
    assert WorkerOk(s, k);
    match s.workers[k]
    case Draining(pending, phase) =>
      forall i | 0 <= i < |pending| ensures ClaimOk(z, pending[i]) { FrameClaim(s, z, t, pending[i]); }
      if phase.Removing? { FrameGone(s, z, t, pending[0].id); }
    case Replaying(l) => assert SameLetter(s.letters[l], z.letters[l]);
  }

  /** The claims of a draining worker stay good when it moves to a later phase or claim. */
  lemma FrameOwn(s: State, z: State, t: nat)
    requires Inv(s) && Frame(s, z, t) && Drains(s, t) && t in z.workers && z.workers[t].Draining?
    requires z.workers[t].pending == s.workers[t].pending || z.workers[t].pending == s.workers[t].pending[1..]
    ensures forall i :: 0 <= i < |z.workers[t].pending| ==> ClaimOk(z, z.workers[t].pending[i])
  {
    assert WorkerOk(s, t);
    var p := s.workers[t].pending;
    var q := z.workers[t].pending;
    forall i | 0 <= i < |q| ensures ClaimOk(z, q[i]) {
      FrameClaim(s, z, t, if |q| == |p| then p[i] else p[i + 1]);
    }
  }

  /** No worker's claims change: every claim held afterwards was held before. */
  lemma SameHolds(s: State, z: State)
    requires TicketsUnique(s) && z.retries == s.retries && s.nextId <= z.nextId
    requires forall k: nat, i: int, id: nat, a: nat :: Holds(z, k, i, id, a) ==> Holds(s, k, i, id, a)
    requires forall id :: id in z.outbox && id < s.nextId ==>
      id in s.outbox && s.outbox[id].attempts <= z.outbox[id].attempts
    ensures TicketsUnique(z)
  { }

  // ---- The statements ---------------------------------------------------------------

  lemma EnqueueKeeps(s: State, e: Envelope, now: int)
    requires Inv(s)
    ensures Inv(Enqueue(s, e, now))
  {
    var z := Enqueue(s, e, now);
    var t := FreshWorker(s.workers.Keys);
    InsertKeepsTickets(s, z);
    assert z.origins[s.nextId] == |s.enqueued|;
    assert HasRow(z, |s.enqueued|);
    assert RowOk(z, s.nextId);
    assert Frame(s, z, t);
    FrameKeeps(s, z, t);
  }

  /** A new row takes a new id, which no claim and no reschedule ever named. */
  lemma InsertKeepsTickets(s: State, z: State)
    requires TicketsUnique(s) && z.retries == s.retries && z.nextId == s.nextId + 1
    requires forall k :: k in z.workers ==> k in s.workers && z.workers[k] == s.workers[k]
    requires forall id :: id in z.outbox && id != s.nextId ==> id in s.outbox && z.outbox[id] == s.outbox[id]
    ensures TicketsUnique(z)
  {
    forall k: nat, i: int, id: nat, a: nat | Holds(z, k, i, id, a) ensures Holds(s, k, i, id, a) { }
  }

  /** A number no worker uses, for the statements that belong to nobody. */
  lemma {:induction false} FreshWorker(ks: set<nat>, n: nat := 0) returns (t: nat)
    ensures t >= n && t !in ks
    decreases |ks|
  {
    if n in ks { t := FreshWorker(ks - {n}, n + 1); } else { t := n; }
  }

  lemma ClaimKeeps(s: State, worker: nat, ids: seq<nat>, now: int)
    requires Inv(s)
    ensures Inv(ClaimRows(s, worker, ids, now))
  {
    var z := ClaimRows(s, worker, ids, now);
    if worker !in s.workers && Claimable(s, ids, now) {
      ClaimFrame(s, worker, ids, now);
      ClaimKeepsTickets(s, worker, ids, now);
      FrameKeeps(s, z, worker);
    }
  }

  lemma ClaimFrame(s: State, worker: nat, ids: seq<nat>, now: int)
    requires worker !in s.workers && Claimable(s, ids, now) && |s.origins| == s.nextId
    ensures Frame(s, ClaimRows(s, worker, ids, now), worker)
  { }

  lemma ClaimKeepsTickets(s: State, worker: nat, ids: seq<nat>, now: int)
    requires Inv(s) && worker !in s.workers && Claimable(s, ids, now)
    ensures TicketsUnique(ClaimRows(s, worker, ids, now))
  {
    var z := ClaimRows(s, worker, ids, now);
    forall k: nat, i: int, id: nat, a: nat | Holds(z, k, i, id, a)
      ensures k != worker ==> Holds(s, k, i, id, a) && (id in s.outbox ==> a <= s.outbox[id].attempts)
      ensures k == worker ==> 0 <= i < |ids| && id == ids[i] && a == s.outbox[id].attempts + 1
    {
      if k != worker { assert WorkerOk(s, k) && ClaimOk(s, s.workers[k].pending[i]); }
    }
  }

  lemma PublishKeeps(s: State, worker: nat, answer: Answer, took: bool)
    requires Inv(s)
    ensures Inv(Publish(s, worker, answer, took))
  {
    if Drains(s, worker) && s.workers[worker].phase.Publishing?
      && (answer.Confirmed? ==> took) && (answer.Refused? ==> !took)
    {
      PublishedKeeps(s, worker, answer, took);
    }
  }

  lemma PublishedKeeps(s: State, worker: nat, answer: Answer, took: bool)
    requires Inv(s) && Drains(s, worker) && s.workers[worker].phase.Publishing? && (answer.Confirmed? ==> took)
      && (answer.Refused? ==> !took)
    ensures Inv(Publish(s, worker, answer, took))
  {
    var z := Publish(s, worker, answer, took);
    assert WorkerOk(s, worker) && ClaimOk(s, s.workers[worker].pending[0]);
    PublishFrame(s, worker, answer, took);
    FrameOwn(s, z, worker);
    SameHolds(s, z);
    FrameKeeps(s, z, worker);
  }

  lemma PublishFrame(s: State, worker: nat, answer: Answer, took: bool)
    requires Drains(s, worker) && |s.origins| == s.nextId
    ensures Frame(s, Publish(s, worker, answer, took), worker)
  { }

  /** Settling writes at most the claimed row, and the worker's own claims. */
  lemma SettleFrame(s: State, z: State, worker: nat)
    requires Drains(s, worker) && |s.origins| == s.nextId && z.workers == NextClaim(s, worker)
    requires z == s.(outbox := z.outbox, workers := z.workers, retries := z.retries)
    requires forall id :: id in z.outbox ==>
      id in s.outbox && z.outbox[id].envelope == s.outbox[id].envelope && z.outbox[id].origin == s.outbox[id].origin
      && s.outbox[id].attempts == z.outbox[id].attempts
    ensures Frame(s, z, worker)
  { }

  lemma MarkPublishedKeeps(s: State, worker: nat)
    requires Inv(s) && Drains(s, worker) && s.workers[worker].phase == Settling(Confirmed)
    ensures Inv(MarkPublished(s, worker))
  {
    var z := MarkPublished(s, worker);
    assert WorkerOk(s, worker);
    SettleFrame(s, z, worker);
    FrameOwn(s, z, worker);
    AdvanceKeepsTickets(s, z, worker);
    FrameKeeps(s, z, worker);
  }

  lemma InsertLetterKeeps(s: State, worker: nat)
    requires Inv(s) && Drains(s, worker)
    ensures Inv(InsertLetter(s, worker))
  {
    var z := InsertLetter(s, worker);
    var c := s.workers[worker].pending[0];
    assert WorkerOk(s, worker) && ClaimOk(s, c);
    assert z.letters[|s.letters|].source == c.id;
    assert LetterOk(z, |s.letters|);
    FrameOwn(s, z, worker);
    SameHolds(s, z);
    FrameKeeps(s, z, worker);
  }

  lemma RemoveRowKeeps(s: State, worker: nat)
    requires Inv(s) && Drains(s, worker) && s.workers[worker].phase.Removing?
    ensures Inv(RemoveRow(s, worker))
  {
    var z := RemoveRow(s, worker);
    assert WorkerOk(s, worker);
    SettleFrame(s, z, worker);
    FrameOwn(s, z, worker);
    AdvanceKeepsTickets(s, z, worker);
    FrameGone(s, z, worker, s.workers[worker].pending[0].id);
    FrameKeeps(s, z, worker);
  }

  lemma RescheduleKeeps(s: State, worker: nat, now: int)
    requires Inv(s) && Drains(s, worker) && s.workers[worker].pending[0].attempts < MAX_PUBLISH_ATTEMPTS
    ensures Inv(Reschedule(s, worker, now))
  {
    var z := Reschedule(s, worker, now);
    assert WorkerOk(s, worker);
    SettleFrame(s, z, worker);
    FrameOwn(s, z, worker);
    RescheduleKeepsTickets(s, worker, now);
    FrameKeeps(s, z, worker);
  }

  /** Finishing a claim gives up its attempt number and keeps the others. */
  lemma Advanced(s: State, z: State, worker: nat, k: nat, i: int, id: nat, a: nat)
    requires TicketsUnique(s) && Drains(s, worker) && z.workers == NextClaim(s, worker) && Holds(z, k, i, id, a)
    ensures Holds(s, k, if k == worker then i + 1 else i, id, a)
    ensures (id, a) != (s.workers[worker].pending[0].id, s.workers[worker].pending[0].attempts)
  {
    assert Holds(s, worker, 0, s.workers[worker].pending[0].id, s.workers[worker].pending[0].attempts);
    assert Holds(s, k, if k == worker then i + 1 else i, id, a);
  }

  lemma AdvanceKeepsTickets(s: State, z: State, worker: nat)
    requires TicketsUnique(s) && Drains(s, worker) && z.workers == NextClaim(s, worker) && z.retries == s.retries
      && z.nextId == s.nextId
    requires forall id :: id in z.outbox ==> id in s.outbox && z.outbox[id].attempts == s.outbox[id].attempts
    ensures TicketsUnique(z)
  {
    forall k: nat, i: int, id: nat, a: nat | Holds(z, k, i, id, a)
      ensures Holds(s, k, if k == worker then i + 1 else i, id, a)
    {
      Advanced(s, z, worker, k, i, id, a);
    }
  }

  lemma RescheduleKeepsTickets(s: State, worker: nat, now: int)
    requires Inv(s) && Drains(s, worker) && s.workers[worker].pending[0].attempts < MAX_PUBLISH_ATTEMPTS
    ensures TicketsUnique(Reschedule(s, worker, now))
  {
    var z := Reschedule(s, worker, now);
    var c := s.workers[worker].pending[0];
    assert WorkerOk(s, worker) && ClaimOk(s, c);
    assert Holds(s, worker, 0, c.id, c.attempts);
    forall k: nat, i: int, id: nat, a: nat | Holds(z, k, i, id, a)
      ensures Holds(s, k, if k == worker then i + 1 else i, id, a) && (id, a) != (c.id, c.attempts)
    {
      Advanced(s, z, worker, k, i, id, a);
    }
  }

  lemma SettleKeeps(s: State, worker: nat, now: int)
    requires Inv(s)
    ensures Inv(SettleStatement(s, worker, now))
  {
    if Drains(s, worker) {
      match s.workers[worker].phase
      case Publishing =>
      case Settling(answer) =>
        if answer.Confirmed? { MarkPublishedKeeps(s, worker); }
        else if Exhausted(answer, s.workers[worker].pending[0].attempts) { InsertLetterKeeps(s, worker); }
        else { RescheduleKeeps(s, worker, now); }
      case Removing => RemoveRowKeeps(s, worker);
    }
  }

  lemma ReplayMarkKeeps(s: State, worker: nat, letter: nat, tenant: string)
    requires Inv(s)
    ensures Inv(ReplayMark(s, worker, letter, tenant))
  {
    var z := ReplayMark(s, worker, letter, tenant);
    if z != s {
      assert LetterOk(s, letter);
      assert z.workers[worker] == Replaying(letter);
      assert LetterOk(z, letter);
      SameHolds(s, z);
      FrameKeeps(s, z, worker);
    }
  }

  lemma ReplayInsertKeeps(s: State, worker: nat, now: int)
    requires Inv(s)
    ensures Inv(ReplayInsert(s, worker, now))
  {
    if worker in s.workers && s.workers[worker].Replaying? {
      var z := ReplayInsert(s, worker, now);
      assert WorkerOk(s, worker);
      InsertKeepsTickets(s, z);
      ReplayInsertFrame(s, worker, now);
      FrameKeeps(s, z, worker);
    }
  }

  lemma ReplayInsertFrame(s: State, worker: nat, now: int)
    requires Inv(s) && worker in s.workers && s.workers[worker].Replaying?
    ensures var z := ReplayInsert(s, worker, now); var l := s.workers[worker].letter;
      Frame(s, z, worker) && l < |z.letters| && LetterOk(z, l) && s.nextId in z.outbox && RowOk(z, s.nextId)
        && z.origins[s.nextId] < |z.enqueued|
  {
    var z := ReplayInsert(s, worker, now);
    assert WorkerOk(s, worker) && LetterOk(s, s.workers[worker].letter);
    assert z.origins[s.nextId] == s.letters[s.workers[worker].letter].origin;
  }

  lemma CrashKeeps(s: State, worker: nat)
    requires Inv(s)
    ensures Inv(Crash(s, worker))
  {
    var z := Crash(s, worker);
    if worker in s.workers {
      assert WorkerOk(s, worker);
      if s.workers[worker].Replaying? { assert LetterOk(s, s.workers[worker].letter); }
      SameHolds(s, z);
      FrameKeeps(s, z, worker);
    }
  }

  lemma ConsumeKeeps(s: State, id: nat, consumer: string, commits: bool)
    requires Inv(s)
    ensures Inv(Consume(s, id, consumer, commits))
  {
    if id in s.taken && commits {
      EffectsKeep(s, id, consumer);
      DeliveriesAside(s, Consume(s, id, consumer, commits));
    }
  }

  /** Markers and effects are all a consumer writes. */
  lemma DeliveriesAside(s: State, z: State)
    requires Inv(s) && EffectsOk(z) && z == s.(deliveries := z.deliveries, effects := z.effects)
    ensures Inv(z)
  {
    var t := FreshWorker(s.workers.Keys);
    SameHolds(s, z);
    FrameKeeps(s, z, t);
  }

  lemma EffectsKeep(s: State, id: nat, consumer: string)
    requires EffectsOk(s)
    ensures EffectsOk(Consume(s, id, consumer, true))
  {
    var z := Consume(s, id, consumer, true);
    forall d | d in z.deliveries ensures d in z.effects {
      if d in s.deliveries { assert d in s.effects; } else if z != s { assert z.effects[|s.effects|] == d; }
    }
    if z != s && (id, consumer) !in s.deliveries {
      forall i | 0 <= i < |s.effects| ensures s.effects[i] != (id, consumer) { }
    }
  }

  lemma ApplyKeeps(s: State, step: Step)
    requires Inv(s)
    ensures Inv(Apply(s, step))
  {
    match step
    case EnqueueStep(e, now) => EnqueueKeeps(s, e, now);
    case ClaimStep(k, ids, now) => ClaimKeeps(s, k, ids, now);
    case PublishStep(k, answer, took) => PublishKeeps(s, k, answer, took);
    case SettleStep(k, now) => SettleKeeps(s, k, now);
    case ReplayMarkStep(k, l, tenant) => ReplayMarkKeeps(s, k, l, tenant);
    case ReplayInsertStep(k, now) => ReplayInsertKeeps(s, k, now);
    case CrashStep(k) => CrashKeeps(s, k);
    case ConsumeStep(id, consumer, commits) => ConsumeKeeps(s, id, consumer, commits);
  }

  lemma {:induction false} RunKeeps(steps: seq<Step>)
    ensures Inv(Run(Initial(), steps))
    decreases |steps|
  {
    if steps != [] {
      RunKeeps(steps[..|steps| - 1]);
      ApplyKeeps(Run(Initial(), steps[..|steps| - 1]), steps[|steps| - 1]);
    }
  }
}
