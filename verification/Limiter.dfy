/**
 * The fixed-window counter in front of credentials, one row per bucket and subject.
 * Instants are microseconds; the upsert is one atomic statement.
 */
module Limiter {
  import opened Shared

  const SECOND: int := 1_000_000

  datatype Limits = Limits(windowSeconds: nat, maxAttempts: nat)
  datatype Counter = Counter(startedAt: int, count: nat, expiresAt: int)
  datatype Decision = Allowed | Blocked(retryAfterSeconds: int)

  predicate Sensible(l: Limits) {
    l.windowSeconds >= 1
  }

  function Window(l: Limits): int {
    l.windowSeconds * SECOND
  }

  function CeilSeconds(d: int): int {
    -((-d) / SECOND)
  }

  /** The row after one attempt: a window that is over starts again, one that is not keeps its start. */
  function Attempted(c: Option<Counter>, l: Limits, now: int): Counter {
    if c.None? || c.value.startedAt <= now - Window(l) then Counter(now, 1, now + Window(l))
    else Counter(c.value.startedAt, c.value.count + 1, now + Window(l))
  }

  function Decide(c: Counter, l: Limits, now: int): Decision {
    if c.count <= l.maxAttempts then Allowed
    else
      var wait := CeilSeconds(c.startedAt + Window(l) - now);
      Blocked(if wait < 1 then 1 else wait)
  }

  class AuthRateLimiter {
    var rows: map<(string, string), Counter>

    constructor ()
      ensures rows == map[]
    {
      rows := map[];
    }

    function Row(bucket: string, subject: string): Option<Counter>
      reads this
    {
      if (bucket, subject) in rows then Some(rows[(bucket, subject)]) else None
    }

    /** One attempt counts against its own row and no other, and is decided by the count it made. */
    method Consume(bucket: string, subject: string, limits: Limits, now: int) returns (decision: Decision)
      modifies this
      ensures Row(bucket, subject) == Some(Attempted(old(Row(bucket, subject)), limits, now))
      ensures decision == Decide(Row(bucket, subject).value, limits, now)
      ensures forall b, s :: (b, s) != (bucket, subject) ==> Row(b, s) == old(Row(b, s))
    {
      var key := (bucket, subject);
      var row := Counter(now, 1, now + Window(limits));
      if key in rows {
        var over := rows[key].startedAt <= now - Window(limits);
        row := Counter(
          if over then now else rows[key].startedAt,
          if over then 1 else rows[key].count + 1,
          now + Window(limits));
      }
      rows := rows[key := row];
      if row.count <= limits.maxAttempts { return Allowed; }
      var wait := CeilSeconds(row.startedAt + Window(limits) - now);
      decision := Blocked(if wait < 1 then 1 else wait);
    }

    method Reset(bucket: string, subject: string)
      modifies this
      ensures Row(bucket, subject).None?
      ensures forall b, s :: (b, s) != (bucket, subject) ==> Row(b, s) == old(Row(b, s))
    {
      rows := rows - {(bucket, subject)};
    }
  }

  // ---- One attempt after another ----------------------------------------------------

  lemma CeilIsLeast(d: int)
    ensures (CeilSeconds(d) - 1) * SECOND < d <= CeilSeconds(d) * SECOND
  { }

  /**
   * Blocked at `now`, when is the next attempt, made at `t` with none in between, allowed?
   * Exactly from the end of the window on, if any attempt is ever allowed; the delay
   * advertised reaches that end, and a second less would not. Being blocked moved nothing.
   */
  lemma RetryDelayIsExact(c: Counter, l: Limits, now: int, t: int)
    requires Sensible(l) && Decide(c, l, now).Blocked? && now <= t && c.startedAt <= now < c.startedAt + Window(l)
    ensures var end := c.startedAt + Window(l); var retry := Decide(c, l, now).retryAfterSeconds;
      && (Decide(Attempted(Some(c), l, t), l, t).Allowed? <==> t >= end && l.maxAttempts >= 1)
      && now + (retry - 1) * SECOND < end <= now + retry * SECOND
      && (t < end ==> Attempted(Some(c), l, t).startedAt + Window(l) == end)
  {
    CeilIsLeast(c.startedAt + Window(l) - now);
  }

  /** Whatever the clock does, nobody blocked is told to come back at once. */
  lemma DelayIsPositive(c: Counter, l: Limits, now: int)
    requires Decide(c, l, now).Blocked?
    ensures Decide(c, l, now).retryAfterSeconds >= 1
  { }

  // ---- Whole traces -----------------------------------------------------------------

  ghost predicate Ordered(times: seq<int>) {
    forall i, j :: 0 <= i <= j < |times| ==> times[i] <= times[j]
  }

  /** The row after all the attempts. */
  function After(times: seq<int>, l: Limits): Option<Counter> {
    if times == [] then None
    else Some(Attempted(After(times[..|times| - 1], l), l, times[|times| - 1]))
  }

  /** Whether the last of these attempts was allowed. */
  predicate LastAllowed(times: seq<int>, l: Limits)
    requires times != []
  {
    Decide(After(times, l).value, l, times[|times| - 1]).Allowed?
  }

  predicate Within(t: int, from: int, until: int) {
    from <= t < until
  }

  /** How many attempts with `from <= time < until` were allowed. */
  function AllowedIn(times: seq<int>, l: Limits, from: int, until: int): nat {
    if times == [] then 0
    else
      var t := times[|times| - 1];
      AllowedIn(times[..|times| - 1], l, from, until)
        + (if Within(t, from, until) && LastAllowed(times, l) then 1 else 0)
  }

  /** How many of them opened a new window. */
  function OpenedIn(times: seq<int>, l: Limits, from: int, until: int): nat {
    if times == [] then 0
    else
      var t := times[|times| - 1];
      OpenedIn(times[..|times| - 1], l, from, until)
      + (if Within(t, from, until) && After(times, l).value.count == 1 then 1 else 0)
  }

  function Min(a: nat, b: nat): nat {
    if a <= b then a else b
  }

  /** The row's window began with an attempt and is not over when its last attempt was made. */
  lemma {:induction false} RowSane(times: seq<int>, l: Limits)
    requires Sensible(l) && Ordered(times) && times != []
    ensures var c := After(times, l).value;
      c.count >= 1 && c.startedAt <= times[|times| - 1] < c.startedAt + Window(l) <= c.expiresAt
  {
    if |times| > 1 {
      RowSane(times[..|times| - 1], l);
    }
  }

  lemma {:induction false} NothingBefore(times: seq<int>, l: Limits, from: int, until: int)
    requires Ordered(times) && (times == [] || times[|times| - 1] < from)
    ensures AllowedIn(times, l, from, until) == 0 == OpenedIn(times, l, from, until)
  {
    if times != [] {
      NothingBefore(times[..|times| - 1], l, from, until);
    }
  }

  lemma OneMoreWindow(m: nat, o: nat)
    ensures m * (o + 1) == m * o + m
  { }

  /**
   * A window lets through at most the maximum, and one that began earlier spent an attempt
   * beginning, so allowed attempts are bounded by the windows they fall in.
   */
  lemma {:induction false} AllowedPerWindow(times: seq<int>, l: Limits, from: int, until: int)
    requires Sensible(l) && Ordered(times) && times != [] && l.maxAttempts >= 1
    ensures AllowedIn(times, l, from, until) + 1 <= l.maxAttempts * OpenedIn(times, l, from, until) + l.maxAttempts
    ensures times[|times| - 1] < until ==>
      AllowedIn(times, l, from, until) + 1
      <= l.maxAttempts * OpenedIn(times, l, from, until) + Min(l.maxAttempts, After(times, l).value.count)
  {
    var front := times[..|times| - 1];
    RowSane(times, l);
    OneMoreWindow(l.maxAttempts, OpenedIn(front, l, from, until));
    if times[|times| - 1] < from {
      NothingBefore(times, l, from, until);
    } else if front != [] {
      AllowedPerWindow(front, l, from, until);
      RowSane(front, l);
    }
  }

  /** Windows begin at least a window's length apart. */
  lemma {:induction false} OpeningsApart(times: seq<int>, l: Limits, from: int, until: int)
    requires Sensible(l) && Ordered(times)
    ensures OpenedIn(times, l, from, until) == 0
            || (times != [] && After(times, l).value.startedAt >= from
                   + (OpenedIn(times, l, from, until) - 1) * Window(l))
    ensures OpenedIn(times, l, from, until) == 0 || from + (OpenedIn(times, l, from, until) - 1) * Window(l) < until
  {
    if times != [] {
      var front := times[..|times| - 1];
      OpeningsApart(front, l, from, until);
      if front != [] {
        RowSane(front, l);
      }
      var o := OpenedIn(front, l, from, until);
      assert (o - 1) * Window(l) + Window(l) == o * Window(l);
    }
  }

  lemma SignOfProduct(x: int, w: int)
    requires w > 0
    ensures x >= 0 ==> x * w >= 0
  { }

  lemma FewerWindows(o: nat, k: nat, w: int)
    requires w > 0 && (o - 1) * w < k * w
    ensures o <= k
  {
    assert (o - 1) * w - k * w == (o - 1 - k) * w;
    SignOfProduct(o - 1 - k, w);
  }

  lemma BoundGrows(m: nat, o: nat, k: nat)
    requires o <= k
    ensures m * o + m <= (k + 1) * m
  {
    SignOfProduct(k - o, m + 1);
    assert m * (k - o) >= 0;
  }

  /**
   * However attempts are spread, `k` windows' worth of time lets fewer than `k + 1` windows'
   * worth of them through.
   */
  lemma RateBound(times: seq<int>, l: Limits, from: int, k: nat)
    requires Sensible(l) && Ordered(times) && l.maxAttempts >= 1
    ensures AllowedIn(times, l, from, from + k * Window(l)) < (k + 1) * l.maxAttempts
  {
    var until := from + k * Window(l);
    var o := OpenedIn(times, l, from, until);
    if times == [] {
      BoundGrows(l.maxAttempts, 0, k);
    } else {
      AllowedPerWindow(times, l, from, until);
      OpeningsApart(times, l, from, until);
      if o > 0 {
        FewerWindows(o, k, Window(l));
      }
      BoundGrows(l.maxAttempts, o, k);
    }
  }

  /** With a maximum of zero nothing is ever allowed. */
  lemma {:induction false} NoneAllowed(times: seq<int>, l: Limits, from: int, until: int)
    requires Sensible(l) && Ordered(times) && l.maxAttempts == 0
    ensures AllowedIn(times, l, from, until) == 0
  {
    if times != [] {
      NoneAllowed(times[..|times| - 1], l, from, until);
      RowSane(times, l);
    }
  }

  /** The bound is reached: two attempts a minute, and three pass within one. */
  lemma BoundIsReached(l: Limits, a: int, b: int, c: int, d: int)
    requires l == Limits(60, 2) && a == 0 && b == 59_000_000 && c == 60_000_000 && d == 61_000_000
    ensures AllowedIn([a, b, c, d], l, b, b + Window(l)) == 3
  {
    var until := b + Window(l);
    assert [a, b, c, d][..3] == [a, b, c] && [a, b, c][..2] == [a, b] && [a, b][..1] == [a] && [a][..0] == [];
    assert After([a], l) == Some(Counter(a, 1, a + Window(l)));
    assert After([a, b], l) == Some(Counter(a, 2, b + Window(l)));
    assert After([a, b, c], l) == Some(Counter(c, 1, c + Window(l)));
    assert After([a, b, c, d], l) == Some(Counter(c, 2, d + Window(l)));
    assert AllowedIn([a], l, b, until) == 0;
    assert AllowedIn([a, b], l, b, until) == 1;
    assert AllowedIn([a, b, c], l, b, until) == 2;
  }
}
