/**
 * Keyset pages: rows after a position, one more than a page holds, in the order of the
 * sort. A row stands for its (value, id) pair; `before` is the database's order on them,
 * whichever way the sort runs.
 */
module Paging {
  import opened Shared
  import opened Cursor
  import Counting

  ghost predicate TotalOrder<K(!new)>(before: (K, K) -> bool) {
    && (forall a: K, b: K :: before(a, b) || before(b, a) || a == b)
    && (forall a: K, b: K :: before(a, b) ==> !before(b, a))
    && (forall a: K, b: K, c: K :: before(a, b) && before(b, c) ==> before(a, c))
  }

  ghost function Beyond<K>(before: (K, K) -> bool, rows: set<K>, after: Option<K>): set<K> {
    set k | k in rows && (after.None? || before(after.value, k))
  }

  ghost predicate IsFirst<K>(before: (K, K) -> bool, rows: set<K>, k: K) {
    k in rows && forall j :: j in rows ==> j == k || before(k, j)
  }

  lemma {:induction false} FirstExists<K(!new)>(before: (K, K) -> bool, rows: set<K>)
    requires TotalOrder(before) && rows != {}
    ensures exists k :: IsFirst(before, rows, k)
    decreases |rows|
  {
    var x :| x in rows;
    if rows == {x} {
      assert IsFirst(before, rows, x);
    } else {
      var rest := rows - {x};
      assert rest == {} ==> rows == {x};
      FirstExists(before, rest);
      var m :| IsFirst(before, rest, m);
      var k := if before(x, m) then x else m;
      assert IsFirst(before, rows, k);
    }
  }

  ghost function First<K(!new)>(before: (K, K) -> bool, rows: set<K>): (k: K)
    requires TotalOrder(before) && rows != {}
    ensures IsFirst(before, rows, k)
  {
    FirstExists(before, rows);
    var k :| IsFirst(before, rows, k);
    k
  }

  /** `ORDER BY ... LIMIT n` over the rows after a position. */
  ghost function Select<K(!new)>(before: (K, K) -> bool, rows: set<K>, after: Option<K>, n: nat): seq<K>
    requires TotalOrder(before)
    decreases n
  {
    var left := Beyond(before, rows, after);
    if n == 0 || left == {} then []
    else [First(before, left)] + Select(before, rows, Some(First(before, left)), n - 1)
  }

  /** Everything, sorted: the list that pages cut up. */
  ghost function Sorted<K(!new)>(before: (K, K) -> bool, rows: set<K>): seq<K>
    requires TotalOrder(before)
  {
    Select(before, rows, None, |rows|)
  }

  datatype Page<K> = Page(items: seq<K>, next: Option<K>)

  /** The page cut from one row more than it may hold; there is a next one when that row was there. */
  function Cut<K>(selected: seq<K>, limit: nat): Page<K> {
    var items := if |selected| > limit then selected[..limit] else selected;
    Page(items, if |selected| > limit && items != [] then Some(items[|items| - 1]) else None)
  }

  ghost function PageAfter<K(!new)>(before: (K, K) -> bool, rows: set<K>, after: Option<K>, limit: nat): Page<K>
    requires TotalOrder(before)
  {
    Cut(Select(before, rows, after, limit + 1), limit)
  }

  // ---- Following pages --------------------------------------------------------------

  datatype Followed<K> = Followed(items: seq<K>, done: bool)

  /**
   * The pages a client gets from `after` on, one for each state the table is in when asked, until
   * there is no next one.
   */
  ghost function Follow<K(!new)>(before: (K, K) -> bool, tables: seq<set<K>>, after: Option<K>, limit: nat): Followed<K>
    requires TotalOrder(before)
    decreases |tables|
  {
    if tables == [] then Followed([], false)
    else
      var page := PageAfter(before, tables[0], after, limit);
      if page.next.None? then Followed(page.items, true)
      else
        var rest := Follow(before, tables[1..], page.next, limit);
        Followed(page.items + rest.items, rest.done)
  }

  ghost predicate Ascending<K>(before: (K, K) -> bool, xs: seq<K>) {
    forall i, j :: 0 <= i < j < |xs| ==> before(xs[i], xs[j])
  }

  ghost predicate AllBeyond<K>(before: (K, K) -> bool, after: Option<K>, xs: seq<K>) {
    after.Some? ==> forall i :: 0 <= i < |xs| ==> before(after.value, xs[i])
  }

  /** What a query returns: the rows beyond the position, ascending, and none left out below the last of them. */
  lemma {:induction false} SelectIs<K(!new)>(before: (K, K) -> bool, rows: set<K>, after: Option<K>, n: nat)
    requires TotalOrder(before)
    ensures var xs := Select(before, rows, after, n);
      && |xs| <= n && Ascending(before, xs) && AllBeyond(before, after, xs)
      && (forall i :: 0 <= i < |xs| ==> xs[i] in rows)
      && (forall k :: k in Beyond(before, rows, after) ==> k in xs || (|xs| == n && (n > 0 ==> before(xs[n - 1], k))))
    decreases n
  {
    var left := Beyond(before, rows, after);
    if n > 0 && left != {} {
      var m := First(before, left);
      SelectIs(before, rows, Some(m), n - 1);
      var rest := Select(before, rows, Some(m), n - 1);
      var xs := Select(before, rows, after, n);
      assert xs == [m] + rest;
      forall k | k in left ensures k in xs || (|xs| == n && before(xs[n - 1], k)) {
        if k != m {
          assert k in Beyond(before, rows, Some(m));
          if k in rest {
            assert k in xs;
          }
        }
      }
    }
  }

  // ---- Theorems ---------------------------------------------------------------------

  lemma CutIs<K(!new)>(before: (K, K) -> bool, xs: seq<K>, limit: nat, k: K)
    requires Ascending(before, xs) && |xs| <= limit + 1 && limit >= 1 && TotalOrder(before)
    requires k in xs || (|xs| == limit + 1 && before(xs[limit], k))
    ensures var p := Cut(xs, limit); k in p.items || (p.next.Some? && before(p.next.value, k))
  {
    if k in xs {
      var i :| 0 <= i < |xs| && xs[i] == k;
      assert i < |Cut(xs, limit).items| ==> Cut(xs, limit).items[i] == k;
    } else {
      assert before(xs[limit - 1], xs[limit]);
    }
  }

  /**
   * One page: what it holds, and that everything else still beyond lies after its last row when
   * there is a next page.
   */
  lemma PageIs<K(!new)>(before: (K, K) -> bool, rows: set<K>, after: Option<K>, limit: nat)
    requires TotalOrder(before) && limit >= 1
    ensures var p := PageAfter(before, rows, after, limit);
      && |p.items| <= limit && Ascending(before, p.items) && AllBeyond(before, after, p.items)
      && (forall i :: 0 <= i < |p.items| ==> p.items[i] in rows)
      && (p.next.Some? ==> p.items != [] && p.next.value == p.items[|p.items| - 1])
      && (forall k :: k in Beyond(before, rows, after) ==> k in p.items || (p.next.Some? && before(p.next.value, k)))
  {
    var xs := Select(before, rows, after, limit + 1);
    SelectIs(before, rows, after, limit + 1);
    forall k | k in Beyond(before, rows, after)
      ensures k in Cut(xs, limit).items || (Cut(xs, limit).next.Some? && before(Cut(xs, limit).next.value, k))
    {
      CutIs(before, xs, limit, k);
    }
  }

  /**
   * Whatever is inserted or deleted between requests, the rows a client gets by following
   * cursors ascend, so none comes twice, and each was in the table when it was read.
   */
  lemma {:induction false} FollowedAscend<K(!new)>(before: (K, K) -> bool, tables: seq<set<K>>, after: Option<K>,
                                                   limit: nat)
    requires TotalOrder(before) && limit >= 1
    ensures var xs := Follow(before, tables, after, limit).items;
      && Ascending(before, xs) && AllBeyond(before, after, xs)
      && forall i :: 0 <= i < |xs| ==> exists t :: 0 <= t < |tables| && xs[i] in tables[t]
    decreases |tables|
  {
    if tables != [] {
      var page := PageAfter(before, tables[0], after, limit);
      PageIs(before, tables[0], after, limit);
      FollowedAscend(before, tables[1..], page.next, limit);
      var rest := if page.next.None? then [] else Follow(before, tables[1..], page.next, limit).items;
      var xs := Follow(before, tables, after, limit).items;
      assert xs == page.items + rest;
      forall i | 0 <= i < |xs| ensures exists t :: 0 <= t < |tables| && xs[i] in tables[t] {
        if i < |page.items| {
          assert xs[i] in tables[0];
        } else {
          var t :| 0 <= t < |tables[1..]| && rest[i - |page.items|] in tables[1..][t];
          assert xs[i] in tables[t + 1];
        }
      }
      JoinAscending(before, page.items, rest, page.next);
    }
  }

  lemma JoinAscending<K(!new)>(before: (K, K) -> bool, xs: seq<K>, ys: seq<K>, last: Option<K>)
    requires TotalOrder(before) && Ascending(before, xs) && Ascending(before, ys)
    requires ys != [] ==> xs != [] && last == Some(xs[|xs| - 1]) && AllBeyond(before, last, ys)
    ensures Ascending(before, xs + ys)
  {
    forall i, j | 0 <= i < j < |xs + ys| ensures before((xs + ys)[i], (xs + ys)[j]) {
      if i < |xs| <= j {
        assert before(xs[|xs| - 1], ys[j - |xs|]);
      }
    }
  }

  /** A row that is there at every request is returned by the time there is no next page. */
  lemma {:induction false} SteadyRowsReturned<K(!new)>(before: (K, K) -> bool, tables: seq<set<K>>, after: Option<K>,
                                                       limit: nat, k: K)
    requires TotalOrder(before) && limit >= 1 && Follow(before, tables, after, limit).done
    requires forall t :: 0 <= t < |tables| ==> k in tables[t]
    requires after.Some? ==> before(after.value, k)
    ensures k in Follow(before, tables, after, limit).items
    decreases |tables|
  {
    var page := PageAfter(before, tables[0], after, limit);
    PageIs(before, tables[0], after, limit);
    assert k in tables[0] && k in Beyond(before, tables[0], after);
    if k !in page.items {
      SteadyRowsReturned(before, tables[1..], page.next, limit, k);
    }
  }

  /** Every page with a next one leaves fewer rows to come. */
  lemma {:induction false} FollowEnds<K(!new)>(before: (K, K) -> bool, rows: set<K>, tables: seq<set<K>>,
                                               after: Option<K>, limit: nat)
    requires TotalOrder(before) && limit >= 1
    requires forall t :: 0 <= t < |tables| ==> tables[t] == rows
    requires |tables| > |Beyond(before, rows, after)|
    ensures Follow(before, tables, after, limit).done
    decreases |tables|
  {
    var page := PageAfter(before, tables[0], after, limit);
    PageIs(before, tables[0], after, limit);
    if page.next.Some? {
      var here, later := Beyond(before, rows, after), Beyond(before, rows, page.next);
      var last := page.items[|page.items| - 1];
      assert last in here && last !in later;
      assert later <= here - {last};
      Counting.SubsetSize(later, here - {last});
      FollowEnds(before, rows, tables[1..], page.next, limit);
    }
  }

  /** Two ascending lists of the same rows are the same list. */
  lemma {:induction false} AscendingUnique<K(!new)>(before: (K, K) -> bool, xs: seq<K>, ys: seq<K>)
    requires TotalOrder(before) && Ascending(before, xs) && Ascending(before, ys)
    requires forall k :: k in xs <==> k in ys
    ensures xs == ys
    decreases |xs|
  {
    if xs == [] {
      assert forall i :: 0 <= i < |ys| ==> ys[i] in ys;
    } else {
      assert xs[0] in ys;
      assert ys[0] in xs;
      SameFirst(before, xs, ys);
      forall k ensures k in xs[1..] <==> k in ys[1..] {
        assert k in xs <==> k == xs[0] || k in xs[1..];
        assert k in ys <==> k == ys[0] || k in ys[1..];
      }
      AscendingUnique(before, xs[1..], ys[1..]);
      assert xs == [xs[0]] + xs[1..] && ys == [ys[0]] + ys[1..];
    }
  }

  lemma FirstIsBefore<K(!new)>(before: (K, K) -> bool, xs: seq<K>, k: K)
    requires Ascending(before, xs) && k in xs
    ensures k == xs[0] || before(xs[0], k)
  { }

  lemma SameFirst<K(!new)>(before: (K, K) -> bool, xs: seq<K>, ys: seq<K>)
    requires TotalOrder(before) && Ascending(before, xs) && Ascending(before, ys)
    requires xs != [] && ys != [] && xs[0] in ys && ys[0] in xs
    ensures xs[0] == ys[0] && xs[0] !in xs[1..] && ys[0] !in ys[1..]
  {
    FirstIsBefore(before, ys, xs[0]);
    FirstIsBefore(before, xs, ys[0]);
  }

  /** The sorted list holds every row once, ascending. */
  lemma SortedIs<K(!new)>(before: (K, K) -> bool, rows: set<K>)
    requires TotalOrder(before)
    ensures Ascending(before, Sorted(before, rows)) && forall k :: k in Sorted(before, rows) <==> k in rows
    ensures |Sorted(before, rows)| == |rows|
  {
    var xs := Sorted(before, rows);
    SelectIs(before, rows, None, |rows|);
    forall k | k in rows ensures k in xs {
      assert k in Beyond(before, rows, None);
      if k !in xs {
        DistinctFill(before, xs, rows, k);
      }
    }
    Counting.SetWithin(rows, xs);
  }

  lemma DistinctFill<K(!new)>(before: (K, K) -> bool, xs: seq<K>, rows: set<K>, k: K)
    requires TotalOrder(before) && Ascending(before, xs) && |xs| == |rows| && k in rows
    requires forall i :: 0 <= i < |xs| ==> xs[i] in rows
    ensures k in xs
  {
    if k !in xs {
      Counting.DistinctInSet(xs, rows - {k});
    }
  }

  /**
   * Over a table nothing changes, following cursors from the first page to the last gives
   * exactly the sorted list, for every page size.
   */
  lemma PagesAreTheSortedList<K(!new)>(before: (K, K) -> bool, rows: set<K>, tables: seq<set<K>>, limit: nat)
    requires TotalOrder(before) && limit >= 1
    requires |tables| > |rows| && forall t :: 0 <= t < |tables| ==> tables[t] == rows
    ensures Follow(before, tables, None, limit) == Followed(Sorted(before, rows), true)
  {
    var xs := Follow(before, tables, None, limit).items;
    assert Beyond(before, rows, None) == rows;
    FollowEnds(before, rows, tables, None, limit);
    FollowedAscend(before, tables, None, limit);
    SortedIs(before, rows);
    forall k ensures k in xs <==> k in rows {
      if k in rows {
        SteadyRowsReturned(before, tables, None, limit, k);
      }
    }
    AscendingUnique(before, xs, Sorted(before, rows));
  }

  /** A page size of zero is why the limit matters: it ends at once, with nothing, whatever the table holds. */
  lemma ZeroLimitEndsEmpty<K(!new)>(before: (K, K) -> bool, rows: set<K>, after: Option<K>)
    requires TotalOrder(before)
    ensures PageAfter(before, rows, after, 0) == Page([], None)
  {
    SelectIs(before, rows, after, 1);
  }

  // ---- Through cursors --------------------------------------------------------------

  const TTL_SECONDS: nat := 900

  /** How a position is written into a cursor and read from it. */
  datatype Texts<!K> = Texts(show: K -> Position, read: Position -> K)

  ghost predicate Faithful<K(!new)>(texts: Texts<K>) {
    forall k: K :: texts.read(texts.show(k)) == k
  }

  datatype Response<K> = Refused(why: Rejection) | Answer(items: seq<K>, nextCursor: Option<string>)

  ghost function Serve<K(!new)>(before: (K, K) -> bool, rows: set<K>, limit: nat, x: Scheme, b: Binding,
                                texts: Texts<K>, cursor: Option<string>, now: int): Response<K>
    requires TotalOrder(before)
  {
    var decoded := if cursor.None? then None else Some(Decode(x, cursor.value, b, now));
    if decoded.Some? && decoded.value.Rejected? then Refused(decoded.value.code)
    else
      var page := PageAfter(before, rows, if decoded.None? then None else Some(texts.read(decoded.value.after)), limit);
      Answer(page.items, if page.next.None? then None
          else Some(Encode(x, b, texts.show(page.next.value), TTL_SECONDS, now)))
  }

  /** A client that sends back each cursor it gets; nothing when a request is refused. */
  ghost function FollowCursors<K(!new)>(before: (K, K) -> bool, tables: seq<set<K>>, limit: nat, x: Scheme,
                                        b: Binding, texts: Texts<K>, cursor: Option<string>,
                                        times: seq<int>): Option<Followed<K>>
    requires TotalOrder(before) && |times| == |tables|
    decreases |tables|
  {
    if tables == [] then Some(Followed([], false))
    else
      var reply := Serve(before, tables[0], limit, x, b, texts, cursor, times[0]);
      if reply.Refused? then None
      else if reply.nextCursor.None? then Some(Followed(reply.items, true))
      else
        var rest := FollowCursors(before, tables[1..], limit, x, b, texts, reply.nextCursor, times[1..]);
        if rest.None? then None else Some(Followed(reply.items + rest.value.items, rest.value.done))
  }

  /** The cursor of `k` issued at `issued` is turned down at `now`, by its length or its age. */
  ghost predicate Lapses<K(!new)>(x: Scheme, b: Binding, texts: Texts<K>, k: K, issued: int, now: int) {
    |Encode(x, b, texts.show(k), 900, issued)| > 4096 || now / 1000 >= issued / 1000 + 900
  }

  /** Where page `i`, counted from the one after `after`, leaves off, if it has a next one. */
  ghost function NextAt<K(!new)>(before: (K, K) -> bool, tables: seq<set<K>>, after: Option<K>, limit: nat,
                                 i: nat): Option<K>
    requires TotalOrder(before) && i < |tables|
    decreases i
  {
    var next := PageAfter(before, tables[0], after, limit).next;
    if i == 0 || next.None? then next else NextAt(before, tables[1..], next, limit, i - 1)
  }

  /** The cursor that came with page `i` has lapsed when the request for page `i + 1` is made. */
  ghost predicate LapsesAt<K(!new)>(before: (K, K) -> bool, tables: seq<set<K>>, after: Option<K>, limit: nat,
                                    x: Scheme, b: Binding, texts: Texts<K>, times: seq<int>, i: nat)
    requires TotalOrder(before) && |times| == |tables|
  {
    i + 1 < |tables| && NextAt(before, tables, after, limit, i).Some?
    && Lapses(x, b, texts, NextAt(before, tables, after, limit, i).value, times[i], times[i + 1])
  }

  /** The cursor given first, if any, is in order. */
  ghost predicate Presentable<K(!new)>(x: Scheme, b: Binding, texts: Texts<K>, after: Option<K>, issued: int,
                                       times: seq<int>) {
    after.Some? && times != [] ==> !Lapses(x, b, texts, after.value, issued, times[0])
  }

  lemma LapsesLater<K(!new)>(before: (K, K) -> bool, tables: seq<set<K>>, after: Option<K>, limit: nat, x: Scheme,
                             b: Binding, texts: Texts<K>, times: seq<int>, i: nat)
    requires TotalOrder(before) && |times| == |tables| > 0 && PageAfter(before, tables[0], after, limit).next.Some?
    ensures var next := PageAfter(before, tables[0], after, limit).next;
      && (LapsesAt(before, tables, after, limit, x, b, texts, times, i + 1) <==>
            LapsesAt(before, tables[1..], next, limit, x, b, texts, times[1..], i))
      && (LapsesAt(before, tables, after, limit, x, b, texts, times, 0) <==>
            |tables| > 1 && Lapses(x, b, texts, next.value, times[0], times[1]))
  { }

  /** When the first cursor has not lapsed, whether any has is a question about the later ones. */
  lemma SomeLapseLater<K(!new)>(before: (K, K) -> bool, tables: seq<set<K>>, after: Option<K>, limit: nat, x: Scheme,
                                b: Binding, texts: Texts<K>, times: seq<int>)
    requires TotalOrder(before) && |times| == |tables| > 0
    requires PageAfter(before, tables[0], after, limit).next.Some?
    requires !LapsesAt(before, tables, after, limit, x, b, texts, times, 0)
    ensures var next := PageAfter(before, tables[0], after, limit).next;
      (exists i: nat :: LapsesAt(before, tables, after, limit, x, b, texts, times, i)) <==>
      (exists i: nat :: LapsesAt(before, tables[1..], next, limit, x, b, texts, times[1..], i))
  {
    var next := PageAfter(before, tables[0], after, limit).next;
    if i: nat :| LapsesAt(before, tables, after, limit, x, b, texts, times, i) {
      LapsesLater(before, tables, after, limit, x, b, texts, times, i - 1);
    }
    if i: nat :| LapsesAt(before, tables[1..], next, limit, x, b, texts, times[1..], i) {
      LapsesLater(before, tables, after, limit, x, b, texts, times, i);
    }
  }

  /**
   * Following cursors is following positions, unless some request presents a cursor that
   * is too long or too old: then, and only then, the client is refused on its way.
   */
  lemma {:induction false} CursorsArePositions<K(!new)>(before: (K, K) -> bool, tables: seq<set<K>>, limit: nat,
                                                        x: Scheme, b: Binding, texts: Texts<K>, after: Option<K>,
                                                        cursor: Option<string>, issued: int, times: seq<int>)
    requires TotalOrder(before) && Sound(x) && Faithful(texts)
    requires |times| == |tables| && Presentable(x, b, texts, after, issued, times)
    requires cursor == if after.None? then None else Some(Encode(x, b, texts.show(after.value), TTL_SECONDS, issued))
    ensures FollowCursors(before, tables, limit, x, b, texts, cursor, times) ==
            if exists i: nat :: LapsesAt(before, tables, after, limit, x, b, texts, times, i) then None
            else Some(Follow(before, tables, after, limit))
    decreases |tables|
  {
    if tables != [] {
      if after.Some? {
        DecodesWhatWasEncoded(x, b, texts.show(after.value), TTL_SECONDS, issued, b, times[0]);
      }
      var page := PageAfter(before, tables[0], after, limit);
      var reply := Serve(before, tables[0], limit, x, b, texts, cursor, times[0]);
      assert reply.Answer? && reply.items == page.items;
      if page.next.Some? && |tables| > 1 && Lapses(x, b, texts, page.next.value, times[0], times[1]) {
        DecodesWhatWasEncoded(x, b, texts.show(page.next.value), TTL_SECONDS, times[0], b, times[1]);
        assert LapsesAt(before, tables, after, limit, x, b, texts, times, 0);
      } else if page.next.Some? {
        CursorsArePositions(before, tables[1..], limit, x, b, texts, page.next, reply.nextCursor, times[0], times[1..]);
        SomeLapseLater(before, tables, after, limit, x, b, texts, times);
      }
    }
  }

  // ---- Over a table nothing changes -------------------------------------------------

  function Least(a: nat, b: nat): nat {
    if a <= b then a else b
  }

  /** The position after the first `j` rows. */
  ghost function Behind<K(!new)>(before: (K, K) -> bool, rows: set<K>, j: nat): Option<K>
    requires TotalOrder(before) && j <= |Sorted(before, rows)|
  {
    if j == 0 then None else Some(Sorted(before, rows)[j - 1])
  }

  lemma ComesLater<K(!new)>(before: (K, K) -> bool, xs: seq<K>, i: nat, j: nat)
    requires TotalOrder(before) && Ascending(before, xs) && i < |xs| && j < |xs| && before(xs[i], xs[j])
    ensures i < j
  { }

  lemma SliceFrom<K>(xs: seq<K>, j: nat, n: nat)
    requires j < |xs| && n > 0
    ensures xs[j..Least(j + n, |xs|)] == [xs[j]] + xs[j + 1..Least(j + n, |xs|)]
  { }

  /** What lies behind the first `j` rows are the others, the next of them first. */
  lemma BeyondFirst<K(!new)>(before: (K, K) -> bool, rows: set<K>, j: nat)
    requires TotalOrder(before) && j <= |Sorted(before, rows)|
    ensures var xs := Sorted(before, rows); var left := Beyond(before, rows, Behind(before, rows, j));
      if j == |xs| then left == {} else left != {} && First(before, left) == xs[j]
  {
    var xs := Sorted(before, rows);
    var left := Beyond(before, rows, Behind(before, rows, j));
    SortedIs(before, rows);
    forall k | k in left ensures j < |xs| && (k == xs[j] || before(xs[j], k)) {
      var i :| 0 <= i < |xs| && xs[i] == k;
      if j > 0 {
        ComesLater(before, xs, j - 1, i);
      }
    }
    if j < |xs| {
      assert xs[j] in rows;
      assert xs[j] in left;
      assert IsFirst(before, left, xs[j]);
    }
  }

  /** A query returns a slice of the sorted list. */
  lemma {:induction false} SelectSlice<K(!new)>(before: (K, K) -> bool, rows: set<K>, j: nat, n: nat)
    requires TotalOrder(before) && j <= |Sorted(before, rows)|
    ensures var xs := Sorted(before, rows);
      Select(before, rows, Behind(before, rows, j), n) == xs[j..Least(j + n, |xs|)]
    decreases n
  {
    var xs := Sorted(before, rows);
    BeyondFirst(before, rows, j);
    if n > 0 && j < |xs| {
      SelectSlice(before, rows, j + 1, n - 1);
      SliceFrom(xs, j, n);
      assert Behind(before, rows, j + 1) == Some(First(before, Beyond(before, rows, Behind(before, rows, j))));
    }
  }

  lemma PageSlice<K(!new)>(before: (K, K) -> bool, rows: set<K>, j: nat, limit: nat)
    requires TotalOrder(before) && j <= |Sorted(before, rows)| && limit >= 1
    ensures PageAfter(before, rows, Behind(before, rows, j), limit).next ==
            if j + limit < |Sorted(before, rows)| then Behind(before, rows, j + limit) else None
  {
    SelectSlice(before, rows, j, limit + 1);
  }

  /** Page `i` ends with row `(i + 1) * limit` of the sorted list, and is the last unless there are more rows. */
  lemma {:induction false} NextInSorted<K(!new)>(before: (K, K) -> bool, rows: set<K>, tables: seq<set<K>>, j: nat,
                                                 limit: nat, i: nat)
    requires TotalOrder(before) && j <= |Sorted(before, rows)| && limit >= 1 && i < |tables|
    requires forall t :: 0 <= t < |tables| ==> tables[t] == rows
    ensures var end := j + (i + 1) * limit;
      NextAt(before, tables, Behind(before, rows, j), limit, i) ==
      if end < |Sorted(before, rows)| then Behind(before, rows, end) else None
    decreases i
  {
    PageSlice(before, rows, j, limit);
    assert j + (i + 1) * limit == j + limit + i * limit;
    if i > 0 && j + limit < |Sorted(before, rows)| {
      NextInSorted(before, rows, tables[1..], j + limit, limit, i - 1);
      assert j + limit + (i - 1 + 1) * limit == j + (i + 1) * limit;
    }
  }

  /** Page `i` is not the last, and the cursor it ends with has lapsed at the next request. */
  ghost predicate LapsesAfterPage<K(!new)>(before: (K, K) -> bool, rows: set<K>, limit: nat, x: Scheme, b: Binding,
                                           texts: Texts<K>, times: seq<int>, i: nat)
    requires TotalOrder(before)
  {
    var end := (i + 1) * limit;
    && 0 < end < |Sorted(before, rows)| && i + 1 < |times|
    && Lapses(x, b, texts, Sorted(before, rows)[end - 1], times[i], times[i + 1])
  }

  lemma LapsesInSorted<K(!new)>(before: (K, K) -> bool, rows: set<K>, tables: seq<set<K>>, limit: nat, x: Scheme,
                                b: Binding, texts: Texts<K>, times: seq<int>, i: nat)
    requires TotalOrder(before) && limit >= 1 && |times| == |tables|
    requires forall t :: 0 <= t < |tables| ==> tables[t] == rows
    ensures LapsesAt(before, tables, None, limit, x, b, texts, times, i) <==>
            LapsesAfterPage(before, rows, limit, x, b, texts, times, i)
  {
    if i < |tables| {
      NextInSorted(before, rows, tables, 0, limit, i);
      PagesGrow(i, limit);
    }
  }

  lemma PagesGrow(i: nat, limit: nat)
    ensures (i + 1) * limit >= limit
  { }

  /**
   * From no cursor to no next cursor, over a table nothing changes: exactly the matching
   * rows, each once, in order, unless and only unless some page but the last ends with a
   * row whose cursor is too long, or is followed up too late.
   */
  lemma CursorsReturnTheSortedList<K(!new)>(before: (K, K) -> bool, rows: set<K>, tables: seq<set<K>>, limit: nat,
                                            x: Scheme, b: Binding, texts: Texts<K>, times: seq<int>)
    requires TotalOrder(before) && Sound(x) && Faithful(texts) && limit >= 1
    requires |times| == |tables| > |rows| && forall t :: 0 <= t < |tables| ==> tables[t] == rows
    ensures FollowCursors(before, tables, limit, x, b, texts, None, times) ==
            if exists i: nat :: LapsesAfterPage(before, rows, limit, x, b, texts, times, i) then None
            else Some(Followed(Sorted(before, rows), true))
  {
    CursorsArePositions(before, tables, limit, x, b, texts, None, None, 0, times);
    PagesAreTheSortedList(before, rows, tables, limit);
    forall i: nat
      ensures LapsesAt(before, tables, None, limit, x, b, texts, times, i) <==>
              LapsesAfterPage(before, rows, limit, x, b, texts, times, i)
    {
      LapsesInSorted(before, rows, tables, limit, x, b, texts, times, i);
    }
  }

  /** A cursor presented with another tenant, query or sort is refused. */
  lemma OtherQueryRefused<K(!new)>(before: (K, K) -> bool, rows: set<K>, limit: nat, x: Scheme, b: Binding,
                                   other: Binding, texts: Texts<K>, k: K, issued: int, now: int)
    requires TotalOrder(before) && Sound(x) && other != b
    ensures Serve(before, rows, limit, x, other, texts, Some(Encode(x, b, texts.show(k), TTL_SECONDS, issued)),
        now) == Refused(CursorInvalid)
  {
    DecodesWhatWasEncoded(x, b, texts.show(k), TTL_SECONDS, issued, other, now);
  }
}
