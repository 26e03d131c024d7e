/**
 * The sorts of the automation list: each names an order for the rows and a condition that
 * compares a row with a cursor, and pages are right when the two are the same relation.
 */
module PageSorts {
  import opened Shared
  import opened Paging

  /** A sort: the order of the rows, and which rows a cursor's condition lets through. */
  datatype Sort<!K> = Sort(order: (K, K) -> bool, condition: (K, K) -> bool)

  ghost function PageBy<K(!new)>(sort: Sort<K>, rows: set<K>, after: Option<K>, limit: nat): Page<K>
    requires TotalOrder(sort.order)
  {
    Cut(Select(sort.order, Beyond(sort.condition, rows, after), None, limit + 1), limit)
  }

  /** The rows a client gets in at most `requests` requests. */
  ghost function FollowBy<K(!new)>(sort: Sort<K>, rows: set<K>, after: Option<K>, limit: nat,
                                   requests: nat): Followed<K>
    requires TotalOrder(sort.order)
    decreases requests
  {
    if requests == 0 then Followed([], false)
    else
      var page := PageBy(sort, rows, after, limit);
      if page.next.None? then Followed(page.items, true)
      else
        var rest := FollowBy(sort, rows, page.next, limit, requests - 1);
        Followed(page.items + rest.items, rest.done)
  }

  /** Following cursors returns the sorted list, whatever the table and the page size. */
  ghost predicate PagesRight<K(!new)>(sort: Sort<K>)
    requires TotalOrder(sort.order)
  {
    forall rows: set<K>, limit: nat :: limit >= 1 ==> SortedByPages(sort, rows, limit)
  }

  ghost predicate SortedByPages<K(!new)>(sort: Sort<K>, rows: set<K>, limit: nat)
    requires TotalOrder(sort.order)
  {
    FollowBy(sort, rows, None, limit, |rows| + 1) == Followed(Sorted(sort.order, rows), true)
  }

  ghost predicate Agree<K(!new)>(sort: Sort<K>) {
    forall a: K, b: K :: sort.order(a, b) <==> sort.condition(a, b)
  }

  lemma {:induction false} SelectWithin<K(!new)>(before: (K, K) -> bool, rows: set<K>, within: set<K>,
                                                 after: Option<K>, n: nat)
    requires TotalOrder(before) && within <= rows && Beyond(before, rows, after) == Beyond(before, within, after)
    ensures Select(before, within, after, n) == Select(before, rows, after, n)
    decreases n
  {
    var left := Beyond(before, rows, after);
    if n > 0 && left != {} {
      var m := First(before, left);
      assert after.None? || before(after.value, m);
      forall k | k in rows && before(m, k) ensures k in within {
        assert k in left;
      }
      assert Beyond(before, rows, Some(m)) == Beyond(before, within, Some(m));
      SelectWithin(before, rows, within, Some(m), n - 1);
    }
  }

  lemma {:induction false} AgreeingFollow<K(!new)>(sort: Sort<K>, rows: set<K>, tables: seq<set<K>>, after: Option<K>,
                                                   limit: nat)
    requires TotalOrder(sort.order) && Agree(sort)
    requires forall t :: 0 <= t < |tables| ==> tables[t] == rows
    ensures FollowBy(sort, rows, after, limit, |tables|) == Follow(sort.order, tables, after, limit)
    decreases |tables|
  {
    if tables != [] {
      var within := Beyond(sort.condition, rows, after);
      assert within == Beyond(sort.order, rows, after);
      assert Beyond(sort.order, within, None) == within;
      SameStart(sort.order, rows, within, after, limit + 1);
      var page := PageBy(sort, rows, after, limit);
      assert page == PageAfter(sort.order, tables[0], after, limit);
      if page.next.Some? {
        AgreeingFollow(sort, rows, tables[1..], page.next, limit);
      }
    }
  }

  lemma SameStart<K(!new)>(before: (K, K) -> bool, rows: set<K>, within: set<K>, after: Option<K>, n: nat)
    requires TotalOrder(before) && within == Beyond(before, rows, after)
    ensures Select(before, within, None, n) == Select(before, rows, after, n)
  {
    assert Beyond(before, within, None) == within == Beyond(before, within, after);
    SelectWithin(before, rows, within, after, n);
  }

  /** Two rows in the wrong relation are a table whose second row is never returned. */
  lemma SecondRowLost<K(!new)>(sort: Sort<K>, a: K, b: K)
    requires TotalOrder(sort.order) && sort.order(a, b)
    requires !sort.condition(a, b) && !sort.condition(a, a)
    ensures |{a, b}| == 2
    ensures FollowBy(sort, {a, b}, None, 1, 3) == Followed([a], true) && Sorted(sort.order, {a, b}) == [a, b]
  {
    var rows := {a, b};
    assert a != b;
    assert Beyond(sort.condition, rows, None) == rows == Beyond(sort.order, rows, None);
    assert First(sort.order, rows) == a;
    assert Beyond(sort.order, rows, Some(a)) == {b};
    assert First(sort.order, {b}) == b;
    assert Select(sort.order, rows, Some(a), 1) == [b] by {
      assert Select(sort.order, rows, Some(b), 0) == [];
    }
    assert Select(sort.order, rows, None, 2) == [a, b];
    var first := PageBy(sort, rows, None, 1);
    assert first == Page([a], Some(a));
    var none := Beyond(sort.condition, rows, Some(a));
    assert none == {};
    assert Beyond(sort.order, none, None) == {};
    assert PageBy(sort, rows, Some(a), 1) == Page([], None);
    assert FollowBy(sort, rows, Some(a), 1, 2) == Followed([], true);
  }

  /** Pages are right for every table exactly when the condition compares rows as the order does. */
  lemma PagesRightIffAgree<K(!new)>(sort: Sort<K>)
    requires TotalOrder(sort.order) && TotalOrder(sort.condition)
    ensures PagesRight(sort) <==> Agree(sort)
  {
    if Agree(sort) {
      forall rows: set<K>, limit: nat | limit >= 1
        ensures SortedByPages(sort, rows, limit)
      {
        var tables := seq(|rows| + 1, i => rows);
        AgreeingFollow(sort, rows, tables, None, limit);
        PagesAreTheSortedList(sort.order, rows, tables, limit);
      }
    } else {
      var a: K, b: K :| sort.order(a, b) != sort.condition(a, b);
      var x, y := if sort.order(a, b) then a else b, if sort.order(a, b) then b else a;
      SecondRowLost(sort, x, y);
      assert !SortedByPages(sort, {x, y}, 1);
    }
  }

  // ---- The sorts themselves ---------------------------------------------------------

  /** What a sort compares of a row: a value, then the row's id. */
  datatype Key<V, I> = Key(value: V, id: I)

  /** The database's row comparison `(v, id) < (w, jd)`. */
  ghost function Less<V(!new), I(!new)>(values: (V, V) -> bool, ids: (I, I) -> bool): (Key<V, I>, Key<V, I>) -> bool {
    (a: Key<V, I>, b: Key<V, I>) => values(a.value, b.value) || (a.value == b.value && ids(a.id, b.id))
  }

  ghost function Greater<V(!new), I(!new)>(values: (V, V) -> bool, ids: (I, I) -> bool)
    : (Key<V, I>, Key<V, I>) -> bool
  {
    (a: Key<V, I>, b: Key<V, I>) => Less(values, ids)(b, a)
  }

  ghost function NameAscending<I(!new)>(collation: (string, string) -> bool,
                                        ids: (I, I) -> bool): Sort<Key<string, I>> {
    Sort(Less(collation, ids), Less(collation, ids))
  }

  ghost function NameDescending<I(!new)>(collation: (string, string) -> bool,
                                         ids: (I, I) -> bool): Sort<Key<string, I>> {
    Sort(Greater(collation, ids), Greater(collation, ids))
  }

  /** A row's key as the cursor's condition sees it. */
  function AsText<I>(written: int -> string, a: Key<int, I>): Key<string, I> {
    Key(written(a.value), a.id)
  }

  /** Ordered by the instant, but the cursor's condition compares how instants are written. */
  ghost function UpdatedDescending<I(!new)>(written: int -> string, collation: (string, string) -> bool,
                                            ids: (I, I) -> bool): Sort<Key<int, I>> {
    Sort(Greater((s, t) => s < t, ids), (a, b) => Less(collation, ids)(AsText(written, b), AsText(written, a)))
  }

  lemma Compared<K(!new)>(before: (K, K) -> bool, a: K, b: K)
    requires TotalOrder(before)
    ensures before(a, b) || before(b, a) || a == b
    ensures before(a, b) ==> !before(b, a)
  { }

  lemma Chained<K(!new)>(before: (K, K) -> bool, a: K, b: K, c: K)
    requires TotalOrder(before) && before(a, b) && before(b, c)
    ensures before(a, c)
  { }

  lemma RowComparisonIsTotal<V(!new), I(!new)>(values: (V, V) -> bool, ids: (I, I) -> bool)
    requires TotalOrder(values) && TotalOrder(ids)
    ensures TotalOrder(Less(values, ids)) && TotalOrder(Greater(values, ids))
  {
    var less := Less(values, ids);
    forall a: Key<V, I>, b: Key<V, I> ensures less(a, b) || less(b, a) || a == b {
      Compared(values, a.value, b.value);
      Compared(ids, a.id, b.id);
    }
    forall a: Key<V, I>, b: Key<V, I> | less(a, b) ensures !less(b, a) {
      Compared(values, a.value, b.value);
      Compared(ids, a.id, b.id);
    }
    forall a: Key<V, I>, b: Key<V, I>, c: Key<V, I> | less(a, b) && less(b, c) ensures less(a, c) {
      assert values(a.value, b.value) && values(b.value, c.value) ==> values(a.value, c.value);
      assert ids(a.id, b.id) && ids(b.id, c.id) ==> ids(a.id, c.id);
    }
    assert TotalOrder(less);
  }

  /** Sorted by name either way, following cursors returns the sorted list. */
  lemma NamePagesRight<I(!new)>(collation: (string, string) -> bool, ids: (I, I) -> bool)
    requires TotalOrder(collation) && TotalOrder(ids)
    ensures TotalOrder(Less(collation, ids)) && TotalOrder(Greater(collation, ids))
    ensures PagesRight(NameAscending(collation, ids)) && PagesRight(NameDescending(collation, ids))
  {
    RowComparisonIsTotal(collation, ids);
    PagesRightIffAgree(NameAscending(collation, ids));
    PagesRightIffAgree(NameDescending(collation, ids));
  }

  lemma WrittenIs<I(!new)>(written: int -> string, collation: (string, string) -> bool, ids: (I, I) -> bool,
                           a: Key<int, I>, b: Key<int, I>)
    ensures UpdatedDescending(written, collation, ids).condition(a, b) <==>
            collation(written(b.value), written(a.value)) || (written(b.value) == written(a.value) && ids(b.id, a.id))
    ensures UpdatedDescending(written, collation, ids).condition(a, b) <==>
      Less(collation, ids)(AsText(written, b), AsText(written, a))
  {
    var x, y := AsText(written, b), AsText(written, a);
    assert x.value == y.value <==> written(b.value) == written(a.value);
    LessIs(collation, ids, x, y);
  }

  lemma LessIs<V(!new), I(!new)>(values: (V, V) -> bool, ids: (I, I) -> bool, x: Key<V, I>, y: Key<V, I>)
    ensures Less(values, ids)(x, y) <==> values(x.value, y.value) || (x.value == y.value && ids(x.id, y.id))
  { }

  lemma SameText<I>(written: int -> string, a: Key<int, I>, b: Key<int, I>)
    requires forall s: int, t: int :: written(s) == written(t) ==> s == t
    ensures AsText(written, b) == AsText(written, a) ==> a == b
  {
    var x, y := AsText(written, a), AsText(written, b);
    if x == y {
      assert written(a.value) == x.value == y.value == written(b.value);
      assert a.value == b.value && a.id == b.id;
      assert a == Key(a.value, a.id) && b == Key(b.value, b.id);
    }
  }

  /** Different instants written differently, the condition is total too. */
  lemma WrittenIsTotal<I(!new)>(written: int -> string, collation: (string, string) -> bool, ids: (I, I) -> bool)
    requires TotalOrder(collation) && TotalOrder(ids)
    requires forall s: int, t: int :: written(s) == written(t) ==> s == t
    ensures TotalOrder(UpdatedDescending(written, collation, ids).condition)
  {
    RowComparisonIsTotal(collation, ids);
    var less, condition := Less(collation, ids), UpdatedDescending(written, collation, ids).condition;
    forall a: Key<int, I>, b: Key<int, I>
      ensures condition(a, b) || condition(b, a) || a == b
      ensures condition(a, b) ==> !condition(b, a)
    {
      WrittenIs(written, collation, ids, a, b);
      WrittenIs(written, collation, ids, b, a);
      Compared(less, AsText(written, b), AsText(written, a));
      SameText(written, a, b);
    }
    forall a: Key<int, I>, b: Key<int, I>, c: Key<int, I> | condition(a, b) && condition(b, c) ensures condition(a, c) {
      WrittenIs(written, collation, ids, a, b);
      WrittenIs(written, collation, ids, b, c);
      WrittenIs(written, collation, ids, a, c);
      Chained(less, AsText(written, c), AsText(written, b), AsText(written, a));
    }
  }

  /**
   * Sorted by time of update, they do exactly when the writing of instants sorts as the
   * instants do; a clock that goes back an hour, or a collation that skips punctuation, is enough for rows to be lost.
   */
  lemma UpdatedPagesRightIff<I(!new)>(written: int -> string, collation: (string, string) -> bool,
                                      ids: (I, I) -> bool, someone: I)
    requires TotalOrder(collation) && TotalOrder(ids)
    requires forall s: int, t: int :: written(s) == written(t) ==> s == t
    ensures TotalOrder(Greater((s: int, t: int) => s < t, ids))
    ensures PagesRight(UpdatedDescending(written, collation, ids)) <==>
            forall s: int, t: int :: s < t <==> collation(written(s), written(t))
  {
    var byTime := (s: int, t: int) => s < t;
    assert TotalOrder(byTime) by {
      assert forall s: int, t: int :: byTime(s, t) <==> s < t;
    }
    RowComparisonIsTotal(byTime, ids);
    var sort := UpdatedDescending(written, collation, ids);
    WrittenIsTotal(written, collation, ids);
    PagesRightIffAgree(sort);
    forall a: Key<int, I>, b: Key<int, I>
      ensures sort.condition(a, b) <==>
        collation(written(b.value), written(a.value)) || (a.value == b.value && ids(b.id, a.id))
    {
      WrittenIs(written, collation, ids, a, b);
    }
    Compared(ids, someone, someone);
    if Agree(sort) {
      forall s: int, t: int ensures s < t <==> collation(written(s), written(t)) {
        var a, b := Key(s, someone), Key(t, someone);
        assert sort.order(b, a) <==> sort.condition(b, a);
      }
    }
  }

  // ---- An hour that comes twice -----------------------------------------------------

  /** Text compared unit by unit. */
  predicate UnitwiseLess(a: string, b: string) {
    b != "" && (a == "" || a[0] < b[0] || (a[0] == b[0] && UnitwiseLess(a[1..], b[1..])))
  }

  function TwoDigits(n: nat): string
    requires n < 100
  {
    [(n / 10) as char + '0', (n % 10) as char + '0']
  }

  /**
   * How a session in Berlin writes an instant of 25 October 2026, given as seconds after
   * midnight of universal time. Its clock goes back from three to two when `t` is 3600.
   */
  function InBerlin(t: int): string {
    if 0 <= t < 82800 then
      var local := t + (if t < 3600 then 7200 else 3600);
      "2026-10-25 " + TwoDigits(local / 3600) + ":" + TwoDigits(local / 60 % 60) + ":" + TwoDigits(local % 60)
        + (if t < 3600 then "+02" else "+01")
    else ""
  }

  /** A text is not less than another when they are alike up to a unit that is greater in it. */
  lemma {:induction false} GreaterAt(a: string, b: string, i: nat)
    requires i < |a| && i < |b| && a[i] > b[i] && a[..i] == b[..i]
    ensures !UnitwiseLess(a, b)
  {
    if i > 0 {
      assert a[0] == a[..i][0] && b[0] == b[..i][0];
      assert a[1..][..i - 1] == a[..i][1..] && b[1..][..i - 1] == b[..i][1..];
      GreaterAt(a[1..], b[1..], i - 1);
    }
  }

  lemma WrittenTwice() returns (first: string, second: string)
    ensures first == InBerlin(1800) == "2026-10-25 02:30:00+02" && second == InBerlin(4500) == "2026-10-25 02:15:00+01"
    ensures |first| == |second| == 22 && first[..14] == second[..14] && first[14] > second[14]
  {
    first, second := "2026-10-25 02:30:00+02", "2026-10-25 02:15:00+01";
    assert first[..14] == "2026-10-25 02:" && second[..14] == "2026-10-25 02:";
  }

  lemma {:induction false} NotLessThanItself(a: string)
    ensures !UnitwiseLess(a, a)
  {
    if a != "" { NotLessThanItself(a[1..]); }
  }

  /** Of two updates written in the other order, the earlier is not returned. */
  lemma WrittenBackwards<I(!new)>(written: int -> string, collation: (string, string) -> bool, ids: (I, I) -> bool,
                                  s: int, t: int, earlier: I, later: I)
    requires TotalOrder(ids) && s < t
    requires written(s) != written(t) && !collation(written(s), written(t)) && !collation(written(t), written(t))
    ensures var sort := UpdatedDescending(written, collation, ids);
      var a, b := Key(t, later), Key(s, earlier);
      && TotalOrder(sort.order) && Sorted(sort.order, {a, b}) == [a, b]
      && FollowBy(sort, {a, b}, None, 1, 3) == Followed([a], true)
  {
    var byTime := (s: int, t: int) => s < t;
    assert TotalOrder(byTime) by {
      assert forall s: int, t: int :: byTime(s, t) <==> s < t;
    }
    RowComparisonIsTotal(byTime, ids);
    Compared(ids, later, later);
    var sort := UpdatedDescending(written, collation, ids);
    var a, b := Key(t, later), Key(s, earlier);
    WrittenIs(written, collation, ids, a, b);
    WrittenIs(written, collation, ids, a, a);
    SecondRowLost(sort, a, b);
  }

  /** One automation updated at 02:30, one 45 minutes later at 02:15: in pages of one, the earlier is never returned. */
  lemma RepeatedHourLosesRow<I(!new)>(ids: (I, I) -> bool, earlier: I, later: I)
    requires TotalOrder(ids)
    ensures var sort := UpdatedDescending(InBerlin, UnitwiseLess, ids);
      var a, b := Key(4500, later), Key(1800, earlier);
      && TotalOrder(sort.order) && Sorted(sort.order, {a, b}) == [a, b]
      && FollowBy(sort, {a, b}, None, 1, 3) == Followed([a], true)
  {
    var first, second := WrittenTwice();
    GreaterAt(first, second, 14);
    NotLessThanItself(second);
    WrittenBackwards(InBerlin, UnitwiseLess, ids, 1800, 4500, earlier, later);
  }
}
