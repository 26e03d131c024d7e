/**
 * Packings, codecs and case mappings that meet what the theorems ask of their parameters, and
 * pages followed with them.
 */
module Instances {
  import opened Shared
  import opened Cursor
  import opened Paging
  import SheetNames
  import UrlState

  // ---- A way to pack a cursor -------------------------------------------------------

  /** Every character after an `e`, a full stop as `pp`, and a `z` at the end. */
  function Field(s: string): string {
    if s == "" then "z" else (if s[0] == '.' then "pp" else ['e', s[0]]) + Field(s[1..])
  }

  /** The text of a field and what comes after it. */
  function ReadField(s: string): Option<(string, string)> {
    if s == "" then None
    else if s[0] == 'z' then Some(("", s[1..]))
    else if |s| == 1 then None
    else
      var rest := ReadField(s[2..]);
      if rest.None? then None else Some(([if s[0] == 'p' then '.' else s[1]] + rest.value.0, rest.value.1))
  }

  lemma {:induction false} FieldReads(s: string, rest: string)
    ensures ReadField(Field(s) + rest) == Some((s, rest)) && Dotless(Field(s)) && |Field(s)| == 2 * |s| + 1
  {
    if s == "" {
      assert "z" + rest == Field(s) + rest && ("z" + rest)[1..] == rest;
    } else {
      FieldReads(s[1..], rest);
      var two := if s[0] == '.' then "pp" else ['e', s[0]];
      assert Field(s) + rest == two + (Field(s[1..]) + rest);
      assert (two + (Field(s[1..]) + rest))[2..] == Field(s[1..]) + rest;
      assert [s[0]] + s[1..] == s;
    }
  }

  /** A number by as many strokes. */
  function Strokes(n: int): string {
    if n >= 0 then seq(n, i => '+') else seq(-n, i => '-')
  }

  function ReadStrokes(s: string): int {
    if s != "" && s[0] == '-' then -|s| else |s|
  }

  lemma StrokesRead(n: int)
    ensures ReadStrokes(Strokes(n)) == n && |Strokes(n)| == if n >= 0 then n else -n
  { }

  /** The fields one after the other. */
  function Fields(texts: seq<string>): string {
    if texts == [] then "" else Field(texts[0]) + Fields(texts[1..])
  }

  function ReadFields(s: string, n: nat): Option<seq<string>>
    decreases n
  {
    if n == 0 then if s == "" then Some([]) else None
    else
      var first := ReadField(s);
      if first.None? then None
      else
        var rest := ReadFields(first.value.1, n - 1);
        if rest.None? then None else Some([first.value.0] + rest.value)
  }

  function Length(texts: seq<string>): nat {
    if texts == [] then 0 else 2 * |texts[0]| + 1 + Length(texts[1..])
  }

  lemma {:induction false} FieldsRead(texts: seq<string>)
    ensures ReadFields(Fields(texts), |texts|) == Some(texts) && Dotless(Fields(texts))
      && |Fields(texts)| == Length(texts)
  {
    if texts != [] {
      FieldsRead(texts[1..]);
      FieldReads(texts[0], Fields(texts[1..]));
      FieldReads(texts[0], "");
      assert [texts[0]] + texts[1..] == texts;
    }
  }

  function TextsOf(p: Payload): seq<string> {
    [p.binding.tenant, p.binding.filterHash, p.binding.sort, p.after.value, p.after.id, Strokes(p.expiresAt)]
  }

  function Pack(p: Payload): string {
    Fields(TextsOf(p))
  }

  function Unpack(s: string): Option<Payload> {
    var read := ReadFields(s, 6);
    if read.None? || |read.value| != 6 then None
    else
      var t := read.value;
      Some(Payload(Binding(t[0], t[1], t[2]), Position(t[3], t[4]), ReadStrokes(t[5])))
  }

  /** Signing is not what is at stake here. */
  function Plain(): Scheme {
    Scheme(Pack, Unpack, (s: string) => "signed", (s: string) => seq(|s|, i requires 0 <= i < |s| => s[i] as int))
  }

  lemma PackReads(p: Payload)
    ensures Unpack(Pack(p)) == Some(p) && Dotless(Pack(p))
  {
    var t := TextsOf(p);
    FieldsRead(t);
    StrokesRead(p.expiresAt);
    assert ReadFields(Pack(p), 6) == Some(t);
    assert Payload(Binding(t[0], t[1], t[2]), Position(t[3], t[4]), ReadStrokes(t[5])) == p;
  }

  lemma PlainIsSound()
    ensures Sound(Plain())
  {
    var x := Plain();
    forall p: Payload ensures x.unpack(x.pack(p)) == Some(p) && Dotless(x.pack(p)) {
      PackReads(p);
    }
  }

  // ---- Pages followed with it -------------------------------------------------------

  function ByStrokes(): Texts<int> {
    Texts((k: int) => Position(Strokes(k), ""), (p: Position) => ReadStrokes(p.value))
  }

  function Rising(): (int, int) -> bool {
    (a: int, b: int) => a < b
  }

  const NAMES: Binding := Binding("tenant", "hash", "name")
  const ROWS: set<int> := {1, 2, 3}

  lemma ThreeSorted()
    ensures TotalOrder(Rising()) && Sorted(Rising(), ROWS) == [1, 2, 3] && |ROWS| == 3
  {
    assert TotalOrder(Rising());
    SortedIs(Rising(), ROWS);
    var list := [1, 2, 3];
    forall k: int ensures k in Sorted(Rising(), ROWS) <==> k in list {
      assert list[0] == 1 && list[1] == 2 && list[2] == 3;
    }
    AscendingUnique(Rising(), Sorted(Rising(), ROWS), list);
  }

  lemma ShortCursor(k: int, now: int)
    requires 0 <= Seconds(now) <= 900 && 0 <= k <= 3
    ensures |Encode(Plain(), NAMES, ByStrokes().show(k), TTL_SECONDS, now)| <= MAX_CURSOR_LENGTH
  {
    var p := Payload(NAMES, Position(Strokes(k), ""), Seconds(now) + TTL_SECONDS);
    PackedLength(p);
    StrokesRead(k);
    StrokesRead(p.expiresAt);
  }

  lemma PackedLength(p: Payload)
    ensures |Pack(p)| == 2 * (|p.binding.tenant| + |p.binding.filterHash| + |p.binding.sort|
                              + |p.after.value| + |p.after.id|
                              + |Strokes(p.expiresAt)|) + 6
  {
    FieldsRead(TextsOf(p));
    LengthOfSix(TextsOf(p));
  }

  lemma LengthOfSix(t: seq<string>)
    requires |t| == 6
    ensures Length(t) == 2 * (|t[0]| + |t[1]| + |t[2]| + |t[3]| + |t[4]| + |t[5]|) + 6
  {
    var t1, t2, t3, t4, t5 := t[1..], t[2..], t[3..], t[4..], t[5..];
    assert t1[1..] == t2 && t2[1..] == t3 && t3[1..] == t4 && t4[1..] == t5 && t5[1..] == [];
    assert Length(t5) == 2 * |t[5]| + 1 && Length(t4) == 2 * |t[4]| + 1 + Length(t5);
    assert Length(t3) == 2 * |t[3]| + 1 + Length(t4) && Length(t2) == 2 * |t[2]| + 1 + Length(t3);
    assert Length(t1) == 2 * |t[1]| + 1 + Length(t2);
  }

  lemma StrokesFaithful()
    ensures Faithful(ByStrokes())
  {
    var texts := ByStrokes();
    forall k: int ensures texts.read(texts.show(k)) == k {
      StrokesRead(k);
    }
  }

  lemma RowsFollowed(x: Scheme, b: Binding, texts: Texts<int>, tables: seq<set<int>>, times: seq<int>)
    requires TotalOrder(Rising()) && Sound(x) && Faithful(texts)
    requires tables == [ROWS, ROWS, ROWS, ROWS] && |times| == 4
    ensures FollowCursors(Rising(), tables, 1, x, b, texts, None, times) ==
            if Lapses(x, b, texts, 1, times[0], times[1]) || Lapses(x, b, texts, 2, times[1], times[2]) then None
            else Some(Followed([1, 2, 3], true))
  {
    ThreeSorted();
    CursorsReturnTheSortedList(Rising(), ROWS, tables, 1, x, b, texts, times);
    OneRowPages(x, b, texts, times, 0);
    OneRowPages(x, b, texts, times, 1);
    forall i: nat | i >= 2 ensures !LapsesAfterPage(Rising(), ROWS, 1, x, b, texts, times, i) {
      OneRowPages(x, b, texts, times, i);
    }
  }

  lemma OneRowPages(x: Scheme, b: Binding, texts: Texts<int>, times: seq<int>, i: nat)
    requires TotalOrder(Rising()) && |times| == 4
    ensures LapsesAfterPage(Rising(), ROWS, 1, x, b, texts, times, i) <==>
            i < 2 && Lapses(x, b, texts, i + 1, times[i], times[i + 1])
  {
    ThreeSorted();
    assert (i + 1) * 1 == i + 1;
  }

  lemma InTime(k: int, issued: int, now: int)
    requires 0 <= issued <= now < 900_000 && 0 <= k <= 3
    ensures !Lapses(Plain(), NAMES, ByStrokes(), k, issued, now)
  {
    ShortCursor(k, issued);
  }

  /** Three rows in pages of one, the second request just within a quarter of an hour: all three, in order. */
  lemma ThreePagesFollowed(tables: seq<set<int>>, times: seq<int>)
    requires tables == [ROWS, ROWS, ROWS, ROWS] && times == [0, 899_999, 899_999, 899_999]
    ensures TotalOrder(Rising())
    ensures FollowCursors(Rising(), tables, 1, Plain(), NAMES, ByStrokes(), None, times) ==
      Some(Followed([1, 2, 3], true))
  {
    ThreeSorted();
    PlainIsSound();
    StrokesFaithful();
    InTime(1, times[0], times[1]);
    InTime(2, times[1], times[2]);
    RowsFollowed(Plain(), NAMES, ByStrokes(), tables, times);
  }

  /** The same, the second request a quarter of an hour after the first: refused. */
  lemma LateFollowerRefused(tables: seq<set<int>>, times: seq<int>)
    requires tables == [ROWS, ROWS, ROWS, ROWS] && times == [0, 900_000, 900_000, 900_000]
    ensures TotalOrder(Rising())
    ensures FollowCursors(Rising(), tables, 1, Plain(), NAMES, ByStrokes(), None, times) == None
  {
    ThreeSorted();
    PlainIsSound();
    StrokesFaithful();
    RowsFollowed(Plain(), NAMES, ByStrokes(), tables, times);
  }

  // ---- The other parameters ---------------------------------------------------------

  /** Filters that are single characters, written after a bracket. */
  function Bracketed(): UrlState.Codec<char> {
    UrlState.Codec(
      (fs: seq<char>) => "[" + fs,
      (s: string) => if s == "" then None else Some(s[1..]),
      (f: char) => f != '!')
  }

  lemma BracketedRoundTrips()
    ensures UrlState.RoundTrips(Bracketed())
  {
    forall fs: seq<char> ensures ("[" + fs)[1..] == fs { }
  }

  /** The inbox with the one filter its reader does not admit: the URL written is not the one written next. */
  lemma DroppedFilterChangesUrl(s: UrlState.State<char>)
    requires UrlState.Typed(s) && s.route.screen == "inbox" && s.query.filters == ['!']
    ensures var codec := Bracketed();
      UrlState.Projected(codec, UrlState.Reapplied(codec, s)) != UrlState.Projected(codec, s)
  {
    BracketedRoundTrips();
    UrlState.ProjectionFixed(Bracketed(), s);
    assert !Bracketed().admits(s.query.filters[0]);
  }

  /** Lower-casing of the letters A to Z. */
  function Lowered(s: SheetNames.Text): SheetNames.Text {
    seq(|s|, i requires 0 <= i < |s| => if 0x41 <= s[i] <= 0x5a then s[i] + 0x20 else s[i])
  }

  lemma LoweringKeepsSuffix()
    ensures SheetNames.KeepsSuffix(Lowered)
  {
    forall p: SheetNames.Text, n: nat
      ensures SheetNames.EndsWith(Lowered(p + SheetNames.Suffix(n)), SheetNames.Suffix(n))
    {
      SheetNames.DigitsAre(n);
      var t := SheetNames.Suffix(n);
      assert Lowered(p + t)[|p|..] == t;
    }
  }
}
