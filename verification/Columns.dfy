/** Spreadsheet column letters: written one way, read back another, each undoing the other. */
module Columns {
  predicate Upper(c: char) {
    'A' <= c <= 'Z'
  }

  predicate AllUpper(s: string) {
    forall i :: 0 <= i < |s| ==> Upper(s[i])
  }

  function Letter(k: nat): (c: char)
    requires k < 26
  {
    ('A' as int + k) as char
  }

  /** The letters of the `n`-th column, counted from one. */
  function Letters(n: nat): string {
    if n == 0 then "" else Letters((n - 1) / 26) + [Letter((n - 1) % 26)]
  }

  method ColumnName(index: nat) returns (name: string)
    ensures name == Letters(index + 1)
  {
    name := "";
    var n: nat := index + 1;
    assert Letters(n) + name == Letters(n);
    while n > 0
      invariant Letters(n) + name == Letters(index + 1)
    {
      assert Letters((n - 1) / 26) + [Letter((n - 1) % 26)] + name ==
        Letters((n - 1) / 26) + ([Letter((n - 1) % 26)] + name);
      name := [Letter((n - 1) % 26)] + name;
      n := (n - 1) / 26;
    }
    assert Letters(0) + name == name;
  }

  /** The column number that letters stand for. */
  function Number(s: string): int {
    if s == "" then 0 else Number(s[..|s| - 1]) * 26 + (s[|s| - 1] as int - 64)
  }

  method ColumnNumber(letters: string) returns (column: int)
    ensures column == Number(letters)
  {
    column := 0;
    for i := 0 to |letters|
      invariant column == Number(letters[..i])
    {
      assert letters[..i + 1][..i] == letters[..i];
      column := column * 26 + letters[i] as int - 64;
    }
    assert letters[..|letters|] == letters;
  }

  lemma LetterValue(k: nat)
    requires k < 26
    ensures Letter(k) as int - 64 == k + 1 && Upper(Letter(k))
  { }

  /** Reading written letters gives the column back. */
  lemma {:induction false} NumberOfLetters(n: nat)
    ensures Number(Letters(n)) == n && AllUpper(Letters(n))
    decreases n
  {
    if n > 0 {
      var q, r := (n - 1) / 26, (n - 1) % 26;
      NumberOfLetters(q);
      LetterValue(r);
      assert Letters(n)[..|Letters(n)| - 1] == Letters(q);
    }
  }

  /** Writing read letters gives the letters back, so every name belongs to one column. */
  lemma {:induction false} LettersOfNumber(s: string)
    requires AllUpper(s)
    ensures Number(s) >= 0 && Letters(Number(s)) == s
    decreases |s|
  {
    if s != "" {
      var front, last := s[..|s| - 1], s[|s| - 1] as int - 65;
      LettersOfNumber(front);
      assert Upper(s[|s| - 1]);
      assert Number(s) - 1 == Number(front) * 26 + last;
      assert (Number(s) - 1) / 26 == Number(front) && (Number(s) - 1) % 26 == last;
      assert s == front + [Letter(last)];
    }
  }

  /** Shorter names come first, and names of one length in the order of their letters. */
  ghost predicate Earlier(a: string, b: string) {
    |a| < |b| || (|a| == |b| && exists i :: FirstDifference(a, b, i))
  }

  ghost predicate FirstDifference(a: string, b: string, i: int) {
    0 <= i < |a| && i < |b| && a[..i] == b[..i] && a[i] < b[i]
  }

  /** Columns are named in that order, from A on: after Z comes AA. */
  lemma {:induction false} NamesInOrder(n: nat, m: nat)
    requires n < m
    ensures Earlier(Letters(n), Letters(m))
    decreases m
  {
    if n > 0 {
      var q, r, q', r' := (n - 1) / 26, (n - 1) % 26, (m - 1) / 26, (m - 1) % 26;
      var a, b := Letters(n), Letters(m);
      if q < q' {
        NamesInOrder(q, q');
        if |a| == |b| {
          var i :| FirstDifference(Letters(q), Letters(q'), i);
          assert a[..i] == Letters(q)[..i] && b[..i] == Letters(q')[..i];
          assert FirstDifference(a, b, i);
        }
      } else {
        assert a[..|a| - 1] == Letters(q) == b[..|b| - 1];
        assert FirstDifference(a, b, |a| - 1);
      }
    }
  }

  lemma FirstNames()
    ensures Letters(1) == "A" && Letters(26) == "Z" && Letters(27) == "AA"
  {
    assert Letters(0) == "" && Letters(1) == "" + ['A'] && Letters(26) == "" + ['Z'] && Letters(27) == "A" + ['A'];
  }

  /** The capital letters a cell reference begins with. */
  function Leading(s: string): string {
    if s == "" || !Upper(s[0]) then "" else [s[0]] + Leading(s[1..])
  }

  lemma {:induction false} LeadingOfReference(letters: string, row: string)
    requires AllUpper(letters) && (row == "" || !Upper(row[0]))
    ensures Leading(letters + row) == letters
    decreases |letters|
  {
    if letters == "" {
      assert letters + row == row;
    } else {
      assert (letters + row)[1..] == letters[1..] + row;
      LeadingOfReference(letters[1..], row);
    }
  }

  /** A written reference, letters then a row number, is read as the column it was written for. */
  lemma ReferenceColumn(index: nat, row: string)
    requires row != "" && '0' <= row[0] <= '9'
    ensures Number(Leading(Letters(index + 1) + row)) == index + 1
  {
    NumberOfLetters(index + 1);
    LeadingOfReference(Letters(index + 1), row);
  }
}
