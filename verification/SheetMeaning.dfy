/** Sheet names in terms of what was typed: its words, and the counter in decimal. */
module SheetMeaning {
  import opened SheetNames
  import Words

  // ---- The base is the words of what was typed ---------------------------------------

  const WHITE_UNITS: set<Unit> := {
    0x09, 0x0a, 0x0b, 0x0c, 0x0d, 0x20, 0xa0, 0x1680, 0x2000, 0x2001, 0x2002, 0x2003, 0x2004, 0x2005, 0x2006, 0x2007,
    0x2008, 0x2009, 0x200a, 0x2028, 0x2029, 0x202f, 0x205f, 0x3000, 0xfeff}

  /**
   * What parts two words: white space, and the square brackets, colon, asterisk, question mark,
   * slash and backslash.
   */
  predicate Parts(u: Unit) {
    u in WHITE_UNITS || u in {0x5b, 0x5d, 0x3a, 0x2a, 0x3f, 0x2f, 0x5c}
  }

  /** Words with one space between them. */
  function Spaced(words: seq<Text>): Text {
    if words == [] then [] else if |words| == 1 then words[0] else words[0] + ([0x20] + Spaced(words[1..]))
  }

  lemma PartsAre(u: Unit)
    ensures Parts(u) <==> White(u) || u in FORBIDDEN
  {
    assert FORBIDDEN == [0x5b, 0x5d, 0x3a, 0x2a, 0x3f, 0x2f, 0x5c];
  }

  lemma AllowedWords(raw: Text)
    ensures Words.WordsOf(Allowed(raw), White) == Words.WordsOf(raw, Parts)
  {
    forall i | 0 <= i < |raw| ensures Words.SameUnit(Allowed(raw)[i], White, raw[i], Parts) {
      PartsAre(raw[i]);
    }
    Words.SameWords(Allowed(raw), White, raw, Parts);
  }

  lemma {:induction false} WordsAfterWhite(s: Text)
    ensures Words.WordsOf(DropWhite(s), White) == Words.WordsOf(s, White)
    ensures DropWhite(s) != [] ==> !White(DropWhite(s)[0]) && DropWhite(s)[|DropWhite(s)| - 1] == s[|s| - 1]
    ensures DropWhite(s) == [] && s != [] ==> White(s[|s| - 1])
  {
    if s != [] && White(s[0]) {
      WordsAfterWhite(s[1..]);
    }
  }

  lemma {:induction false} CollapsedWord(s: Text, n: nat)
    requires n <= |s| && forall i :: 0 <= i < n ==> !White(s[i])
    ensures Collapsed(s) == s[..n] + Collapsed(s[n..])
    decreases n
  {
    if n > 0 {
      CollapsedWord(s[1..], n - 1);
      assert s[1..][n - 1..] == s[n..] && s[..n] == [s[0]] + s[1..][..n - 1];
    } else {
      assert s[0..] == s;
    }
  }

  /** What is left of the white space at the end. */
  function Tail(s: Text): Text {
    if s != [] && White(s[|s| - 1]) then [SPACE] else []
  }

  /** Neither empty nor white at an end. */
  predicate Trimmed(s: Text) {
    s != [] && !White(s[0]) && !White(s[|s| - 1])
  }

  predicate EndsWhite(s: Text)
    requires s != []
  {
    White(s[|s| - 1])
  }

  lemma CollapsedWhite(s: Text)
    requires s != [] && White(s[0])
    ensures Collapsed(s) == [SPACE] + Collapsed(DropWhite(s[1..]))
  { }

  lemma WordsAfterOne(s: Text)
    requires s != [] && White(s[0])
    ensures Words.WordsOf(s, White) == Words.WordsOf(s[1..], White)
  { }

  lemma WordFirst(s: Text, n: nat)
    requires s != [] && !White(s[0]) && n == Words.Lead(s, White)
    ensures Words.WordsOf(s, White) == [s[..n]] + Words.WordsOf(s[n..], White)
  { }

  /** The first word and what comes after the white space behind it. */
  lemma Peel(s: Text, n: nat) returns (word: Text, later: Text)
    requires s != [] && !White(s[0]) && n == Words.Lead(s, White) < |s|
    ensures Trimmed(word) && |later| < |s| && (later == [] || !White(later[0]))
    ensures Collapsed(s) == word + ([SPACE] + Collapsed(later))
    ensures Words.WordsOf(s, White) == [word] + Words.WordsOf(later, White)
    ensures if later == [] then EndsWhite(s) else EndsWhite(later) == EndsWhite(s)
  {
    Words.LeadEnds(s, White);
    var behind := s[n..];
    assert behind[0] == s[n];
    word, later := s[..n], DropWhite(behind[1..]);
    CollapsedWord(s, n);
    CollapsedWhite(behind);
    WordFirst(s, n);
    WordsAfterOne(behind);
    WordsAfterWhite(behind[1..]);
  }

  lemma Regroup(a: Text, b: Text, c: Text, d: Text)
    ensures a + (b + (c + d)) == (a + (b + c)) + d
  { }

  lemma SpacedMore(word: Text, words: seq<Text>)
    ensures Spaced([word] + words) == if words == [] then word else word + ([0x20] + Spaced(words))
  {
    assert ([word] + words)[1..] == words;
  }

  lemma {:induction false} CollapsedIsSpaced(s: Text) returns (t: Text)
    requires s == [] || !White(s[0])
    ensures t == Spaced(Words.WordsOf(s, White)) && Collapsed(s) == t + Tail(s) && (s != [] ==> Trimmed(t))
    decreases |s|
  {
    t := [];
    if s != [] {
      var n := Words.Lead(s, White);
      if n < |s| {
        var word, later := Peel(s, n);
        var rest := CollapsedIsSpaced(later);
        SpacedMore(word, Words.WordsOf(later, White));
        t := MoreWords(s, word, later, rest);
      } else {
        t := OneWord(s);
      }
    }
  }

  lemma OneWord(s: Text) returns (t: Text)
    requires s != [] && Words.Lead(s, White) == |s|
    ensures t == Spaced(Words.WordsOf(s, White)) && Collapsed(s) == t + Tail(s) && Trimmed(t)
  {
    t := s;
    Words.LeadEnds(s, White);
    CollapsedWord(s, |s|);
    WordFirst(s, |s|);
    assert s[..|s|] == s && s[|s|..] == [];
    SpacedMore(s, []);
    assert [s] + [] == [s] && s + [] == s;
  }

  lemma MoreWords(s: Text, word: Text, later: Text, rest: Text) returns (t: Text)
    requires s != [] && Trimmed(word) && Collapsed(s) == word + ([SPACE] + Collapsed(later))
    requires if later == [] then EndsWhite(s) else EndsWhite(later) == EndsWhite(s)
    requires rest == Spaced(Words.WordsOf(later, White)) && Collapsed(later) == rest + Tail(later)
    requires later != [] ==> Trimmed(rest)
    requires Words.WordsOf(s, White) == [word] + Words.WordsOf(later, White)
    requires Spaced([word] + Words.WordsOf(later, White)) ==
      if Words.WordsOf(later, White) == [] then word else word + ([SPACE] + rest)
    ensures t == Spaced(Words.WordsOf(s, White)) && Collapsed(s) == t + Tail(s) && Trimmed(t)
  {
    if later == [] {
      t := word;
    } else {
      t := word + ([SPACE] + rest);
      Regroup(word, [SPACE], rest, Tail(later));
      assert Tail(later) == Tail(s);
    }
  }

  lemma {:induction false} DropTrailingKeeps(s: Text, tail: Text)
    requires s == [] || !White(s[|s| - 1])
    requires forall i :: 0 <= i < |tail| ==> White(tail[i])
    ensures DropTrailing(s + tail) == s
    decreases |tail|
  {
    if tail != [] {
      assert (s + tail)[..|s + tail| - 1] == s + tail[..|tail| - 1];
      DropTrailingKeeps(s, tail[..|tail| - 1]);
    } else {
      assert s + tail == s;
    }
  }

  lemma TrimmedIsSpaced(s: Text)
    ensures Trim(Collapsed(s)) == Spaced(Words.WordsOf(s, White))
  {
    var t := DropWhite(s);
    WordsAfterWhite(s);
    var spaced := CollapsedIsSpaced(t);
    assert DropWhite(Collapsed(s)) == (if t == [] then [] else Collapsed(t)) by {
      if s != [] && White(s[0]) {
        assert DropWhite(s[1..]) == t;
        assert ([SPACE] + Collapsed(t))[1..] == Collapsed(t);
        assert Collapsed(t) != [] ==> !White(Collapsed(t)[0]);
      }
    }
    DropTrailingKeeps(spaced, Tail(t));
  }

  /**
   * A cleaned name is the words of what was typed with one space between them, cut off
   * after 31 units, and "Sheet" where there are no words.
   */
  lemma BaseMeans(raw: Text)
    ensures var spaced := Spaced(Words.WordsOf(raw, Parts));
      Base(raw) == if spaced == [] then [0x53, 0x68, 0x65, 0x65, 0x74] else if |spaced| <= 31 then spaced
        else spaced[..31]
  {
    AllowedWords(raw);
    TrimmedIsSpaced(Allowed(raw));
  }

  /** So a name that can be used as it was typed is: one with single spaces only, and these inside. */
  lemma OwnBase(raw: Text)
    requires 1 <= |raw| <= 31
    requires forall i :: 0 <= i < |raw| && Parts(raw[i]) ==> 0 < i < |raw| - 1 && raw[i] == 0x20 && !Parts(raw[i + 1])
    ensures Base(raw) == raw
  {
    forall i | 0 <= i < |raw| ensures Single(raw, i) && Allowed(raw)[i] == raw[i] {
      PartsAre(raw[i]);
      if i + 1 < |raw| {
        PartsAre(raw[i + 1]);
      }
    }
    PartsAre(raw[0]);
    PartsAre(raw[|raw| - 1]);
    assert Allowed(raw) == raw;
    SingleCollapsed(raw);
  }

  /** A white unit is a space with no other behind it. */
  predicate Single(s: Text, i: nat)
    requires i < |s|
  {
    White(s[i]) ==> s[i] == SPACE && (i + 1 < |s| ==> !White(s[i + 1]))
  }

  lemma {:induction false} SingleCollapsed(s: Text)
    requires forall i :: 0 <= i < |s| ==> Single(s, i)
    ensures Collapsed(s) == s
    decreases |s|
  {
    if s != [] {
      assert Single(s, 0);
      forall i | 0 <= i < |s[1..]| ensures Single(s[1..], i) {
        assert Single(s, i + 1);
      }
      SingleCollapsed(s[1..]);
      assert s == [s[0]] + s[1..];
      assert White(s[0]) ==> DropWhite(s[1..]) == s[1..];
    }
  }

  // ---- The counter -------------------------------------------------------------------

  /** The number decimal digits stand for. */
  function Value(digits: Text): int {
    if digits == [] then 0 else 10 * Value(digits[..|digits| - 1]) + digits[|digits| - 1] - 0x30
  }

  lemma ValueMore(front: Text, digit: Unit)
    ensures Value(front + [digit]) == 10 * Value(front) + digit - 0x30
  {
    assert (front + [digit])[..|front|] == front;
  }

  lemma DigitsMore(n: nat) returns (front: Text, last: Unit)
    requires n >= 10
    ensures front == Digits(n / 10) && last == 0x30 + n % 10 && Digits(n) == front + [last]
  {
    front, last := Digits(n / 10), 0x30 + n % 10;
  }

  lemma OneDigit(n: nat)
    requires n < 10
    ensures Digits(n) == [0x30 + n] && Value([0x30 + n]) == n
  {
    var none: Text := [];
    ValueMore(none, 0x30 + n);
    assert Digits(n) == none + [0x30 + n % 10];
    assert none + [0x30 + n] == [0x30 + n];
  }

  /** The digits are those of the number in decimal, without a zero in front. */
  lemma {:induction false} DigitsMean(n: nat) returns (digits: Text)
    ensures digits == Digits(n) && Value(digits) == n && |digits| >= 1 && (n > 0 ==> digits[0] != 0x30)
    ensures forall i :: 0 <= i < |digits| ==> 0x30 <= digits[i] <= 0x39
  {
    if n < 10 {
      OneDigit(n);
      digits := [0x30 + n];
    } else {
      var front, last := DigitsMore(n);
      var same := DigitsMean(n / 10);
      ValueMore(front, last);
      digits := front + [last];
    }
  }

  /**
   * A numbered name: as much of the base as leaves room, a space, and the counter in brackets, at
   * most 31 units in all.
   */
  lemma NumberedMeans(base: Text, n: nat) returns (keep: nat)
    requires |Digits(n)| <= 28
    ensures keep <= |base| && keep + |Digits(n)| + 3 <= 31 && (keep == |base| || keep + |Digits(n)| + 3 == 31)
    ensures Numbered(base, n) == base[..keep] + ([0x20, 0x28] + Digits(n) + [0x29])
  {
    var room := 28 - |Digits(n)|;
    keep := if |base| <= room then |base| else room;
    assert base[..|base|] == base;
  }

  /** The second sheet of a name gets the counter two, unless that is taken too. */
  lemma SecondIsTwo(lower: Text -> Text, base: Text, used: set<Text>, name: Text)
    requires Chosen(lower, base, used, name) && lower(base) in used && lower(Numbered(base, 2)) !in used
    ensures name == Numbered(base, 2)
  {
    var n :| n >= 2 && FirstFree(lower, base, used, n) && name == Numbered(base, n);
  }
}
