/**
 * Sheet names as a spreadsheet accepts them. Text is UTF-16 code units, which is what the
 * limit of 31 counts; `lower` is the language's lower-casing.
 */
module SheetNames {
  import Counting

  type Unit = x: int | 0 <= x < 0x10000
  type Text = seq<Unit>

  const SPACE: Unit := 0x20
  const OPEN: Unit := 0x28
  const CLOSE: Unit := 0x29
  const MAX_LENGTH: int := 31
  /** The square brackets, colon, asterisk, question mark, slash and backslash. */
  const FORBIDDEN: Text := [0x5b, 0x5d, 0x3a, 0x2a, 0x3f, 0x2f, 0x5c]
  const SHEET: Text := [0x53, 0x68, 0x65, 0x65, 0x74]

  predicate White(u: Unit) {
    0x09 <= u <= 0x0d || u in {0x20, 0xa0, 0x1680, 0x2028, 0x2029, 0x202f, 0x205f, 0x3000, 0xfeff}
      || 0x2000 <= u <= 0x200a
  }

  // ---- Cleaning one name ------------------------------------------------------------

  function Allowed(raw: Text): Text {
    seq(|raw|, i requires 0 <= i < |raw| => if raw[i] in FORBIDDEN then SPACE else raw[i])
  }

  function DropWhite(s: Text): (r: Text)
    ensures |r| <= |s|
  {
    if s == [] || !White(s[0]) then s else DropWhite(s[1..])
  }

  /** Every run of white space becomes one space. */
  function Collapsed(s: Text): Text
    decreases |s|
  {
    if s == [] then []
    else if White(s[0]) then [SPACE] + Collapsed(DropWhite(s[1..]))
    else [s[0]] + Collapsed(s[1..])
  }

  function DropTrailing(s: Text): Text {
    if s == [] || !White(s[|s| - 1]) then s else DropTrailing(s[..|s| - 1])
  }

  function Trim(s: Text): Text {
    DropTrailing(DropWhite(s))
  }

  /** `slice(0, end)`: a negative end counts from the end of the text. */
  function Slice(s: Text, end: int): Text {
    var stop := if end < 0 then |s| + end else end;
    if stop <= 0 then [] else if stop >= |s| then s else s[..stop]
  }

  function Base(raw: Text): Text {
    var s := Slice(Trim(Collapsed(Allowed(raw))), MAX_LENGTH);
    if s == [] then SHEET else s
  }

  function Digits(n: nat): Text {
    (if n < 10 then [] else Digits(n / 10)) + [0x30 + n % 10]
  }

  function Suffix(n: nat): Text {
    [SPACE, OPEN] + Digits(n) + [CLOSE]
  }

  function Numbered(base: Text, n: nat): Text {
    Slice(base, MAX_LENGTH - |Digits(n)| - 3) + Suffix(n)
  }

  // ---- What a name is to be ---------------------------------------------------------

  ghost predicate Acceptable(s: Text) {
    && |s| <= MAX_LENGTH
    && (forall i :: 0 <= i < |s| ==> s[i] !in FORBIDDEN)
    && (exists i :: 0 <= i < |s| && !White(s[i]))
  }

  /**
   * What is asked of `lower`: a counter in brackets, which has no letters, comes out as it
   * is. Lower-casing the text before it may do anything.
   */
  ghost predicate KeepsSuffix(lower: Text -> Text) {
    forall p: Text, n: nat :: EndsWith(lower(p + Suffix(n)), Suffix(n))
  }

  predicate EndsWith(s: Text, t: Text) {
    |t| <= |s| && s[|s| - |t|..] == t
  }

  // ---- Cleaned names are acceptable -------------------------------------------------

  ghost predicate Clean(s: Text) {
    forall i :: 0 <= i < |s| ==> s[i] !in FORBIDDEN
  }

  lemma {:induction false} DropWhiteClean(s: Text)
    requires Clean(s)
    ensures Clean(DropWhite(s)) && (DropWhite(s) != [] ==> !White(DropWhite(s)[0]))
  {
    if s != [] && White(s[0]) {
      assert forall i :: 0 <= i < |s[1..]| ==> s[1..][i] == s[i + 1];
      DropWhiteClean(s[1..]);
    }
  }

  lemma {:induction false} CollapsedClean(s: Text)
    requires Clean(s)
    ensures Clean(Collapsed(s))
    decreases |s|
  {
    if s != [] {
      assert forall i :: 0 <= i < |s[1..]| ==> s[1..][i] == s[i + 1];
      DropWhiteClean(s[1..]);
      CollapsedClean(DropWhite(s[1..]));
      CollapsedClean(s[1..]);
      assert SPACE !in FORBIDDEN;
    }
  }

  lemma {:induction false} DropTrailingClean(s: Text)
    requires Clean(s)
    ensures Clean(DropTrailing(s)) && (s != [] && !White(s[0]) ==> DropTrailing(s) != [] && DropTrailing(s)[0] == s[0])
  {
    if s != [] && White(s[|s| - 1]) {
      DropTrailingClean(s[..|s| - 1]);
    }
  }

  lemma TrimClean(s: Text)
    requires Clean(s)
    ensures Clean(Trim(s)) && (Trim(s) != [] ==> !White(Trim(s)[0]))
  {
    DropWhiteClean(s);
    DropTrailingClean(DropWhite(s));
    if DropWhite(s) == [] {
      assert Trim(s) == [];
    }
  }

  lemma BaseAcceptable(raw: Text)
    ensures Acceptable(Base(raw)) && Clean(Base(raw))
  {
    assert Clean(Allowed(raw));
    CollapsedClean(Allowed(raw));
    TrimClean(Collapsed(Allowed(raw)));
    assert !White(Base(raw)[0]);
  }

  // ---- Counters ---------------------------------------------------------------------

  predicate Digit(u: Unit) {
    0x30 <= u <= 0x39
  }

  function Power(k: nat): nat {
    if k == 0 then 1 else 10 * Power(k - 1)
  }

  lemma {:induction false} DigitsFit(n: nat, k: nat)
    requires k >= 1 && n < Power(k)
    ensures 1 <= |Digits(n)| <= k && forall i :: 0 <= i < |Digits(n)| ==> Digit(Digits(n)[i])
    decreases k
  {
    if n >= 10 {
      assert k >= 2;
      DigitsFit(n / 10, k - 1);
    }
  }

  lemma {:induction false} PowerGrows(n: nat)
    ensures n < Power(n + 1)
  {
    if n > 0 {
      PowerGrows(n - 1);
    }
  }

  lemma DigitsAre(n: nat)
    ensures |Digits(n)| >= 1 && forall i :: 0 <= i < |Digits(n)| ==> Digit(Digits(n)[i])
  {
    PowerGrows(n);
    DigitsFit(n, n + 1);
  }

  lemma {:induction false} DigitsInjective(n: nat, m: nat)
    requires Digits(n) == Digits(m)
    ensures n == m
    decreases n
  {
    DigitsAre(n);
    DigitsAre(m);
    var d := Digits(n);
    assert d[|d| - 1] == 0x30 + n % 10 == 0x30 + m % 10;
    if n < 10 || m < 10 {
      if n >= 10 { DigitsAre(n / 10); }
      if m >= 10 { DigitsAre(m / 10); }
    } else {
      assert d[..|d| - 1] == Digits(n / 10) == Digits(m / 10);
      DigitsInjective(n / 10, m / 10);
    }
  }

  lemma OneSpace(m: nat, k: nat)
    requires 0 < k < |Suffix(m)|
    ensures Suffix(m)[k] != SPACE
  {
    DigitsAre(m);
    if 2 <= k < |Suffix(m)| - 1 {
      assert Suffix(m)[k] == Digits(m)[k - 2];
    }
  }

  lemma NotShorter(s: Text, n: nat, m: nat)
    requires EndsWith(s, Suffix(m)) && |Suffix(n)| < |Suffix(m)|
    ensures !EndsWith(s, Suffix(n))
  {
    var k := |Suffix(m)| - |Suffix(n)|;
    OneSpace(m, k);
    assert s[|s| - |Suffix(n)|..][0] == s[|s| - |Suffix(m)|..][k];
  }

  /** One text cannot end with two different counters. */
  lemma SuffixTells(s: Text, n: nat, m: nat)
    requires EndsWith(s, Suffix(n)) && EndsWith(s, Suffix(m))
    ensures n == m
  {
    if |Suffix(n)| == |Suffix(m)| {
      assert Suffix(n)[2..|Suffix(n)| - 1] == Digits(n) && Suffix(m)[2..|Suffix(m)| - 1] == Digits(m);
      DigitsInjective(n, m);
    } else if |Suffix(n)| < |Suffix(m)| {
      NotShorter(s, n, m);
    } else {
      NotShorter(s, m, n);
    }
  }

  /** Distinct counters give names that stay distinct under lower-casing, however the text before them is cut. */
  lemma NumberedDistinct(lower: Text -> Text, base: Text, n: nat, m: nat)
    requires KeepsSuffix(lower) && n != m
    ensures lower(Numbered(base, n)) != lower(Numbered(base, m))
  {
    var p, q := Slice(base, MAX_LENGTH - |Digits(n)| - 3), Slice(base, MAX_LENGTH - |Digits(m)| - 3);
    assert EndsWith(lower(p + Suffix(n)), Suffix(n)) && EndsWith(lower(q + Suffix(m)), Suffix(m));
    if lower(p + Suffix(n)) == lower(q + Suffix(m)) {
      SuffixTells(lower(p + Suffix(n)), n, m);
    }
  }

  lemma NumberedAcceptable(base: Text, n: nat)
    requires Clean(base) && |Digits(n)| <= MAX_LENGTH - 3
    ensures Acceptable(Numbered(base, n))
  {
    DigitsAre(n);
    var p := Slice(base, MAX_LENGTH - |Digits(n)| - 3);
    assert Numbered(base, n)[|p| + 1] == OPEN && !White(OPEN);
    forall i | 0 <= i < |Numbered(base, n)| ensures Numbered(base, n)[i] !in FORBIDDEN {
      if i >= |p| + 2 && i < |Numbered(base, n)| - 1 {
        assert Numbered(base, n)[i] == Digits(n)[i - |p| - 2];
      }
    }
  }

  // ---- Choosing names ---------------------------------------------------------------

  /** The base itself when it is free, and otherwise the base with the first free counter. */
  ghost predicate Chosen(lower: Text -> Text, base: Text, used: set<Text>, name: Text) {
    if lower(base) !in used then name == base
    else exists n :: n >= 2 && FirstFree(lower, base, used, n) && name == Numbered(base, n)
  }

  ghost predicate FirstFree(lower: Text -> Text, base: Text, used: set<Text>, n: nat) {
    lower(Numbered(base, n)) !in used && forall m :: 2 <= m < n ==> lower(Numbered(base, m)) in used
  }

  /** The counters below `n` were refused, and `tried` is the names they gave. */
  ghost predicate Refused(lower: Text -> Text, base: Text, used: set<Text>, tried: set<Text>, n: nat) {
    && lower(base) in used && n >= 2 && tried <= used && |tried| == n - 2
    && (forall m :: 2 <= m < n ==> lower(Numbered(base, m)) in tried)
    && (forall t :: t in tried ==> exists m :: 2 <= m < n && t == lower(Numbered(base, m)))
  }

  /** One more refusal is one more name already taken, and those are finitely many. */
  lemma RefusedMore(lower: Text -> Text, base: Text, used: set<Text>, tried: set<Text>, n: nat)
    returns (more: set<Text>)
    requires KeepsSuffix(lower) && Refused(lower, base, used, tried, n) && lower(Numbered(base, n)) in used
    ensures Refused(lower, base, used, more, n + 1) && |more| <= |used|
  {
    var t := lower(Numbered(base, n));
    forall m | 2 <= m < n ensures lower(Numbered(base, m)) != t {
      NumberedDistinct(lower, base, m, n);
    }
    more := tried + {t};
    Counting.SubsetSize(more, used);
  }

  lemma CounterAcceptable(base: Text, n: nat)
    requires Clean(base) && 2 <= n < 0x100000001
    ensures Acceptable(Numbered(base, n))
  {
    assert n < Power(10);
    DigitsFit(n, 10);
    NumberedAcceptable(base, n);
  }

  method FreeName(lower: Text -> Text, base: Text, used: set<Text>) returns (name: Text)
    requires KeepsSuffix(lower) && Clean(base) && Acceptable(base) && |used| < 0xffffffff
    ensures Chosen(lower, base, used, name) && lower(name) !in used && Acceptable(name)
  {
    name := base;
    if lower(name) !in used { return; }
    var n := 2;
    ghost var tried: set<Text> := {};
    name := Numbered(base, n);
    while lower(name) in used
      invariant Refused(lower, base, used, tried, n) && |tried| <= |used| && name == Numbered(base, n)
      decreases |used| - |tried|
    {
      tried := RefusedMore(lower, base, used, tried, n);
      n := n + 1;
      name := Numbered(base, n);
    }
    assert FirstFree(lower, base, used, n);
    CounterAcceptable(base, n);
  }

  ghost function Lowered(lower: Text -> Text, names: seq<Text>): set<Text> {
    set i | 0 <= i < |names| :: lower(names[i])
  }

  /** The names chosen so far. */
  ghost predicate Named(lower: Text -> Text, names: seq<Text>, result: seq<Text>) {
    && |result| <= |names|
    && (forall i :: 0 <= i < |result| ==> Acceptable(result[i]))
    && (forall i, j :: 0 <= i < j < |result| ==> lower(result[i]) != lower(result[j]))
    && (forall i :: 0 <= i < |result| ==> Chosen(lower, Base(names[i]), Lowered(lower, result[..i]), result[i]))
  }

  lemma NamedMore(lower: Text -> Text, names: seq<Text>, result: seq<Text>, used: set<Text>, name: Text)
    requires Named(lower, names, result) && |result| < |names| && used == Lowered(lower, result)
    requires Acceptable(name) && lower(name) !in used && Chosen(lower, Base(names[|result|]), used, name)
    ensures Named(lower, names, result + [name]) && Lowered(lower, result + [name]) == used + {lower(name)}
  {
    var more := result + [name];
    forall i | 0 <= i < |more|
      ensures Acceptable(more[i]) && Chosen(lower, Base(names[i]), Lowered(lower, more[..i]), more[i])
    {
      assert more[..i] == result[..i];
      assert result[..|result|] == result;
    }
    forall i, j | 0 <= i < j < |more| ensures lower(more[i]) != lower(more[j]) {
      if j == |result| {
        assert lower(result[i]) in used;
      }
    }
    forall t ensures t in Lowered(lower, more) <==> t in used + {lower(name)} {
      if t in used {
        var i :| 0 <= i < |result| && t == lower(result[i]);
        assert more[i] == result[i];
      }
      assert more[|result|] == name;
    }
  }

  /** One acceptable name for each sheet, no two alike but for case; fewer sheets than an array can hold. */
  method SheetNamesOf(lower: Text -> Text, names: seq<Text>) returns (result: seq<Text>)
    requires KeepsSuffix(lower) && |names| < 0xffffffff
    ensures |result| == |names|
    ensures forall i :: 0 <= i < |result| ==> Acceptable(result[i])
    ensures forall i, j :: 0 <= i < j < |result| ==> lower(result[i]) != lower(result[j])
    ensures forall i :: 0 <= i < |result| ==> Chosen(lower, Base(names[i]), Lowered(lower, result[..i]), result[i])
  {
    result := [];
    var used: set<Text> := {};
    for i := 0 to |names|
      invariant |result| == i && Named(lower, names, result) && used == Lowered(lower, result) && |used| <= i
    {
      BaseAcceptable(names[i]);
      var name := FreeName(lower, Base(names[i]), used);
      NamedMore(lower, names, result, used, name);
      used := used + {lower(name)};
      result := result + [name];
    }
  }
}
