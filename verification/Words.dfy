/** The words of a text: its longest stretches without a blank. */
module Words {
  /** How far the first word goes. */
  function Lead<T>(s: seq<T>, blank: T -> bool): (n: nat)
    ensures n <= |s|
  {
    if s == [] || blank(s[0]) then 0 else 1 + Lead(s[1..], blank)
  }

  function WordsOf<T>(s: seq<T>, blank: T -> bool): seq<seq<T>>
    decreases |s|
  {
    if s == [] then []
    else if blank(s[0]) then WordsOf(s[1..], blank)
    else
      var n := Lead(s, blank);
      [s[..n]] + WordsOf(s[n..], blank)
  }

  lemma {:induction false} LeadEnds<T>(s: seq<T>, blank: T -> bool)
    ensures forall i :: 0 <= i < Lead(s, blank) ==> !blank(s[i])
    ensures Lead(s, blank) < |s| ==> blank(s[Lead(s, blank)])
  {
    if s != [] && !blank(s[0]) {
      LeadEnds(s[1..], blank);
      assert forall i :: 0 < i <= Lead(s[1..], blank) ==> s[i] == s[1..][i - 1];
    }
  }

  /** Texts that differ in their blanks only have the same words. */
  lemma {:induction false} SameWords<T>(s: seq<T>, b: T -> bool, t: seq<T>, d: T -> bool)
    requires |s| == |t| && forall i :: 0 <= i < |s| ==> SameUnit(s[i], b, t[i], d)
    ensures WordsOf(s, b) == WordsOf(t, d)
    decreases |s|
  {
    if s != [] {
      assert SameUnit(s[0], b, t[0], d);
      var n := if b(s[0]) then 1 else Lead(s, b);
      SameLead(s, b, t, d);
      SameWords(s[n..], b, t[n..], d);
    }
  }

  predicate SameUnit<T(==)>(x: T, b: T -> bool, y: T, d: T -> bool) {
    (b(x) <==> d(y)) && (!b(x) ==> x == y)
  }

  lemma {:induction false} SameLead<T>(s: seq<T>, b: T -> bool, t: seq<T>, d: T -> bool)
    requires |s| == |t| && forall i :: 0 <= i < |s| ==> SameUnit(s[i], b, t[i], d)
    ensures Lead(s, b) == Lead(t, d) && s[..Lead(s, b)] == t[..Lead(t, d)]
  {
    if s != [] {
      assert SameUnit(s[0], b, t[0], d);
      if !b(s[0]) {
        SameLead(s[1..], b, t[1..], d);
        var n := Lead(s, b);
        assert s[..n] == [s[0]] + s[1..][..n - 1] && t[..n] == [t[0]] + t[1..][..n - 1];
      }
    }
  }

  /** Text `w` stands in `s` with a blank, or the end, on either side. */
  ghost predicate Stands<T(!new)>(s: seq<T>, w: seq<T>, blank: T -> bool) {
    exists i, j :: StandsAt(s, w, blank, i, j)
  }

  ghost predicate StandsAt<T(!new)>(s: seq<T>, w: seq<T>, blank: T -> bool, i: int, j: int) {
    0 <= i <= j <= |s| && s[i..j] == w && (i == 0 || blank(s[i - 1])) && (j == |s| || blank(s[j]))
  }

  lemma StandsWithin<T(!new)>(s: seq<T>, w: seq<T>, blank: T -> bool)
    ensures Stands(s, w, blank) ==> |w| <= |s|
  { }

  lemma StandsLater<T(!new)>(s: seq<T>, w: seq<T>, blank: T -> bool, n: nat)
    requires n <= |s| && (n == 0 || blank(s[n - 1])) && Stands(s[n..], w, blank)
    ensures Stands(s, w, blank)
  {
    var i, j :| StandsAt(s[n..], w, blank, i, j);
    assert s[n..][i..j] == s[n + i..n + j];
    assert StandsAt(s, w, blank, n + i, n + j);
  }

  /** A text without blanks stands so exactly when it is one of the words. */
  lemma {:induction false} WordsStand<T(!new)>(s: seq<T>, w: seq<T>, blank: T -> bool)
    requires w != [] && forall i :: 0 <= i < |w| ==> !blank(w[i])
    ensures w in WordsOf(s, blank) <==> Stands(s, w, blank)
    decreases |s|
  {
    if s == [] {
      StandsWithin(s, w, blank);
    } else if blank(s[0]) {
      WordsStand(s[1..], w, blank);
      if Stands(s[1..], w, blank) {
        StandsLater(s, w, blank, 1);
      }
      if Stands(s, w, blank) {
        var i, j :| StandsAt(s, w, blank, i, j);
        assert s[i..j][0] == s[i];
        assert s[1..][i - 1..j - 1] == s[i..j];
        assert StandsAt(s[1..], w, blank, i - 1, j - 1);
      }
    } else {
      FirstWordStands(s, w, blank);
    }
  }

  lemma {:induction false} FirstWordStands<T(!new)>(s: seq<T>, w: seq<T>, blank: T -> bool)
    requires w != [] && forall i :: 0 <= i < |w| ==> !blank(w[i])
    requires s != [] && !blank(s[0])
    ensures w in WordsOf(s, blank) <==> Stands(s, w, blank)
    decreases |s|, 0
  {
    var n := Lead(s, blank);
    LeadEnds(s, blank);
    if n == |s| {
      assert s[n..] == [] && s[..n] == s;
      assert WordsOf(s, blank) == [s] + WordsOf(s[n..], blank);
      if w == s {
        assert StandsAt(s, w, blank, 0, n);
      }
    } else {
      var rest := s[n + 1..];
      assert s[n..][1..] == rest && s[n..][0] == s[n];
      WordsStand(rest, w, blank);
      if w == s[..n] {
        assert StandsAt(s, w, blank, 0, n);
      }
      if Stands(rest, w, blank) {
        StandsLater(s, w, blank, n + 1);
      }
    }
    if i, j :| StandsAt(s, w, blank, i, j) {
      LaterWord(s, w, blank, i, j, n);
    }
  }

  lemma LaterWord<T(!new)>(s: seq<T>, w: seq<T>, blank: T -> bool, i: int, j: int, n: nat)
    requires w != [] && (forall k :: 0 <= k < |w| ==> !blank(w[k])) && StandsAt(s, w, blank, i, j)
    requires n <= |s| && (forall k :: 0 <= k < n ==> !blank(s[k])) && (n < |s| ==> blank(s[n]))
    ensures w == s[..n] || (n < |s| && Stands(s[n + 1..], w, blank))
  {
    assert forall k :: i <= k < j ==> s[k] == w[k - i];
    if i > n {
      assert s[n + 1..][i - n - 1..j - n - 1] == s[i..j];
      assert StandsAt(s[n + 1..], w, blank, i - n - 1, j - n - 1);
    } else {
      assert s[i] == w[0];
      assert i == 0;
      assert n < |s| ==> j <= n;
    }
  }
}
