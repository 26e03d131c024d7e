/** When two elements are taken for the same, and which objects survive, by the names and attributes that decide it. */
module DomMeaning {
  import opened Shared
  import opened DomTree
  import opened DomTheorems
  import Words

  // ---- Class tokens -----------------------------------------------------------------

  predicate ClassBlank(c: char) {
    c == ' ' || c == '\t' || c == '\n' || c == '\U{0C}' || c == '\r'
  }

  /** The class names an element carries. */
  function Tokens(attrs: map<string, string>): seq<string> {
    if "class" in attrs then Words.WordsOf(attrs["class"], ClassBlank) else []
  }

  lemma PageIsToken(attrs: map<string, string>)
    ensures "page" in Tokens(attrs) <==> HasToken(ClassName(attrs), "page")
  {
    var name := ClassName(attrs);
    Words.WordsStand(name, "page", ClassBlank);
    forall i, j | 0 <= i <= j <= |name| && name[i..j] == "page"
      ensures Words.StandsAt(name, "page", ClassBlank, i, j) <==>
        (i == 0 || name[i - 1] in CLASS_WHITESPACE) && (j == |name| || name[j] in CLASS_WHITESPACE)
    { }
  }

  // ---- Identity ---------------------------------------------------------------------

  /** Neither element carries the attribute, or both do with the same value. */
  predicate Agree(a: map<string, string>, b: map<string, string>, name: string) {
    (name in a <==> name in b) && (name in a && name in b ==> a[name] == b[name])
  }

  /** The attributes that tell elements apart. */
  predicate Telling(name: string) {
    name in {"id", "data-act", "data-arg", "data-form", "data-scroll", "data-scroll-key", "data-overlay", "data-trap"}
  }

  /** Two page containers of differing class; of an SVG element the class is never the same. */
  predicate OtherPage(a: Head, b: Head)
    requires a.ElementHead? && b.ElementHead?
  {
    && "page" in Tokens(a.attrs) && "page" in Tokens(b.attrs)
    && (a.namespace == "http://www.w3.org/2000/svg" || a.attrs["class"] != b.attrs["class"])
  }

  ghost predicate Alike(a: Head, b: Head) {
    if a.ElementHead? && b.ElementHead? then
      && a.namespace == b.namespace && a.name == b.name && !OtherPage(a, b)
      && forall name :: Telling(name) ==> Agree(a.attrs, b.attrs, name)
    else if a.OtherHead? && b.OtherHead? then a.nodeType == b.nodeType && a.name == b.name
    else (a.TextHead? && b.TextHead?) || (a.FragmentHead? && b.FragmentHead?)
  }

  lemma AttributesAgree(a: map<string, string>, b: map<string, string>)
    ensures (forall i :: 0 <= i < |IdentityAttrs()| ==>
        GetAttribute(a, IdentityAttrs()[i]) == GetAttribute(b, IdentityAttrs()[i]))
      <==> forall name :: Telling(name) ==> Agree(a, b, name)
  {
    forall name | Telling(name) ensures name in IdentityAttrs() {
      var all := IdentityAttrs();
      assert [all[0], all[1], all[2], all[3], all[4], all[5], all[6], all[7]] ==
        ["id", "data-act", "data-arg", "data-form", "data-scroll", "data-scroll-key", "data-overlay", "data-trap"];
      assert name in {all[0], all[1], all[2], all[3], all[4], all[5], all[6], all[7]};
    }
    forall i | 0 <= i < |IdentityAttrs()| ensures Telling(IdentityAttrs()[i]) { }
    forall name | Telling(name) ensures GetAttribute(a, name) == GetAttribute(b, name) <==> Agree(a, b, name) { }
  }

  /**
   * Two nodes match exactly when they are of one kind and name, and, if elements, of one
   * namespace, not containers of different pages, and in none of the eight attributes
   * different, absence included.
   */
  lemma IdentityMeans(a: Head, b: Head)
    ensures SameIdentity(a, b) <==> Alike(a, b)
  {
    if a.ElementHead? && b.ElementHead? {
      AttributesAgree(a.attrs, b.attrs);
      PageIsToken(a.attrs);
      PageIsToken(b.attrs);
    }
  }

  /** At the root: the live object goes exactly when the two are not alike, whatever else they hold. */
  lemma RootSurvives(c: Snap, n: Snap)
    requires c.node != n.node
    ensures Patched(c, n).node == (if Alike(c.head, n.head) then c.node else n.node)
  {
    IdentityMeans(c.head, n.head);
  }

  // ---- Along a path -----------------------------------------------------------------

  /** What stands at the two places of a path is alike. */
  ghost predicate AlikeAt(c: Snap, n: Snap, path: seq<nat>) {
    At(c, path).Some? && At(n, path).Some? && Alike(At(c, path).value.head, At(n, path).value.head)
  }

  ghost predicate EqualAt(c: Snap, n: Snap, path: seq<nat>) {
    At(c, path).Some? && At(n, path).Some? && ValueOf(At(c, path).value) == ValueOf(At(n, path).value)
  }

  ghost predicate Settled(c: Snap, n: Snap, path: seq<nat>, i: nat)
    requires i <= |path|
  {
    AlikeAt(c, n, path[..i]) || exists j: nat :: j < i && EqualAt(c, n, path[..j])
  }

  lemma PrefixSteps(c: Snap, n: Snap, path: seq<nat>, i: nat)
    requires 1 <= i <= |path| && path[0] < |c.kids| && path[0] < |n.kids|
    ensures var k, rest := path[0], path[1..];
      && (AlikeAt(c, n, path[..i]) <==> AlikeAt(c.kids[k], n.kids[k], rest[..i - 1]))
      && (EqualAt(c, n, path[..i]) <==> EqualAt(c.kids[k], n.kids[k], rest[..i - 1]))
  {
    assert path[..i][1..] == path[1..][..i - 1];
  }

  lemma SettledSteps(c: Snap, n: Snap, path: seq<nat>, i: nat)
    requires 1 <= i <= |path| && path[0] < |c.kids| && path[0] < |n.kids| && ValueOf(c) != ValueOf(n)
    ensures Settled(c, n, path, i) <==> Settled(c.kids[path[0]], n.kids[path[0]], path[1..], i - 1)
  {
    var k, rest := path[0], path[1..];
    PrefixSteps(c, n, path, i);
    forall j: nat | 1 <= j < i
      ensures EqualAt(c, n, path[..j]) <==> EqualAt(c.kids[k], n.kids[k], rest[..j - 1])
    {
      PrefixSteps(c, n, path, j);
    }
    assert path[..0] == [];
    if j: nat :| j < i - 1 && EqualAt(c.kids[k], n.kids[k], rest[..j]) {
      assert EqualAt(c, n, path[..j + 1]) <==> EqualAt(c.kids[k], n.kids[k], rest[..(j + 1) - 1]);
    }
  }

  lemma {:induction false} MatchesMeans(c: Snap, n: Snap, path: seq<nat>)
    requires At(c, path).Some? && At(n, path).Some?
    ensures Matches(c, n, path) <==> forall i: nat :: i <= |path| ==> Settled(c, n, path, i)
    decreases |path|
  {
    IdentityMeans(c.head, n.head);
    assert path[..0] == [];
    assert Settled(c, n, path, 0) <==> Alike(c.head, n.head);
    if path != [] && ValueOf(c) == ValueOf(n) {
      assert EqualAt(c, n, path[..0]);
      forall i: nat | 1 <= i <= |path| ensures Settled(c, n, path, i) { }
    } else if path != [] {
      var k, rest := path[0], path[1..];
      MatchesMeans(c.kids[k], n.kids[k], rest);
      forall i: nat | 1 <= i <= |path| ensures Settled(c, n, path, i) <==> Settled(c.kids[k], n.kids[k], rest, i - 1) {
        SettledSteps(c, n, path, i);
      }
      forall i: nat | i <= |rest|
        ensures Settled(c, n, path, i + 1) <==> Settled(c.kids[k], n.kids[k], rest, i)
      {
        SettledSteps(c, n, path, i + 1);
      }
    }
  }

  /**
   * Along a path: the live object stays exactly when at every place down to it the two
   * trees are alike, or an equal subtree was met before. Otherwise the next tree's object
   * takes its place.
   */
  lemma PathSurvives(c: Snap, n: Snap, path: seq<nat>)
    requires ProperChild(c) && ProperChild(n) && c.nodes !! n.nodes
    requires At(c, path).Some? && At(n, path).Some?
    ensures At(Patched(c, n), path).Some?
    ensures At(Patched(c, n), path).value.node ==
            if forall i: nat :: i <= |path| ==> Settled(c, n, path, i)
            then At(c, path).value.node else At(n, path).value.node
  {
    MatchesMeans(c, n, path);
    SurvivesIffMatches(c, n, path);
  }

  lemma {:induction false} EqualBelow(c: Snap, n: Snap, path: seq<nat>, j: nat)
    requires j <= |path| && EqualAt(c, n, path[..j])
    requires At(c, path).Some? && At(n, path).Some?
    ensures At(c, path).value.head == At(n, path).value.head
    decreases |path|
  {
    if j > 0 {
      assert path[..j][1..] == path[1..][..j - 1];
      EqualBelow(c.kids[path[0]], n.kids[path[0]], path[1..], j - 1);
    } else if path != [] {
      assert path[..0] == [] && path[1..][..0] == [];
      assert Values(c.kids) == Values(n.kids) && Values(c.kids)[path[0]] == Values(n.kids)[path[0]];
      EqualBelow(c.kids[path[0]], n.kids[path[0]], path[1..], 0);
    }
  }

  /**
   * A telling attribute that differs at any place of the path, its end included, puts the
   * next tree's object there: a button never becomes one that does something else.
   */
  lemma DifferingReplaced(c: Snap, n: Snap, path: seq<nat>, i: nat, name: string)
    requires ProperChild(c) && ProperChild(n) && c.nodes !! n.nodes
    requires At(c, path).Some? && At(n, path).Some? && i <= |path|
    requires At(c, path[..i]).Some? && At(n, path[..i]).Some? && Telling(name)
    requires var a, b := At(c, path[..i]).value.head, At(n, path[..i]).value.head;
      a.ElementHead? && b.ElementHead? && !Agree(a.attrs, b.attrs, name)
    ensures At(Patched(c, n), path).Some? && At(Patched(c, n), path).value.node == At(n, path).value.node
  {
    PathSurvives(c, n, path);
    forall j: nat | j < i ensures !EqualAt(c, n, path[..j]) {
      assert path[..i][..j] == path[..j];
      if EqualAt(c, n, path[..j]) {
        EqualBelow(c, n, path[..i], j);
      }
    }
    assert !Settled(c, n, path, i);
  }
}
