/** What patching a tree promises, independently of how the heap gets there. */
module DomTheorems {
  import opened Shared
  import opened DomTree

  /** An SVG element whose class list has `page` never matches, not even itself. */
  predicate NeverMatches(a: Head) {
    a.ElementHead? && a.namespace == SVG_NAMESPACE && HasToken(ClassName(a.attrs), "page")
  }

  lemma IdentityOfEqual(a: Head)
    ensures SameIdentity(a, a) <==> !NeverMatches(a)
  { }

  /** Patching gives the same tree as a full replace would. */
  lemma {:induction false} PatchedIsNext(c: Snap, n: Snap)
    requires ProperChild(c) && ProperChild(n)
    ensures ValueOf(Patched(c, n)) == ValueOf(n)
    decreases n
  {
    if SameIdentity(c.head, n.head) && ValueOf(c) != ValueOf(n) {
      KidsAreNext(c.kids, n.kids);
    }
  }

  lemma {:induction false} KidsAreNext(cs: seq<Snap>, ns: seq<Snap>)
    requires forall i :: 0 <= i < |cs| ==> ProperChild(cs[i])
    requires forall i :: 0 <= i < |ns| ==> ProperChild(ns[i])
    ensures Values(PatchedKids(cs, ns)) == Values(ns)
    decreases ns
  {
    forall i | 0 <= i < |ns| ensures ValueOf(PatchedKids(cs, ns)[i]) == ValueOf(ns[i]) {
      if i < |cs| {
        PatchedIsNext(cs[i], ns[i]);
      }
    }
  }

  // ---- Which objects survive --------------------------------------------------------

  function At(s: Snap, path: seq<nat>): Option<Snap> {
    if path == [] then Some(s)
    else if path[0] >= |s.kids| then None
    else At(s.kids[path[0]], path[1..])
  }

  /** Identity matches at every place down the path, or an equal subtree is met on the way. */
  ghost predicate Matches(c: Snap, n: Snap, path: seq<nat>)
    decreases |path|
  {
    && SameIdentity(c.head, n.head)
    && (path == [] || ValueOf(c) == ValueOf(n)
        || (path[0] < |c.kids| && path[0] < |n.kids| && Matches(c.kids[path[0]], n.kids[path[0]], path[1..])))
  }

  lemma {:induction false} AtInNodes(s: Snap, path: seq<nat>)
    requires Proper(s) && At(s, path).Some?
    ensures At(s, path).value.node in s.nodes
    decreases |path|
  {
    if path != [] {
      AtInNodes(s.kids[path[0]], path[1..]);
    }
  }

  /**
   * The object standing at a place afterwards is the one that stood there exactly when
   * identity matches all the way down; otherwise it is the new tree's own object.
   */
  lemma {:induction false} SurvivesIffMatches(c: Snap, n: Snap, path: seq<nat>)
    requires ProperChild(c) && ProperChild(n) && c.nodes !! n.nodes
    requires At(c, path).Some? && At(n, path).Some?
    ensures At(Patched(c, n), path).Some?
    ensures At(Patched(c, n), path).value.node ==
            if Matches(c, n, path) then At(c, path).value.node else At(n, path).value.node
    ensures At(c, path).value.node != At(n, path).value.node
    decreases |path|
  {
    AtInNodes(c, path);
    AtInNodes(n, path);
    if SameIdentity(c.head, n.head) && ValueOf(c) != ValueOf(n) && path != [] {
      var k := path[0];
      assert c.kids[k].nodes <= c.nodes && n.kids[k].nodes <= n.nodes;
      SurvivesIffMatches(c.kids[k], n.kids[k], path[1..]);
    }
  }

  /** A place the old tree did not have is taken by the new tree's object. */
  lemma {:induction false} NewPlacesAreNew(c: Snap, n: Snap, path: seq<nat>)
    requires ProperChild(c) && ProperChild(n)
    requires At(c, path).None? && At(n, path).Some?
    ensures At(Patched(c, n), path) == At(n, path)
      || (At(Patched(c, n), path).Some? && At(Patched(c, n), path).value.node == At(n, path).value.node)
    decreases |path|
  {
    if SameIdentity(c.head, n.head) {
      if ValueOf(c) == ValueOf(n) {
        EqualShapes(c, n, path);
      } else if path[0] < |c.kids| {
        NewPlacesAreNew(c.kids[path[0]], n.kids[path[0]], path[1..]);
      }
    }
  }

  lemma {:induction false} EqualShapes(c: Snap, n: Snap, path: seq<nat>)
    requires ValueOf(c) == ValueOf(n)
    ensures At(c, path).Some? <==> At(n, path).Some?
    decreases |path|
  {
    assert |Values(c.kids)| == |Values(n.kids)|;
    if path != [] && path[0] < |c.kids| {
      assert Values(c.kids)[path[0]] == Values(n.kids)[path[0]];
      EqualShapes(c.kids[path[0]], n.kids[path[0]], path[1..]);
    }
  }

  // ---- Writes -----------------------------------------------------------------------

  /** Equal trees are quiet, unless the root is an element that never matches: that one is replaced by its equal. */
  lemma EqualTreesQuiet(c: Snap, n: Snap)
    requires ValueOf(c) == ValueOf(n)
    ensures Quiet(c, n) <==> !NeverMatches(c.head)
    ensures Patched(c, n) == if NeverMatches(c.head) then n else c
  {
    assert c.head == n.head;
    IdentityOfEqual(c.head);
  }

  /** Attributes are written exactly when they differ. */
  lemma NoAttrWritesIffEqual(a: map<string, string>, b: map<string, string>)
    ensures |RemovedAttrs(a, b)| + |ChangedAttrs(a, b)| == 0 <==> a == b
  {
    if |RemovedAttrs(a, b)| + |ChangedAttrs(a, b)| == 0 {
      assert RemovedAttrs(a, b) == {} && ChangedAttrs(a, b) == {};
      forall name | name in b ensures name in a && a[name] == b[name] {
        assert name !in ChangedAttrs(a, b);
      }
      assert a.Keys == b.Keys;
    }
    if a == b {
      assert RemovedAttrs(a, b) == {} && ChangedAttrs(a, b) == {};
    }
  }

  /** All children quiet means the children were equal already. */
  lemma AllQuietEqual(cs: seq<Snap>, ns: seq<Snap>)
    requires AllQuiet(cs, ns)
    ensures Values(cs) == Values(ns)
  {
    forall i | 0 <= i < |ns| ensures ValueOf(cs[i]) == ValueOf(ns[i]) {
      assert Quiet(cs[i], ns[i]);
    }
  }

  // ---- The patched tree is again a proper tree --------------------------------------

  ghost predicate Forest(ss: seq<Snap>) {
    Apart(ss) && forall i :: 0 <= i < |ss| ==> ProperChild(ss[i])
  }

  ghost predicate Families(cs: seq<Snap>, ns: seq<Snap>) {
    Forest(cs) && Forest(ns) && AllNodes(cs) !! AllNodes(ns)
  }

  /** Everything that can change when the `i`-th children are dealt with. */
  ghost function Pair(cs: seq<Snap>, ns: seq<Snap>, i: nat): set<Node>
    requires i < |ns|
  {
    (if i < |cs| then cs[i].nodes else {}) + ns[i].nodes
  }

  lemma PairWithin(cs: seq<Snap>, ns: seq<Snap>, i: nat)
    requires i < |ns|
    ensures Pair(cs, ns, i) <= AllNodes(cs) + AllNodes(ns)
  { }

  lemma PairsApart(cs: seq<Snap>, ns: seq<Snap>, i: nat, j: nat)
    requires Families(cs, ns) && i < |ns| && j < |ns| && i != j
    ensures Pair(cs, ns, i) !! Pair(cs, ns, j)
  {
    assert ns[i].nodes !! ns[j].nodes;
    assert i < |cs| && j < |cs| ==> cs[i].nodes !! cs[j].nodes;
    PairWithin(cs, ns, i);
    PairWithin(cs, ns, j);
  }

  lemma {:induction false} PatchedProper(c: Snap, n: Snap)
    requires ProperChild(c) && ProperChild(n) && c.nodes !! n.nodes
    ensures ProperChild(Patched(c, n)) && Patched(c, n).nodes <= c.nodes + n.nodes
    decreases n, 1
  {
    if SameIdentity(c.head, n.head) && ValueOf(c) != ValueOf(n) {
      PatchedKidsProper(c.kids, n.kids);
    }
  }

  lemma {:induction false} PatchedKidProper(cs: seq<Snap>, ns: seq<Snap>, i: nat)
    requires Families(cs, ns) && i < |ns|
    ensures ProperChild(PatchedKids(cs, ns)[i]) && PatchedKids(cs, ns)[i].nodes <= Pair(cs, ns, i)
    decreases ns, 0
  {
    if i < |cs| {
      assert cs[i].nodes <= AllNodes(cs) && ns[i].nodes <= AllNodes(ns);
      PatchedProper(cs[i], ns[i]);
    }
  }

  lemma {:induction false} PatchedKidsProper(cs: seq<Snap>, ns: seq<Snap>)
    requires Families(cs, ns)
    ensures Forest(PatchedKids(cs, ns)) && AllNodes(PatchedKids(cs, ns)) <= AllNodes(cs) + AllNodes(ns)
    decreases ns, 1
  {
    var ks := PatchedKids(cs, ns);
    forall i | 0 <= i < |ks| ensures ProperChild(ks[i]) && ks[i].nodes <= AllNodes(cs) + AllNodes(ns) {
      PatchedKidProper(cs, ns, i);
      PairWithin(cs, ns, i);
    }
    forall i, j | 0 <= i < j < |ks| ensures ks[i].nodes !! ks[j].nodes {
      PatchedKidProper(cs, ns, i);
      PatchedKidProper(cs, ns, j);
      PairsApart(cs, ns, i, j);
    }
  }
}
