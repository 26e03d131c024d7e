/**
 * The live document as heap objects, snapshots of it that remember which object stands
 * where, and what reconciling one tree with another is meant to give.
 */
module DomTree {
  import opened Shared

  datatype Head =
    | ElementHead(namespace: string, name: string, attrs: map<string, string>)
    | TextHead(data: string)
    | OtherHead(nodeType: nat, name: string, data: string)
    | FragmentHead

  class Node {
    var head: Head
    var children: seq<Node>

    constructor (l: Head)
      ensures head == l && children == []
    {
      head, children := l, [];
    }
  }

  /** Counts what the page's observers would see. */
  class Document {
    var writes: nat

    constructor ()
      ensures writes == 0
    {
      writes := 0;
    }
  }

  /**
   * A tree as a value, and a tree whose places are taken by particular objects; `nodes` is
   * its footprint.
   */
  datatype Tree = Tree(head: Head, kids: seq<Tree>)
  datatype Snap = Snap(node: Node, head: Head, kids: seq<Snap>, nodes: set<Node>)

  ghost function ValueOf(s: Snap): Tree {
    Tree(s.head, Values(s.kids))
  }

  ghost function Values(ss: seq<Snap>): seq<Tree> {
    seq(|ss|, i requires 0 <= i < |ss| => ValueOf(ss[i]))
  }

  ghost function Roots(ss: seq<Snap>): seq<Node> {
    seq(|ss|, i requires 0 <= i < |ss| => ss[i].node)
  }

  ghost function AllNodes(ss: seq<Snap>): set<Node> {
    set i, o | 0 <= i < |ss| && o in ss[i].nodes :: o
  }

  /** Every object has one place, and only elements have children. */
  ghost predicate Proper(s: Snap) {
    && s.nodes == {s.node} + AllNodes(s.kids)
    && s.node !in AllNodes(s.kids)
    && Apart(s.kids)
    && (!s.head.ElementHead? && !s.head.FragmentHead? ==> s.kids == [])
    && forall i :: 0 <= i < |s.kids| ==> Proper(s.kids[i]) && !s.kids[i].head.FragmentHead?
  }

  ghost predicate ProperChild(s: Snap) {
    Proper(s) && !s.head.FragmentHead?
  }

  ghost predicate Apart(ss: seq<Snap>) {
    forall i, j :: 0 <= i < j < |ss| ==> ss[i].nodes !! ss[j].nodes
  }

  /** The objects of the snapshot are, just now, the tree it describes. */
  ghost predicate Shows(s: Snap)
    requires Proper(s)
    reads s.nodes
  {
    s.node.head == s.head && s.node.children == Roots(s.kids)
    && forall i :: 0 <= i < |s.kids| ==> Shows(s.kids[i])
  }

  // ---- Identity ---------------------------------------------------------------------

  function IdentityAttrs(): seq<string> {
    ["id", "data-act", "data-arg", "data-form", "data-scroll", "data-scroll-key", "data-overlay", "data-trap"]
  }
  const SVG_NAMESPACE := "http://www.w3.org/2000/svg"
  const CLASS_WHITESPACE := "\t\n\U{0C}\r "

  function GetAttribute(attrs: map<string, string>, name: string): Option<string> {
    if name in attrs then Some(attrs[name]) else None
  }

  function ClassName(attrs: map<string, string>): string {
    if "class" in attrs then attrs["class"] else ""
  }

  /** Whether the class list, the name's whitespace-separated tokens, contains `token`. */
  predicate HasToken(className: string, token: string) {
    exists i, j {:trigger className[i..j]} :: 0 <= i <= j <= |className| && className[i..j] == token
      && (i == 0 || className[i - 1] in CLASS_WHITESPACE) && (j == |className| || className[j] in CLASS_WHITESPACE)
  }

  /**
   * Two page containers clash when their class names differ. An SVG element's `className`
   * is an object of its own, so two SVG elements always differ in it.
   */
  predicate PagesClash(a: Head, b: Head)
    requires a.ElementHead? && b.ElementHead?
  {
    HasToken(ClassName(a.attrs), "page") && HasToken(ClassName(b.attrs), "page")
    && (a.namespace == SVG_NAMESPACE || ClassName(a.attrs) != ClassName(b.attrs))
  }

  predicate SameIdentity(a: Head, b: Head) {
    match (a, b)
    case (ElementHead(ns, name, attrs), ElementHead(ns', name', attrs')) =>
      name == name' && ns == ns' && !PagesClash(a, b)
      && forall i :: 0 <= i < |IdentityAttrs()| ==>
           GetAttribute(attrs, IdentityAttrs()[i]) == GetAttribute(attrs', IdentityAttrs()[i])
    case (TextHead(_), TextHead(_)) => true
    case (OtherHead(t, name, _), OtherHead(t', name', _)) => t == t' && name == name'
    case (FragmentHead, FragmentHead) => true
    case _ => false
  }

  // ---- What patching gives ----------------------------------------------------------

  ghost function Patched(c: Snap, n: Snap): Snap
    decreases n
  {
    if !SameIdentity(c.head, n.head) then n
    else if ValueOf(c) == ValueOf(n) then c
    else
      var kids := PatchedKids(c.kids, n.kids);
      Snap(c.node, n.head, kids, {c.node} + AllNodes(kids))
  }

  ghost function PatchedKids(cs: seq<Snap>, ns: seq<Snap>): seq<Snap>
    decreases ns
  {
    seq(|ns|, i requires 0 <= i < |ns| => if i < |cs| then Patched(cs[i], ns[i]) else ns[i])
  }

  ghost function RemovedAttrs(a: map<string, string>, b: map<string, string>): set<string> {
    a.Keys - b.Keys
  }

  ghost function ChangedAttrs(a: map<string, string>, b: map<string, string>): set<string> {
    set name | name in b && GetAttribute(a, name) != Some(b[name])
  }

  ghost function AttrWrites(a: Head, b: Head): nat {
    if a.ElementHead? && b.ElementHead? then |RemovedAttrs(a.attrs, b.attrs)| + |ChangedAttrs(a.attrs, b.attrs)| else 0
  }

  /** Already equal, and of matching identity: the case that writes nothing. */
  ghost predicate Quiet(c: Snap, n: Snap) {
    SameIdentity(c.head, n.head) && ValueOf(c) == ValueOf(n)
  }

  ghost predicate AllQuiet(cs: seq<Snap>, ns: seq<Snap>) {
    |cs| == |ns| && forall i :: 0 <= i < |ns| ==> Quiet(cs[i], ns[i])
  }
}
