/**
 * `reconcile` and `patchNode` on live objects. A node that is inserted leaves the parent
 * it came from, as in the document; here that parent is passed along as `from`.
 */
module DomPatch {
  import opened Shared
  import opened DomTree
  import opened DomTheorems

  /** A row of trees, as its objects show it. */
  ghost predicate Standing(ss: seq<Snap>)
    requires Forest(ss)
    reads AllNodes(ss)
  {
    forall i :: 0 <= i < |ss| ==> Shows(ss[i])
  }

  function Without(ns: seq<Node>, x: Node): seq<Node> {
    if ns == [] then [] else (if ns[0] == x then [] else [ns[0]]) + Without(ns[1..], x)
  }

  lemma {:induction false} WithoutIsGone(ns: seq<Node>, x: Node)
    ensures x !in Without(ns, x)
    ensures forall o :: o in Without(ns, x) ==> o in ns
  {
    if ns != [] {
      WithoutIsGone(ns[1..], x);
    }
  }

  method Detach(from: Node?, child: Node)
    modifies from
    ensures from != null ==> child !in from.children && from.head == old(from.head)
    ensures from != null ==> forall o :: o in from.children ==> o in old(from.children)
  {
    if from != null {
      WithoutIsGone(from.children, child);
      from.children := Without(from.children, child);
    }
  }

  method AppendChild(doc: Document, parent: Node, child: Node, from: Node?)
    requires from != parent
    modifies doc, parent, from
    ensures parent.head == old(parent.head) && parent.children == old(parent.children) + [child]
    ensures doc.writes == old(doc.writes) + 1
    ensures from != null ==> child !in from.children && forall o :: o in from.children ==> o in old(from.children)
  {
    Detach(from, child);
    parent.children := parent.children + [child];
    doc.writes := doc.writes + 1;
  }

  method ReplaceChild(doc: Document, parent: Node, index: nat, child: Node, from: Node?)
    requires from != parent && index < |parent.children|
    modifies doc, parent, from
    ensures parent.head == old(parent.head) && parent.children == old(parent.children)[index := child]
    ensures doc.writes == old(doc.writes) + 1
    ensures from != null ==> child !in from.children && forall o :: o in from.children ==> o in old(from.children)
  {
    Detach(from, child);
    parent.children := parent.children[index := child];
    doc.writes := doc.writes + 1;
  }

  /** Deep equality of what two nodes show. */
  function IsEqualNode(a: Node, b: Node, ghost s: Snap, ghost t: Snap): (equal: bool)
    requires a == s.node && b == t.node && Proper(s) && Proper(t) && Shows(s) && Shows(t)
    reads s.nodes, t.nodes
    ensures equal == (ValueOf(s) == ValueOf(t))
    decreases s
  {
    assert |Values(s.kids)| == |a.children| && |Values(t.kids)| == |b.children|;
    assert ValueOf(s) == Tree(a.head, Values(s.kids)) && ValueOf(t) == Tree(b.head, Values(t.kids));
    a.head == b.head && |a.children| == |b.children| && AreEqualNodes(a.children, b.children, s.kids, t.kids)
  }

  function AreEqualNodes(xs: seq<Node>, ys: seq<Node>, ghost ss: seq<Snap>, ghost ts: seq<Snap>): (equal: bool)
    requires xs == Roots(ss) && ys == Roots(ts) && |ss| == |ts| && Forest(ss) && Forest(ts) && Standing(ss)
      && Standing(ts)
    reads AllNodes(ss), AllNodes(ts)
    ensures equal == (Values(ss) == Values(ts))
    decreases ss
  {
    if xs == [] then true
    else
      ValuesCons(ss, ts);
      StandingFirst(ss);
      StandingFirst(ts);
      assert xs[1..] == Roots(ss[1..]) && ys[1..] == Roots(ts[1..]);
      IsEqualNode(xs[0], ys[0], ss[0], ts[0]) && AreEqualNodes(xs[1..], ys[1..], ss[1..], ts[1..])
  }

  lemma SliceWithin(ss: seq<Snap>, i: nat, j: nat)
    requires i <= j <= |ss| && Forest(ss)
    ensures AllNodes(ss[i..j]) <= AllNodes(ss) && Forest(ss[i..j])
  { }

  lemma StandingFirst(ss: seq<Snap>)
    requires Forest(ss) && Standing(ss) && ss != []
    ensures Proper(ss[0]) && ss[0].nodes <= AllNodes(ss) && Shows(ss[0])
    ensures Forest(ss[1..]) && AllNodes(ss[1..]) <= AllNodes(ss) && Standing(ss[1..])
  {
    SliceWithin(ss, 1, |ss|);
    forall i | 0 <= i < |ss[1..]| ensures Shows(ss[1..][i]) {
      assert Shows(ss[i + 1]);
    }
  }

  lemma ValuesCons(ss: seq<Snap>, ts: seq<Snap>)
    requires |ss| == |ts| > 0
    ensures Values(ss) == Values(ts) <==> ValueOf(ss[0]) == ValueOf(ts[0]) && Values(ss[1..]) == Values(ts[1..])
  {
    assert Values(ss) == [ValueOf(ss[0])] + Values(ss[1..]);
    assert Values(ts) == [ValueOf(ts[0])] + Values(ts[1..]);
    assert Values(ss)[1..] == Values(ss[1..]) && Values(ts)[1..] == Values(ts[1..]);
  }

  /** All names but `names` have been looked at: those not wanted are gone, each by one write. */
  ghost predicate Removing(was: Head, now: Head, wanted: map<string, string>, names: set<string>, writes: int)
    requires was.ElementHead?
  {
    var gone := RemovedAttrs(was.attrs, wanted) - names;
    names <= was.attrs.Keys && now == was.(attrs := was.attrs - gone) && writes == |gone|
  }

  lemma RemovingStarts(was: Head, wanted: map<string, string>)
    requires was.ElementHead?
    ensures Removing(was, was, wanted, was.attrs.Keys, 0)
  {
    var gone := RemovedAttrs(was.attrs, wanted) - was.attrs.Keys;
    assert gone == {};
    assert was.attrs - gone == was.attrs;
  }

  lemma RemovingNext(was: Head, now: Head, wanted: map<string, string>, names: set<string>, writes: int, name: string)
    requires was.ElementHead? && Removing(was, now, wanted, names, writes) && name in names
    ensures now.ElementHead?
    ensures name in wanted ==> Removing(was, now, wanted, names - {name}, writes)
    ensures name !in wanted ==> Removing(was, now.(attrs := now.attrs - {name}), wanted, names - {name}, writes + 1)
  {
    OneRemoved(was.attrs, wanted, names, name);
  }

  lemma OneRemoved(a: map<string, string>, b: map<string, string>, names: set<string>, name: string)
    requires name in names && names <= a.Keys
    ensures var gone := RemovedAttrs(a, b) - names;
      && name !in gone
      && RemovedAttrs(a, b) - (names - {name}) == (if name in b then gone else gone + {name})
      && (a - gone) - {name} == a - (gone + {name})
  {
    var gone := RemovedAttrs(a, b) - names;
    assert RemovedAttrs(a, b) - (names - {name}) == (if name in b then gone else gone + {name});
    assert (a - gone) - {name} == a - (gone + {name});
  }

  /** All names but `names` have been looked at: their values are the wanted ones, each difference by one write. */
  ghost predicate Setting(was: Head, now: Head, wanted: map<string, string>, names: set<string>, writes: int)
    requires was.ElementHead?
  {
    names <= wanted.Keys && now == was.(attrs := was.attrs + (wanted - names))
      && writes == |ChangedAttrs(was.attrs, wanted) - names|
  }

  lemma SettingStarts(was: Head, wanted: map<string, string>)
    requires was.ElementHead?
    ensures Setting(was, was, wanted, wanted.Keys, 0)
  {
    assert was.attrs + (wanted - wanted.Keys) == was.attrs;
    assert ChangedAttrs(was.attrs, wanted) - wanted.Keys == {};
  }

  lemma SettingNext(was: Head, now: Head, wanted: map<string, string>, names: set<string>, writes: int, name: string)
    requires was.ElementHead? && Setting(was, now, wanted, names, writes) && name in names
    ensures now.ElementHead?
    ensures GetAttribute(now.attrs, name) == Some(wanted[name]) ==> Setting(was, now, wanted, names - {name}, writes)
    ensures GetAttribute(now.attrs, name) != Some(wanted[name]) ==>
      Setting(was, now.(attrs := now.attrs[name := wanted[name]]), wanted, names - {name}, writes + 1)
  {
    OneSet(was.attrs, wanted, names, name);
  }

  lemma OneSet(a: map<string, string>, b: map<string, string>, names: set<string>, name: string)
    requires name in names && names <= b.Keys
    ensures var put := ChangedAttrs(a, b) - names; var now := a + (b - names);
      && name !in put && GetAttribute(now, name) == GetAttribute(a, name)
      && ChangedAttrs(a, b) - (names - {name}) == (if GetAttribute(a, name) == Some(b[name]) then put else put + {name})
      && a + (b - (names - {name})) == now[name := b[name]]
      && (GetAttribute(a, name) == Some(b[name]) ==> now[name := b[name]] == now)
  {
    var put, now := ChangedAttrs(a, b) - names, a + (b - names);
    assert ChangedAttrs(a, b) - (names - {name}) ==
      (if GetAttribute(a, name) == Some(b[name]) then put else put + {name});
    assert a + (b - (names - {name})) == now[name := b[name]];
  }

  method RemoveAttribute(doc: Document, current: Node, name: string)
    requires current.head.ElementHead?
    modifies doc, current`head
    ensures current.head == old(current.head).(attrs := old(current.head.attrs) - {name})
    ensures doc.writes == old(doc.writes) + 1
  {
    current.head := current.head.(attrs := current.head.attrs - {name});
    doc.writes := doc.writes + 1;
  }

  method SetAttribute(doc: Document, current: Node, name: string, value: string)
    requires current.head.ElementHead?
    modifies doc, current`head
    ensures current.head == old(current.head).(attrs := old(current.head.attrs)[name := value])
    ensures doc.writes == old(doc.writes) + 1
  {
    current.head := current.head.(attrs := current.head.attrs[name := value]);
    doc.writes := doc.writes + 1;
  }

  /** Attributes the new element does not have go. */
  method RemoveAttributes(doc: Document, current: Node, wanted: map<string, string>)
    requires current.head.ElementHead?
    modifies doc, current`head
    ensures current.head ==
      old(current.head).(attrs := old(current.head.attrs) - RemovedAttrs(old(current.head.attrs), wanted))
    ensures doc.writes == old(doc.writes) + |RemovedAttrs(old(current.head.attrs), wanted)|
  {
    ghost var was := current.head;
    var names := current.head.attrs.Keys;
    RemovingStarts(was, wanted);
    while names != {}
      invariant Removing(was, current.head, wanted, names, doc.writes - old(doc.writes))
      decreases |names|
    {
      var name :| name in names;
      RemovingNext(was, current.head, wanted, names, doc.writes - old(doc.writes), name);
      if name !in wanted { RemoveAttribute(doc, current, name); }
      names := names - {name};
    }
    assert RemovedAttrs(was.attrs, wanted) - names == RemovedAttrs(was.attrs, wanted);
  }

  /** Attributes whose value is not the new one are set. */
  method SetAttributes(doc: Document, current: Node, wanted: map<string, string>)
    requires current.head.ElementHead?
    modifies doc, current`head
    ensures current.head == old(current.head).(attrs := old(current.head.attrs) + wanted)
    ensures doc.writes == old(doc.writes) + |ChangedAttrs(old(current.head.attrs), wanted)|
  {
    ghost var was := current.head;
    var names := wanted.Keys;
    SettingStarts(was, wanted);
    while names != {}
      invariant Setting(was, current.head, wanted, names, doc.writes - old(doc.writes))
      decreases |names|
    {
      var name :| name in names;
      SettingNext(was, current.head, wanted, names, doc.writes - old(doc.writes), name);
      if GetAttribute(current.head.attrs, name) != Some(wanted[name]) {
        SetAttribute(doc, current, name, wanted[name]);
      }
      names := names - {name};
    }
    assert wanted - names == wanted && ChangedAttrs(was.attrs, wanted) - names == ChangedAttrs(was.attrs, wanted);
  }

  lemma RemovalKeepsChanges(a: map<string, string>, b: map<string, string>)
    ensures var kept := a - RemovedAttrs(a, b);
      kept + b == b && ChangedAttrs(kept, b) == ChangedAttrs(a, b)
  {
    var kept := a - RemovedAttrs(a, b);
    assert forall name :: name in b ==> GetAttribute(kept, name) == GetAttribute(a, name);
    assert kept + b == b;
  }

  /** The two attribute loops: afterwards the attributes are the new ones, and only differences were written. */
  method PatchAttributes(doc: Document, current: Node, next: Node)
    requires current != next && current.head.ElementHead? && next.head.ElementHead?
    requires current.head.name == next.head.name && current.head.namespace == next.head.namespace
    modifies doc, current`head
    ensures current.head == next.head
    ensures doc.writes == old(doc.writes) + AttrWrites(old(current.head), next.head)
  {
    RemovalKeepsChanges(current.head.attrs, next.head.attrs);
    RemoveAttributes(doc, current, next.head.attrs);
    SetAttributes(doc, current, next.head.attrs);
  }

  // ---- Children ---------------------------------------------------------------------

  /** The children while the loop stands at `i`: patched ones, then those still to come. */
  ghost function Halfway(cs: seq<Snap>, ns: seq<Snap>, i: nat): seq<Snap>
    requires i <= |ns|
  {
    PatchedKids(cs, ns)[..i] + Rest(cs, i)
  }

  ghost function Rest(ss: seq<Snap>, i: nat): seq<Snap> {
    if i < |ss| then ss[i..] else []
  }

  lemma HalfwayStep(cs: seq<Snap>, ns: seq<Snap>, i: nat)
    requires i < |ns|
    ensures |Roots(Halfway(cs, ns, i))| == if i < |cs| then |cs| else i
    ensures i < |cs| ==> Roots(Halfway(cs, ns, i))[i] == cs[i].node
    ensures Roots(Halfway(cs, ns, i + 1)) ==
            if i < |cs| then Roots(Halfway(cs, ns, i))[i := PatchedKids(cs, ns)[i].node]
            else Roots(Halfway(cs, ns, i)) + [PatchedKids(cs, ns)[i].node]
  { }

  method PatchChild(doc: Document, current: Node, child: Node, index: nat, from: Node?, ghost cs: seq<Snap>,
                    ghost ns: seq<Snap>)
    requires Families(cs, ns) && index < |ns| && child == ns[index].node
    requires current !in Pair(cs, ns, index) && from != current && from !in Pair(cs, ns, index)
    requires current.children == Roots(Halfway(cs, ns, index))
    requires Shows(ns[index]) && (index < |cs| ==> Shows(cs[index]))
    modifies doc, current, from, Pair(cs, ns, index)
    ensures current.head == old(current.head) && current.children == Roots(Halfway(cs, ns, index + 1))
    ensures ProperChild(PatchedKids(cs, ns)[index]) && Shows(PatchedKids(cs, ns)[index])
    ensures doc.writes >= old(doc.writes)
    ensures doc.writes == old(doc.writes) <==> index < |cs| && Quiet(cs[index], ns[index])
    decreases ns, 0
  {
    HalfwayStep(cs, ns, index);
    if index >= |current.children| {
      AppendChild(doc, current, child, from);
    } else {
      assert cs[index].nodes <= AllNodes(cs) && ns[index].nodes <= AllNodes(ns);
      PatchNode(doc, current, index, child, from, cs[index], ns[index]);
    }
  }

  method PatchNode(doc: Document, parent: Node, index: nat, next: Node, from: Node?, ghost c: Snap, ghost n: Snap)
    requires ProperChild(c) && ProperChild(n) && c.nodes !! n.nodes && Shows(c) && Shows(n)
    requires index < |parent.children| && parent.children[index] == c.node && next == n.node
    requires parent !in c.nodes + n.nodes && from != parent && from !in c.nodes + n.nodes
    modifies doc, parent, from, c.nodes, n.nodes
    ensures parent.head == old(parent.head) && parent.children == old(parent.children)[index := Patched(c, n).node]
    ensures ProperChild(Patched(c, n)) && Shows(Patched(c, n))
    ensures doc.writes >= old(doc.writes)
    ensures doc.writes == old(doc.writes) <==> Quiet(c, n)
    decreases n, 1
  {
    PatchedProper(c, n);
    var current := parent.children[index];
    if !SameIdentity(current.head, next.head) {
      ReplaceChild(doc, parent, index, next, from);
      return;
    }
    if IsEqualNode(current, next, c, n) { return; }
    if !current.head.ElementHead? {
      PatchText(doc, current, next, c, n);
      return;
    }
    PatchElement(doc, current, next, c, n);
  }

  /** A text node or comment: only its data can differ. */
  method PatchText(doc: Document, current: Node, next: Node, ghost c: Snap, ghost n: Snap)
    requires current == c.node && next == n.node && ProperChild(c) && ProperChild(n) && c.nodes !! n.nodes
      && Shows(c) && Shows(n)
    requires !c.head.ElementHead? && SameIdentity(c.head, n.head) && ValueOf(c) != ValueOf(n)
    modifies doc, current`head
    ensures ProperChild(Patched(c, n)) && Shows(Patched(c, n)) && doc.writes > old(doc.writes)
  {
    if current.head.data != next.head.data {
      current.head := current.head.(data := next.head.data);
      doc.writes := doc.writes + 1;
    }
  }

  /** Element `current`, of matching identity but not equal, becomes what `next` shows. */
  method PatchElement(doc: Document, current: Node, next: Node, ghost c: Snap, ghost n: Snap)
    requires current == c.node && next == n.node && ProperChild(c) && ProperChild(n) && c.nodes !! n.nodes
      && Shows(c) && Shows(n)
    requires c.head.ElementHead? && SameIdentity(c.head, n.head) && ValueOf(c) != ValueOf(n)
    modifies doc, c.nodes, n.nodes
    ensures ProperChild(Patched(c, n)) && Shows(Patched(c, n)) && doc.writes > old(doc.writes)
    decreases n, 0
  {
    PatchedProper(c, n);
    PatchAttributes(doc, current, next);
    NoAttrWritesIffEqual(c.head.attrs, n.head.attrs);
    PatchChildren(doc, current, next.children, next, c.kids, n.kids);
    if AllQuiet(c.kids, n.kids) { AllQuietEqual(c.kids, n.kids); }
  }

  lemma RestApart(cs: seq<Snap>, ns: seq<Snap>, i: nat)
    requires Families(cs, ns) && i < |ns|
    ensures Forest(Rest(cs, i + 1)) && AllNodes(Rest(cs, i + 1)) !! Pair(cs, ns, i)
    ensures Forest(Rest(ns, i + 1)) && AllNodes(Rest(ns, i + 1)) !! Pair(cs, ns, i)
    ensures AllNodes(Rest(cs, i + 1)) <= AllNodes(cs) && AllNodes(Rest(ns, i + 1)) <= AllNodes(ns)
  {
    forall j | i < j < |cs| ensures cs[j].nodes !! Pair(cs, ns, i) {
      assert cs[j].nodes <= AllNodes(cs) && ns[i].nodes <= AllNodes(ns);
      assert cs[i].nodes !! cs[j].nodes;
    }
    forall j | i < j < |ns| ensures ns[j].nodes !! Pair(cs, ns, i) {
      PairsApart(cs, ns, i, j);
    }
  }

  lemma DoneApart(cs: seq<Snap>, ns: seq<Snap>, i: nat)
    requires Families(cs, ns) && i < |ns|
    ensures Forest(PatchedKids(cs, ns)[..i]) && AllNodes(PatchedKids(cs, ns)[..i]) !! Pair(cs, ns, i)
    ensures AllNodes(PatchedKids(cs, ns)[..i]) <= AllNodes(cs) + AllNodes(ns)
  {
    PatchedKidsProper(cs, ns);
    var done := PatchedKids(cs, ns)[..i];
    forall j | 0 <= j < i ensures done[j].nodes !! Pair(cs, ns, i) {
      PatchedKidProper(cs, ns, j);
      PairsApart(cs, ns, i, j);
    }
  }

  ghost predicate Row(ss: seq<Snap>)
    reads AllNodes(ss)
  {
    Forest(ss) && Standing(ss)
  }

  /** A row none of whose objects changed still stands. */
  twostate lemma RowStays(ss: seq<Snap>)
    requires old(Row(ss)) && forall o :: o in AllNodes(ss) ==> unchanged(o)
    ensures Row(ss)
  { }

  /** The state of the loop over the children. */
  ghost predicate LoopStands(cs: seq<Snap>, ns: seq<Snap>, i: nat)
    requires i <= |ns|
    reads AllNodes(PatchedKids(cs, ns)[..i]), AllNodes(Rest(cs, i)), AllNodes(Rest(ns, i))
  {
    Row(PatchedKids(cs, ns)[..i]) && Row(Rest(cs, i)) && Row(Rest(ns, i))
  }

  lemma LoopNext(cs: seq<Snap>, ns: seq<Snap>, i: nat)
    requires i < |ns| && LoopStands(cs, ns, i)
    ensures Shows(ns[i]) && Row(Rest(ns, i + 1))
    ensures i < |cs| ==> Shows(cs[i])
    ensures Row(Rest(cs, i + 1))
  {
    StandingFirst(Rest(ns, i));
    assert Rest(ns, i)[1..] == Rest(ns, i + 1);
    if i < |cs| {
      StandingFirst(Rest(cs, i));
      assert Rest(cs, i)[1..] == Rest(cs, i + 1);
    }
  }

  lemma LoopDone(cs: seq<Snap>, ns: seq<Snap>, i: nat)
    requires Families(cs, ns) && i < |ns| && Row(PatchedKids(cs, ns)[..i])
    requires ProperChild(PatchedKids(cs, ns)[i]) && Shows(PatchedKids(cs, ns)[i])
    ensures Row(PatchedKids(cs, ns)[..i + 1])
  {
    PatchedKidsProper(cs, ns);
    SliceWithin(PatchedKids(cs, ns), 0, i + 1);
    assert PatchedKids(cs, ns)[0..i + 1] == PatchedKids(cs, ns)[..i + 1];
    var before, after := PatchedKids(cs, ns)[..i], PatchedKids(cs, ns)[..i + 1];
    forall j | 0 <= j < |after| ensures Shows(after[j]) {
      if j < i {
        assert Shows(before[j]);
      }
    }
  }

  ghost predicate QuietUpTo(cs: seq<Snap>, ns: seq<Snap>, i: nat)
    requires i <= |ns|
  {
    i <= |cs| && forall j :: 0 <= j < i ==> Quiet(cs[j], ns[j])
  }

  lemma QuietStep(cs: seq<Snap>, ns: seq<Snap>, i: nat)
    requires i < |ns|
    ensures QuietUpTo(cs, ns, i + 1) <==> QuietUpTo(cs, ns, i) && i < |cs| && Quiet(cs[i], ns[i])
  { }

  /** What the loop needs at turn `i`: its state, and that the two parents stand outside both rows. */
  ghost predicate Turning(current: Node, from: Node?, cs: seq<Snap>, ns: seq<Snap>, i: nat)
    requires i <= |ns|
    reads current, AllNodes(PatchedKids(cs, ns)[..i]), AllNodes(Rest(cs, i)), AllNodes(Rest(ns, i))
  {
    && Families(cs, ns) && current !in AllNodes(cs) + AllNodes(ns) && from != current
    && from !in AllNodes(cs) + AllNodes(ns)
    && current.children == Roots(Halfway(cs, ns, i)) && LoopStands(cs, ns, i)
  }

  /** Writes so far, counted from `w`: none exactly while every pair met was quiet. */
  ghost predicate Wrote(doc: Document, w: nat, cs: seq<Snap>, ns: seq<Snap>, i: nat)
    requires i <= |ns|
    reads doc
  {
    doc.writes >= w && (doc.writes == w <==> QuietUpTo(cs, ns, i))
  }

  method PatchPair(doc: Document, current: Node, child: Node, index: nat, from: Node?, ghost cs: seq<Snap>,
                   ghost ns: seq<Snap>, ghost w: nat)
    requires index < |ns| && child == ns[index].node && Turning(current, from, cs, ns, index)
      && Wrote(doc, w, cs, ns, index)
    modifies doc, current, from, AllNodes(cs), AllNodes(ns)
    ensures current.head == old(current.head) && Turning(current, from, cs, ns, index + 1)
      && Wrote(doc, w, cs, ns, index + 1)
    decreases ns, 2
  {
    QuietStep(cs, ns, index);
    PatchNext(doc, current, child, index, from, cs, ns);
  }

  method PatchNext(doc: Document, current: Node, child: Node, index: nat, from: Node?, ghost cs: seq<Snap>,
                   ghost ns: seq<Snap>)
    requires index < |ns| && child == ns[index].node && Turning(current, from, cs, ns, index)
    modifies doc, current, from, AllNodes(cs), AllNodes(ns)
    ensures current.head == old(current.head) && Turning(current, from, cs, ns, index + 1)
    ensures doc.writes >= old(doc.writes)
    ensures doc.writes == old(doc.writes) <==> index < |cs| && Quiet(cs[index], ns[index])
    decreases ns, 1
  {
    ghost var done, oldRest, newRest := PatchedKids(cs, ns)[..index], Rest(cs, index + 1), Rest(ns, index + 1);
    TurnReady(current, from, cs, ns, index);
    PatchChild(doc, current, child, index, from, cs, ns);
    RowStays(done);
    RowStays(oldRest);
    RowStays(newRest);
    LoopDone(cs, ns, index);
  }

  /** The pair at turn `index` stands, and so do all others, aside from it. */
  lemma TurnReady(current: Node, from: Node?, cs: seq<Snap>, ns: seq<Snap>, index: nat)
    requires index < |ns| && Turning(current, from, cs, ns, index)
    ensures Pair(cs, ns, index) <= AllNodes(cs) + AllNodes(ns)
    ensures Shows(ns[index])
    ensures index < |cs| ==> Shows(cs[index])
    ensures Row(PatchedKids(cs, ns)[..index])
    ensures Row(Rest(cs, index + 1))
    ensures Row(Rest(ns, index + 1))
    ensures Aside(AllNodes(PatchedKids(cs, ns)[..index]), current, from, Pair(cs, ns, index))
    ensures Aside(AllNodes(Rest(cs, index + 1)), current, from, Pair(cs, ns, index))
    ensures Aside(AllNodes(Rest(ns, index + 1)), current, from, Pair(cs, ns, index))
  {
    PairWithin(cs, ns, index);
    RestApart(cs, ns, index);
    DoneApart(cs, ns, index);
    LoopNext(cs, ns, index);
  }

  ghost predicate Aside(others: set<Node>, current: Node, from: Node?, pair: set<Node>) {
    current !in others && from !in others && others !! pair
  }

  /** Old children past the end of the new ones go, last first. */
  method RemoveSurplus(doc: Document, current: Node, n: nat)
    requires n <= |current.children|
    modifies doc, current`children
    ensures current.children == old(current.children)[..n]
    ensures doc.writes == old(doc.writes) + |old(current.children)| - n
  {
    while |current.children| > n
      invariant n <= |current.children| <= |old(current.children)|
      invariant current.children == old(current.children)[..|current.children|]
      invariant doc.writes == old(doc.writes) + |old(current.children)| - |current.children|
    {
      current.children := current.children[..|current.children| - 1];
      doc.writes := doc.writes + 1;
    }
  }

  lemma TurningStarts(current: Node, from: Node?, cs: seq<Snap>, ns: seq<Snap>)
    requires Families(cs, ns) && current.children == Roots(cs) && Standing(cs) && Standing(ns)
    requires current !in AllNodes(cs) + AllNodes(ns) && from != current && from !in AllNodes(cs) + AllNodes(ns)
    ensures Turning(current, from, cs, ns, 0)
  {
    assert Halfway(cs, ns, 0) == cs && PatchedKids(cs, ns)[..0] == [] && Rest(ns, 0) == ns && Rest(cs, 0) == cs;
  }

  lemma TurningEnds(current: Node, from: Node?, cs: seq<Snap>, ns: seq<Snap>)
    requires Turning(current, from, cs, ns, |ns|)
    ensures Row(PatchedKids(cs, ns)) && |current.children| == |ns| + Surplus(cs, ns)
    ensures current.children[..|ns|] == Roots(PatchedKids(cs, ns))
    ensures current !in AllNodes(PatchedKids(cs, ns))
  {
    assert PatchedKids(cs, ns)[..|ns|] == PatchedKids(cs, ns);
    PatchedKidsProper(cs, ns);
  }

  ghost function Surplus(cs: seq<Snap>, ns: seq<Snap>): nat {
    if |cs| > |ns| then |cs| - |ns| else 0
  }

  method PatchInPairs(doc: Document, current: Node, children: seq<Node>, from: Node?, ghost cs: seq<Snap>,
                      ghost ns: seq<Snap>)
    requires children == Roots(ns) && Turning(current, from, cs, ns, 0)
    modifies doc, current, from, AllNodes(cs), AllNodes(ns)
    ensures current.head == old(current.head) && Turning(current, from, cs, ns, |ns|)
      && Wrote(doc, old(doc.writes), cs, ns, |ns|)
    decreases ns, 3
  {
    ghost var w := doc.writes;
    for index := 0 to |children|
      invariant current.head == old(current.head) && Turning(current, from, cs, ns, index)
        && Wrote(doc, w, cs, ns, index)
    {
      PatchPair(doc, current, children[index], index, from, cs, ns, w);
    }
  }

  /** The loop over the new children and the removal of surplus old ones. */
  method PatchChildren(doc: Document, current: Node, children: seq<Node>, from: Node?, ghost cs: seq<Snap>,
                       ghost ns: seq<Snap>)
    requires Families(cs, ns) && current.children == Roots(cs) && children == Roots(ns) && Standing(cs) && Standing(ns)
    requires current !in AllNodes(cs) + AllNodes(ns) && from != current && from !in AllNodes(cs) + AllNodes(ns)
    modifies doc, current, from, AllNodes(cs), AllNodes(ns)
    ensures current.head == old(current.head) && current.children == Roots(PatchedKids(cs, ns))
    ensures Row(PatchedKids(cs, ns))
    ensures doc.writes >= old(doc.writes)
    ensures doc.writes == old(doc.writes) <==> AllQuiet(cs, ns)
    decreases ns, 4
  {
    TurningStarts(current, from, cs, ns);
    PatchInPairs(doc, current, children, from, cs, ns);
    TurningEnds(current, from, cs, ns);
    label looped:
    RemoveSurplus(doc, current, |children|);
    RowStays@looped(PatchedKids(cs, ns));
  }

  /** The trees a call is to show: a fragment's children, or the one node. */
  ghost function Wanted(n: Snap): seq<Snap> {
    if n.head.FragmentHead? then n.kids else [n]
  }

  /**
   * Afterwards the parent shows exactly what was wanted, as a full replace would, in the
   * objects `PatchedKids` says, and nothing was written just when every child was already
   * equal and of matching identity.
   */
  method Reconcile(doc: Document, parent: Node, next: Node, owner: Node?, ghost p: Snap, ghost n: Snap)
    requires parent == p.node && next == n.node && Proper(p) && Proper(n) && p.nodes !! n.nodes && Shows(p) && Shows(n)
    requires owner != parent && owner !in p.nodes + n.nodes
    modifies doc, owner, p.nodes, n.nodes
    ensures parent.head == p.head && parent.children == Roots(PatchedKids(p.kids, Wanted(n)))
    ensures Row(PatchedKids(p.kids, Wanted(n)))
    ensures Values(PatchedKids(p.kids, Wanted(n))) == Values(Wanted(n))
    ensures doc.writes == old(doc.writes) <==> AllQuiet(p.kids, Wanted(n))
  {
    WantedFamilies(p, n);
    KidsAreNext(p.kids, Wanted(n));
    if next.head.FragmentHead? {
      PatchChildren(doc, parent, next.children, next, p.kids, n.kids);
    } else {
      PatchChildren(doc, parent, [next], owner, p.kids, [n]);
    }
  }

  lemma WantedFamilies(p: Snap, n: Snap)
    requires Proper(p) && Proper(n) && p.nodes !! n.nodes
    ensures Families(p.kids, Wanted(n)) && p.node !in AllNodes(p.kids) + AllNodes(Wanted(n))
    ensures n.head.FragmentHead? ==> n.node !in AllNodes(p.kids) + AllNodes(n.kids)
    ensures AllNodes(Wanted(n)) <= n.nodes
  { }
}
