/** `collect`: all thirteen axes of tree nodes and of attributes, by proximity. */
module XPathCollect {
  import opened XPathTree
  import opened XPathOrder
  import opened XPathSemantics
  import opened XPathAxes

  ghost function All(w: World, axis: Axis, test: NodeTest, m: Node): seq<Node>
    requires w.Valid() && InDoc(w.doc, m)
  {
    Part(w, axis, test, m, 0, |w.doc.parents|)
  }

  /** An axis that holds nothing but tree nodes between `lo` and `hi`. */
  lemma {:induction false} AllWithin(w: World, axis: Axis, test: NodeTest, m: Node, lo: int, hi: int)
    requires w.Valid() && InDoc(w.doc, m) && 0 <= lo <= hi <= |w.doc.parents|
    requires forall c: nat :: c < |w.doc.parents| && OnAxis(w.doc, axis, m, Tree(c)) ==> lo <= c < hi
    ensures All(w, axis, test, m) == Part(w, axis, test, m, lo, hi)
  {
    PartSkip(w, axis, test, m, 0, lo, |w.doc.parents|);
    PartStop(w, axis, test, m, lo, hi, |w.doc.parents|);
  }

  /** An axis with at most one tree node. */
  lemma {:induction false} AllSingle(w: World, axis: Axis, test: NodeTest, m: Node, c: nat)
    requires w.Valid() && InDoc(w.doc, m) && c < |w.doc.parents|
    requires forall c': nat :: c' < |w.doc.parents| ==> (OnAxis(w.doc, axis, m, Tree(c')) <==> c' == c)
    ensures All(w, axis, test, m) == Own(w, test, c)
  {
    AllWithin(w, axis, test, m, c, c + 1);
    assert Part(w, axis, test, m, c + 1, c + 1) == [];
  }

  // ----- child

  lemma {:induction false} ChildStep(w: World, test: NodeTest, id: nat, x: nat)
    requires w.Valid() && id < |w.doc.parents| && AtChild(w.doc, id, x) && x < w.doc.End(id)
    ensures Part(w, Child, test, Tree(id), 0, w.doc.End(x)) ==
      Part(w, Child, test, Tree(id), 0, x) + Own(w, test, x)
  {
    NextChild(w.doc, id, x);
    PartStop(w, Child, test, Tree(id), 0, x + 1, w.doc.End(x));
    PartLast(w, Child, test, Tree(id), 0, x);
  }

  lemma {:induction false} ChildEnds(w: World, test: NodeTest, id: nat)
    requires w.Valid() && id < |w.doc.parents|
    ensures Part(w, Child, test, Tree(id), 0, id + 1) == []
    ensures AxisOrder(w, Child, test, Tree(id)) == Part(w, Child, test, Tree(id), 0, w.doc.End(id))
  {
    forall c: nat | c < |w.doc.parents| && OnAxis(w.doc, Child, Tree(id), Tree(c)) ensures id < c < w.doc.End(id) {
      assert w.doc.Contains(id, id) && w.doc.Contains(id, c);
      SubtreeIsInterval(w.doc, id, c);
    }
    PartNone(w, Child, test, Tree(id), 0, id + 1);
    AllWithin(w, Child, test, Tree(id), 0, w.doc.End(id));
    WholeAxis(w, Child, test, Tree(id));
  }

  /** Visiting one of the children of `id`, the one that starts at `x`. */
  lemma {:induction false} ChildVisit(w: World, test: NodeTest, id: nat, kids: seq<int>, i: nat, x: nat)
    requires w.Valid() && id < |w.doc.parents| && AtChild(w.doc, id, x)
    requires i < |kids| && kids[i..] == w.doc.ChildrenFrom(id, x)
    ensures kids[i] == x < w.doc.End(id)
    ensures AtChild(w.doc, id, w.doc.End(x)) && kids[i + 1..] == w.doc.ChildrenFrom(id, w.doc.End(x))
    ensures Part(w, Child, test, Tree(id), 0, w.doc.End(x)) == Part(w, Child, test, Tree(id), 0, x) + Own(w, test, x)
  {
    ChildrenAt(w.doc, id, x);
    assert kids[i] == kids[i..][0] && kids[i + 1..] == kids[i..][1..];
    ChildStep(w, test, id, x);
  }

  method ChildNodes(w: World, test: NodeTest, id: nat) returns (out: seq<Node>)
    requires w.Valid() && id < |w.doc.parents|
    ensures out == AxisOrder(w, Child, test, Tree(id))
  {
    out := [];
    ChildEnds(w, test, id);
    FirstChild(w.doc, id);
    if !HasChildren(w.doc.kinds[id]) { return; }
    var kids := w.doc.ChildIds(id);
    ghost var x: nat := id + 1;
    for i := 0 to |kids|
      invariant AtChild(w.doc, id, x) && kids[i..] == w.doc.ChildrenFrom(id, x)
      invariant out == Part(w, Child, test, Tree(id), 0, x)
    {
      ChildVisit(w, test, id, kids, i, x);
      if TreeTest(w, test, kids[i]) { out := out + [Tree(kids[i])]; }
      x := w.doc.End(x);
    }
    ChildrenAt(w.doc, id, x);
  }

  // ----- descendant

  lemma {:induction false} DescendantAxis(w: World, test: NodeTest, id: nat)
    requires w.Valid() && id < |w.doc.parents|
    ensures AxisOrder(w, Descendant, test, Tree(id)) == Part(w, Descendant, test, Tree(id), id + 1, w.doc.End(id))
  {
    forall c: nat | c < |w.doc.parents| && OnAxis(w.doc, Descendant, Tree(id), Tree(c)) ensures id < c < w.doc.End(id) {
      SubtreeIsInterval(w.doc, id, c);
    }
    AllWithin(w, Descendant, test, Tree(id), id + 1, w.doc.End(id));
    WholeAxis(w, Descendant, test, Tree(id));
  }

  lemma {:induction false} DescendantOrSelfAxis(w: World, test: NodeTest, id: nat)
    requires w.Valid() && id < |w.doc.parents|
    ensures AxisOrder(w, DescendantOrSelf, test, Tree(id)) == Whole(w, test, id)
  {
    forall c: nat | c < |w.doc.parents| && OnAxis(w.doc, DescendantOrSelf, Tree(id), Tree(c))
      ensures id <= c < w.doc.End(id)
    {
      SubtreeIsInterval(w.doc, id, c);
    }
    AllWithin(w, DescendantOrSelf, test, Tree(id), id, w.doc.End(id));
    SubtreeOnAxis(w, DescendantOrSelf, test, Tree(id), id);
    WholeAxis(w, DescendantOrSelf, test, Tree(id));
  }

  lemma {:induction false} DescendantParts(w: World, axis: Axis, test: NodeTest, id: nat)
    requires w.Valid() && id < |w.doc.parents| && (axis == Descendant || axis == DescendantOrSelf)
    ensures AxisOrder(w, axis, test, Tree(id)) ==
      (if axis == DescendantOrSelf then Own(w, test, id) else [])
      + Part(w, Descendant, test, Tree(id), id + 1, w.doc.End(id))
  {
    if axis == Descendant { DescendantAxis(w, test, id); } else { DescendantOrSelfAxis(w, test, id); }
  }

  lemma {:induction false} NothingBelow(w: World, test: NodeTest, id: nat, out: seq<Node>)
    requires w.Valid() && id < |w.doc.parents| && !HasChildren(w.doc.kinds[id])
    ensures out + Part(w, Descendant, test, Tree(id), id + 1, w.doc.End(id)) == out
  {
    FirstChild(w.doc, id);
  }

  method DescendantNodes(w: World, axis: Axis, test: NodeTest, id: nat) returns (out: seq<Node>)
    requires w.Valid() && id < |w.doc.parents| && (axis == Descendant || axis == DescendantOrSelf)
    ensures out == AxisOrder(w, axis, test, Tree(id))
  {
    DescendantParts(w, axis, test, id);
    var k := w.doc.kinds[id];
    out := [];
    if axis == DescendantOrSelf && TreeTest(w, test, id) { out := [Tree(id)]; }
    if HasChildren(k) {
      out := Descend(w, id, test, out);
    } else {
      NothingBelow(w, test, id, out);
    }
  }

  // ----- ancestor

  /** The upward walk from `start`, for an axis whose nodes up to `start` are `start` and its ancestors. */
  method AncestorNodes(w: World, axis: Axis, test: NodeTest, m: Node, start: int, before: seq<Node>)
    returns (out: seq<Node>)
    requires w.Valid() && InDoc(w.doc, m) && NONE <= start < |w.doc.parents|
    requires forall c: nat :: c <= start ==> (OnAxis(w.doc, axis, m, Tree(c)) <==> w.doc.Contains(c, start))
    ensures out == before + Reverse(Part(w, axis, test, m, 0, start + 1))
  {
    out := before;
    var a := start;
    PartNone(w, axis, test, m, a + 1, start + 1);
    while a != NONE
      invariant NONE <= a <= start && (a != NONE ==> w.doc.Contains(a, start))
      invariant out == before + Reverse(Part(w, axis, test, m, a + 1, start + 1))
      decreases a
    {
      AncestorMove(w, axis, test, m, start, a, before);
      if TreeTest(w, test, a) { out := out + [Tree(a)]; }
      a := w.doc.Parent(a);
    }
  }

  lemma {:induction false} NextAncestor(d: Doc, start: int, a: nat)
    requires d.Valid() && a <= start < |d.parents| && d.Contains(a, start)
    ensures d.parents[a] != NONE ==> d.Contains(d.parents[a], start)
    ensures forall c: nat :: d.parents[a] < c < a ==> !d.Contains(c, start)
  {
    var p := d.parents[a];
    if p != NONE { ContainsTrans(d, p, a, start); }
    forall c: nat | p < c < a ensures !d.Contains(c, start) {
      if d.Contains(c, start) {
        Nested(d, c, a, start);
        ContainsBound(d, c, p);
      }
    }
  }

  lemma {:induction false} AncestorStep(w: World, axis: Axis, test: NodeTest, m: Node, start: int, a: nat,
      before: seq<Node>)
    requires w.Valid() && InDoc(w.doc, m) && a <= start < |w.doc.parents|
    requires OnAxis(w.doc, axis, m, Tree(a))
    requires forall c: nat :: w.doc.parents[a] < c < a ==> !OnAxis(w.doc, axis, m, Tree(c))
    ensures before + Reverse(Part(w, axis, test, m, w.doc.parents[a] + 1, start + 1)) ==
      before + Reverse(Part(w, axis, test, m, a + 1, start + 1)) + Own(w, test, a)
  {
    PartSkip(w, axis, test, m, w.doc.parents[a] + 1, a, start + 1);
    PartFirst(w, axis, test, m, a, start + 1);
    ReverseFirst(Own(w, test, a), Part(w, axis, test, m, a + 1, start + 1));
  }

  lemma {:induction false} AncestorMove(w: World, axis: Axis, test: NodeTest, m: Node, start: int, a: nat,
      before: seq<Node>)
    requires w.Valid() && InDoc(w.doc, m) && a <= start < |w.doc.parents| && w.doc.Contains(a, start)
    requires forall c: nat :: c <= start ==> (OnAxis(w.doc, axis, m, Tree(c)) <==> w.doc.Contains(c, start))
    ensures w.doc.parents[a] != NONE ==> w.doc.Contains(w.doc.parents[a], start)
    ensures before + Reverse(Part(w, axis, test, m, w.doc.parents[a] + 1, start + 1)) ==
      before + Reverse(Part(w, axis, test, m, a + 1, start + 1)) + Own(w, test, a)
  {
    NextAncestor(w.doc, start, a);
    AncestorStep(w, axis, test, m, start, a, before);
  }

  lemma {:induction false} AncestorEnds(w: World, test: NodeTest, id: nat)
    requires w.Valid() && id < |w.doc.parents|
    ensures forall c: nat :: c <= w.doc.parents[id] ==>
      && (OnAxis(w.doc, Ancestor, Tree(id), Tree(c)) <==> w.doc.Contains(c, w.doc.parents[id]))
      && (OnAxis(w.doc, AncestorOrSelf, Tree(id), Tree(c)) <==> w.doc.Contains(c, w.doc.parents[id]))
    ensures All(w, Ancestor, test, Tree(id)) == Part(w, Ancestor, test, Tree(id), 0, w.doc.parents[id] + 1)
    ensures All(w, AncestorOrSelf, test, Tree(id)) ==
      Part(w, AncestorOrSelf, test, Tree(id), 0, w.doc.parents[id] + 1) + Own(w, test, id)
  {
    var p := w.doc.parents[id];
    forall c: nat | c < |w.doc.parents| && c != id && w.doc.Contains(c, id) ensures c <= p && w.doc.Contains(c, p) {
      ContainsBound(w.doc, c, id);
      ContainsBound(w.doc, c, p);
    }
    AllWithin(w, Ancestor, test, Tree(id), 0, p + 1);
    AllWithin(w, AncestorOrSelf, test, Tree(id), 0, id + 1);
    PartLast(w, AncestorOrSelf, test, Tree(id), 0, id);
    PartStop(w, AncestorOrSelf, test, Tree(id), 0, p + 1, id);
  }

  // ----- siblings

  lemma {:induction false} FollowingSiblingStep(w: World, test: NodeTest, id: nat, x: nat)
    requires w.Valid() && 0 < id < x < |w.doc.parents| && w.doc.parents[x] == w.doc.parents[id]
    ensures Part(w, FollowingSibling, test, Tree(id), 0, w.doc.End(x)) ==
      Part(w, FollowingSibling, test, Tree(id), 0, x) + Own(w, test, x)
  {
    NextChild(w.doc, w.doc.parents[x], x);
    PartStop(w, FollowingSibling, test, Tree(id), 0, x + 1, w.doc.End(x));
    PartLast(w, FollowingSibling, test, Tree(id), 0, x);
  }

  /** Before its own subtree ends a node has no later sibling, after that of its parent none either. */
  lemma {:induction false} SiblingsBetween(d: Doc, id: nat)
    requires d.Valid() && 0 < id < |d.parents|
    ensures forall c: nat :: id < c < d.End(id) ==> d.parents[c] != d.parents[id]
    ensures forall c: nat :: c < |d.parents| && d.parents[c] == d.parents[id] ==> c < d.End(d.parents[id])
  {
    var p := d.parents[id];
    NextChild(d, p, id);
    forall c: nat | c < |d.parents| && d.parents[c] == p ensures c < d.End(p) { NextChild(d, p, c); }
  }

  lemma {:induction false} NoSiblingYet(w: World, test: NodeTest, id: nat, e: nat)
    requires w.Valid() && id < e <= |w.doc.parents|
    requires forall c: nat :: id < c < e ==> w.doc.parents[c] != w.doc.parents[id]
    ensures Part(w, FollowingSibling, test, Tree(id), 0, e) == []
  {
    forall c: nat | c < e ensures !OnAxis(w.doc, FollowingSibling, Tree(id), Tree(c)) {}
    PartNone(w, FollowingSibling, test, Tree(id), 0, e);
  }

  lemma {:induction false} SiblingsWithin(w: World, test: NodeTest, id: nat, e: nat)
    requires w.Valid() && id < |w.doc.parents| && e <= |w.doc.parents|
    requires forall c: nat :: id < c < |w.doc.parents| && w.doc.parents[c] == w.doc.parents[id] ==> c < e
    ensures AxisOrder(w, FollowingSibling, test, Tree(id)) == Part(w, FollowingSibling, test, Tree(id), 0, e)
  {
    WholeAxis(w, FollowingSibling, test, Tree(id));
    forall c: nat | c < |w.doc.parents| && OnAxis(w.doc, FollowingSibling, Tree(id), Tree(c)) ensures c < e {}
    AllWithin(w, FollowingSibling, test, Tree(id), 0, e);
  }

  lemma {:induction false} FollowingSiblingEnds(w: World, test: NodeTest, id: nat)
    requires w.Valid() && id < |w.doc.parents|
    ensures Part(w, FollowingSibling, test, Tree(id), 0, w.doc.End(id)) == []
    ensures AxisOrder(w, FollowingSibling, test, Tree(id)) ==
      Part(w, FollowingSibling, test, Tree(id), 0, if id == 0 then |w.doc.parents| else w.doc.End(w.doc.parents[id]))
  {
    if id == 0 {
      NoSiblingYet(w, test, id, w.doc.End(id));
      SiblingsWithin(w, test, id, |w.doc.parents|);
    } else {
      SiblingsBetween(w.doc, id);
      NoSiblingYet(w, test, id, w.doc.End(id));
      SiblingsWithin(w, test, id, w.doc.End(w.doc.parents[id]));
    }
  }

  method FollowingSiblings(w: World, test: NodeTest, id: nat) returns (out: seq<Node>)
    requires w.Valid() && id < |w.doc.parents|
    ensures out == AxisOrder(w, FollowingSibling, test, Tree(id))
  {
    out := [];
    FollowingSiblingEnds(w, test, id);
    NextLater(w.doc, id, id);
    ghost var x := w.doc.End(id);
    var s := w.doc.NextSibling(id);
    while s != NONE
      invariant AtLater(w.doc, id, x, s)
      invariant out == Part(w, FollowingSibling, test, Tree(id), 0, x)
      decreases |w.doc.parents| - x
    {
      FollowingSiblingStep(w, test, id, s);
      if TreeTest(w, test, s) { out := out + [Tree(s)]; }
      NextLater(w.doc, id, s);
      x := w.doc.End(s);
      s := w.doc.NextSibling(s);
    }
  }

  lemma {:induction false} PrecedingSiblingStep(w: World, test: NodeTest, id: nat, s: nat)
    requires w.Valid() && s < id < |w.doc.parents| && w.doc.parents[s] == w.doc.parents[id]
    ensures Reverse(Part(w, PrecedingSibling, test, Tree(id), s, |w.doc.parents|)) ==
      Reverse(Part(w, PrecedingSibling, test, Tree(id), w.doc.End(s), |w.doc.parents|)) + Own(w, test, s)
  {
    NextChild(w.doc, w.doc.parents[s], s);
    PartFirst(w, PrecedingSibling, test, Tree(id), s, |w.doc.parents|);
    PartSkip(w, PrecedingSibling, test, Tree(id), s + 1, w.doc.End(s), |w.doc.parents|);
    ReverseFirst(Own(w, test, s), Part(w, PrecedingSibling, test, Tree(id), w.doc.End(s), |w.doc.parents|));
  }

  method PrecedingSiblings(w: World, test: NodeTest, id: nat) returns (out: seq<Node>)
    requires w.Valid() && id < |w.doc.parents|
    ensures out == AxisOrder(w, PrecedingSibling, test, Tree(id))
  {
    out := [];
    WholeAxis(w, PrecedingSibling, test, Tree(id));
    PartNone(w, PrecedingSibling, test, Tree(id), id, |w.doc.parents|);
    ghost var x: nat := id;
    var s := w.doc.PrevSibling(id);
    while s != NONE
      invariant x <= id && w.doc.parents[x] == w.doc.parents[id] && s == w.doc.PrevSibling(x)
      invariant out == Reverse(Part(w, PrecedingSibling, test, Tree(id), x, |w.doc.parents|))
      decreases x
    {
      PrevSiblingIs(w.doc, x);
      PrecedingSiblingStep(w, test, id, s);
      if TreeTest(w, test, s) { out := out + [Tree(s)]; }
      x := s;
      s := w.doc.PrevSibling(s);
    }
    PrevSiblingIs(w.doc, x);
    AllWithin(w, PrecedingSibling, test, Tree(id), x, |w.doc.parents|);
  }

  // ----- attributes

  ghost function AttrPart(w: World, test: NodeTest, id: nat, hi: nat): seq<Node> {
    if hi == 0 then []
    else AttrPart(w, test, id, hi - 1) + (if AttrTest(w, test, id, hi - 1) then [Attr(id, hi - 1)] else [])
  }

  lemma {:induction false} AttrPartMembers(w: World, test: NodeTest, id: nat, hi: nat)
    ensures var l := AttrPart(w, test, id, hi);
      && Sorted(l)
      && forall n :: n in l <==> n.Attr? && n.owner == id && n.index < hi && AttrTest(w, test, id, n.index)
  {
    if hi > 0 {
      AttrPartMembers(w, test, id, hi - 1);
      var l := AttrPart(w, test, id, hi - 1);
      forall i | 0 <= i < |l| ensures Before(l[i], Attr(id, hi - 1)) {
        assert l[i] in l;
      }
    }
  }

  lemma {:induction false} AttributeAxis(w: World, test: NodeTest, id: nat)
    requires w.Valid() && id < |w.doc.parents|
    ensures AxisOrder(w, Attribute, test, Tree(id)) == AttrPart(w, test, id, w.doc.attrCounts[id])
  {
    var l := AttrPart(w, test, id, w.doc.attrCounts[id]);
    AttrPartMembers(w, test, id, w.doc.attrCounts[id]);
    assert Elems(l) == Candidates(w, Attribute, test, Tree(id));
    ListingOf(l);
  }

  method AttributeNodes(w: World, test: NodeTest, id: nat) returns (out: seq<Node>)
    requires w.Valid() && id < |w.doc.parents|
    ensures out == AxisOrder(w, Attribute, test, Tree(id))
  {
    out := [];
    AttributeAxis(w, test, id);
    assert w.doc.NodeOk(id);
    if w.doc.kinds[id] != ELEMENT { return; }
    for i := 0 to w.doc.attrCounts[id]
      invariant out == AttrPart(w, test, id, i)
    {
      if AttrTest(w, test, id, i) { out := out + [Attr(id, i)]; }
    }
  }

  // ----- the whole of `collect`

  method AncestorAxis(w: World, axis: Axis, test: NodeTest, id: nat) returns (out: seq<Node>)
    requires w.Valid() && id < |w.doc.parents| && (axis == Ancestor || axis == AncestorOrSelf)
    ensures out == AxisOrder(w, axis, test, Tree(id))
  {
    WholeAxis(w, axis, test, Tree(id));
    AncestorEnds(w, test, id);
    out := if axis == AncestorOrSelf && TreeTest(w, test, id) then [Tree(id)] else [];
    ReverseOne(Part(w, axis, test, Tree(id), 0, w.doc.parents[id] + 1), out);
    out := AncestorNodes(w, axis, test, Tree(id), w.doc.Parent(id), out);
  }

  method ParentNode(w: World, test: NodeTest, id: nat) returns (out: seq<Node>)
    requires w.Valid() && id < |w.doc.parents|
    ensures out == AxisOrder(w, ParentAxis, test, Tree(id))
  {
    WholeAxis(w, ParentAxis, test, Tree(id));
    var p := w.doc.Parent(id);
    if p == NONE {
      AllWithin(w, ParentAxis, test, Tree(id), 0, 0);
      out := [];
    } else {
      AllSingle(w, ParentAxis, test, Tree(id), p);
      out := if TreeTest(w, test, p) then [Tree(p)] else [];
    }
  }

  lemma {:induction false} SelfNode(w: World, test: NodeTest, id: nat)
    requires w.Valid() && id < |w.doc.parents|
    ensures AxisOrder(w, SelfAxis, test, Tree(id)) == Own(w, test, id)
  {
    WholeAxis(w, SelfAxis, test, Tree(id));
    AllSingle(w, SelfAxis, test, Tree(id), id);
  }

  lemma {:induction false} NoNamespaceNodes(w: World, test: NodeTest, id: nat)
    requires w.Valid() && id < |w.doc.parents|
    ensures AxisOrder(w, Namespace, test, Tree(id)) == []
  {
    WholeAxis(w, Namespace, test, Tree(id));
    AllWithin(w, Namespace, test, Tree(id), 0, 0);
  }

  lemma {:induction false} OutsideAxes(w: World, test: NodeTest, id: nat)
    requires w.Valid() && id < |w.doc.parents|
    ensures AxisOrder(w, Following, test, Tree(id)) == All(w, Following, test, Tree(id))
    ensures AxisOrder(w, Preceding, test, Tree(id)) == Reverse(All(w, Preceding, test, Tree(id)))
  {
    WholeAxis(w, Following, test, Tree(id));
    WholeAxis(w, Preceding, test, Tree(id));
  }

  /** Whatever the axis, the collected list is the node's candidates by proximity. */
  method Collect(w: World, axis: Axis, test: NodeTest, node: Node) returns (out: seq<Node>)
    requires w.Valid() && InDoc(w.doc, node)
    ensures out == AxisOrder(w, axis, test, node)
  {
    if !node.Tree? {
      out := CollectFromAttr(w, axis, test, node);
      return;
    }
    var id := node.id;
    match axis {
      case Child => out := ChildNodes(w, test, id);
      case Descendant => out := DescendantNodes(w, axis, test, id);
      case DescendantOrSelf => out := DescendantNodes(w, axis, test, id);
      case SelfAxis =>
        SelfNode(w, test, id);
        out := if TreeTest(w, test, id) then [node] else [];
      case ParentAxis => out := ParentNode(w, test, id);
      case Ancestor => out := AncestorAxis(w, axis, test, id);
      case AncestorOrSelf => out := AncestorAxis(w, axis, test, id);
      case FollowingSibling => out := FollowingSiblings(w, test, id);
      case PrecedingSibling => out := PrecedingSiblings(w, test, id);
      case Following =>
        OutsideAxes(w, test, id);
        out := FollowingNodes(w, id, test, []);
      case Preceding =>
        OutsideAxes(w, test, id);
        out := PrecedingNodes(w, id, test, []);
      case Attribute => out := AttributeNodes(w, test, id);
      case Namespace =>
        NoNamespaceNodes(w, test, id);
        out := [];
    }
  }

  // ----- from an attribute

  /** The tree nodes on an attribute's ancestor axes: its element and that element's ancestors. */
  lemma {:induction false} OwnerWalk(w: World, axis: Axis, test: NodeTest, m: Node)
    requires w.Valid() && InDoc(w.doc, m) && !m.Tree? && (axis == Ancestor || axis == AncestorOrSelf)
    ensures var start := if m.Attr? then m.owner as int else NONE;
      && (forall c: nat :: c <= start ==> (OnAxis(w.doc, axis, m, Tree(c)) <==> w.doc.Contains(c, start)))
      && All(w, axis, test, m) == Part(w, axis, test, m, 0, start + 1)
  {
    if m.Attr? {
      forall c: nat | c < |w.doc.parents| && w.doc.Contains(c, m.owner) ensures c <= m.owner {
        ContainsBound(w.doc, c, m.owner);
      }
      AllWithin(w, axis, test, m, 0, m.owner + 1);
    } else {
      AllWithin(w, axis, test, m, 0, 0);
    }
  }

  lemma {:induction false} CandidatesWithSelf(w: World, axis: Axis, test: NodeTest, m: Node)
    requires w.Valid() && InDoc(w.doc, m) && !m.Tree? && FindsItself(axis)
    ensures Elems(All(w, axis, test, m) + (if test == AnyNode then [m] else [])) == Candidates(w, axis, test, m)
  {
    var l := All(w, axis, test, m);
    var own := if test == AnyNode then [m] else [];
    PartMembers(w, axis, test, m, 0, |w.doc.parents|);
    forall n ensures n in l + own <==> n in Candidates(w, axis, test, m) {
      if !n.Tree? {
        assert n !in l;
        assert InDoc(w.doc, n) ==> (OnAxis(w.doc, axis, m, n) <==> n == m);
      } else {
        assert n !in own;
      }
    }
  }

  lemma {:induction false} TreePartFirst(w: World, axis: Axis, test: NodeTest, m: Node)
    requires w.Valid() && InDoc(w.doc, m) && !m.Tree? && FindsItself(axis)
    ensures forall n :: n in All(w, axis, test, m) ==> Before(n, m)
    ensures axis != AncestorOrSelf ==> All(w, axis, test, m) == []
  {
    PartMembers(w, axis, test, m, 0, |w.doc.parents|);
    forall n | n in All(w, axis, test, m) ensures Before(n, m) {
      assert OnAxis(w.doc, axis, m, n);
      if m.Attr? { ContainsBound(w.doc, n.id, m.owner); }
    }
    if axis != AncestorOrSelf { AllWithin(w, axis, test, m, 0, 0); }
  }

  lemma {:induction false} SortedThen(l: seq<Node>, one: seq<Node>)
    requires Sorted(l) && |one| <= 1 && forall n, m :: n in l && m in one ==> Before(n, m)
    ensures Sorted(l + one)
  {
    forall i | 0 <= i < |l| ensures |one| == 1 ==> Before(l[i], one[0]) {
      assert l[i] in l;
    }
  }

  /** On the axes where an attribute finds itself it comes first by proximity. */
  lemma {:induction false} SelfThenTree(w: World, axis: Axis, test: NodeTest, m: Node)
    requires w.Valid() && InDoc(w.doc, m) && !m.Tree? && FindsItself(axis)
    ensures var own := if test == AnyNode then [m] else [];
      AxisOrder(w, axis, test, m) == own + Reverse(All(w, axis, test, m))
    ensures axis != AncestorOrSelf ==> All(w, axis, test, m) == []
  {
    var own := if test == AnyNode then [m] else [];
    var l := All(w, axis, test, m);
    SelfLast(w, axis, test, m, l, own);
    ReverseOne(l, own);
    TreePartFirst(w, axis, test, m);
    if l == [] { assert Reverse(l) == [] && l + own == own; }
  }

  /** In document order it comes last. */
  lemma {:induction false} SelfLast(w: World, axis: Axis, test: NodeTest, m: Node, l: seq<Node>, own: seq<Node>)
    requires w.Valid() && InDoc(w.doc, m) && !m.Tree? && FindsItself(axis)
    requires l == All(w, axis, test, m) && own == if test == AnyNode then [m] else []
    ensures Listing(Candidates(w, axis, test, m)) == l + own
  {
    PartMembers(w, axis, test, m, 0, |w.doc.parents|);
    TreePartFirst(w, axis, test, m);
    SortedThen(l, own);
    CandidatesWithSelf(w, axis, test, m);
    ListingOf(l + own);
  }

  method AttrAncestors(w: World, axis: Axis, test: NodeTest, attr: Node) returns (out: seq<Node>)
    requires w.Valid() && InDoc(w.doc, attr) && !attr.Tree? && (axis == Ancestor || axis == AncestorOrSelf)
    ensures out == AxisOrder(w, axis, test, attr)
  {
    var oid: int := if attr.Attr? then attr.owner else NONE;
    OwnerWalk(w, axis, test, attr);
    if axis == AncestorOrSelf {
      SelfThenTree(w, axis, test, attr);
      out := if test == AnyNode then [attr] else [];
    } else {
      WholeAxis(w, axis, test, attr);
      out := [];
    }
    out := AncestorNodes(w, axis, test, attr, oid, out);
  }

  method AttrParent(w: World, test: NodeTest, attr: Node) returns (out: seq<Node>)
    requires w.Valid() && InDoc(w.doc, attr) && !attr.Tree?
    ensures out == AxisOrder(w, ParentAxis, test, attr)
  {
    WholeAxis(w, ParentAxis, test, attr);
    if attr.Attr? {
      AllSingle(w, ParentAxis, test, attr, attr.owner);
      out := if TreeTest(w, test, attr.owner) then [Tree(attr.owner)] else [];
    } else {
      AllWithin(w, ParentAxis, test, attr, 0, 0);
      out := [];
    }
  }

  lemma {:induction false} OutsideSame(w: World, axis: Axis, test: NodeTest, attr: Node, owner: Node)
    requires w.Valid() && InDoc(w.doc, attr) && attr.Attr? && owner == Tree(attr.owner) && InDoc(w.doc, owner)
    requires axis == Following || axis == Preceding
    ensures Part(w, axis, test, attr, 0, |w.doc.parents|) == Part(w, axis, test, owner, 0, |w.doc.parents|)
  {
    PartSame(w, test, axis, attr, axis, owner, 0, |w.doc.parents|);
  }

  lemma {:induction false} OutsideOwner(w: World, axis: Axis, test: NodeTest, attr: Node)
    requires w.Valid() && InDoc(w.doc, attr) && attr.Attr? && (axis == Following || axis == Preceding)
    ensures AxisOrder(w, axis, test, attr) == AxisOrder(w, axis, test, Tree(attr.owner))
  {
    OutsideSame(w, axis, test, attr, Tree(attr.owner));
    WholeAxis(w, axis, test, attr);
    WholeAxis(w, axis, test, Tree(attr.owner));
  }

  lemma {:induction false} OutsideNothing(w: World, axis: Axis, test: NodeTest, attr: Node)
    requires w.Valid() && InDoc(w.doc, attr) && attr.Orphan? && (axis == Following || axis == Preceding)
    ensures AxisOrder(w, axis, test, attr) == []
  {
    WholeAxis(w, axis, test, attr);
    PartNone(w, axis, test, attr, 0, |w.doc.parents|);
  }

  method AttrOutside(w: World, axis: Axis, test: NodeTest, attr: Node) returns (out: seq<Node>)
    requires w.Valid() && InDoc(w.doc, attr) && !attr.Tree? && (axis == Following || axis == Preceding)
    ensures out == AxisOrder(w, axis, test, attr)
  {
    out := [];
    if attr.Orphan? {
      OutsideNothing(w, axis, test, attr);
    } else {
      OutsideOwner(w, axis, test, attr);
      OutsideAxes(w, test, attr.owner);
      if axis == Following {
        out := FollowingNodes(w, attr.owner, test, out);
      } else {
        out := PrecedingNodes(w, attr.owner, test, out);
      }
    }
  }

  /** From an attribute: itself where it is a plain node, and its element's ancestors,
      following and preceding nodes. */
  method CollectFromAttr(w: World, axis: Axis, test: NodeTest, attr: Node) returns (out: seq<Node>)
    requires w.Valid() && InDoc(w.doc, attr) && !attr.Tree?
    ensures out == AxisOrder(w, axis, test, attr)
  {
    match axis {
      case SelfAxis =>
        SelfThenTree(w, axis, test, attr);
        out := if test == AnyNode then [attr] else [];
      case DescendantOrSelf =>
        SelfThenTree(w, axis, test, attr);
        out := if test == AnyNode then [attr] else [];
      case ParentAxis => out := AttrParent(w, test, attr);
      case Ancestor => out := AttrAncestors(w, axis, test, attr);
      case AncestorOrSelf => out := AttrAncestors(w, axis, test, attr);
      case Following => out := AttrOutside(w, axis, test, attr);
      case Preceding => out := AttrOutside(w, axis, test, attr);
      case _ =>
        NothingOnAxis(w, axis, test, attr);
        out := [];
    }
  }

  lemma {:induction false} NothingOnAxis(w: World, axis: Axis, test: NodeTest, attr: Node)
    requires w.Valid() && InDoc(w.doc, attr) && !attr.Tree?
    requires axis in {Child, Descendant, FollowingSibling, PrecedingSibling, Attribute, Namespace}
    ensures AxisOrder(w, axis, test, attr) == []
  {
    assert Candidates(w, axis, test, attr) == {};
    ListingOf([]);
    assert Elems([]) == {};
  }
}
