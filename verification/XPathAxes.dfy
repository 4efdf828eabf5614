/** The walks that collect a node's axis, proved to list exactly its candidates by proximity. */
module XPathAxes {
  import opened XPathTree
  import opened XPathOrder
  import opened XPathSemantics

  // ----- parts of an axis, by document-order rank

  /** The candidates among the tree nodes from `lo` up to `hi`, in document order. */
  ghost function Part(w: World, axis: Axis, test: NodeTest, m: Node, lo: int, hi: int): seq<Node>
    requires w.Valid() && InDoc(w.doc, m) && 0 <= lo <= hi <= |w.doc.parents|
    decreases hi - lo
  {
    if lo == hi then []
    else
      (if OnAxis(w.doc, axis, m, Tree(lo)) && TreeTest(w, test, lo) then [Tree(lo)] else [])
      + Part(w, axis, test, m, lo + 1, hi)
  }

  lemma {:induction false} PartSplit(w: World, axis: Axis, test: NodeTest, m: Node, lo: int, mid: int, hi: int)
    requires w.Valid() && InDoc(w.doc, m) && 0 <= lo <= mid <= hi <= |w.doc.parents|
    ensures Part(w, axis, test, m, lo, hi) == Part(w, axis, test, m, lo, mid) + Part(w, axis, test, m, mid, hi)
    decreases mid - lo
  {
    if lo < mid { PartSplit(w, axis, test, m, lo + 1, mid, hi); }
  }

  lemma {:induction false} PartNone(w: World, axis: Axis, test: NodeTest, m: Node, lo: int, hi: int)
    requires w.Valid() && InDoc(w.doc, m) && 0 <= lo <= hi <= |w.doc.parents|
    requires forall c: nat :: lo <= c < hi ==> !OnAxis(w.doc, axis, m, Tree(c))
    ensures Part(w, axis, test, m, lo, hi) == []
    decreases hi - lo
  {
    if lo < hi { PartNone(w, axis, test, m, lo + 1, hi); }
  }

  function Own(w: World, test: NodeTest, c: nat): seq<Node>
    requires c < |w.doc.kinds|
  {
    if TreeTest(w, test, c) then [Tree(c)] else []
  }

  lemma {:induction false} PartFirst(w: World, axis: Axis, test: NodeTest, m: Node, lo: int, hi: int)
    requires w.Valid() && InDoc(w.doc, m) && 0 <= lo < hi <= |w.doc.parents| && OnAxis(w.doc, axis, m, Tree(lo))
    ensures Part(w, axis, test, m, lo, hi) == Own(w, test, lo) + Part(w, axis, test, m, lo + 1, hi)
  {
  }

  lemma {:induction false} PartLast(w: World, axis: Axis, test: NodeTest, m: Node, lo: int, x: int)
    requires w.Valid() && InDoc(w.doc, m) && 0 <= lo <= x < |w.doc.parents| && OnAxis(w.doc, axis, m, Tree(x))
    ensures Part(w, axis, test, m, lo, x + 1) == Part(w, axis, test, m, lo, x) + Own(w, test, x)
  {
    PartSplit(w, axis, test, m, lo, x, x + 1);
    assert Part(w, axis, test, m, x + 1, x + 1) == [];
  }

  /** Nothing on the axis at the start of an interval, or at its end. */
  lemma {:induction false} PartSkip(w: World, axis: Axis, test: NodeTest, m: Node, lo: int, mid: int, hi: int)
    requires w.Valid() && InDoc(w.doc, m) && 0 <= lo <= mid <= hi <= |w.doc.parents|
    requires forall c: nat :: lo <= c < mid ==> !OnAxis(w.doc, axis, m, Tree(c))
    ensures Part(w, axis, test, m, lo, hi) == Part(w, axis, test, m, mid, hi)
  {
    PartSplit(w, axis, test, m, lo, mid, hi);
    PartNone(w, axis, test, m, lo, mid);
  }

  lemma {:induction false} PartStop(w: World, axis: Axis, test: NodeTest, m: Node, lo: int, mid: int, hi: int)
    requires w.Valid() && InDoc(w.doc, m) && 0 <= lo <= mid <= hi <= |w.doc.parents|
    requires forall c: nat :: mid <= c < hi ==> !OnAxis(w.doc, axis, m, Tree(c))
    ensures Part(w, axis, test, m, lo, hi) == Part(w, axis, test, m, lo, mid)
  {
    PartSplit(w, axis, test, m, lo, mid, hi);
    PartNone(w, axis, test, m, mid, hi);
  }

  /** Two axes that agree on an interval have the same part there. */
  lemma {:induction false} PartSame(w: World, test: NodeTest, axis: Axis, m: Node, axis': Axis, m': Node, lo: int,
      hi: int)
    requires w.Valid() && InDoc(w.doc, m) && InDoc(w.doc, m') && 0 <= lo <= hi <= |w.doc.parents|
    requires forall c: nat :: lo <= c < hi ==> (OnAxis(w.doc, axis, m, Tree(c)) <==> OnAxis(w.doc, axis', m', Tree(c)))
    ensures Part(w, axis, test, m, lo, hi) == Part(w, axis', test, m', lo, hi)
    decreases hi - lo
  {
    if lo < hi { PartSame(w, test, axis, m, axis', m', lo + 1, hi); }
  }

  lemma {:induction false} TreeCandidate(w: World, axis: Axis, test: NodeTest, m: Node, c: nat)
    requires w.Valid() && InDoc(w.doc, m) && c < |w.doc.parents|
    ensures Tree(c) in Candidates(w, axis, test, m) <==> OnAxis(w.doc, axis, m, Tree(c)) && TreeTest(w, test, c)
  {
  }

  lemma {:induction false} PartMembers(w: World, axis: Axis, test: NodeTest, m: Node, lo: int, hi: int)
    requires w.Valid() && InDoc(w.doc, m) && 0 <= lo <= hi <= |w.doc.parents|
    ensures var l := Part(w, axis, test, m, lo, hi);
      && Sorted(l)
      && (forall n :: n in l <==> n in Candidates(w, axis, test, m) && n.Tree? && lo <= n.id < hi)
    decreases hi - lo
  {
    if lo < hi {
      PartMembers(w, axis, test, m, lo + 1, hi);
      var rest := Part(w, axis, test, m, lo + 1, hi);
      forall i | 0 <= i < |rest| ensures Before(Tree(lo), rest[i]) {
        assert rest[i] in rest;
      }
      TreeCandidate(w, axis, test, m, lo);
    }
  }

  predicate FindsItself(axis: Axis) {
    axis == SelfAxis || axis == DescendantOrSelf || axis == AncestorOrSelf
  }

  /** The whole axis of a node, when only tree nodes are on it. */
  lemma {:induction false} WholeAxis(w: World, axis: Axis, test: NodeTest, m: Node)
    requires w.Valid() && InDoc(w.doc, m) && axis != Attribute && (m.Tree? || !FindsItself(axis))
    ensures AxisOrder(w, axis, test, m) ==
      var l := Part(w, axis, test, m, 0, |w.doc.parents|); if IsReverse(axis) then Reverse(l) else l
  {
    var l := Part(w, axis, test, m, 0, |w.doc.parents|);
    PartMembers(w, axis, test, m, 0, |w.doc.parents|);
    forall n ensures n in l <==> n in Candidates(w, axis, test, m) {
      if n in Candidates(w, axis, test, m) { assert OnAxis(w.doc, axis, m, n); }
    }
    assert Elems(l) == Candidates(w, axis, test, m);
    ListingOf(l);
  }

  // ----- the walks

  /** One level of the stack in `Descend`: the children of a node and how many of them are
      done. The proof also knows the node, `v`, and where its next child starts, `next`. */
  datatype Level = Level(kids: seq<int>, at: nat, ghost v: int, ghost next: int)

  ghost predicate LevelOk(d: Doc, id: int, l: Level)
    requires d.Valid() && 0 <= id < |d.parents|
  {
    && id <= l.v < |d.parents|
    && AtChild(d, l.v, l.next)
    && d.End(l.v) <= d.End(id)
    && l.at <= |l.kids|
    && l.kids[l.at..] == d.ChildrenFrom(l.v, l.next)
  }

  /** The walk when everything before `x` has been visited: the top level stands at `x`,
      and below it each level stands where the one above it ends. */
  ghost predicate Walk(d: Doc, id: int, levels: seq<Level>, x: int)
    requires d.Valid() && 0 <= id < |d.parents|
    decreases |levels|
  {
    if levels == [] then x == d.End(id)
    else
      var l := levels[|levels| - 1];
      LevelOk(d, id, l) && l.next == x && Walk(d, id, levels[..|levels| - 1], d.End(l.v))
  }

  lemma {:induction false} WalkPop(d: Doc, id: int, levels: seq<Level>, x: int)
    requires d.Valid() && 0 <= id < |d.parents| && Walk(d, id, levels, x) && levels != []
    requires levels[|levels| - 1].at == |levels[|levels| - 1].kids|
    ensures Walk(d, id, levels[..|levels| - 1], x)
  {
    var l := levels[|levels| - 1];
    ChildrenAt(d, l.v, x);
  }

  lemma {:induction false} LevelVisit(d: Doc, id: int, l: Level)
    requires d.Valid() && 0 <= id < |d.parents| && LevelOk(d, id, l) && l.at < |l.kids|
    ensures l.kids[l.at] == l.next < d.End(id)
    ensures LevelOk(d, id, l.(at := l.at + 1, next := d.End(l.next)))
    ensures d.ChildIds(l.next) == [] || d.kinds[l.next] != ELEMENT ==> d.End(l.next) == l.next + 1
    ensures d.ChildIds(l.next) != [] ==> LevelOk(d, id, Level(d.ChildIds(l.next), 0, l.next, l.next + 1))
  {
    var v, x := l.v, l.next;
    ChildrenAt(d, v, x);
    NextChild(d, v, x);
    assert l.kids[l.at] == l.kids[l.at..][0];
    assert l.kids[l.at + 1..] == l.kids[l.at..][1..];
    FirstChild(d, x);
    ChildrenAt(d, x, x + 1);
  }

  /** Visiting the node at the top: the level moves on, and a level for the node's own
      children is put above it unless there are none. */
  lemma {:induction false} WalkVisit(d: Doc, id: int, levels: seq<Level>, x: int, moved: seq<Level>)
    requires d.Valid() && 0 <= id < |d.parents| && Walk(d, id, levels, x) && levels != []
    requires var l := levels[|levels| - 1];
      l.at < |l.kids| && moved == levels[..|levels| - 1] + [l.(at := l.at + 1, next := d.End(x))]
    ensures var l := levels[|levels| - 1];
      && l.kids[l.at] == x < d.End(id)
      && (d.ChildIds(x) == [] || d.kinds[x] != ELEMENT ==> Walk(d, id, moved, x + 1))
      && (d.ChildIds(x) != [] ==> Walk(d, id, moved + [Level(d.ChildIds(x), 0, x, x + 1)], x + 1))
  {
    var top := |levels| - 1;
    LevelVisit(d, id, levels[top]);
    assert moved[..top] == levels[..top];
    assert Walk(d, id, moved, d.End(x));
    if d.ChildIds(x) != [] {
      var pushed := moved + [Level(d.ChildIds(x), 0, x, x + 1)];
      assert pushed[..top + 1] == moved;
    }
  }

  /** Visit the node at the top of the stack. */
  method VisitNext(w: World, id: nat, test: NodeTest, stack: seq<Level>, ghost x: int, ghost before: seq<Node>,
      done: seq<Node>)
    returns (moved: seq<Level>, out: seq<Node>)
    requires w.Valid() && id < |w.doc.parents| && id < x && Walk(w.doc, id, stack, x) && stack != []
    requires stack[|stack| - 1].at < |stack[|stack| - 1].kids|
    requires x <= w.doc.End(id) && done == before + Part(w, Descendant, test, Tree(id), id + 1, x)
    ensures x < w.doc.End(id) && Walk(w.doc, id, moved, x + 1)
    ensures out == before + Part(w, Descendant, test, Tree(id), id + 1, x + 1)
  {
    var top := |stack| - 1;
    var l := stack[top];
    var c := l.kids[l.at];
    out := done;
    moved := stack[..top] + [l.(at := l.at + 1, next := w.doc.End(x))];
    WalkVisit(w.doc, id, stack, x, moved);
    var k := w.doc.kinds[c];
    PartLast(w, Descendant, test, Tree(id), id + 1, x);
    if TreeTest(w, test, c) { out := out + [Tree(c)]; }
    if k == ELEMENT {
      var sub := w.doc.ChildIds(c);
      if |sub| != 0 { moved := moved + [Level(sub, 0, c, c + 1)]; }
    }
  }

  lemma {:induction false} WalkStart(d: Doc, id: nat)
    requires d.Valid() && id < |d.parents|
    ensures Walk(d, id, [Level(d.ChildIds(id), 0, id, id + 1)], id + 1)
  {
    FirstChild(d, id);
    var start := [Level(d.ChildIds(id), 0, id, id + 1)];
    assert start[..0] == [];
  }

  /** Append the descendants of `id` that pass the test, in document order. */
  method Descend(w: World, id: nat, test: NodeTest, before: seq<Node>) returns (out: seq<Node>)
    requires w.Valid() && id < |w.doc.parents|
    ensures out == before + Part(w, Descendant, test, Tree(id), id + 1, w.doc.End(id))
  {
    out := before;
    var stack := [Level(w.doc.ChildIds(id), 0, id, id + 1)];
    ghost var x := id + 1;
    WalkStart(w.doc, id);
    while |stack| != 0
      invariant id < x <= w.doc.End(id) && Walk(w.doc, id, stack, x)
      invariant out == before + Part(w, Descendant, test, Tree(id), id + 1, x)
      decreases w.doc.End(id) - x, |stack|
    {
      var top := |stack| - 1;
      if stack[top].at >= |stack[top].kids| {
        WalkPop(w.doc, id, stack, x);
        stack := stack[..top];
      } else {
        stack, out := VisitNext(w, id, test, stack, x, before, out);
        x := x + 1;
      }
    }
  }

  /** What a subtree contributes: its root, then the root's descendants. */
  ghost function Whole(w: World, test: NodeTest, s: nat): seq<Node>
    requires w.Valid() && s < |w.doc.parents|
  {
    Own(w, test, s) + Part(w, Descendant, test, Tree(s), s + 1, w.doc.End(s))
  }

  lemma {:induction false} SubtreeOnAxis(w: World, axis: Axis, test: NodeTest, m: Node, s: nat)
    requires w.Valid() && InDoc(w.doc, m) && s < |w.doc.parents|
    requires forall c: nat :: s <= c < w.doc.End(s) ==> OnAxis(w.doc, axis, m, Tree(c))
    ensures Part(w, axis, test, m, s, w.doc.End(s)) == Whole(w, test, s)
  {
    PartFirst(w, axis, test, m, s, w.doc.End(s));
    forall c: nat | s + 1 <= c < w.doc.End(s) ensures OnAxis(w.doc, Descendant, Tree(s), Tree(c)) {
      assert w.doc.Contains(s, c);
    }
    PartSame(w, test, axis, m, Descendant, Tree(s), s + 1, w.doc.End(s));
  }

  /** Append a subtree, root included. */
  method Subtree(w: World, s: nat, test: NodeTest, before: seq<Node>) returns (out: seq<Node>)
    requires w.Valid() && 0 < s < |w.doc.parents|
    ensures out == before + Whole(w, test, s)
  {
    var k := w.doc.kinds[s];
    out := before;
    if TreeTest(w, test, s) { out := out + [Tree(s)]; }
    FirstChild(w.doc, s);
    if k == ELEMENT {
      out := Descend(w, s, test, out);
    }
  }

  lemma {:induction false} FollowingStart(w: World, id: nat, test: NodeTest)
    requires w.Valid() && id < |w.doc.parents|
    ensures Part(w, Following, test, Tree(id), 0, w.doc.End(id)) == []
  {
    forall c: nat | c < w.doc.End(id) ensures !OnAxis(w.doc, Following, Tree(id), Tree(c)) {
      AxesPartition(w.doc, id, c);
    }
    PartNone(w, Following, test, Tree(id), 0, w.doc.End(id));
  }

  lemma {:induction false} FollowingStep(w: World, id: nat, test: NodeTest, s: nat)
    requires w.Valid() && id < |w.doc.parents| && w.doc.End(id) <= s < |w.doc.parents|
    ensures Part(w, Following, test, Tree(id), 0, w.doc.End(s)) ==
      Part(w, Following, test, Tree(id), 0, s) + Whole(w, test, s)
  {
    forall c: nat | s <= c < w.doc.End(s) ensures OnAxis(w.doc, Following, Tree(id), Tree(c)) {
      AxesPartition(w.doc, id, c);
    }
    SubtreeOnAxis(w, Following, test, Tree(id), s);
    PartSplit(w, Following, test, Tree(id), 0, s, w.doc.End(s));
  }

  /** Where a walk over the later siblings of `a` stands: `s` starts at `x`, or the walk is over. */
  ghost predicate AtLater(d: Doc, a: nat, x: int, s: int)
    requires d.Valid() && a < |d.parents|
  {
    && a < x <= |d.parents|
    && (a == 0 ==> s == NONE && x == |d.parents|)
    && (a > 0 ==> AtChild(d, d.parents[a], x) && s == if x < d.End(d.parents[a]) then x else NONE)
  }

  lemma {:induction false} NextLater(d: Doc, a: nat, s: nat)
    requires d.Valid() && a <= s < |d.parents| && d.parents[s] == d.parents[a]
    ensures AtLater(d, a, d.End(s), d.NextSibling(s))
  {
    NextSiblingIs(d, s);
  }

  /** Append the later siblings of `a`, an ancestor of `id` or `id` itself, with their subtrees. */
  method SiblingsAfter(w: World, id: nat, test: NodeTest, a: nat, ghost before: seq<Node>, done: seq<Node>)
    returns (out: seq<Node>)
    requires w.Valid() && id < |w.doc.parents| && a < |w.doc.parents| && w.doc.End(id) <= w.doc.End(a)
    requires done == before + Part(w, Following, test, Tree(id), 0, w.doc.End(a))
    ensures out ==
      before + Part(w, Following, test, Tree(id), 0, if a == 0 then |w.doc.parents| else w.doc.End(w.doc.parents[a]))
  {
    out := done;
    ghost var x := w.doc.End(a);
    NextLater(w.doc, a, a);
    var s := w.doc.NextSibling(a);
    while s != NONE
      invariant w.doc.End(id) <= x && AtLater(w.doc, a, x, s)
      invariant out == before + Part(w, Following, test, Tree(id), 0, x)
      decreases |w.doc.parents| - x
    {
      FollowingStep(w, id, test, s);
      out := Subtree(w, s, test, out);
      NextLater(w.doc, a, s);
      x := w.doc.End(s);
      s := w.doc.NextSibling(s);
    }
  }

  /** The subtree of the parent ends no earlier. */
  lemma {:induction false} EndGrows(d: Doc, a: nat)
    requires d.Valid() && 0 < a < |d.parents|
    ensures d.End(a) <= d.End(d.parents[a])
  {
    NextChild(d, d.parents[a], a);
  }

  /** Append the nodes after `id` that are not its descendants. */
  method FollowingNodes(w: World, id: nat, test: NodeTest, before: seq<Node>) returns (out: seq<Node>)
    requires w.Valid() && id < |w.doc.parents|
    ensures out == before + Part(w, Following, test, Tree(id), 0, |w.doc.parents|)
  {
    out := before;
    FollowingStart(w, id, test);
    var a: int := id;
    while a != NONE
      invariant NONE <= a <= id && (a != NONE ==> w.doc.End(id) <= w.doc.End(a))
      invariant out ==
        before + Part(w, Following, test, Tree(id), 0, if a == NONE then |w.doc.parents| else w.doc.End(a))
      decreases a
    {
      out := SiblingsAfter(w, id, test, a, before, out);
      if a > 0 { EndGrows(w.doc, a); }
      a := w.doc.Parent(a);
    }
  }

  lemma {:induction false} PrecedingStart(w: World, id: nat, test: NodeTest)
    requires w.Valid() && id < |w.doc.parents|
    ensures Part(w, Preceding, test, Tree(id), id, |w.doc.parents|) == []
  {
    PartNone(w, Preceding, test, Tree(id), id, |w.doc.parents|);
  }

  lemma {:induction false} PrecedingStep(w: World, id: nat, test: NodeTest, s: nat, before: seq<Node>)
    requires w.Valid() && id < |w.doc.parents| && s < |w.doc.parents| && w.doc.End(s) <= id
    ensures before + Reverse(Part(w, Preceding, test, Tree(id), s, |w.doc.parents|)) ==
      before + Reverse(Part(w, Preceding, test, Tree(id), w.doc.End(s), |w.doc.parents|)) + Reverse(Whole(w, test, s))
  {
    var x := w.doc.End(s);
    forall c: nat | s <= c < x ensures OnAxis(w.doc, Preceding, Tree(id), Tree(c)) {
      EndNested(w.doc, s, c);
      AxesPartition(w.doc, id, c);
    }
    SubtreeOnAxis(w, Preceding, test, Tree(id), s);
    PartSplit(w, Preceding, test, Tree(id), s, x, |w.doc.parents|);
    ReverseConcat(Whole(w, test, s), Part(w, Preceding, test, Tree(id), x, |w.doc.parents|));
  }

  lemma {:induction false} PrecedingSkip(w: World, id: nat, test: NodeTest, p: nat)
    requires w.Valid() && id < |w.doc.parents| && p < id && w.doc.Contains(p, id)
    ensures Part(w, Preceding, test, Tree(id), p, |w.doc.parents|) ==
      Part(w, Preceding, test, Tree(id), p + 1, |w.doc.parents|)
  {
    PartSkip(w, Preceding, test, Tree(id), p, p + 1, |w.doc.parents|);
  }

  /** Where the siblings before `a` begin: right after the parent. */
  ghost function SiblingsFrom(d: Doc, a: nat): (x: nat)
    requires d.Valid() && a < |d.parents|
    ensures x <= a
  {
    if a == 0 then 0 else d.parents[a] + 1
  }

  /** The inner loop of `PrecedingNodes`: the subtrees of the siblings before `a`, last first. */
  method SiblingsBefore(w: World, id: nat, test: NodeTest, a: nat, ghost before: seq<Node>, done: seq<Node>)
    returns (out: seq<Node>)
    requires w.Valid() && a <= id < |w.doc.parents|
    requires done == before + Reverse(Part(w, Preceding, test, Tree(id), a, |w.doc.parents|))
    ensures out == before + Reverse(Part(w, Preceding, test, Tree(id), SiblingsFrom(w.doc, a), |w.doc.parents|))
  {
    out := done;
    ghost var x: nat := a;
    var s := w.doc.PrevSibling(a);
    while s != NONE
      invariant x <= a && w.doc.parents[x] == w.doc.parents[a] && s == w.doc.PrevSibling(x)
      invariant out == before + Reverse(Part(w, Preceding, test, Tree(id), x, |w.doc.parents|))
      decreases x
    {
      PrevSiblingIs(w.doc, x);
      PrecedingStep(w, id, test, s, before);
      var sub := Subtree(w, s, test, []);
      assert sub == Whole(w, test, s);
      out := out + Reverse(sub);
      x := s;
      s := w.doc.PrevSibling(s);
    }
    PrevSiblingIs(w.doc, x);
  }

  /** The whole `preceding` axis of `id`, appended backwards. */
  method PrecedingNodes(w: World, id: nat, test: NodeTest, before: seq<Node>) returns (out: seq<Node>)
    requires w.Valid() && id < |w.doc.parents|
    ensures out == before + Reverse(Part(w, Preceding, test, Tree(id), 0, |w.doc.parents|))
  {
    out := before;
    PrecedingStart(w, id, test);
    ghost var x: nat := id;
    var a: int := id;
    while a != NONE
      invariant NONE <= a <= id && x == if a == NONE then 0 else a
      invariant a != NONE ==> w.doc.Contains(a, id)
      invariant out == before + Reverse(Part(w, Preceding, test, Tree(id), x, |w.doc.parents|))
      decreases a
    {
      out := SiblingsBefore(w, id, test, a, before, out);
      x := SiblingsFrom(w.doc, a);
      if a > 0 {
        ContainsTrans(w.doc, w.doc.parents[a], a, id);
        PrecedingSkip(w, id, test, w.doc.parents[a]);
        x := w.doc.parents[a];
      }
      a := w.doc.Parent(a);
    }
  }
}
