/**
 The tree an XPath expression is evaluated over. The native tree interface (parent, child,
 sibling and containment queries) is derived from one array of parent links, so that every
 fact about document order used by the evaluator is proved here and not assumed.
 */
module XPathTree {

  const ELEMENT := 1
  const TEXT := 3
  const CDATA := 4
  const INSTRUCTION := 7
  const COMMENT := 8
  const DOCUMENT := 9
  const FRAGMENT := 11

  /** "No node": the native interface answers 0, node identifiers here start at 0. */
  const NONE := -1

  predicate HasChildren(kind: int) {
    kind == ELEMENT || kind == DOCUMENT || kind == FRAGMENT
  }

  /** A finite ordered tree whose nodes are named by their rank in document order. */
  datatype Doc = Doc(parents: seq<int>, kinds: seq<int>, attrCounts: seq<nat>) {

    ghost predicate Rooted() {
      && |parents| > 0
      && |kinds| == |parents| == |attrCounts|
      && parents[0] == NONE
      && forall v :: 0 < v < |parents| ==> 0 <= parents[v] < v
    }

    /** `a` is `v` or one of its ancestors (Node.contains). */
    ghost predicate Contains(a: int, v: int)
      requires Rooted()
      requires 0 <= v < |parents|
      decreases v
    {
      a == v || (v > 0 && Contains(a, parents[v]))
    }

    /** The numbering follows document order exactly when each node is attached to the node
        before it or to one of that node's ancestors. Only elements, documents and fragments
        have children, the last two only as the root, and only elements have attributes. */
    ghost predicate NodeOk(v: int)
      requires Rooted() && 0 <= v < |parents|
    {
      && (v > 0 ==> Contains(parents[v], v - 1) && HasChildren(kinds[parents[v]]))
      && (v > 0 ==> kinds[v] != DOCUMENT && kinds[v] != FRAGMENT)
      && (attrCounts[v] > 0 ==> kinds[v] == ELEMENT)
    }

    ghost predicate Valid() {
      Rooted() && forall v {:trigger NodeOk(v)} :: 0 <= v < |parents| ==> NodeOk(v)
    }

    // ----- the native interface

    function Parent(v: int): int
      requires 0 <= v < |parents|
    {
      parents[v]
    }

    function ChildIds(v: int): seq<int>
      requires 0 <= v < |parents|
    {
      ChildrenFrom(v, v + 1)
    }

    function ChildrenFrom(v: int, c: int): seq<int>
      requires 0 <= v < c
      decreases |parents| - c
    {
      if c >= |parents| then []
      else if parents[c] == v then [c] + ChildrenFrom(v, c + 1)
      else ChildrenFrom(v, c + 1)
    }

    /** The first later node with the same parent. */
    function NextSibling(v: int): int
      requires 0 <= v < |parents|
    {
      SiblingFrom(parents[v], v + 1)
    }

    function SiblingFrom(p: int, c: int): int
      requires 0 <= c
      decreases |parents| - c
    {
      if p == NONE || c >= |parents| then NONE
      else if parents[c] == p then c
      else SiblingFrom(p, c + 1)
    }

    /** The last earlier node with the same parent. */
    function PrevSibling(v: int): int
      requires 0 <= v < |parents|
    {
      SiblingBelow(parents[v], v)
    }

    function SiblingBelow(p: int, c: int): int
      requires 0 <= c <= |parents|
    {
      if p == NONE || c == 0 then NONE
      else if parents[c - 1] == p then c - 1
      else SiblingBelow(p, c - 1)
    }

    // ----- subtrees are intervals

    ghost predicate EndsAt(v: int, e: int)
      requires Rooted() && 0 <= v < |parents|
    {
      && v < e <= |parents|
      && (forall w :: v <= w < e ==> Contains(v, w))
      && (e < |parents| ==> !Contains(v, e))
    }

    lemma {:induction false} FindEnd(v: int) returns (e: int)
      requires Rooted() && 0 <= v < |parents|
      ensures EndsAt(v, e)
    {
      e := v + 1;
      while e < |parents| && Contains(v, e)
        invariant v < e <= |parents|
        invariant forall w :: v <= w < e ==> Contains(v, w)
      {
        e := e + 1;
      }
    }

    /** The first node after the subtree of `v`. */
    ghost function End(v: int): (e: int)
      requires Rooted() && 0 <= v < |parents|
      ensures EndsAt(v, e)
    {
      assert exists e :: EndsAt(v, e) by { var _ := FindEnd(v); }
      var e :| EndsAt(v, e);
      e
    }
  }

  lemma {:induction false} ContainsBound(d: Doc, a: int, v: int)
    requires d.Rooted() && 0 <= v < |d.parents| && d.Contains(a, v)
    ensures 0 <= a <= v
    decreases v
  {
    if a != v { ContainsBound(d, a, d.parents[v]); }
  }

  lemma {:induction false} ContainsTrans(d: Doc, a: int, b: int, c: int)
    requires d.Rooted() && 0 <= b < |d.parents| && 0 <= c < |d.parents|
    requires d.Contains(a, b) && d.Contains(b, c)
    ensures d.Contains(a, c)
    decreases c
  {
    if b != c { ContainsTrans(d, a, b, d.parents[c]); }
  }

  /** Two nodes with a common descendant are nested. */
  lemma {:induction false} Nested(d: Doc, a: int, b: int, v: int)
    requires d.Rooted() && 0 <= v < |d.parents| && 0 <= a <= b
    requires d.Contains(a, v) && d.Contains(b, v)
    ensures b < |d.parents| && d.Contains(a, b)
    decreases v
  {
    ContainsBound(d, b, v);
    if b != v {
      ContainsBound(d, b, d.parents[v]);
      Nested(d, a, b, d.parents[v]);
    }
  }

  lemma {:induction false} RootContainsAll(d: Doc, v: int)
    requires d.Rooted() && 0 <= v < |d.parents|
    ensures d.Contains(0, v)
    decreases v
  {
    if v > 0 { RootContainsAll(d, d.parents[v]); }
  }

  /** The subtree of `v` is the interval from `v` to `End(v)`. */
  lemma {:induction false} SubtreeIsInterval(d: Doc, v: int, w: int)
    requires d.Valid() && 0 <= v < |d.parents| && 0 <= w < |d.parents|
    ensures d.Contains(v, w) <==> v <= w < d.End(v)
    decreases w
  {
    if d.Contains(v, w) {
      ContainsBound(d, v, w);
      if w >= d.End(v) && w > d.End(v) {
        var p := d.parents[w];
        assert d.NodeOk(w);
        ContainsTrans(d, v, p, w - 1);
        SubtreeIsInterval(d, v, w - 1);
      }
    }
  }

  lemma {:induction false} EndNested(d: Doc, a: int, b: int)
    requires d.Valid() && 0 <= a < |d.parents| && 0 <= b < |d.parents| && d.Contains(a, b)
    ensures d.End(b) <= d.End(a)
  {
    var e := d.End(b) - 1;
    ContainsTrans(d, a, b, e);
    SubtreeIsInterval(d, a, e);
  }

  lemma {:induction false} RootEnd(d: Doc)
    requires d.Valid()
    ensures d.End(0) == |d.parents|
  {
    if d.End(0) < |d.parents| { RootContainsAll(d, d.End(0)); }
  }

  /** A nonempty subtree goes on with a child, an empty one ends at once. */
  lemma {:induction false} FirstChild(d: Doc, v: int)
    requires d.Valid() && 0 <= v < |d.parents|
    ensures v + 1 < d.End(v) ==> d.parents[v + 1] == v
    ensures !HasChildren(d.kinds[v]) ==> d.End(v) == v + 1
    ensures v > 0 ==> d.kinds[v] != DOCUMENT && d.kinds[v] != FRAGMENT
  {
    assert d.NodeOk(v);
    if v + 1 < d.End(v) {
      assert d.NodeOk(v + 1);
      assert d.Contains(v, v + 1);
      ContainsBound(d, v, d.parents[v + 1]);
    }
  }

  /** What follows the subtree of a child inside its parent's subtree is the next child. */
  lemma {:induction false} NextChild(d: Doc, v: int, c: int)
    requires d.Valid() && 0 <= v < c < |d.parents| && d.parents[c] == v
    ensures d.End(c) <= d.End(v)
    ensures d.End(c) < d.End(v) ==> d.parents[d.End(c)] == v
    ensures forall x :: c < x < d.End(c) ==> d.parents[x] != v
  {
    assert d.Contains(v, v) && d.Contains(v, c);
    EndNested(d, v, c);
    var e := d.End(c);
    if e < d.End(v) {
      var p := d.parents[e];
      assert d.NodeOk(e);
      assert d.Contains(v, e) && d.Contains(v, p) && d.Contains(c, e - 1);
      ContainsBound(d, v, p);
      if c <= p {
        Nested(d, c, p, e - 1);
        assert false;
      } else {
        Nested(d, p, c, e - 1);
        ContainsBound(d, p, v);
      }
    }
    forall x | c < x < e ensures d.parents[x] != v {
      assert d.Contains(c, x) && d.Contains(c, d.parents[x]);
      ContainsBound(d, c, d.parents[x]);
    }
  }

  /** `x` is where a walk over the children of `v` stands: at a child or at the end. */
  ghost predicate AtChild(d: Doc, v: int, x: int)
    requires d.Rooted() && 0 <= v < |d.parents|
  {
    v < x <= d.End(v) && (x < d.End(v) ==> d.parents[x] == v)
  }

  lemma {:induction false} NoChildBetween(d: Doc, v: int, lo: int, hi: int)
    requires 0 <= v < lo <= hi <= |d.parents|
    requires forall x :: lo <= x < hi ==> d.parents[x] != v
    ensures d.ChildrenFrom(v, lo) == d.ChildrenFrom(v, hi)
    decreases hi - lo
  {
    if lo < hi { NoChildBetween(d, v, lo + 1, hi); }
  }

  /** The remaining children at such a point. */
  lemma {:induction false} ChildrenAt(d: Doc, v: int, x: int)
    requires d.Valid() && 0 <= v < |d.parents| && AtChild(d, v, x)
    ensures x == d.End(v) ==> d.ChildrenFrom(v, x) == []
    ensures x < d.End(v) ==> AtChild(d, v, d.End(x))
    ensures x < d.End(v) ==> d.ChildrenFrom(v, x) == [x] + d.ChildrenFrom(v, d.End(x))
  {
    if x < d.End(v) {
      NextChild(d, v, x);
      NoChildBetween(d, v, x + 1, d.End(x));
    } else {
      forall y | x <= y < |d.parents| ensures d.parents[y] != v {
        SubtreeIsInterval(d, v, y);
        assert d.Contains(v, v);
      }
      NoChildBetween(d, v, x, |d.parents|);
    }
  }

  /** The next sibling starts where the subtree ends, unless the parent's subtree ends there. */
  lemma {:induction false} NextSiblingIs(d: Doc, v: int)
    requires d.Valid() && 0 <= v < |d.parents|
    ensures v == 0 ==> d.NextSibling(v) == NONE && d.End(v) == |d.parents|
    ensures v > 0 ==>
      var p := d.parents[v];
      && AtChild(d, p, d.End(v))
      && d.NextSibling(v) == (if d.End(v) < d.End(p) then d.End(v) else NONE)
  {
    if v == 0 {
      RootEnd(d);
    } else {
      var p := d.parents[v];
      NextChild(d, p, v);
      var e := d.End(v);
      NoSiblingBetween(d, p, v + 1, e);
      if e == d.End(p) {
        forall y | e <= y < |d.parents| ensures d.parents[y] != p {
          SubtreeIsInterval(d, p, y);
          assert d.Contains(p, p);
        }
        NoSiblingBetween(d, p, e, |d.parents|);
      }
    }
  }

  lemma {:induction false} NoSiblingBetween(d: Doc, p: int, lo: int, hi: int)
    requires 0 <= lo <= hi <= |d.parents|
    requires forall x :: lo <= x < hi ==> d.parents[x] != p
    ensures d.SiblingFrom(p, lo) == d.SiblingFrom(p, hi)
    decreases hi - lo
  {
    if lo < hi { NoSiblingBetween(d, p, lo + 1, hi); }
  }

  /** The previous sibling's subtree ends where this node starts; a first child comes right
      after its parent. */
  lemma {:induction false} PrevSiblingIs(d: Doc, v: int)
    requires d.Valid() && 0 <= v < |d.parents|
    ensures var s := d.PrevSibling(v);
      && (s == NONE || 0 <= s < v)
      && (s != NONE ==> d.parents[s] == d.parents[v] && d.parents[v] >= 0 && d.End(s) == v)
      && (s == NONE && v > 0 ==> d.parents[v] == v - 1)
  {
    var p := d.parents[v];
    LastSiblingBelow(d, p, v);
    var s := d.PrevSibling(v);
    if s != NONE {
      NextChild(d, p, s);
      assert d.Contains(p, p) && d.Contains(p, v);
      SubtreeIsInterval(d, p, v);
      SubtreeIsInterval(d, s, v);
      if d.Contains(s, v) {
        ContainsBound(d, s, p);
        assert false;
      }
      assert d.End(s) <= v;
    } else if v > 0 {
      FirstChild(d, p);
      assert d.Contains(p, p) && d.Contains(p, v);
      SubtreeIsInterval(d, p, v);
    }
  }

  lemma {:induction false} LastSiblingBelow(d: Doc, p: int, c: int)
    requires 0 <= c <= |d.parents|
    ensures var s := d.SiblingBelow(p, c);
      && (s == NONE || (0 <= s < c && d.parents[s] == p && p != NONE))
      && (p != NONE ==> forall x :: (if s == NONE then 0 else s + 1) <= x < c ==> d.parents[x] != p)
    decreases c
  {
    if p != NONE && c > 0 && d.parents[c - 1] != p { LastSiblingBelow(d, p, c - 1); }
  }

  /** Section 2.2 of XPath 1.0: self, ancestors, descendants, following and preceding nodes
      do not overlap and together contain every node of the tree. */
  lemma {:induction false} AxesPartition(d: Doc, v: int, w: int)
    requires d.Valid() && 0 <= v < |d.parents| && 0 <= w < |d.parents|
    ensures
      var isSelf, isAncestor, isDescendant := w == v, w != v && d.Contains(w, v), w != v && d.Contains(v, w);
      var isFollowing, isPreceding := w >= d.End(v), d.End(w) <= v;
      && multiset{isSelf, isAncestor, isDescendant, isFollowing, isPreceding}[true] == 1
      && (isFollowing <==> w > v && !d.Contains(v, w))
      && (isPreceding <==> w < v && !d.Contains(w, v))
  {
    SubtreeIsInterval(d, v, w);
    SubtreeIsInterval(d, w, v);
  }
}
