/** Every ordered tree, numbered in document order, is one of the documents the evaluator is proved for. */
module XPathRose {
  import opened XPathTree

  datatype Tree = Node(kind: int, attrs: nat, children: Forest)

  datatype Forest = Empty | More(first: Tree, rest: Forest)

  /** What the DOM allows: children under elements, documents and fragments, the last two only as the root,
      attributes on elements only. */
  predicate Proper(t: Tree, root: bool) {
    && (!root ==> t.kind != DOCUMENT && t.kind != FRAGMENT)
    && (t.children != Empty ==> t.kind in {ELEMENT, DOCUMENT, FRAGMENT}) && (t.attrs > 0 ==> t.kind == ELEMENT)
    && ProperForest(t.children)
  }

  predicate ProperForest(f: Forest) {
    f == Empty || (Proper(f.first, false) && ProperForest(f.rest))
  }

  function Nodes(t: Tree): nat {
    1 + ForestNodes(t.children)
  }

  function ForestNodes(f: Forest): nat {
    if f == Empty then 0 else Nodes(f.first) + ForestNodes(f.rest)
  }

  /** The nodes in document order: parent, kind and number of attributes of each, when the first has number `at`. */
  function Numbered(t: Tree, parent: int, at: nat): (s: seq<(int, int, nat)>)
    ensures |s| == Nodes(t)
    decreases t
  {
    [(parent, t.kind, t.attrs)] + ForestNumbered(t.children, at, at + 1)
  }

  function ForestNumbered(f: Forest, parent: int, at: nat): (s: seq<(int, int, nat)>)
    ensures |s| == ForestNodes(f)
    decreases f
  {
    if f == Empty then [] else Numbered(f.first, parent, at) + ForestNumbered(f.rest, parent, at + Nodes(f.first))
  }

  function DocOf(t: Tree): Doc {
    var s := Numbered(t, NONE, 0);
    Doc(seq(|s|, i requires 0 <= i < |s| => s[i].0), seq(|s|, i requires 0 <= i < |s| => s[i].1),
      seq(|s|, i requires 0 <= i < |s| => s[i].2))
  }

  lemma {:induction false} ParentsBelow(t: Tree, parent: int, at: nat)
    requires NONE <= parent < at
    ensures forall i :: 0 <= i < Nodes(t) ==> NONE <= Numbered(t, parent, at)[i].0 < at + i
    ensures forall i :: 0 < i < Nodes(t) ==> at <= Numbered(t, parent, at)[i].0
    decreases t
  {
    ForestParentsBelow(t.children, at, at + 1);
  }

  lemma {:induction false} ForestParentsBelow(f: Forest, parent: int, at: nat)
    requires 0 <= parent < at
    ensures forall i :: 0 <= i < ForestNodes(f) ==> parent <= ForestNumbered(f, parent, at)[i].0 < at + i
    decreases f
  {
    if f != Empty {
      ParentsBelow(f.first, parent, at);
      ForestParentsBelow(f.rest, parent, at + Nodes(f.first));
    }
  }

  /** Where a part of the tree is in the document. */
  ghost predicate Holds(d: Doc, s: seq<(int, int, nat)>, at: nat)
    requires d.Rooted()
  {
    && at + |s| <= |d.parents|
    && forall i :: 0 <= i < |s| ==>
      d.parents[at + i] == s[i].0 && d.kinds[at + i] == s[i].1 && d.attrCounts[at + i] == s[i].2
  }

  ghost predicate AllOk(d: Doc, p: nat, from: nat, to: nat)
    requires d.Rooted()
  {
    && p < from <= to <= |d.parents|
    && forall v {:trigger d.NodeOk(v)} :: from <= v < to ==> d.NodeOk(v) && d.Contains(p, v)
  }

  lemma {:induction false} HoldsPart(d: Doc, s: seq<(int, int, nat)>, at: nat, part: seq<(int, int, nat)>, from: nat)
    requires d.Rooted() && Holds(d, s, at) && from + |part| <= |s| && part == s[from..from + |part|]
    ensures Holds(d, part, at + from)
  {
    forall i | 0 <= i < |part|
      ensures d.parents[at + from + i] == part[i].0 && d.kinds[at + from + i] == part[i].1
      ensures d.attrCounts[at + from + i] == part[i].2
    {
      assert part[i] == s[from + i] && d.parents[at + (from + i)] == s[from + i].0;
    }
  }

  lemma {:induction false} TreeOk(d: Doc, t: Tree, p: nat, at: nat)
    requires d.Rooted() && Proper(t, false) && p < at && Holds(d, Numbered(t, p, at), at) && d.Contains(p, at - 1)
    requires HasChildren(d.kinds[p])
    ensures AllOk(d, p, at, at + Nodes(t))
    decreases t
  {
    var s := Numbered(t, p, at);
    assert d.parents[at + 0] == s[0].0 == p && d.kinds[at + 0] == t.kind && d.attrCounts[at + 0] == t.attrs;
    assert d.NodeOk(at) && d.Contains(p, at);
    HoldsPart(d, s, at, ForestNumbered(t.children, at, at + 1), 1);
    ForestOk(d, t.children, at, at + 1);
    forall v | at < v < at + Nodes(t) ensures d.NodeOk(v) && d.Contains(p, v) {
      assert d.NodeOk(v) && d.Contains(at, v);
      ContainsTrans(d, p, at, v);
    }
  }

  lemma {:induction false} ForestOk(d: Doc, f: Forest, p: nat, at: nat)
    requires d.Rooted() && ProperForest(f) && p < at <= |d.parents| && Holds(d, ForestNumbered(f, p, at), at)
    requires d.Contains(p, at - 1)
    requires f != Empty ==> HasChildren(d.kinds[p])
    ensures AllOk(d, p, at, at + ForestNodes(f))
    decreases f
  {
    if f != Empty {
      var s, a := ForestNumbered(f, p, at), Numbered(f.first, p, at);
      var n := Nodes(f.first);
      HoldsPart(d, s, at, a, 0);
      TreeOk(d, f.first, p, at);
      assert d.NodeOk(at + n - 1) && d.Contains(p, at + n - 1);
      HoldsPart(d, s, at, ForestNumbered(f.rest, p, at + n), n);
      ForestOk(d, f.rest, p, at + n);
    }
  }

  /** Whatever tree the DOM holds, its numbering in document order is a document the evaluator accepts. */
  lemma {:induction false} EveryTreeIsADocument(t: Tree)
    requires Proper(t, true)
    ensures DocOf(t).Valid() && |DocOf(t).parents| == Nodes(t)
  {
    var d, s := DocOf(t), Numbered(t, NONE, 0);
    ParentsBelowRoot(t);
    assert d.Rooted();
    HoldsPart(d, s, 0, ForestNumbered(t.children, 0, 1), 1);
    ForestOk(d, t.children, 0, 1);
    assert d.NodeOk(0);
  }

  lemma {:induction false} ParentsBelowRoot(t: Tree)
    ensures Numbered(t, NONE, 0)[0].0 == NONE
    ensures forall i :: 0 < i < Nodes(t) ==> 0 <= Numbered(t, NONE, 0)[i].0 < i
  {
    ForestParentsBelow(t.children, 0, 1);
  }
}
