/** Nodes of the XPath data model, document order, and the node lists evaluation works with. */
module XPathOrder {
  import opened XPathTree

  /** Tree nodes are native ids. An attribute is named by its element and its place among the
      element's attributes. `Orphan` is an Attr object without an element: a tree of its own. */
  datatype Node = Tree(id: nat) | Attr(owner: nat, index: nat) | Orphan

  ghost predicate InDoc(d: Doc, n: Node) {
    match n
    case Tree(id) => id < |d.parents|
    case Attr(owner, index) => owner < |d.parents| && |d.attrCounts| == |d.parents| && index < d.attrCounts[owner]
    case Orphan => true
  }

  ghost predicate AllInDoc(d: Doc, l: seq<Node>) {
    forall n :: n in l ==> InDoc(d, n)
  }

  function OwnerRank(n: Node): int {
    match n case Tree(id) => id case Attr(owner, _) => owner case Orphan => -1
  }

  function AttrRank(n: Node): int {
    match n case Tree(_) => 0 case Attr(_, index) => 1 + index case Orphan => 0
  }

  /** Document order: an element comes before its attributes, they come before its children. */
  predicate Before(a: Node, b: Node) {
    OwnerRank(a) < OwnerRank(b) || (OwnerRank(a) == OwnerRank(b) && AttrRank(a) < AttrRank(b))
  }

  /** In document order, without duplicates. */
  ghost predicate Sorted(l: seq<Node>) {
    forall i, j :: 0 <= i < j < |l| ==> Before(l[i], l[j])
  }

  ghost predicate SortedDown(l: seq<Node>) {
    forall i, j :: 0 <= i < j < |l| ==> Before(l[j], l[i])
  }

  ghost function Elems(l: seq<Node>): set<Node> {
    set n | n in l
  }

  lemma {:induction false} HasFirst(s: set<Node>) returns (m: Node)
    requires s != {}
    ensures m in s && forall x :: x in s && x != m ==> Before(m, x)
    decreases s
  {
    m :| m in s;
    if s != {m} {
      var m0 := m;
      var k := HasFirst(s - {m0});
      if Before(k, m) { m := k; }
      forall x | x in s && x != m ensures Before(m, x) {
        assert x == m0 || x in s - {m0};
      }
    }
  }

  /** A node-set as the list of its members in document order. */
  ghost function Listing(s: set<Node>): (l: seq<Node>)
    ensures Sorted(l) && Elems(l) == s
    decreases s
  {
    if s == {} then []
    else
      assert exists m :: m in s && forall x :: x in s && x != m ==> Before(m, x) by { var _ := HasFirst(s); }
      var m :| m in s && forall x :: x in s && x != m ==> Before(m, x);
      var rest := Listing(s - {m});
      assert forall x :: x in rest ==> x in Elems(rest);
      assert Elems([m] + rest) == {m} + Elems(rest);
      [m] + rest
  }

  /** There is only one ordered list of a given set. */
  lemma {:induction false} SortedIsUnique(a: seq<Node>, b: seq<Node>)
    requires Sorted(a) && Sorted(b) && Elems(a) == Elems(b)
    ensures a == b
    decreases |a|
  {
    HeadIn(a);
    HeadIn(b);
    if a != [] {
      assert a[0] == b[0];
      assert Elems(a[1..]) == Elems(a) - {a[0]} by { TailElems(a); }
      assert Elems(b[1..]) == Elems(b) - {b[0]} by { TailElems(b); }
      SortedIsUnique(a[1..], b[1..]);
      assert a == [a[0]] + a[1..] && b == [b[0]] + b[1..];
    }
  }

  lemma {:induction false} HeadIn(a: seq<Node>)
    ensures a == [] <==> Elems(a) == {}
    ensures a != [] ==> a[0] in Elems(a)
  {
    assert a != [] ==> a[0] in Elems(a);
  }

  lemma {:induction false} TailElems(a: seq<Node>)
    requires Sorted(a) && a != []
    ensures Elems(a[1..]) == Elems(a) - {a[0]}
  {
    forall x | x in a && x != a[0] ensures x in a[1..] {
      var i :| 0 <= i < |a| && a[i] == x;
      assert a[1..][i - 1] == x;
    }
    forall x | x in a[1..] ensures x != a[0] {
      var i :| 0 <= i < |a[1..]| && a[1..][i] == x;
      assert a[i + 1] == x;
    }
  }

  lemma {:induction false} ListingOf(l: seq<Node>)
    requires Sorted(l)
    ensures Listing(Elems(l)) == l
  {
    SortedIsUnique(l, Listing(Elems(l)));
  }

  // ----- reversing (Array.prototype.reverse)

  function Reverse(l: seq<Node>): seq<Node> {
    if l == [] then [] else Reverse(l[1..]) + [l[0]]
  }

  lemma {:induction false} ReverseAt(l: seq<Node>)
    ensures |Reverse(l)| == |l| && forall i :: 0 <= i < |l| ==> Reverse(l)[i] == l[|l| - 1 - i]
  {
    if l != [] { ReverseAt(l[1..]); }
  }

  lemma {:induction false} ReverseMembers(l: seq<Node>)
    ensures forall x :: x in Reverse(l) <==> x in l
  {
    ReverseAt(l);
    forall x | x in l ensures x in Reverse(l) {
      var i :| 0 <= i < |l| && l[i] == x;
      assert Reverse(l)[|l| - 1 - i] == x;
    }
  }

  lemma {:induction false} ReverseOrder(l: seq<Node>)
    ensures SortedDown(l) ==> Sorted(Reverse(l))
    ensures Sorted(l) ==> SortedDown(Reverse(l))
  {
    ReverseAt(l);
  }

  lemma {:induction false} ReverseConcat(a: seq<Node>, b: seq<Node>)
    ensures Reverse(a + b) == Reverse(b) + Reverse(a)
  {
    if a == [] {
      assert a + b == b;
    } else {
      ReverseConcat(a[1..], b);
      assert (a + b)[1..] == a[1..] + b;
    }
  }

  lemma {:induction false} ReverseFirst(one: seq<Node>, l: seq<Node>)
    requires |one| <= 1
    ensures Reverse(one + l) == Reverse(l) + one
  {
    ReverseConcat(one, l);
    ReverseAt(one);
    assert Reverse(one) == one;
  }

  lemma {:induction false} ReverseOne(l: seq<Node>, one: seq<Node>)
    requires |one| <= 1
    ensures Reverse(l + one) == one + Reverse(l)
  {
    ReverseConcat(l, one);
    ReverseAt(one);
    assert Reverse(one) == one;
  }

  // ----- sorting a node list

  const FOLLOWING := 4
  const PRECEDING := 2

  /** Node.compareDocumentPosition(a, b), without the containment bits. */
  function ComparePosition(a: int, b: int): int {
    if a < b then FOLLOWING else if b < a then PRECEDING else 0
  }

  datatype Item = Item(n: Node, id: int, ai: int)

  function CompareItems(a: Item, b: Item): int {
    if a.id == b.id then a.ai - b.ai
    else
      var r := ComparePosition(a.id, b.id);
      if r == FOLLOWING then -1 else if r == PRECEDING then 1 else 0
  }

  ghost predicate Keyed(it: Item) {
    it.id == OwnerRank(it.n) && it.ai == AttrRank(it.n)
  }

  ghost predicate SortedItems(s: seq<Item>) {
    forall i, j :: 0 <= i < j < |s| ==> Before(s[i].n, s[j].n)
  }

  /** Drop repeated nodes, keeping first occurrences (`new Set`). */
  method Unique(nodes: seq<Node>) returns (uniq: seq<Node>)
    ensures Elems(uniq) == Elems(nodes)
    ensures forall i, j :: 0 <= i < j < |uniq| ==> uniq[i] != uniq[j]
  {
    uniq := [];
    for i := 0 to |nodes|
      invariant Elems(uniq) == Elems(nodes[..i])
      invariant forall i, j :: 0 <= i < j < |uniq| ==> uniq[i] != uniq[j]
    {
      assert Elems(nodes[..i + 1]) == Elems(nodes[..i]) + {nodes[i]} by {
        assert nodes[..i + 1] == nodes[..i] + [nodes[i]];
      }
      if nodes[i] !in uniq {
        assert Elems(uniq + [nodes[i]]) == Elems(uniq) + {nodes[i]};
        uniq := uniq + [nodes[i]];
      } else {
        assert nodes[i] in Elems(uniq);
      }
    }
    assert nodes[..|nodes|] == nodes;
  }

  /** Put one item into a sorted list, by the comparison function alone. */
  method InsertItem(s: seq<Item>, it: Item) returns (r: seq<Item>)
    requires SortedItems(s) && Keyed(it) && forall k :: 0 <= k < |s| ==> Keyed(s[k]) && s[k].n != it.n
    ensures SortedItems(r) && |r| == |s| + 1
    ensures exists i :: 0 <= i <= |s| && r == s[..i] + [it] + s[i..]
  {
    var i := 0;
    while i < |s| && CompareItems(s[i], it) < 0
      invariant 0 <= i <= |s|
      invariant forall k :: 0 <= k < i ==> Before(s[k].n, it.n)
    {
      i := i + 1;
    }
    assert i < |s| ==> Before(it.n, s[i].n);
    r := s[..i] + [it] + s[i..];
  }

  function ItemOf(n: Node): Item {
    Item(n, OwnerRank(n), AttrRank(n))
  }

  /** The library sort is stood in for by insertion; it sees the comparison function only. */
  method SortItems(uniq: seq<Node>) returns (items: seq<Item>)
    requires forall i, j :: 0 <= i < j < |uniq| ==> uniq[i] != uniq[j]
    ensures SortedItems(items)
    ensures forall k :: 0 <= k < |items| ==> items[k].n in uniq
    ensures forall k :: 0 <= k < |uniq| ==> ItemOf(uniq[k]) in items
  {
    items := [];
    for i := 0 to |uniq|
      invariant SortedItems(items)
      invariant forall k :: 0 <= k < |items| ==> Keyed(items[k]) && items[k].n in uniq[..i]
      invariant forall k :: 0 <= k < i ==> ItemOf(uniq[k]) in items
    {
      var it := ItemOf(uniq[i]);
      ghost var was := items;
      items := InsertItem(items, it);
      assert forall x :: x in items <==> x in was || x == it;
      assert uniq[..i + 1] == uniq[..i] + [uniq[i]];
    }
  }

  /** Sort a node list into document order and drop duplicates. */
  method DocOrder(nodes: seq<Node>) returns (r: seq<Node>)
    ensures r == Listing(Elems(nodes))
  {
    if |nodes| < 2 {
      ListingOf(nodes);
      return nodes;
    }
    var uniq := Unique(nodes);
    if |uniq| < 2 {
      ListingOf(uniq);
      return uniq;
    }
    var items := SortItems(uniq);
    r := [];
    for i := 0 to |items|
      invariant |r| == i && forall k :: 0 <= k < i ==> r[k] == items[k].n
    {
      r := r + [items[i].n];
    }
    forall x | x in uniq ensures x in r {
      var k :| 0 <= k < |items| && items[k] == ItemOf(x);
      assert r[k] == x;
    }
    SortedIsUnique(r, Listing(Elems(uniq)));
  }
}
