/**
 The evaluator as it runs: steps shortcut single inputs, reduce the inputs of `following` and
 `preceding`, skip the sort where the axis keeps order, and stop early on empty lists. Its
 result is the plain meaning of the expression, for every expression, tree and context.
 */
module XPathEval {
  import opened XPathTree
  import opened XPathOrder
  import opened XPathSemantics
  import opened XPathFusionProof

  // ----- comparisons

  predicate AnyCompares(w: World, op: CmpOp, sx: string, strs: seq<string>) {
    exists j :: 0 <= j < |strs| && CmpPrim(w, op, VStr(sx), VStr(strs[j]))
  }

  /** Two node-sets. `=` looks the strings up in a set, the other operators try every pair. */
  method CompareSets(w: World, op: CmpOp, xs: seq<Node>, ys: seq<Node>) returns (r: bool)
    ensures r == Compare(w, op, VSet(xs), VSet(ys))
  {
    var strs := seq(|ys|, j requires 0 <= j < |ys| => w.stringValue(ys[j]));
    var seen := set j | 0 <= j < |strs| :: strs[j];
    for i := 0 to |xs|
      invariant forall i' :: 0 <= i' < i ==> !AnyCompares(w, op, w.stringValue(xs[i']), strs)
    {
      var sx := w.stringValue(xs[i]);
      if op == Eq {
        if sx in seen {
          var j :| 0 <= j < |strs| && strs[j] == sx;
          assert CmpPrim(w, op, VStr(w.stringValue(xs[i])), VStr(w.stringValue(ys[j])));
          return true;
        }
        assert forall j :: 0 <= j < |strs| ==> strs[j] in seen;
      } else {
        for j := 0 to |strs|
          invariant forall j' :: 0 <= j' < j ==> !CmpPrim(w, op, VStr(sx), VStr(strs[j']))
        {
          if CmpPrim(w, op, VStr(sx), VStr(strs[j])) {
            assert CmpPrim(w, op, VStr(w.stringValue(xs[i])), VStr(w.stringValue(ys[j])));
            return true;
          }
        }
      }
    }
    forall i, j | 0 <= i < |xs| && 0 <= j < |ys|
      ensures !CmpPrim(w, op, VStr(w.stringValue(xs[i])), VStr(w.stringValue(ys[j])))
    {
      assert !AnyCompares(w, op, w.stringValue(xs[i]), strs);
      assert strs[j] == w.stringValue(ys[j]);
    }
    r := false;
  }

  method RunCompare(w: World, op: CmpOp, x: Value, y: Value) returns (r: bool)
    ensures r == Compare(w, op, x, y)
  {
    if !x.VSet? && !y.VSet? {
      r := CmpPrim(w, op, x, y);
    } else if x.VSet? && y.VSet? {
      r := CompareSets(w, op, x.nodes, y.nodes);
    } else {
      var nodes := if x.VSet? then x.nodes else y.nodes;
      var other := if x.VSet? then y else x;
      if other.VBool? {
        var some := VBool(|nodes| != 0);
        return if x.VSet? then CmpPrim(w, op, some, other) else CmpPrim(w, op, other, some);
      }
      for i := 0 to |nodes|
        invariant forall i' :: 0 <= i' < i ==>
          var text := VStr(w.stringValue(nodes[i']));
          !(if x.VSet? then CmpPrim(w, op, text, other) else CmpPrim(w, op, other, text))
      {
        var sv := VStr(w.stringValue(nodes[i]));
        if if x.VSet? then CmpPrim(w, op, sv, other) else CmpPrim(w, op, other, sv) {
          return true;
        }
      }
      r := false;
    }
  }

  // ----- the shortcuts of `evalStep`

  function AxisOf(step: Step): Axis {
    if step.SlashSlash? then DescendantOrSelf else step.axis
  }

  function TestOf(step: Step): NodeTest {
    if step.SlashSlash? then AnyNode else step.test
  }

  predicate KeepsOrder(axis: Axis) {
    axis == Attribute || axis == SelfAxis
  }

  /** What one step from one node leaves, in document order. */
  ghost function StepInOrder(w: World, step: Step, m: Node): Result<seq<Node>>
    requires w.Valid() && InDoc(w.doc, m)
  {
    var l :- StepNode(w, step, m);
    Ok(if IsReverse(AxisOf(step)) then Reverse(l) else l)
  }

  lemma {:induction false} StepInOrderSorted(w: World, step: Step, m: Node)
    requires w.Valid() && InDoc(w.doc, m)
    ensures var r := StepInOrder(w, step, m);
      r.Ok? ==> StepNode(w, step, m).Ok? && Sorted(r.value) && Elems(r.value) == Elems(StepNode(w, step, m).value)
  {
    ReverseOrder(Listing(Candidates(w, AxisOf(step), TestOf(step), m)));
    var l := StepNode(w, step, m);
    if l.Ok? {
      ReverseOrder(l.value);
      ReverseMembers(l.value);
    }
  }

  /** A single input needs no sorting. */
  lemma {:induction false} SingleInput(w: World, step: Step, m: Node)
    requires w.Valid() && InDoc(w.doc, m)
    ensures var r, t := StepInOrder(w, step, m), StepSet(w, step, [m], 0);
      && (r.TypeError? <==> t.TypeError?)
      && (r.Ok? ==> r.value == Listing(t.value))
  {
    StepInOrderSorted(w, step, m);
    var r := StepInOrder(w, step, m);
    assert StepSet(w, step, [m], 1) == Ok({});
    if r.Ok? {
      ListingOf(r.value);
      assert Elems(StepNode(w, step, m).value) + {} == Elems(r.value);
    }
  }

  /** Without predicates a step fails nowhere and selects exactly the nodes it reaches. */
  lemma {:induction false} PlainStep(w: World, axis: Axis, test: NodeTest, input: seq<Node>)
    requires w.Valid() && AllInDoc(w.doc, input)
    ensures var r := StepSet(w, Step(axis, test, []), input, 0);
      r.Ok? && forall n :: n in r.value <==> Reached(w, axis, test, input, 0, n)
  {
    StepSetIs(w, Step(axis, test, []), input, 0);
    assert forall n :: InDoc(w.doc, n) ==> OutcomeAll(w, [], n) == Ok(true);
  }

  lemma {:induction false} ReachedFromOne(w: World, axis: Axis, test: NodeTest, m: Node, n: Node)
    requires w.Valid() && InDoc(w.doc, m)
    ensures Reached(w, axis, test, [m], 0, n) <==> n in Candidates(w, axis, test, m)
  {
    assert [m][0] == m;
  }

  lemma {:induction false} SameReach(w: World, axis: Axis, test: NodeTest, input: seq<Node>, best: Node, n: Node)
    requires w.Valid() && AllInDoc(w.doc, input) && best in input && InDoc(w.doc, best)
    requires forall k :: 0 <= k < |input| && n in Candidates(w, axis, test, input[k]) ==>
      n in Candidates(w, axis, test, best)
    ensures n in Candidates(w, axis, test, best) <==> Reached(w, axis, test, input, 0, n)
  {
    var i :| 0 <= i < |input| && input[i] == best;
    assert n in Candidates(w, axis, test, input[i]) ==> Reached(w, axis, test, input, 0, n);
  }

  /** The inputs' axes add up to the one axis of `best` when that one holds all the others. */
  lemma {:induction false} OneInputIsEnough(w: World, axis: Axis, test: NodeTest, input: seq<Node>, best: Node)
    requires w.Valid() && AllInDoc(w.doc, input) && best in input
    requires forall m, n :: m in input && InDoc(w.doc, n) && OnAxis(w.doc, axis, m, n) ==> OnAxis(w.doc, axis, best, n)
    ensures AllInDoc(w.doc, [best])
    ensures StepSet(w, Step(axis, test, []), [best], 0) == StepSet(w, Step(axis, test, []), input, 0)
  {
    assert InDoc(w.doc, best);
    PlainStep(w, axis, test, input);
    PlainStep(w, axis, test, [best]);
    forall n ensures Reached(w, axis, test, [best], 0, n) <==> Reached(w, axis, test, input, 0, n) {
      forall k | 0 <= k < |input| && n in Candidates(w, axis, test, input[k])
        ensures n in Candidates(w, axis, test, best)
      {
        assert input[k] in input;
      }
      SameReach(w, axis, test, input, best, n);
      ReachedFromOne(w, axis, test, best, n);
    }
    var a, b := StepSet(w, Step(axis, test, []), [best], 0), StepSet(w, Step(axis, test, []), input, 0);
    assert a.value == b.value;
  }

  lemma {:induction false} FollowingOfFirstToEnd(w: World, test: NodeTest, input: seq<Node>, best: nat)
    requires w.Valid() && AllInDoc(w.doc, input) && Tree(best) in input && best < |w.doc.parents|
    requires forall m :: m in input ==> m.Tree? && m.id < |w.doc.parents| && w.doc.End(best) <= w.doc.End(m.id)
    ensures StepSet(w, Step(Following, test, []), [Tree(best)], 0) == StepSet(w, Step(Following, test, []), input, 0)
  {
    forall m, n | m in input && InDoc(w.doc, n) && OnAxis(w.doc, Following, m, n)
      ensures OnAxis(w.doc, Following, Tree(best), n)
    {
      AxesPartition(w.doc, m.id, n.id);
      AxesPartition(w.doc, best, n.id);
    }
    OneInputIsEnough(w, Following, test, input, Tree(best));
  }

  lemma {:induction false} PrecedingOfLast(w: World, test: NodeTest, input: seq<Node>, last: nat)
    requires w.Valid() && AllInDoc(w.doc, input) && Tree(last) in input && last < |w.doc.parents|
    requires forall m :: m in input ==> m.Tree? && m.id <= last
    ensures StepSet(w, Step(Preceding, test, []), [Tree(last)], 0) == StepSet(w, Step(Preceding, test, []), input, 0)
  {
    forall m, n | m in input && InDoc(w.doc, n) && OnAxis(w.doc, Preceding, m, n)
      ensures OnAxis(w.doc, Preceding, Tree(last), n)
    {
      AxesPartition(w.doc, m.id, n.id);
      AxesPartition(w.doc, last, n.id);
    }
    OneInputIsEnough(w, Preceding, test, input, Tree(last));
  }

  /** Keep one input of `following` or `preceding` when there are no predicates: the node whose
      subtree ends first, or the last node. */
  method ReduceInputs(w: World, step: Step, input: seq<Node>) returns (r: seq<Node>)
    requires w.Valid() && AllInDoc(w.doc, input) && Sorted(input) && |input| > 1
    ensures r != [] && AllInDoc(w.doc, r) && Sorted(r)
    ensures StepSet(w, step, r, 0) == StepSet(w, step, input, 0)
  {
    r := input;
    if step.SlashSlash? || step.preds != [] || (step.axis != Following && step.axis != Preceding) { return; }
    for i := 0 to |input|
      invariant forall k :: 0 <= k < i ==> input[k].Tree?
    {
      if !input[i].Tree? { return; }
    }
    assert forall m :: m in input ==> m.Tree? && m.id < |w.doc.parents|;
    if step.axis == Preceding {
      var last := input[|input| - 1];
      assert forall k :: 0 <= k < |input| - 1 ==> Before(input[k], last);
      PrecedingOfLast(w, step.test, input, last.id);
      return [last];
    }
    var best := FirstToEnd(w.doc, input);
    FollowingOfFirstToEnd(w, step.test, input, best);
    return [Tree(best)];
  }

  /** Of nodes in document order, the one whose subtree ends first. */
  method FirstToEnd(d: Doc, input: seq<Node>) returns (best: nat)
    requires d.Valid() && Sorted(input) && input != []
    requires forall m :: m in input ==> m.Tree? && m.id < |d.parents|
    ensures best < |d.parents| && Tree(best) in input
    ensures forall m :: m in input ==> d.End(best) <= d.End(m.id)
  {
    best := input[0].id;
    for i := 1 to |input|
      invariant best < |d.parents| && Tree(best) in input[..i]
      invariant forall k :: 0 <= k < i ==>
        input[k].Tree? && input[k].id < |d.parents| && d.End(best) <= d.End(input[k].id)
    {
      var next := input[i];
      assert next in input;
      ghost var k :| 0 <= k < i && input[k] == Tree(best);
      assert Before(input[k], next);
      SubtreeIsInterval(d, best, next.id);
      assert input[..i + 1] == input[..i] + [next];
      var inside := NativeContains(d, best, next.id);
      if inside {
        EndNested(d, best, next.id);
        best := next.id;
      }
    }
  }

  /** Node.contains, by walking up from `v`. */
  method NativeContains(d: Doc, a: nat, v: nat) returns (r: bool)
    requires d.Valid() && v < |d.parents|
    ensures r == d.Contains(a, v)
  {
    var x := v as int;
    while x != NONE && x != a
      invariant NONE <= x < |d.parents|
      invariant d.Contains(a, v) <==> x != NONE && d.Contains(a, x)
    {
      x := d.Parent(x);
    }
    r := x != NONE;
  }
}
