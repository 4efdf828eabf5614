/** Running compiled expressions. Each method's contract is the plain meaning it computes. */
module XPathRun {
  import opened XPathTree
  import opened XPathOrder
  import opened XPathSemantics
  import opened XPathCollect
  import opened XPathFusion
  import opened XPathFusionProof
  import opened XPathEval

  // ----- facts about loops that stop early

  ghost function Then<T>(done: seq<T>, rest: Result<seq<T>>): Result<seq<T>> {
    if rest.Ok? then Ok(done + rest.value) else TypeError
  }

  lemma {:induction false} ThenNothing<T>(r: Result<seq<T>>)
    ensures Then([], r) == r
  {
    if r.Ok? { assert [] + r.value == r.value; }
  }

  lemma {:induction false} ThenOne<T>(done: seq<T>, one: seq<T>, rest: Result<seq<T>>)
    ensures Then(done + one, rest) == Then(done, Then(one, rest))
    ensures Then(done, Ok([])) == Ok(done)
  {
    if rest.Ok? { assert (done + one) + rest.value == done + (one + rest.value); }
    assert done + [] == done;
  }

  lemma {:induction false} FilterNothing(w: World, preds: seq<Expr>)
    requires w.Valid()
    ensures FilterAll(w, preds, []) == Ok([])
    decreases |preds|
  {
    if preds != [] { FilterNothing(w, preds[1..]); }
  }

  lemma {:induction false} StepsFromNothing(w: World, steps: seq<Step>)
    requires w.Valid()
    ensures Steps(w, steps, []) == Ok([])
    decreases |steps|
  {
    if steps != [] {
      assert StepSet(w, steps[0], [], 0) == Ok({});
      ListingOf([]);
      StepsFromNothing(w, steps[1..]);
    }
  }

  // ----- the unsorted concatenation

  /** The input node a result of an order-keeping axis came from. */
  ghost function CameFrom(axis: Axis, x: Node): Node {
    if axis == Attribute && x.Attr? then Tree(x.owner) else x
  }

  /** What an order-keeping axis has given for the inputs before `i`. */
  ghost predicate InOrderFrom(axis: Axis, input: seq<Node>, i: nat, out: seq<Node>)
    requires i <= |input|
  {
    && Sorted(out)
    && forall x :: x in out ==> CameFrom(axis, x) in input[..i] && (axis == Attribute ==> x.Attr?)
  }

  lemma {:induction false} KeepsOrderStep(axis: Axis, input: seq<Node>, i: nat, out: seq<Node>, r: seq<Node>)
    requires KeepsOrder(axis) && Sorted(input) && i < |input| && InOrderFrom(axis, input, i, out) && Sorted(r)
    requires forall x :: x in r ==> CameFrom(axis, x) == input[i] && (axis == Attribute ==> x.Attr?)
    ensures InOrderFrom(axis, input, i + 1, out + r)
  {
    assert input[..i + 1] == input[..i] + [input[i]];
    forall a, b | 0 <= a < |out| && 0 <= b < |r| ensures Before(out[a], r[b]) {
      assert out[a] in out && r[b] in r;
      var k :| 0 <= k < i && input[k] == CameFrom(axis, out[a]);
      assert Before(input[k], input[i]);
    }
  }

  /** A node on an order-keeping axis came from the node whose axis it is. */
  lemma {:induction false} OnOrderKeepingAxis(w: World, step: Step, m: Node)
    requires w.Valid() && InDoc(w.doc, m) && KeepsOrder(AxisOf(step))
    ensures var r := StepInOrder(w, step, m); r.Ok? ==> forall x :: x in r.value ==>
      CameFrom(AxisOf(step), x) == m && (AxisOf(step) == Attribute ==> x.Attr?)
  {
    var r := StepInOrder(w, step, m);
    if r.Ok? {
      OrderMembers(w, step.axis, step.test, m);
      forall x | x in r.value ensures OnAxis(w.doc, step.axis, m, x) {
        assert x in AxisOrder(w, step.axis, step.test, m);
      }
    }
  }

  ghost function WithElems(out: seq<Node>, rest: Result<set<Node>>): Result<set<Node>> {
    if rest.Ok? then Ok(Elems(out) + rest.value) else TypeError
  }

  /** One more input: what is collected so far and what is left still make up the whole. */
  lemma {:induction false} Collected(w: World, step: Step, input: seq<Node>, i: nat, out: seq<Node>)
    requires w.Valid() && AllInDoc(w.doc, input) && i < |input|
    ensures var here := StepInOrder(w, step, input[i]);
      WithElems(out, StepSet(w, step, input, i)) ==
        if here.Ok? then WithElems(out + here.value, StepSet(w, step, input, i + 1)) else TypeError
  {
    StepInOrderSorted(w, step, input[i]);
    var here, rest := StepInOrder(w, step, input[i]), StepSet(w, step, input, i + 1);
    if here.Ok? && rest.Ok? {
      assert Elems(out + here.value) + rest.value == Elems(out) + (Elems(here.value) + rest.value);
    }
  }

  lemma {:induction false} CollectedInOrder(w: World, step: Step, input: seq<Node>, i: nat, out: seq<Node>)
    requires w.Valid() && AllInDoc(w.doc, input) && Sorted(input) && i < |input|
    requires KeepsOrder(AxisOf(step)) && InOrderFrom(AxisOf(step), input, i, out)
    ensures var here := StepInOrder(w, step, input[i]);
      here.Ok? ==> InOrderFrom(AxisOf(step), input, i + 1, out + here.value)
  {
    var here := StepInOrder(w, step, input[i]);
    if here.Ok? {
      StepInOrderSorted(w, step, input[i]);
      OnOrderKeepingAxis(w, step, input[i]);
      KeepsOrderStep(AxisOf(step), input, i, out, here.value);
    }
  }

  /** One more member of the list a predicate is applied to. */
  lemma {:induction false} KeptMore(w: World, pred: Expr, list: seq<Node>, i: nat, out: seq<Node>)
    requires w.Valid() && AllInDoc(w.doc, list) && i < |list|
    ensures var v := Eval(w, pred, list[i], i + 1, |list|);
      Then(out, Kept(w, pred, list, i)) ==
        if v.TypeError? then TypeError
        else Then(if Selects(v.value, i + 1) then out + [list[i]] else out, Kept(w, pred, list, i + 1))
  {
    ThenOne(out, [list[i]], Kept(w, pred, list, i + 1));
  }

  // ----- the evaluator

  method ApplyPredicate(w: World, list: seq<Node>, pred: Expr) returns (r: Result<seq<Node>>)
    requires w.Valid() && AllInDoc(w.doc, list)
    ensures r == Kept(w, pred, list, 0)
    decreases pred, 1
  {
    var size := |list|;
    var out := [];
    ThenNothing(Kept(w, pred, list, 0));
    for i := 0 to size
      invariant Then(out, Kept(w, pred, list, i)) == Kept(w, pred, list, 0)
    {
      KeptMore(w, pred, list, i, out);
      var v := Run(w, pred, list[i], i + 1, size);
      if v.TypeError? { return TypeError; }
      if Selects(v.value, i + 1) { out := out + [list[i]]; }
    }
    ThenOne(out, [], Ok([]));
    r := Ok(out);
  }

  method StepFrom(w: World, step: Step, node: Node) returns (r: Result<seq<Node>>)
    requires w.Valid() && InDoc(w.doc, node)
    ensures r == StepInOrder(w, step, node)
    decreases step, 2
  {
    var list := Collect(w, AxisOf(step), TestOf(step), node);
    if step.Step? {
      var kept := RunFilter(w, step.preds, list);
      if kept.TypeError? { return TypeError; }
      list := kept.value;
    }
    if IsReverse(AxisOf(step)) { list := Reverse(list); }
    r := Ok(list);
  }

  /** The results of all inputs one after the other, with the duplicates there may be. */
  method StepFromEach(w: World, step: Step, input: seq<Node>) returns (r: Result<seq<Node>>)
    requires w.Valid() && AllInDoc(w.doc, input) && Sorted(input)
    ensures StepSet(w, step, input, 0) == if r.Ok? then Ok(Elems(r.value)) else TypeError
    ensures r.Ok? && KeepsOrder(AxisOf(step)) ==> Sorted(r.value)
    decreases step, 3
  {
    var out := [];
    ghost var whole := StepSet(w, step, input, 0);
    assert whole == WithElems(out, whole) by {
      if whole.Ok? { assert Elems(out) + whole.value == whole.value; }
    }
    for i := 0 to |input|
      invariant whole == WithElems(out, StepSet(w, step, input, i))
      invariant KeepsOrder(AxisOf(step)) ==> InOrderFrom(AxisOf(step), input, i, out)
    {
      Collected(w, step, input, i, out);
      if KeepsOrder(AxisOf(step)) { CollectedInOrder(w, step, input, i, out); }
      var l := StepFrom(w, step, input[i]);
      if l.TypeError? { return TypeError; }
      out := out + l.value;
    }
    assert Elems(out) + {} == Elems(out);
    r := Ok(out);
  }

  method EvalStep(w: World, step: Step, whole: seq<Node>) returns (r: Result<seq<Node>>)
    requires w.Valid() && AllInDoc(w.doc, whole) && Sorted(whole)
    ensures var t := StepSet(w, step, whole, 0);
      r == if t.Ok? then Ok(Listing(t.value)) else TypeError
    decreases step, 4
  {
    var input := whole;
    if |input| > 1 { input := ReduceInputs(w, step, input); }
    if |input| == 1 {
      r := StepFrom(w, step, input[0]);
      SingleInput(w, step, input[0]);
      assert input == [input[0]];
      return;
    }
    var out :- StepFromEach(w, step, input);
    if KeepsOrder(AxisOf(step)) {
      ListingOf(out);
    } else {
      out := DocOrder(out);
    }
    r := Ok(out);
  }

  method RunSteps(w: World, steps: seq<Step>, start: seq<Node>) returns (r: Result<seq<Node>>)
    requires w.Valid() && AllInDoc(w.doc, start) && Sorted(start)
    ensures r == Steps(w, steps, start)
    decreases steps, 5
  {
    var cur := start;
    var i := 0;
    while i < |steps| && |cur| != 0
      invariant 0 <= i <= |steps| && AllInDoc(w.doc, cur) && Sorted(cur)
      invariant Steps(w, steps[i..], cur) == Steps(w, steps, start)
    {
      assert steps[i..][0] == steps[i] && steps[i..][1..] == steps[i + 1..];
      var t := EvalStep(w, steps[i], cur);
      if t.TypeError? { return TypeError; }
      InListing(w.doc, StepSet(w, steps[i], cur, 0).value);
      cur := t.value;
      i := i + 1;
    }
    if |cur| == 0 { StepsFromNothing(w, steps[i..]); }
    r := Ok(cur);
  }

  method RunUnion(w: World, rest: seq<Expr>, first: seq<Node>, n: Node, p: nat, s: nat) returns (r: Result<seq<Node>>)
    requires w.Valid() && InDoc(w.doc, n) && Sorted(first)
    ensures var t := EvalUnion(w, rest, n, p, s);
      r == if t.Ok? then Ok(Listing(Elems(first) + t.value)) else TypeError
    decreases rest, 1
  {
    var all := first;
    ListingOf(first);
    for i := 0 to |rest|
      invariant all == Listing(Elems(all))
      invariant var t := EvalUnion(w, rest, n, p, s); var t' := EvalUnion(w, rest[i..], n, p, s);
        && (t.Ok? <==> t'.Ok?)
        && (t.Ok? ==> Elems(all) + t'.value == Elems(first) + t.value)
    {
      assert rest[i..][0] == rest[i] && rest[i..][1..] == rest[i + 1..];
      var x := Run(w, rest[i], n, p, s);
      if x.TypeError? || !x.value.VSet? { return TypeError; }
      assert Elems(all + x.value.nodes) == Elems(all) + Elems(x.value.nodes);
      all := DocOrder(all + x.value.nodes);
    }
    assert rest[|rest|..] == [];
    assert Elems(all) + {} == Elems(all);
    r := Ok(all);
  }

  method RunArgs(w: World, args: seq<Expr>, n: Node, p: nat, s: nat) returns (r: Result<seq<Value>>)
    requires w.Valid() && InDoc(w.doc, n)
    ensures r == EvalArgs(w, args, n, p, s)
    decreases args, 1
  {
    var out := [];
    ThenNothing(EvalArgs(w, args, n, p, s));
    assert args[0..] == args;
    for i := 0 to |args|
      invariant Then(out, EvalArgs(w, args[i..], n, p, s)) == EvalArgs(w, args, n, p, s)
    {
      assert args[i..][0] == args[i] && args[i..][1..] == args[i + 1..];
      var x := Run(w, args[i], n, p, s);
      if x.TypeError? { return TypeError; }
      ThenOne(out, [x.value], EvalArgs(w, args[i + 1..], n, p, s));
      out := out + [x.value];
    }
    ThenOne(out, [], Ok([]));
    r := Ok(out);
  }

  method RunFilter(w: World, preds: seq<Expr>, nodes: seq<Node>) returns (r: Result<seq<Node>>)
    requires w.Valid() && AllInDoc(w.doc, nodes)
    ensures r == FilterAll(w, preds, nodes)
    decreases preds, 2
  {
    var list := nodes;
    var i := 0;
    while i < |preds| && |list| != 0
      invariant 0 <= i <= |preds| && AllInDoc(w.doc, list)
      invariant FilterAll(w, preds[i..], list) == FilterAll(w, preds, nodes)
    {
      assert preds[i..][0] == preds[i] && preds[i..][1..] == preds[i + 1..];
      var l := ApplyPredicate(w, list, preds[i]);
      if l.TypeError? { return TypeError; }
      list := l.value;
      i := i + 1;
    }
    if |list| == 0 { FilterNothing(w, preds[i..]); }
    r := Ok(list);
  }

  /** The root of the tree `n` is in, by walking up. */
  method FindRoot(w: World, n: Node) returns (r: Node)
    requires w.Valid() && InDoc(w.doc, n)
    ensures r == RootOf(n)
  {
    if n.Orphan? { return n; }
    var id: nat := if n.Tree? then n.id else n.owner;
    while w.doc.Parent(id) != NONE
      invariant id < |w.doc.parents|
      decreases id
    {
      id := w.doc.Parent(id);
    }
    r := Tree(id);
  }

  /** The closure an expression is compiled to, applied to a node, a position and a size. */
  method Run(w: World, e: Expr, n: Node, p: nat, s: nat) returns (r: Result<Value>)
    requires w.Valid() && InDoc(w.doc, n)
    ensures r == Eval(w, e, n, p, s)
    decreases e, 0
  {
    match e {
      case NumLit(v) => r := Ok(VNum(v));
      case StrLit(str) => r := Ok(VStr(str));
      case Or(a, b) =>
        var x := Run(w, a, n, p, s);
        if x.TypeError? || ToBool(x.value) { return if x.TypeError? then TypeError else Ok(VBool(true)); }
        var y := Run(w, b, n, p, s);
        r := if y.TypeError? then TypeError else Ok(VBool(ToBool(y.value)));
      case And(a, b) =>
        var x := Run(w, a, n, p, s);
        if x.TypeError? || !ToBool(x.value) { return if x.TypeError? then TypeError else Ok(VBool(false)); }
        var y := Run(w, b, n, p, s);
        r := if y.TypeError? then TypeError else Ok(VBool(ToBool(y.value)));
      case Cmp(op, a, b) =>
        var x :- Run(w, a, n, p, s);
        var y :- Run(w, b, n, p, s);
        var c := RunCompare(w, op, x, y);
        r := Ok(VBool(c));
      case Arith(op, a, b) =>
        var x :- Run(w, a, n, p, s);
        var y :- Run(w, b, n, p, s);
        r := Ok(VNum(w.arith(op, ToNum(w, x), ToNum(w, y))));
      case Neg(a) =>
        var x :- Run(w, a, n, p, s);
        r := Ok(VNum(Negate(ToNum(w, x))));
      case Union(first, rest) =>
        var x :- Run(w, first, n, p, s);
        if !x.VSet? { return TypeError; }
        var l :- RunUnion(w, rest, x.nodes, n, p, s);
        r := Ok(VSet(l));
      case Position => r := Ok(VNum(Fin(p as real)));
      case Last => r := Ok(VNum(Fin(s as real)));
      case Count(a) =>
        var x :- Run(w, a, n, p, s);
        if !x.VSet? { return TypeError; }
        r := Ok(VNum(Fin(|x.nodes| as real)));
      case Id(a) =>
        var x :- Run(w, a, n, p, s);
        var l := DocOrder(IdNodes(w, n, x));
        r := Ok(VSet(l));
      case Call(fn, args) =>
        var vs :- RunArgs(w, args, n, p, s);
        r := Ok(FnResult(w, fn, n, vs));
      case Filter(e', preds) =>
        var x :- Run(w, e', n, p, s);
        if !x.VSet? { return TypeError; }
        var l :- RunFilter(w, preds, x.nodes);
        r := Ok(VSet(l));
      case Path(start, abs, steps) =>
        var cur := [n];
        if start.Some? {
          var x :- Run(w, start.value, n, p, s);
          if !x.VSet? { return TypeError; }
          cur := x.nodes;
        } else if abs {
          var root := FindRoot(w, n);
          cur := [root];
        }
        var l :- RunSteps(w, steps, cur);
        r := Ok(VSet(l));
    }
  }

  /** The whole evaluator: compile, then run at position and size one. The result is the
      meaning of the expression as it was parsed. */
  method Evaluate(w: World, ast: Expr, n: Node) returns (r: Result<Value>)
    requires w.Valid() && InDoc(w.doc, n)
    ensures r == Eval(w, ast, n, 1, 1)
  {
    var code := Compile(ast);
    r := Run(w, code, n, 1, 1);
    CompileMeans(w, ast, n, 1, 1);
  }
}
