/** Compiled expressions have the value, or the error, of the expressions they came from. */
module XPathFusionProof {
  import opened XPathTree
  import opened XPathOrder
  import opened XPathSemantics
  import opened XPathFusion

  // ----- what the static analysis promises

  /** A value has the static type of its expression. */
  lemma {:induction false} StaticTypeSound(w: World, e: Expr, n: Node, p: nat, s: nat)
    requires w.Valid() && InDoc(w.doc, n)
    ensures var r := Eval(w, e, n, p, s); r.Ok? ==> TypeOf(r.value) == StaticType(e)
  {
    match e case _ => {}
  }

  /** Where the analysis finds no use of the position, the value does not depend on it. */
  lemma {:induction false} PositionFree(w: World, e: Expr, n: Node, p: nat, s: nat, p': nat, s': nat)
    requires w.Valid() && InDoc(w.doc, n) && !UsesPosition(e)
    ensures Eval(w, e, n, p, s) == Eval(w, e, n, p', s')
    decreases e, 1
  {
    match e
    case Or(_, _) => OperandsPositionFree(w, e, n, p, s, p', s');
    case And(_, _) => OperandsPositionFree(w, e, n, p, s, p', s');
    case Cmp(_, _, _) => OperandsPositionFree(w, e, n, p, s, p', s');
    case Arith(_, _, _) => OperandsPositionFree(w, e, n, p, s, p', s');
    case Neg(a) => PositionFree(w, a, n, p, s, p', s');
    case Count(a) => PositionFree(w, a, n, p, s, p', s');
    case Id(a) => PositionFree(w, a, n, p, s, p', s');
    case Union(first, rest) => PositionFree(w, first, n, p, s, p', s'); UnionPositionFree(w, rest, n, p, s, p', s');
    case Call(_, args) => ArgsPositionFree(w, args, n, p, s, p', s');
    case Filter(e', _) => PositionFree(w, e', n, p, s, p', s');
    case Path(start, _, _) => if start.Some? { PositionFree(w, start.value, n, p, s, p', s'); }
    case _ =>
  }

  lemma {:induction false} OperandsPositionFree(w: World, e: Expr, n: Node, p: nat, s: nat, p': nat, s': nat)
    requires w.Valid() && InDoc(w.doc, n) && !UsesPosition(e) && (e.Or? || e.And? || e.Cmp? || e.Arith?)
    ensures Eval(w, e, n, p, s) == Eval(w, e, n, p', s')
    decreases e, 0
  {
    PositionFree(w, e.a, n, p, s, p', s');
    PositionFree(w, e.b, n, p, s, p', s');
  }

  lemma {:induction false} ArgsPositionFree(w: World, args: seq<Expr>, n: Node, p: nat, s: nat, p': nat, s': nat)
    requires w.Valid() && InDoc(w.doc, n) && forall k :: 0 <= k < |args| ==> !UsesPosition(args[k])
    ensures EvalArgs(w, args, n, p, s) == EvalArgs(w, args, n, p', s')
    decreases args, 0
  {
    if args != [] {
      PositionFree(w, args[0], n, p, s, p', s');
      ArgsPositionFree(w, args[1..], n, p, s, p', s');
    }
  }

  lemma {:induction false} UnionPositionFree(w: World, list: seq<Expr>, n: Node, p: nat, s: nat, p': nat, s': nat)
    requires w.Valid() && InDoc(w.doc, n) && forall k :: 0 <= k < |list| ==> !UsesPosition(list[k])
    ensures EvalUnion(w, list, n, p, s) == EvalUnion(w, list, n, p', s')
    decreases list, 0
  {
    if list != [] {
      PositionFree(w, list[0], n, p, s, p', s');
      UnionPositionFree(w, list[1..], n, p, s, p', s');
    }
  }

  // ----- predicates that decide node by node

  ghost function Outcome(w: World, pred: Expr, n: Node): Result<bool>
    requires w.Valid() && InDoc(w.doc, n)
  {
    var v :- Eval(w, pred, n, 1, 1);
    Ok(ToBool(v))
  }

  ghost function OutcomeAll(w: World, preds: seq<Expr>, n: Node): Result<bool>
    requires w.Valid() && InDoc(w.doc, n)
  {
    if preds == [] then Ok(true) else
      var b :- Outcome(w, preds[0], n);
      if b then OutcomeAll(w, preds[1..], n) else Ok(false)
  }

  /** A predicate that is not positional decides by itself, wherever the node stands. */
  lemma {:induction false} OutcomeAnywhere(w: World, pred: Expr, n: Node, p: nat, s: nat)
    requires w.Valid() && InDoc(w.doc, n) && !Positional(pred)
    ensures var r := Eval(w, pred, n, p, s);
      && (r.TypeError? <==> Outcome(w, pred, n).TypeError?)
      && (r.Ok? ==> !r.value.VNum? && Outcome(w, pred, n) == Ok(Selects(r.value, p)))
  {
    PositionFree(w, pred, n, p, s, 1, 1);
    StaticTypeSound(w, pred, n, p, s);
  }

  lemma {:induction false} KeptIs(w: World, pred: Expr, list: seq<Node>, k: nat)
    requires w.Valid() && AllInDoc(w.doc, list) && k <= |list| && !Positional(pred)
    ensures var r := Kept(w, pred, list, k);
      && (r.TypeError? <==> exists n :: n in list[k..] && Outcome(w, pred, n).TypeError?)
      && (r.Ok? ==> forall n :: n in r.value <==> n in list[k..] && Outcome(w, pred, n) == Ok(true))
    decreases |list| - k
  {
    if k < |list| {
      OutcomeAnywhere(w, pred, list[k], k + 1, |list|);
      KeptIs(w, pred, list, k + 1);
      assert list[k..] == [list[k]] + list[k + 1..];
      assert list[k] in list[k..];
      var rest := Kept(w, pred, list, k + 1);
      if rest.TypeError? {
        var n :| n in list[k + 1..] && Outcome(w, pred, n).TypeError?;
        assert n in list[k..];
      }
    }
  }

  /** A chain of predicates that are not positional keeps exactly the nodes that pass them all,
      and fails exactly when some node's own evaluation fails. */
  lemma {:induction false} FilterAllIs(w: World, preds: seq<Expr>, list: seq<Node>)
    requires w.Valid() && AllInDoc(w.doc, list) && !AnyPositional(preds)
    ensures var r := FilterAll(w, preds, list);
      && (r.TypeError? <==> exists n :: n in list && OutcomeAll(w, preds, n).TypeError?)
      && (r.Ok? ==> forall n :: n in r.value <==> n in list && OutcomeAll(w, preds, n) == Ok(true))
    decreases preds
  {
    if preds != [] {
      KeptIs(w, preds[0], list, 0);
      assert list[0..] == list;
      var l := Kept(w, preds[0], list, 0);
      assert !AnyPositional(preds[1..]) by {
        assert forall k :: 0 <= k < |preds[1..]| ==> preds[1..][k] == preds[k + 1];
      }
      if l.TypeError? {
        var n :| n in list && Outcome(w, preds[0], n).TypeError?;
        assert OutcomeAll(w, preds, n).TypeError?;
      } else {
        FilterAllIs(w, preds[1..], l.value);
        if FilterAll(w, preds[1..], l.value).TypeError? {
          var n :| n in l.value && OutcomeAll(w, preds[1..], n).TypeError?;
          assert OutcomeAll(w, preds, n).TypeError?;
        }
        forall n | n in list && OutcomeAll(w, preds, n).TypeError?
          ensures FilterAll(w, preds[1..], l.value).TypeError?
        {
          assert Outcome(w, preds[0], n) == Ok(true);
          assert n in l.value;
        }
      }
    }
  }

  // ----- one step over an input set

  ghost predicate Reached(w: World, axis: Axis, test: NodeTest, input: seq<Node>, k: nat, n: Node)
    requires w.Valid() && AllInDoc(w.doc, input)
  {
    exists i :: k <= i < |input| && n in Candidates(w, axis, test, input[i])
  }

  lemma {:induction false} StepSetIs(w: World, step: Step, input: seq<Node>, k: nat)
    requires w.Valid() && AllInDoc(w.doc, input) && k <= |input|
    requires step.Step? && !AnyPositional(step.preds)
    ensures var r := StepSet(w, step, input, k);
      && (r.TypeError? <==>
        exists n :: Reached(w, step.axis, step.test, input, k, n) && OutcomeAll(w, step.preds, n).TypeError?)
      && (r.Ok? ==> forall n :: n in r.value <==>
            Reached(w, step.axis, step.test, input, k, n) && OutcomeAll(w, step.preds, n) == Ok(true))
    decreases |input| - k
  {
    if k < |input| {
      var m := input[k];
      var l := AxisOrder(w, step.axis, step.test, m);
      OrderMembers(w, step.axis, step.test, m);
      FilterAllIs(w, step.preds, l);
      StepSetIs(w, step, input, k + 1);
      forall n
        ensures Reached(w, step.axis, step.test, input, k, n) <==>
          n in l || Reached(w, step.axis, step.test, input, k + 1, n)
      {
        if n in l { assert n in Candidates(w, step.axis, step.test, input[k]); }
      }
      var here := FilterAll(w, step.preds, l);
      assert here == StepNode(w, step, m);
      if here.Ok? { assert forall n :: n in Elems(here.value) <==> n in here.value; }
    }
  }

  // ----- the fused step

  lemma {:induction false} SlashSlashIs(w: World, input: seq<Node>, k: nat)
    requires w.Valid() && AllInDoc(w.doc, input) && k <= |input|
    ensures var r := StepSet(w, SlashSlash, input, k);
      r.Ok? && forall n :: n in r.value <==> Reached(w, DescendantOrSelf, AnyNode, input, k, n)
    decreases |input| - k
  {
    if k < |input| {
      var l := AxisOrder(w, DescendantOrSelf, AnyNode, input[k]);
      OrderMembers(w, DescendantOrSelf, AnyNode, input[k]);
      SlashSlashIs(w, input, k + 1);
      assert StepNode(w, SlashSlash, input[k]) == Ok(l);
      forall n
        ensures Reached(w, DescendantOrSelf, AnyNode, input, k, n) <==>
          n in l || Reached(w, DescendantOrSelf, AnyNode, input, k + 1, n)
      {
        if n in l { assert n in Candidates(w, DescendantOrSelf, AnyNode, input[k]); }
      }
    }
  }

  lemma {:induction false} BelowChild(d: Doc, a: Node, m: Node, n: Node)
    requires d.Valid() && InDoc(d, a) && InDoc(d, m) && InDoc(d, n)
    requires OnAxis(d, DescendantOrSelf, a, m) && OnAxis(d, Child, m, n)
    ensures OnAxis(d, Descendant, a, n)
  {
    assert d.Contains(a.id, m.id);
    ContainsBound(d, a.id, m.id);
    assert m.id < n.id;
  }

  /** Children of the nodes reached by `//` are the descendants of where it started. */
  lemma {:induction false} ChildrenBelow(w: World, test: NodeTest, input: seq<Node>, mid: seq<Node>, n: Node)
    requires w.Valid() && AllInDoc(w.doc, input) && AllInDoc(w.doc, mid)
    requires forall x :: x in mid <==> Reached(w, DescendantOrSelf, AnyNode, input, 0, x)
    ensures Reached(w, Child, test, mid, 0, n) <==> Reached(w, Descendant, test, input, 0, n)
  {
    if Reached(w, Child, test, mid, 0, n) {
      var j :| 0 <= j < |mid| && n in Candidates(w, Child, test, mid[j]);
      assert mid[j] in mid;
      var i :| 0 <= i < |input| && mid[j] in Candidates(w, DescendantOrSelf, AnyNode, input[i]);
      BelowChild(w.doc, input[i], mid[j], n);
      assert n in Candidates(w, Descendant, test, input[i]);
    }
    if Reached(w, Descendant, test, input, 0, n) {
      var i :| 0 <= i < |input| && n in Candidates(w, Descendant, test, input[i]);
      var parent := Tree(w.doc.parents[n.id]);
      assert parent in Candidates(w, DescendantOrSelf, AnyNode, input[i]);
      assert parent in mid;
      var j :| 0 <= j < |mid| && mid[j] == parent;
      assert n in Candidates(w, Child, test, mid[j]);
    }
  }

  /** `//t[preds]` as one descendant step: same nodes, same errors, for every input. */
  lemma {:induction false} FusedStep(w: World, test: NodeTest, preds: seq<Expr>, input: seq<Node>)
    requires w.Valid() && AllInDoc(w.doc, input) && !AnyPositional(preds)
    ensures var mid := StepSet(w, SlashSlash, input, 0);
      && mid.Ok? && AllInDoc(w.doc, Listing(mid.value))
      && StepSet(w, Step(Child, test, preds), Listing(mid.value), 0) ==
        StepSet(w, Step(Descendant, test, preds), input, 0)
  {
    SlashSlashIs(w, input, 0);
    var mid := StepSet(w, SlashSlash, input, 0).value;
    InListing(w.doc, mid);
    var l := Listing(mid);
    assert forall x :: x in l <==> x in Elems(l);
    forall n ensures Reached(w, Child, test, l, 0, n) <==> Reached(w, Descendant, test, input, 0, n) {
      ChildrenBelow(w, test, input, l, n);
    }
    StepSetIs(w, Step(Child, test, preds), l, 0);
    StepSetIs(w, Step(Descendant, test, preds), input, 0);
    var a, b := StepSet(w, Step(Child, test, preds), l, 0), StepSet(w, Step(Descendant, test, preds), input, 0);
    if a.Ok? && b.Ok? { assert a.value == b.value; }
  }

  /** Merging changes no path. */
  lemma {:induction false} MergedMeans(w: World, steps: seq<Step>, input: seq<Node>)
    requires w.Valid() && AllInDoc(w.doc, input)
    ensures Steps(w, Merged(steps), input) == Steps(w, steps, input)
    decreases |steps|
  {
    if steps == [] {
    } else if Fuses(steps, 0) {
      var fused := Step(Descendant, steps[1].test, steps[1].preds);
      FusedStep(w, steps[1].test, steps[1].preds, input);
      var mid := Listing(StepSet(w, SlashSlash, input, 0).value);
      assert Steps(w, steps, input) == Steps(w, steps[1..], mid);
      assert steps[1..][1..] == steps[2..];
      var r := StepSet(w, fused, input, 0);
      assert Merged(steps)[0] == fused && Merged(steps)[1..] == Merged(steps[2..]);
      if r.Ok? {
        InListing(w.doc, r.value);
        MergedMeans(w, steps[2..], Listing(r.value));
      }
    } else {
      assert Merged(steps)[0] == steps[0] && Merged(steps)[1..] == Merged(steps[1..]);
      var r := StepSet(w, steps[0], input, 0);
      if r.Ok? {
        InListing(w.doc, r.value);
        MergedMeans(w, steps[1..], Listing(r.value));
      }
    }
  }

  // ----- the compiler

  /** Compiling an expression keeps its value and its errors in every context. */
  lemma {:induction false} CompileMeans(w: World, e: Expr, n: Node, p: nat, s: nat)
    requires w.Valid() && InDoc(w.doc, n)
    ensures Eval(w, Compile(e), n, p, s) == Eval(w, e, n, p, s)
    decreases e, 9, 0
  {
    match e
    case Or(_, _) => CompileOperandsMeans(w, e, n, p, s);
    case And(_, _) => CompileOperandsMeans(w, e, n, p, s);
    case Cmp(_, _, _) => CompileOperandsMeans(w, e, n, p, s);
    case Arith(_, _, _) => CompileOperandsMeans(w, e, n, p, s);
    case Neg(a) => CompileMeans(w, a, n, p, s);
    case Count(a) => CompileMeans(w, a, n, p, s);
    case Id(a) => CompileMeans(w, a, n, p, s);
    case Union(first, rest) => CompileMeans(w, first, n, p, s); CompileUnionMeans(w, e, rest, n, p, s);
    case Call(_, args) => CompileArgsMeans(w, e, args, n, p, s);
    case Filter(_, _) => CompileFilterExprMeans(w, e, n, p, s);
    case Path(_, _, _) => CompilePathMeans(w, e, n, p, s);
    case _ =>
  }

  lemma {:induction false} CompileOperandsMeans(w: World, e: Expr, n: Node, p: nat, s: nat)
    requires w.Valid() && InDoc(w.doc, n) && (e.Or? || e.And? || e.Cmp? || e.Arith?)
    ensures Eval(w, Compile(e), n, p, s) == Eval(w, e, n, p, s)
    decreases e, 8, 0
  {
    CompileMeans(w, e.a, n, p, s);
    CompileMeans(w, e.b, n, p, s);
  }

  lemma {:induction false} CompileFilterExprMeans(w: World, e: Expr, n: Node, p: nat, s: nat)
    requires w.Valid() && InDoc(w.doc, n) && e.Filter?
    ensures Eval(w, Compile(e), n, p, s) == Eval(w, e, n, p, s)
    decreases e, 8, 0
  {
    CompileMeans(w, e.e, n, p, s);
    var x := Eval(w, e.e, n, p, s);
    if x.Ok? && x.value.VSet? { CompileFilterMeans(w, e, e.preds, x.value.nodes); }
  }

  lemma {:induction false} CompilePathMeans(w: World, e: Expr, n: Node, p: nat, s: nat)
    requires w.Valid() && InDoc(w.doc, n) && e.Path?
    ensures Eval(w, Compile(e), n, p, s) == Eval(w, e, n, p, s)
    decreases e, 8, 0
  {
    if e.start.Some? { CompileMeans(w, e.start.value, n, p, s); }
    var x := if e.start.Some? then Eval(w, e.start.value, n, p, s) else Ok(VSet([if e.abs then RootOf(n) else n]));
    InnerPreds(e);
    if x.Ok? && x.value.VSet? {
      CompileStepsMeans(w, e, Merged(e.steps), x.value.nodes);
      MergedMeans(w, e.steps, x.value.nodes);
    }
  }

  lemma {:induction false} CompileArgsMeans(w: World, whole: Expr, args: seq<Expr>, n: Node, p: nat, s: nat)
    requires w.Valid() && InDoc(w.doc, n) && Inside(whole, args)
    ensures EvalArgs(w, CompileAll(whole, args), n, p, s) == EvalArgs(w, args, n, p, s)
    decreases whole, 0, |args|
  {
    if args != [] {
      CompileMeans(w, args[0], n, p, s);
      CompileArgsMeans(w, whole, args[1..], n, p, s);
      assert CompileAll(whole, args)[1..] == CompileAll(whole, args[1..]);
    }
  }

  lemma {:induction false} CompileUnionMeans(w: World, whole: Expr, list: seq<Expr>, n: Node, p: nat, s: nat)
    requires w.Valid() && InDoc(w.doc, n) && Inside(whole, list)
    ensures EvalUnion(w, CompileAll(whole, list), n, p, s) == EvalUnion(w, list, n, p, s)
    decreases whole, 0, |list|
  {
    if list != [] {
      CompileMeans(w, list[0], n, p, s);
      CompileUnionMeans(w, whole, list[1..], n, p, s);
      assert CompileAll(whole, list)[1..] == CompileAll(whole, list[1..]);
    }
  }

  lemma {:induction false} CompileKeptMeans(w: World, pred: Expr, list: seq<Node>, k: nat)
    requires w.Valid() && AllInDoc(w.doc, list) && k <= |list|
    ensures Kept(w, Compile(pred), list, k) == Kept(w, pred, list, k)
    decreases pred, 10, |list| - k
  {
    if k < |list| {
      CompileMeans(w, pred, list[k], k + 1, |list|);
      CompileKeptMeans(w, pred, list, k + 1);
    }
  }

  lemma {:induction false} CompileFilterMeans(w: World, whole: Expr, preds: seq<Expr>, list: seq<Node>)
    requires w.Valid() && AllInDoc(w.doc, list) && Inside(whole, preds)
    ensures FilterAll(w, CompileAll(whole, preds), list) == FilterAll(w, preds, list)
    decreases whole, 0, |preds|
  {
    if preds != [] {
      CompileKeptMeans(w, preds[0], list, 0);
      assert CompileAll(whole, preds)[1..] == CompileAll(whole, preds[1..]);
      var l := Kept(w, preds[0], list, 0);
      if l.Ok? { CompileFilterMeans(w, whole, preds[1..], l.value); }
    }
  }

  lemma {:induction false} CompileStepMeans(w: World, whole: Expr, step: Step, input: seq<Node>, k: nat)
    requires w.Valid() && AllInDoc(w.doc, input) && k <= |input| && (step.Step? ==> Inside(whole, step.preds))
    ensures StepSet(w, CompileStep(whole, step), input, k) == StepSet(w, step, input, k)
    decreases whole, 1, |input| - k
  {
    if k < |input| {
      CompileNodeMeans(w, whole, step, input[k]);
      CompileStepMeans(w, whole, step, input, k + 1);
    }
  }

  lemma {:induction false} CompileNodeMeans(w: World, whole: Expr, step: Step, m: Node)
    requires w.Valid() && InDoc(w.doc, m) && (step.Step? ==> Inside(whole, step.preds))
    ensures StepNode(w, CompileStep(whole, step), m) == StepNode(w, step, m)
    decreases whole, 1, 0
  {
    if step.Step? { CompileFilterMeans(w, whole, step.preds, AxisOrder(w, step.axis, step.test, m)); }
  }

  lemma {:induction false} CompileStepsMeans(w: World, whole: Expr, steps: seq<Step>, input: seq<Node>)
    requires w.Valid() && AllInDoc(w.doc, input) && StepsInside(whole, steps)
    ensures Steps(w, CompileSteps(whole, steps), input) == Steps(w, steps, input)
    decreases whole, 2, |steps|
  {
    if steps != [] {
      CompileStepMeans(w, whole, steps[0], input, 0);
      assert CompileSteps(whole, steps)[1..] == CompileSteps(whole, steps[1..]);
      var r := StepSet(w, steps[0], input, 0);
      if r.Ok? {
        InListing(w.doc, r.value);
        CompileStepsMeans(w, whole, steps[1..], Listing(r.value));
      }
    }
  }
}
