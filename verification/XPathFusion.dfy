/**
 The compiler's one rewriting: `//` followed by a child step whose predicates do not look at
 the position becomes a single descendant step. Compiled expressions mean what they meant.
 */
module XPathFusion {
  import opened Options
  import opened XPathSemantics

  function StaticType(e: Expr): Type {
    match e
    case NumLit(_) => NumberType
    case Arith(_, _, _) => NumberType
    case Neg(_) => NumberType
    case StrLit(_) => StringType
    case Or(_, _) => BooleanType
    case And(_, _) => BooleanType
    case Cmp(_, _, _) => BooleanType
    case Position => NumberType
    case Last => NumberType
    case Count(_) => NumberType
    case Id(_) => NodesetType
    case Call(fn, _) => (match fn case NumFn(_) => NumberType case StrFn(_) => StringType case BoolFn(_) => BooleanType)
    case _ => NodesetType
  }

  /** Whether `position()` or `last()` occurs anywhere in it. One in a nested predicate counts as well, although
      it speaks of another list. */
  predicate UsesPosition(e: Expr) {
    match e
    case Position => true
    case Last => true
    case Count(a) => UsesPosition(a)
    case Id(a) => UsesPosition(a)
    case Call(_, args) => exists k :: 0 <= k < |args| && UsesPosition(args[k])
    case Or(a, b) => UsesPosition(a) || UsesPosition(b)
    case And(a, b) => UsesPosition(a) || UsesPosition(b)
    case Cmp(_, a, b) => UsesPosition(a) || UsesPosition(b)
    case Arith(_, a, b) => UsesPosition(a) || UsesPosition(b)
    case Neg(a) => UsesPosition(a)
    case Union(first, rest) => UsesPosition(first) || exists k :: 0 <= k < |rest| && UsesPosition(rest[k])
    case Filter(e', preds) => UsesPosition(e') || exists k :: 0 <= k < |preds| && UsesPosition(preds[k])
    case Path(start, _, steps) =>
      || (start.Some? && UsesPosition(start.value))
      || (exists i, k ::
        0 <= i < |steps| && steps[i].Step? && 0 <= k < |steps[i].preds| && UsesPosition(steps[i].preds[k]))
    case _ => false
  }

  /** Whether the outcome can depend on where the node stands: so it does for any number. */
  predicate Positional(pred: Expr) {
    StaticType(pred) == NumberType || UsesPosition(pred)
  }

  predicate AnyPositional(preds: seq<Expr>) {
    exists k :: 0 <= k < |preds| && Positional(preds[k])
  }

  // ----- the rewriting

  predicate Fuses(steps: seq<Step>, i: nat) {
    && i + 1 < |steps| && steps[i].SlashSlash?
    && steps[i + 1].Step? && steps[i + 1].axis == Child && !AnyPositional(steps[i + 1].preds)
  }

  function Merged(steps: seq<Step>): seq<Step> {
    if steps == [] then []
    else if Fuses(steps, 0) then [Step(Descendant, steps[1].test, steps[1].preds)] + Merged(steps[2..])
    else [steps[0]] + Merged(steps[1..])
  }

  /** Merging brings in no predicate that was not there. */
  lemma {:induction false} MergedPreds(steps: seq<Step>, s: Step)
    requires s in Merged(steps) && s.Step?
    ensures exists t :: t in steps && t.Step? && t.preds == s.preds
  {
    if Fuses(steps, 0) {
      if s in Merged(steps[2..]) { MergedPreds(steps[2..], s); } else { assert steps[1] in steps; }
    } else if s in Merged(steps[1..]) {
      MergedPreds(steps[1..], s);
    } else {
      assert steps[0] in steps;
    }
  }

  method MergeDescendantSteps(steps: seq<Step>) returns (out: seq<Step>)
    ensures out == Merged(steps)
  {
    out := [];
    var i := 0;
    while i < |steps|
      invariant 0 <= i <= |steps|
      invariant Merged(steps) == out + Merged(steps[i..])
    {
      var s := steps[i];
      assert steps[i..][1..] == steps[i + 1..];
      if s.SlashSlash? && i + 1 < |steps|
        && steps[i + 1].Step? && steps[i + 1].axis == Child && !AnyPositional(steps[i + 1].preds)
      {
        assert Fuses(steps[i..], 0) && steps[i..][2..] == steps[i + 2..];
        out := out + [Step(Descendant, steps[i + 1].test, steps[i + 1].preds)];
        i := i + 1;
      } else {
        out := out + [s];
      }
      i := i + 1;
    }
  }

  /** An expression with the rewriting applied to every path in it. */
  function Compile(e: Expr): Expr
    decreases e, 2
  {
    match e
    case Or(a, b) => Or(Compile(a), Compile(b))
    case And(a, b) => And(Compile(a), Compile(b))
    case Cmp(op, a, b) => Cmp(op, Compile(a), Compile(b))
    case Arith(op, a, b) => Arith(op, Compile(a), Compile(b))
    case Neg(a) => Neg(Compile(a))
    case Union(first, rest) => Union(Compile(first), CompileAll(e, rest))
    case Count(a) => Count(Compile(a))
    case Id(a) => Id(Compile(a))
    case Call(fn, args) => Call(fn, CompileAll(e, args))
    case Filter(e', preds) => Filter(Compile(e'), CompileAll(e, preds))
    case Path(start, abs, steps) =>
      InnerPreds(e);
      Path(if start.Some? then Some(Compile(start.value)) else None, abs, CompileSteps(e, Merged(steps)))
    case _ => e
  }

  ghost predicate Inside(whole: Expr, es: seq<Expr>) {
    forall i :: 0 <= i < |es| ==> es[i] < whole
  }

  ghost predicate StepsInside(whole: Expr, steps: seq<Step>) {
    forall s :: s in steps && s.Step? ==> Inside(whole, s.preds)
  }

  lemma {:induction false} InnerPreds(e: Expr)
    requires e.Path?
    ensures StepsInside(e, Merged(e.steps))
  {
    forall s | s in Merged(e.steps) && s.Step? ensures Inside(e, s.preds) {
      MergedPreds(e.steps, s);
    }
  }

  function CompileAll(whole: Expr, es: seq<Expr>): seq<Expr>
    requires Inside(whole, es)
    decreases whole, 0, |es|
  {
    if es == [] then [] else [Compile(es[0])] + CompileAll(whole, es[1..])
  }

  function CompileSteps(whole: Expr, steps: seq<Step>): seq<Step>
    requires StepsInside(whole, steps)
    decreases whole, 1, |steps|
  {
    if steps == [] then [] else [CompileStep(whole, steps[0])] + CompileSteps(whole, steps[1..])
  }

  function CompileStep(whole: Expr, step: Step): Step
    requires step.Step? ==> Inside(whole, step.preds)
    decreases whole, 1, 0
  {
    match step
    case SlashSlash => SlashSlash
    case Step(axis, test, preds) => Step(axis, test, CompileAll(whole, preds))
  }
}
