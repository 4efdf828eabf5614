/** How operators that follow each other group, by the table of operators and nothing else. */
module GlslPrecedence {
  import opened GlslSyntax
  import opened GlslMinimal

  /** The binary operators, loosest row first. */
  function Row(i: nat): seq<Punct>
    requires i < 11
  {
    match i
    case 0 => [BarBar]
    case 1 => [CaretCaret]
    case 2 => [AmpAmp]
    case 3 => [Bar]
    case 4 => [Caret]
    case 5 => [Amp]
    case 6 => [EqEq, BangEq]
    case 7 => [Punct.Less, Greater, LessEq, GreaterEq]
    case 8 => [Shl, Shr]
    case 9 => [Plus, Minus]
    case _ => [Star, Slash, Percent]
  }

  const ASSIGNMENTS: seq<Punct> := [Punct.Set, PlusSet, MinusSet, StarSet, SlashSet, PercentSet, ShlSet, ShrSet, AmpSet,
    BarSet, CaretSet]

  const PREFIXES: seq<Punct> := [Plus, Minus, Bang, Tilde, Inc, Dec]

  lemma {:induction false} LooseRows(p: Punct, i: nat)
    requires i < 7
    ensures Level(p) == i <==> p in Row(i)
  {
  }

  lemma {:induction false} TightRows(p: Punct, i: nat)
    requires 7 <= i < 11
    ensures Level(p) == i <==> p in Row(i)
  {
  }

  lemma {:induction false} LevelIsRow(p: Punct, i: nat)
    requires i < 11
    ensures Level(p) == i <==> p in Row(i)
  {
    if i < 7 { LooseRows(p, i); } else { TightRows(p, i); }
  }

  lemma {:induction false} Assignments(p: Punct)
    ensures IsAssign(p) <==> p in ASSIGNMENTS
  {
  }

  lemma {:induction false} Prefixes(p: Punct)
    ensures IsPrefix(p) <==> p in PREFIXES
  {
  }

  // ----- chains of binary operators

  predicate IsName(n: Names, x: string) {
    n.Plain(x) && x != "true" && x != "false"
  }

  /** Names with an operator between each two of them. */
  ghost predicate IsChain(n: Names, xs: seq<string>, ops: seq<Punct>, rows: seq<nat>) {
    && |xs| == |ops| + 1 && |rows| == |ops|
    && (forall i :: 0 <= i < |xs| ==> IsName(n, xs[i]))
    && forall i :: 0 <= i < |ops| ==> rows[i] < 11 && ops[i] in Row(rows[i])
  }

  function Chain(xs: seq<string>, ops: seq<Punct>): seq<Token>
    requires |xs| == |ops| + 1
  {
    if ops == [] then [Id(xs[0])] else [Id(xs[0]), P(ops[0])] + Chain(xs[1..], ops[1..])
  }

  /** Operator `k` is looser than all that follow it and no tighter than all that precede it. */
  predicate SplitsAt(rows: seq<nat>, k: nat) {
    && k < |rows|
    && (forall i :: 0 <= i < k ==> rows[k] <= rows[i])
    && forall i :: k < i < |rows| ==> rows[k] < rows[i]
  }

  /** The outermost operator is the last one of the loosest row, and so on in its operands. */
  ghost predicate Groups(e: Expr, xs: seq<string>, ops: seq<Punct>, rows: seq<nat>)
    requires |xs| == |ops| + 1 && |rows| == |ops|
    decreases |ops|
  {
    if ops == [] then e == Var(xs[0])
    else
      && e.Binary?
      && exists k: nat ::
        && SplitsAt(rows, k) && e.op == ops[k]
        && Groups(e.l, xs[..k + 1], ops[..k], rows[..k]) && Groups(e.r, xs[k + 1..], ops[k + 1..], rows[k + 1..])
  }

  lemma {:induction false} HasSplit(rows: seq<nat>) returns (k: nat)
    requires rows != []
    ensures SplitsAt(rows, k)
  {
    k := 0;
    for j := 1 to |rows|
      invariant k < j
      invariant forall i :: 0 <= i < k ==> rows[k] <= rows[i]
      invariant forall i :: k < i < j ==> rows[k] < rows[i]
    {
      if rows[j] <= rows[k] { k := j; }
    }
  }

  lemma {:induction false} PartsAreChains(n: Names, xs: seq<string>, ops: seq<Punct>, rows: seq<nat>, k: nat)
    requires IsChain(n, xs, ops, rows) && k < |ops|
    ensures IsChain(n, xs[..k + 1], ops[..k], rows[..k]) && IsChain(n, xs[k + 1..], ops[k + 1..], rows[k + 1..])
  {
  }

  lemma {:induction false} ChainSplits(xs: seq<string>, ops: seq<Punct>, k: nat)
    requires |xs| == |ops| + 1 && k < |ops|
    ensures Chain(xs, ops) == Chain(xs[..k + 1], ops[..k]) + [P(ops[k])] + Chain(xs[k + 1..], ops[k + 1..])
    decreases k
  {
    if k == 0 {
      assert xs[..1][0] == xs[0];
    } else {
      ChainSplits(xs[1..], ops[1..], k - 1);
      assert xs[..k + 1][1..] == xs[1..][..k] && ops[..k][1..] == ops[1..][..k - 1];
      assert xs[k + 1..] == xs[1..][k..] && ops[k + 1..] == ops[1..][k..];
    }
  }

  /** `e` prints to these tokens where `min` is asked for. */
  ghost predicate Prints(e: Expr, min: nat, toks: seq<Token>) {
    forall rest :: Print(e, min, rest) == toks + rest
  }

  predicate Tight(rows: seq<nat>, min: nat) {
    min <= 14 && forall i :: 0 <= i < |rows| ==> min <= 3 + rows[i]
  }

  /** The tree of a chain prints to the chain wherever its operators bind tightly enough. */
  lemma {:induction false} TreeOf(n: Names, xs: seq<string>, ops: seq<Punct>, rows: seq<nat>) returns (e: Expr)
    requires n.Valid() && IsChain(n, xs, ops, rows)
    ensures Groups(e, xs, ops, rows) && WellFormed(n, e)
    ensures forall min: nat :: Tight(rows, min) ==> Prints(e, min, Chain(xs, ops))
    decreases |ops|
  {
    if ops == [] {
      e := Var(xs[0]);
      forall min: nat | Tight(rows, min) ensures Prints(e, min, Chain(xs, ops)) { PrintsName(xs[0], min); }
    } else {
      var k := HasSplit(rows);
      PartsAreChains(n, xs, ops, rows, k);
      var l := TreeOf(n, xs[..k + 1], ops[..k], rows[..k]);
      var r := TreeOf(n, xs[k + 1..], ops[k + 1..], rows[k + 1..]);
      e := Binary(ops[k], l, r);
      LevelIsRow(ops[k], rows[k]);
      assert Tight(rows[..k], 3 + rows[k]) && Tight(rows[k + 1..], 4 + rows[k]);
      PrintsSplit(xs, ops, rows, k, l, r);
    }
  }

  lemma {:induction false} PrintsSplit(xs: seq<string>, ops: seq<Punct>, rows: seq<nat>, k: nat, l: Expr, r: Expr)
    requires |xs| == |ops| + 1 && |rows| == |ops| && k < |ops| && Level(ops[k]) == rows[k]
    requires Prints(l, 3 + rows[k], Chain(xs[..k + 1], ops[..k]))
    requires Prints(r, 4 + rows[k], Chain(xs[k + 1..], ops[k + 1..]))
    ensures forall min: nat :: Tight(rows, min) ==> Prints(Binary(ops[k], l, r), min, Chain(xs, ops))
  {
    ChainSplits(xs, ops, k);
    forall min: nat | Tight(rows, min) ensures Prints(Binary(ops[k], l, r), min, Chain(xs, ops)) {
      PrintsBinary(ops[k], l, r, rows[k], min, Chain(xs[..k + 1], ops[..k]), Chain(xs[k + 1..], ops[k + 1..]));
    }
  }

  lemma {:induction false} PrintsName(x: string, min: nat)
    requires min <= 16
    ensures Prints(Var(x), min, [Id(x)])
  {
    forall rest ensures Print(Var(x), min, rest) == [Id(x)] + rest {
      assert Print(Var(x), min, rest) == PrintBare(Var(x), rest);
    }
  }

  lemma {:induction false} PrintsBinary(op: Punct, l: Expr, r: Expr, row: nat, min: nat, a: seq<Token>, b: seq<Token>)
    requires Level(op) == row && min <= 3 + row && Prints(l, 3 + row, a) && Prints(r, 4 + row, b)
    ensures Prints(Binary(op, l, r), min, a + [P(op)] + b)
  {
    forall rest ensures Print(Binary(op, l, r), min, rest) == a + [P(op)] + b + rest {
      PrintOfBinary(op, l, r, row, min, rest);
      Joined(a, P(op), b, rest);
    }
  }

  lemma {:induction false} PrintOfBinary(op: Punct, l: Expr, r: Expr, row: nat, min: nat, rest: seq<Token>)
    requires Level(op) == row && min <= 3 + row
    ensures Print(Binary(op, l, r), min, rest) == Print(l, 3 + row, Cons(P(op), Print(r, 4 + row, rest)))
  {
    assert Print(Binary(op, l, r), min, rest) == PrintBare(Binary(op, l, r), rest);
  }

  lemma {:induction false} Joined(a: seq<Token>, t: Token, b: seq<Token>, rest: seq<Token>)
    ensures a + Cons(t, b + rest) == a + [t] + b + rest
  {
  }

  /** However many operators follow each other, they are read as the table says. */
  lemma {:induction false} ChainParses(n: Names, xs: seq<string>, ops: seq<Punct>, rows: seq<nat>)
    requires n.Valid() && IsChain(n, xs, ops, rows)
    ensures var r := ParseExpression(n, Chain(xs, ops)); r.Ok? && r.rest == [] && Groups(r.value, xs, ops, rows)
  {
    var e := TreeOf(n, xs, ops, rows);
    assert Tight(rows, 0) && Print(e, 0, []) == Chain(xs, ops) + [];
    assert Chain(xs, ops) + [] == Chain(xs, ops);
    Parses(n, e, Chain(xs, ops));
  }

  lemma {:induction false} Parses(n: Names, e: Expr, toks: seq<Token>)
    requires n.Valid() && WellFormed(n, e) && Print(e, 0, []) == toks
    ensures ParseExpression(n, toks) == Ok(e, [])
  {
    ParseOfPrint(n, e, []);
    assert toks + [] == toks;
  }

  lemma {:induction false} Reads(n: Names, e: Expr, toks: seq<Token>)
    requires n.Valid() && WellFormed(n, e) && Prints(e, 0, toks)
    ensures ParseExpression(n, toks) == Ok(e, [])
  {
    assert Print(e, 0, []) == toks + [] == toks;
    Parses(n, e, toks);
  }

  lemma {:induction false} SecondTighter(n: Names, x: string, y: string, z: string, p: Punct, q: Punct, i: nat, j: nat)
    requires n.Valid() && IsName(n, x) && IsName(n, y) && IsName(n, z) && Level(p) == i < j == Level(q)
    ensures ParseExpression(n, [Id(x), P(p), Id(y), P(q), Id(z)]) ==
      Ok(Binary(p, Var(x), Binary(q, Var(y), Var(z))), [])
  {
    PrintsName(x, 3 + i);
    PrintsName(y, 3 + j);
    PrintsName(z, 4 + j);
    PrintsBinary(q, Var(y), Var(z), j, 4 + i, [Id(y)], [Id(z)]);
    PrintsBinary(p, Var(x), Binary(q, Var(y), Var(z)), i, 0, [Id(x)], [Id(y)] + [P(q)] + [Id(z)]);
    assert [Id(x)] + [P(p)] + ([Id(y)] + [P(q)] + [Id(z)]) == [Id(x), P(p), Id(y), P(q), Id(z)];
    Reads(n, Binary(p, Var(x), Binary(q, Var(y), Var(z))), [Id(x), P(p), Id(y), P(q), Id(z)]);
  }

  lemma {:induction false} FirstAsTight(n: Names, x: string, y: string, z: string, p: Punct, q: Punct, i: nat, j: nat)
    requires n.Valid() && IsName(n, x) && IsName(n, y) && IsName(n, z) && Level(p) == i >= j && j == Level(q)
    ensures ParseExpression(n, [Id(x), P(p), Id(y), P(q), Id(z)]) ==
      Ok(Binary(q, Binary(p, Var(x), Var(y)), Var(z)), [])
  {
    PrintsName(x, 3 + i);
    PrintsName(y, 4 + i);
    PrintsName(z, 4 + j);
    PrintsBinary(p, Var(x), Var(y), i, 3 + j, [Id(x)], [Id(y)]);
    PrintsBinary(q, Binary(p, Var(x), Var(y)), Var(z), j, 0, [Id(x)] + [P(p)] + [Id(y)], [Id(z)]);
    assert [Id(x)] + [P(p)] + [Id(y)] + [P(q)] + [Id(z)] == [Id(x), P(p), Id(y), P(q), Id(z)];
    Reads(n, Binary(q, Binary(p, Var(x), Var(y)), Var(z)), [Id(x), P(p), Id(y), P(q), Id(z)]);
  }

  /** Two operators: the one of the tighter row takes its operands first, the left one within a row. */
  lemma {:induction false} TwoOperators(n: Names, x: string, y: string, z: string, p: Punct, q: Punct, i: nat, j: nat)
    requires n.Valid() && IsName(n, x) && IsName(n, y) && IsName(n, z)
    requires i < 11 && j < 11 && p in Row(i) && q in Row(j)
    ensures ParseExpression(n, [Id(x), P(p), Id(y), P(q), Id(z)]) ==
      (if i < j then Ok(Binary(p, Var(x), Binary(q, Var(y), Var(z))), [])
      else Ok(Binary(q, Binary(p, Var(x), Var(y)), Var(z)), []))
  {
    LevelIsRow(p, i);
    LevelIsRow(q, j);
    if i < j { SecondTighter(n, x, y, z, p, q, i, j); } else { FirstAsTight(n, x, y, z, p, q, i, j); }
  }

  // ----- what is tighter and what is looser than the binary operators

  /** A prefix operator takes the name next to it only. */
  lemma {:induction false} PrefixThenBinary(n: Names, op: Punct, x: string, p: Punct, i: nat, y: string)
    requires n.Valid() && IsName(n, x) && IsName(n, y) && op in PREFIXES && i < 11 && p in Row(i)
    ensures ParseExpression(n, [P(op), Id(x), P(p), Id(y)]) == Ok(Binary(p, Prefix(op, Var(x)), Var(y)), [])
  {
    Prefixes(op);
    LevelIsRow(p, i);
    PrintsName(x, 14);
    PrintsName(y, 4 + i);
    var e := Prefix(op, Var(x));
    assert Prints(e, 3 + i, [P(op), Id(x)]) by {
      forall rest ensures Print(e, 3 + i, rest) == [P(op), Id(x)] + rest {
        assert Print(e, 3 + i, rest) == PrintBare(e, rest) == Cons(P(op), Print(Var(x), 14, rest));
      }
    }
    PrintsBinary(p, e, Var(y), i, 0, [P(op), Id(x)], [Id(y)]);
    assert [P(op), Id(x)] + [P(p)] + [Id(y)] == [P(op), Id(x), P(p), Id(y)];
    Reads(n, Binary(p, e, Var(y)), [P(op), Id(x), P(p), Id(y)]);
  }

  lemma {:induction false} PrintsAssign(op: Punct, l: Expr, r: Expr, min: nat, a: seq<Token>, b: seq<Token>)
    requires min <= 1 && Prints(l, 3, a) && Prints(r, 1, b)
    ensures Prints(Assign(op, l, r), min, a + [P(op)] + b)
  {
    forall rest ensures Print(Assign(op, l, r), min, rest) == a + [P(op)] + b + rest {
      assert Print(Assign(op, l, r), min, rest) == Print(l, 3, Cons(P(op), Print(r, 1, rest)));
      Joined(a, P(op), b, rest);
    }
  }

  /** An assignment takes all operators before it, and the next assignment on its right. */
  lemma {:induction false} AssignmentsToTheRight(n: Names, xs: seq<string>, ops: seq<Punct>, rows: seq<nat>, op: Punct,
      l: Expr, y: string, op': Punct, z: string)
    requires n.Valid() && IsChain(n, xs, ops, rows) && IsName(n, y) && IsName(n, z)
    requires op in ASSIGNMENTS && op' in ASSIGNMENTS && ParseExpression(n, Chain(xs, ops)) == Ok(l, [])
    ensures ParseExpression(n, Chain(xs, ops) + [P(op), Id(y), P(op'), Id(z)]) ==
      Ok(Assign(op, l, Assign(op', Var(y), Var(z))), [])
  {
    var c, e := Chain(xs, ops), Assign(op', Var(y), Var(z));
    AssignmentOperators(op, op');
    ChainPrints(n, xs, ops, rows, l);
    PrintsName(y, 3);
    PrintsName(z, 1);
    PrintsAssign(op', Var(y), Var(z), 1, [Id(y)], [Id(z)]);
    PrintsAssign(op, l, e, 0, c, [Id(y)] + [P(op')] + [Id(z)]);
    assert c + [P(op)] + ([Id(y)] + [P(op')] + [Id(z)]) == c + [P(op), Id(y), P(op'), Id(z)];
    Reads(n, Assign(op, l, e), c + [P(op), Id(y), P(op'), Id(z)]);
  }

  /** And all operators after it. */
  lemma {:induction false} OperatorsAfterAssignment(n: Names, xs: seq<string>, ops: seq<Punct>, rows: seq<nat>,
      x: string, op: Punct, r: Expr)
    requires n.Valid() && IsChain(n, xs, ops, rows) && IsName(n, x)
    requires op in ASSIGNMENTS && ParseExpression(n, Chain(xs, ops)) == Ok(r, [])
    ensures ParseExpression(n, [Id(x), P(op)] + Chain(xs, ops)) == Ok(Assign(op, Var(x), r), [])
  {
    AssignmentOperators(op, op);
    ChainPrints(n, xs, ops, rows, r);
    PrintsName(x, 3);
    PrintsAssign(op, Var(x), r, 0, [Id(x)], Chain(xs, ops));
    assert [Id(x)] + [P(op)] + Chain(xs, ops) == [Id(x), P(op)] + Chain(xs, ops);
    Reads(n, Assign(op, Var(x), r), [Id(x), P(op)] + Chain(xs, ops));
  }

  lemma {:induction false} AssignmentOperators(op: Punct, op': Punct)
    requires op in ASSIGNMENTS && op' in ASSIGNMENTS
    ensures IsAssign(op) && IsAssign(op')
  {
    Assignments(op);
    Assignments(op');
  }

  /** The tree a chain is read as prints to the chain. */
  lemma {:induction false} ChainPrints(n: Names, xs: seq<string>, ops: seq<Punct>, rows: seq<nat>, e: Expr)
    requires n.Valid() && IsChain(n, xs, ops, rows) && ParseExpression(n, Chain(xs, ops)) == Ok(e, [])
    ensures WellFormed(n, e) && forall min: nat :: min <= 3 ==> Prints(e, min, Chain(xs, ops))
  {
    var e' := TreeOf(n, xs, ops, rows);
    forall min: nat | min <= 3 ensures Prints(e', min, Chain(xs, ops)) { assert Tight(rows, min); }
    Reads(n, e', Chain(xs, ops));
  }

  lemma {:induction false} PrintsConditional(c: Expr, x: Expr, y: Expr, min: nat, a: seq<Token>, b: seq<Token>,
      d: seq<Token>)
    requires min <= 2 && Prints(c, 3, a) && Prints(x, 0, b) && Prints(y, 1, d)
    ensures Prints(Conditional(c, x, y), min, a + [P(Question)] + (b + [P(Colon)] + d))
  {
    forall rest ensures Print(Conditional(c, x, y), min, rest) == a + [P(Question)] + (b + [P(Colon)] + d) + rest {
      assert Print(Conditional(c, x, y), min, rest) ==
        Print(c, 3, Cons(P(Question), Print(x, 0, Cons(P(Colon), Print(y, 1, rest)))));
      Joined(b, P(Colon), d, rest);
      Joined(a, P(Question), b + [P(Colon)] + d, rest);
    }
  }

  /** A conditional takes all operators around it, and a second one is the last part of the first. */
  lemma {:induction false} ConditionalsToTheRight(n: Names, xs: seq<string>, ops: seq<Punct>, rows: seq<nat>, c: Expr,
      x: string, y: string)
    requires n.Valid() && IsChain(n, xs, ops, rows) && IsName(n, x) && IsName(n, y)
    requires ParseExpression(n, Chain(xs, ops)) == Ok(c, [])
    ensures var chain := Chain(xs, ops);
      ParseExpression(n, chain + [P(Question), Id(x), P(Colon)] + chain + [P(Question), Id(y), P(Colon)] + chain) ==
      Ok(Conditional(c, Var(x), Conditional(c, Var(y), c)), [])
  {
    var chain := Chain(xs, ops);
    ChainPrints(n, xs, ops, rows, c);
    PrintsName(x, 0);
    PrintsName(y, 0);
    var inner := chain + [P(Question)] + ([Id(y)] + [P(Colon)] + chain);
    PrintsConditional(c, Var(y), c, 1, chain, [Id(y)], chain);
    PrintsConditional(c, Var(x), Conditional(c, Var(y), c), 0, chain, [Id(x)], inner);
    assert chain + [P(Question)] + ([Id(x)] + [P(Colon)] + inner) ==
      chain + [P(Question), Id(x), P(Colon)] + chain + [P(Question), Id(y), P(Colon)] + chain;
    Reads(n, Conditional(c, Var(x), Conditional(c, Var(y), c)),
      chain + [P(Question), Id(x), P(Colon)] + chain + [P(Question), Id(y), P(Colon)] + chain);
  }
}
