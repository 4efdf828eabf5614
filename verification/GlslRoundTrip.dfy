/**
 Parsing what was printed gives the tree back, and every tree the parser builds prints to tokens it reads the
 same way.
 */
module GlslRoundTrip {
  import opened GlslSyntax

  /** No construct that binds at least as tightly as `min` goes on with this token. */
  predicate Ends(t: Token, min: nat) {
    t.P? ==>
      && !t.p.LParen? && !t.p.LBracket? && !t.p.Dot? && !t.p.Inc? && !t.p.Dec?
      && 3 + Level(t.p) < (if Level(t.p) >= 0 then min else 3)
      && (t.p.Question? ==> 2 < min) && (IsAssign(t.p) ==> 1 < min) && (t.p.Comma? ==> 0 < min)
  }

  /** How the tokens of an expression begin. */
  lemma {:induction false} Begins(n: Names, e: Expr, min: nat, rest: seq<Token>)
    requires n.Valid() && WellFormed(n, e)
    ensures |Print(e, min, rest)| > |rest| && !Print(e, min, rest)[0].Eof?
    ensures Print(e, min, rest)[0].P? ==>
      Print(e, min, rest)[0].p.LParen? || (min < 15 && IsPrefix(Print(e, min, rest)[0].p))
    ensures Print(e, min, rest)[0] == Id("void") ==> !At(Print(e, min, rest)[1..], RParen)
    decreases e, if Binding(e) < min then 1 else 0
  {
    if Binding(e) < min {
      Begins(n, e, 0, Cons(P(RParen), rest));
    } else {
      match e {
        case Call(c, args) =>
          var inside := Cons(P(LParen), PrintArgs(e, 0, Cons(P(RParen), rest)));
          ArgsLength(n, e, 0, Cons(P(RParen), rest));
          if c.ArrayOf? { Begins(n, c.len, 1, Cons(P(RBracket), inside)); }
        case Index(x, i) =>
          Begins(n, i, 0, Cons(P(RBracket), rest));
          Begins(n, x, 15, Cons(P(LBracket), Print(i, 0, Cons(P(RBracket), rest))));
        case Field(x, name) => Begins(n, x, 15, Cons(P(Dot), Cons(Id(name), rest)));
        case Length(x) => Begins(n, x, 15, Cons(P(Dot), Cons(Id("length"), Cons(P(LParen), Cons(P(RParen), rest)))));
        case Post(op, x) => Begins(n, x, 15, Cons(P(op), rest));
        case Prefix(op, x) => Begins(n, x, 14, rest);
        case Binary(op, l, r) =>
          Begins(n, r, Binding(e) + 1, rest);
          Begins(n, l, Binding(e), Cons(P(op), Print(r, Binding(e) + 1, rest)));
        case Conditional(c, a, b) =>
          Begins(n, b, 1, rest);
          Begins(n, a, 0, Cons(P(Colon), Print(b, 1, rest)));
          Begins(n, c, 3, Cons(P(Question), Print(a, 0, Cons(P(Colon), Print(b, 1, rest)))));
        case Assign(op, l, r) =>
          Begins(n, r, 1, rest);
          Begins(n, l, 3, Cons(P(op), Print(r, 1, rest)));
        case CommaPair(l, r) =>
          Begins(n, r, 1, rest);
          Begins(n, l, 0, Cons(P(Comma), Print(r, 1, rest)));
        case _ =>
      }
    }
  }

  lemma {:induction false} ArgsLength(n: Names, e: Expr, i: nat, rest: seq<Token>)
    requires n.Valid() && WellFormed(n, e) && e.Call? && i <= |e.args|
    ensures |PrintArgs(e, i, rest)| >= |rest|
    decreases e, 0, |e.args| - i
  {
    if i < |e.args| {
      ArgsLength(n, e, i + 1, rest);
      Begins(n, e.args[i], 1, if i + 1 < |e.args| then Cons(P(Comma), PrintArgs(e, i + 1, rest)) else rest);
    }
  }

  // ----- one lemma per level of the grammar

  lemma {:induction false} PrimaryBack(n: Names, e: Expr, rest: seq<Token>)
    requires n.Valid() && WellFormed(n, e) && !At(rest, LParen)
    ensures ParsePrimary(n, Print(e, 16, rest)) == Ok(e, rest)
    decreases e, if Binding(e) < 16 then 2 else 1, 4
  {
    if Binding(e) < 16 {
      ExpressionBack(n, e, Cons(P(RParen), rest));
    } else if e.Call? {
      CallBack(n, e, rest);
    }
  }

  lemma {:induction false} CallBack(n: Names, e: Expr, rest: seq<Token>)
    requires n.Valid() && WellFormed(n, e) && e.Call?
    ensures ParsePrimary(n, PrintBare(e, rest)) == Ok(e, rest)
    decreases e, 1, 3
  {
    var c, close := e.callee, Cons(P(RParen), rest);
    var inside := PrintArgs(e, 0, close);
    ArgumentsBack(n, e, rest);
    if c.ArrayOf? {
      AssignmentBack(n, c.len, Cons(P(RBracket), Cons(P(LParen), inside)));
    }
  }

  /** The whole of an argument list: none, or one after the other. */
  lemma {:induction false} ArgumentsBack(n: Names, e: Expr, rest: seq<Token>)
    requires n.Valid() && WellFormed(n, e) && e.Call?
    ensures WellFormedCallee(n, e.callee)
    ensures ParseCall(n, e.callee, PrintArgs(e, 0, Cons(P(RParen), rest))) == Ok(e, rest)
    decreases e, 1, 2
  {
    if e.args != [] {
      var close := Cons(P(RParen), rest);
      Begins(n, e.args[0], 1, if 1 < |e.args| then Cons(P(Comma), PrintArgs(e, 1, close)) else close);
      ArgsBack(n, e, 0, rest);
      assert e.args[..0] == [];
    }
  }

  lemma {:induction false} ArgsBack(n: Names, e: Expr, i: nat, rest: seq<Token>)
    requires n.Valid() && WellFormed(n, e) && e.Call? && WellFormedCallee(n, e.callee) && i < |e.args|
    ensures ParseArgs(n, e.callee, e.args[..i], PrintArgs(e, i, Cons(P(RParen), rest))) == Ok(e, rest)
    decreases e, 0, |e.args| - i
  {
    var close := Cons(P(RParen), rest);
    assert e.args[..i] + [e.args[i]] == e.args[..i + 1];
    if i + 1 < |e.args| {
      AssignmentBack(n, e.args[i], Cons(P(Comma), PrintArgs(e, i + 1, close)));
      ArgsBack(n, e, i + 1, rest);
    } else {
      AssignmentBack(n, e.args[i], close);
      assert e.args[..i + 1] == e.args;
    }
  }

  lemma {:induction false} PostfixBack(n: Names, e: Expr, rest: seq<Token>)
    requires n.Valid() && WellFormed(n, e) && !At(rest, LParen)
    ensures ParsePostfix(n, Print(e, 15, rest)) == PostfixLoop(n, e, rest)
    decreases e, if Binding(e) < 15 then 2 else 1, 5
  {
    match e {
      case Index(x, i) => IndexBack(n, e, rest);
      case Field(_, _) => FieldBack(n, e, rest);
      case Length(_) => LengthBack(n, e, rest);
      case Post(op, x) => PostfixBack(n, x, Cons(P(op), rest));
      case _ => PrimaryBack(n, e, rest);
    }
  }

  lemma {:induction false} IndexBack(n: Names, e: Expr, rest: seq<Token>)
    requires n.Valid() && WellFormed(n, e) && e.Index?
    ensures ParsePostfix(n, PrintBare(e, rest)) == PostfixLoop(n, e, rest)
    decreases e, 1, 4
  {
    PostfixBack(n, e.e, Cons(P(LBracket), Print(e.i, 0, Cons(P(RBracket), rest))));
    ExpressionBack(n, e.i, Cons(P(RBracket), rest));
  }

  lemma {:induction false} FieldBack(n: Names, e: Expr, rest: seq<Token>)
    requires n.Valid() && WellFormed(n, e) && e.Field? && !At(rest, LParen)
    ensures ParsePostfix(n, PrintBare(e, rest)) == PostfixLoop(n, e, rest)
    decreases e, 1, 4
  {
    var after := Cons(P(Dot), Cons(Id(e.name), rest));
    PostfixBack(n, e.e, after);
    assert after[2..] == rest;
  }

  lemma {:induction false} LengthBack(n: Names, e: Expr, rest: seq<Token>)
    requires n.Valid() && WellFormed(n, e) && e.Length?
    ensures ParsePostfix(n, PrintBare(e, rest)) == PostfixLoop(n, e, rest)
    decreases e, 1, 4
  {
    var after := Cons(P(Dot), Cons(Id("length"), Cons(P(LParen), Cons(P(RParen), rest))));
    PostfixBack(n, e.e, after);
    assert after[4..] == rest;
  }

  lemma {:induction false} UnaryBack(n: Names, e: Expr, rest: seq<Token>)
    requires n.Valid() && WellFormed(n, e) && Ends(Head(rest), 14)
    ensures ParseUnary(n, Print(e, 14, rest)) == Ok(e, rest)
    decreases e, if Binding(e) < 14 then 2 else 1, 6
  {
    if e.Prefix? {
      UnaryBack(n, e.e, rest);
    } else {
      Begins(n, e, 15, rest);
      PostfixBack(n, e, rest);
    }
  }

  lemma {:induction false} BinaryBack(n: Names, k: nat, e: Expr, rest: seq<Token>)
    requires n.Valid() && WellFormed(n, e) && k <= 11 && Ends(Head(rest), 3 + (if k < 11 then k + 1 else k))
    ensures ParseBinary(n, k, Print(e, 3 + k, rest)) == if k < 11 then BinaryLoop(n, k, e, rest) else Ok(e, rest)
    decreases e, if Binding(e) < 3 + k then 2 else 1, 29 - 2 * k
  {
    if k == 11 {
      UnaryBack(n, e, rest);
    } else if e.Binary? && Level(e.op) == k {
      OperandsBack(n, k, e, rest);
    } else {
      BinaryDone(n, k + 1, e, rest);
    }
  }

  lemma {:induction false} OperandsBack(n: Names, k: nat, e: Expr, rest: seq<Token>)
    requires n.Valid() && WellFormed(n, e) && k < 11 && e.Binary? && Level(e.op) == k && Ends(Head(rest), 4 + k)
    ensures ParseBinary(n, k, Print(e, 3 + k, rest)) == BinaryLoop(n, k, e, rest)
    decreases e, 1, 28 - 2 * k
  {
    var after := Cons(P(e.op), Print(e.r, 4 + k, rest));
    BinaryBack(n, k, e.l, after);
    BinaryDone(n, k + 1, e.r, rest);
  }

  /** The loop of the level stops as well. */
  lemma {:induction false} BinaryDone(n: Names, k: nat, e: Expr, rest: seq<Token>)
    requires n.Valid() && WellFormed(n, e) && k <= 11 && Ends(Head(rest), 3 + k)
    ensures ParseBinary(n, k, Print(e, 3 + k, rest)) == Ok(e, rest)
    decreases e, if Binding(e) < 3 + k then 2 else 1, 30 - 2 * k
  {
    BinaryBack(n, k, e, rest);
  }

  lemma {:induction false} ConditionalBack(n: Names, e: Expr, rest: seq<Token>)
    requires n.Valid() && WellFormed(n, e) && Ends(Head(rest), 2)
    ensures ParseConditional(n, Print(e, 3, rest)) == Ok(e, rest)
    decreases e, if Binding(e) < 3 then 2 else 1, 31
  {
    BinaryDone(n, 0, e, rest);
  }

  lemma {:induction false} AssignmentBack(n: Names, e: Expr, rest: seq<Token>)
    requires n.Valid() && WellFormed(n, e) && Ends(Head(rest), 1)
    ensures ParseAssignment(n, Print(e, 1, rest)) == Ok(e, rest)
    decreases e, if Binding(e) < 1 then 2 else 1, 32
  {
    match e {
      case Assign(op, l, r) =>
        ConditionalBack(n, l, Cons(P(op), Print(r, 1, rest)));
        AssignmentBack(n, r, rest);
      case Conditional(_, _, _) => BranchesBack(n, e, rest);
      case _ => ConditionalBack(n, e, rest);
    }
  }

  lemma {:induction false} BranchesBack(n: Names, e: Expr, rest: seq<Token>)
    requires n.Valid() && WellFormed(n, e) && e.Conditional? && Ends(Head(rest), 1)
    ensures ParseConditional(n, PrintBare(e, rest)) == Ok(e, rest)
    decreases e, 1, 31
  {
    var last := Print(e.b, 1, rest);
    var middle := Print(e.a, 0, Cons(P(Colon), last));
    BinaryDone(n, 0, e.c, Cons(P(Question), middle));
    ExpressionBack(n, e.a, Cons(P(Colon), last));
    AssignmentBack(n, e.b, rest);
    BranchesRead(n, PrintBare(e, rest), e, middle, last, rest);
  }

  lemma {:induction false} BranchesRead(n: Names, toks: seq<Token>, e: Expr, middle: seq<Token>, last: seq<Token>,
      rest: seq<Token>)
    requires n.Valid() && e.Conditional? && ParseBinary(n, 0, toks) == Ok(e.c, Cons(P(Question), middle))
    requires ParseExpression(n, middle) == Ok(e.a, Cons(P(Colon), last)) && ParseAssignment(n, last) == Ok(e.b, rest)
    ensures ParseConditional(n, toks) == Ok(e, rest)
  {
  }

  lemma {:induction false} ExpressionBack(n: Names, e: Expr, rest: seq<Token>)
    requires n.Valid() && WellFormed(n, e) && Ends(Head(rest), 0)
    ensures ParseExpression(n, Print(e, 0, rest)) == Ok(e, rest)
    decreases e, 1, 34
  {
    CommaBack(n, e, rest);
  }

  lemma {:induction false} CommaBack(n: Names, e: Expr, rest: seq<Token>)
    requires n.Valid() && WellFormed(n, e) && Ends(Head(rest), 1)
    ensures ParseExpression(n, Print(e, 0, rest)) == CommaLoop(n, e, rest)
    decreases e, 1, 33
  {
    if e.CommaPair? {
      CommaBack(n, e.l, Cons(P(Comma), Print(e.r, 1, rest)));
      AssignmentBack(n, e.r, rest);
    } else {
      AssignmentBack(n, e, rest);
    }
  }
}
