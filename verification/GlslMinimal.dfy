/** What printing means on its own, and that no token list that parses to a tree is shorter than the printed one. */
module GlslMinimal {
  import opened GlslSyntax
  import opened GlslRoundTrip

  lemma {:induction false} ConsAppend(t: Token, s: seq<Token>, more: seq<Token>)
    ensures Cons(t, s + more) == Cons(t, s) + more
  {
  }

  /** Printing puts tokens in front of what follows and does not look at it. */
  lemma {:induction false} PrintAppends(e: Expr, min: nat, rest: seq<Token>, more: seq<Token>)
    ensures Print(e, min, rest + more) == Print(e, min, rest) + more
    decreases e, 3
  {
    if Binding(e) >= min {
      BareAppends(e, rest, more);
    } else {
      ConsAppend(P(RParen), rest, more);
      BareAppends(e, Cons(P(RParen), rest), more);
      ConsAppend(P(LParen), PrintBare(e, Cons(P(RParen), rest)), more);
    }
  }

  /** Two operands with a token between them. */
  lemma {:induction false} PairAppends(e: Expr, x: Expr, m: nat, t: Token, y: Expr, k: nat, rest: seq<Token>,
      more: seq<Token>)
    requires x < e && y < e
    ensures Print(x, m, Cons(t, Print(y, k, rest + more))) == Print(x, m, Cons(t, Print(y, k, rest))) + more
    decreases e, 0
  {
    PrintAppends(y, k, rest, more);
    ConsAppend(t, Print(y, k, rest), more);
    PrintAppends(x, m, Cons(t, Print(y, k, rest)), more);
  }

  lemma {:induction false} BareAppends(e: Expr, rest: seq<Token>, more: seq<Token>)
    ensures PrintBare(e, rest + more) == PrintBare(e, rest) + more
    decreases e, 2
  {
    match e {
      case Call(c, args) => CallAppends(e, rest, more);
      case Index(x, i) =>
        ConsAppend(P(RBracket), rest, more);
        PairAppends(e, x, 15, P(LBracket), i, 0, Cons(P(RBracket), rest), more);
      case Field(x, name) =>
        ConsAppend(Id(name), rest, more);
        ConsAppend(P(Dot), Cons(Id(name), rest), more);
        PrintAppends(x, 15, Cons(P(Dot), Cons(Id(name), rest)), more);
      case Length(x) =>
        ConsAppend(P(RParen), rest, more);
        ConsAppend(P(LParen), Cons(P(RParen), rest), more);
        ConsAppend(Id("length"), Cons(P(LParen), Cons(P(RParen), rest)), more);
        ConsAppend(P(Dot), Cons(Id("length"), Cons(P(LParen), Cons(P(RParen), rest))), more);
        PrintAppends(x, 15, Cons(P(Dot), Cons(Id("length"), Cons(P(LParen), Cons(P(RParen), rest)))), more);
      case Post(op, x) =>
        ConsAppend(P(op), rest, more);
        PrintAppends(x, 15, Cons(P(op), rest), more);
      case Prefix(op, x) => PrintAppends(x, 14, rest, more);
      case Binary(op, l, r) => PairAppends(e, l, Binding(e), P(op), r, Binding(e) + 1, rest, more);
      case Conditional(c, a, b) => BranchesAppend(e, rest, more);
      case Assign(op, l, r) => PairAppends(e, l, 3, P(op), r, 1, rest, more);
      case CommaPair(l, r) => PairAppends(e, l, 0, P(Comma), r, 1, rest, more);
      case _ =>
    }
  }

  lemma {:induction false} CallAppends(e: Expr, rest: seq<Token>, more: seq<Token>)
    requires e.Call?
    ensures PrintBare(e, rest + more) == PrintBare(e, rest) + more
    decreases e, 1
  {
    var c, close := e.callee, Cons(P(RParen), rest);
    ConsAppend(P(RParen), rest, more);
    ArgsAppend(e, 0, close, more);
    ConsAppend(P(LParen), PrintArgs(e, 0, close), more);
    var inside := Cons(P(LParen), PrintArgs(e, 0, close));
    if c.ArrayOf? {
      ConsAppend(P(RBracket), inside, more);
      PrintAppends(c.len, 1, Cons(P(RBracket), inside), more);
      ConsAppend(P(LBracket), Print(c.len, 1, Cons(P(RBracket), inside)), more);
      ConsAppend(Id(c.name), Cons(P(LBracket), Print(c.len, 1, Cons(P(RBracket), inside))), more);
    } else {
      ConsAppend(Id(c.name), inside, more);
    }
  }

  lemma {:induction false} BranchesAppend(e: Expr, rest: seq<Token>, more: seq<Token>)
    requires e.Conditional?
    ensures PrintBare(e, rest + more) == PrintBare(e, rest) + more
    decreases e, 1
  {
    PairAppends(e, e.a, 0, P(Colon), e.b, 1, rest, more);
    var tail := Print(e.a, 0, Cons(P(Colon), Print(e.b, 1, rest)));
    ConsAppend(P(Question), tail, more);
    PrintAppends(e.c, 3, Cons(P(Question), tail), more);
  }

  lemma {:induction false} ArgsAppend(e: Expr, i: nat, rest: seq<Token>, more: seq<Token>)
    requires e.Call? && i <= |e.args|
    ensures PrintArgs(e, i, rest + more) == PrintArgs(e, i, rest) + more
    decreases e, 0, |e.args| - i
  {
    if i < |e.args| {
      ArgsAppend(e, i + 1, rest, more);
      if i + 1 < |e.args| { ConsAppend(P(Comma), PrintArgs(e, i + 1, rest), more); }
      PrintAppends(e.args[i], 1, if i + 1 < |e.args| then Cons(P(Comma), PrintArgs(e, i + 1, rest)) else rest, more);
    }
  }

  // ----- how many tokens

  function Count(e: Expr, min: nat): nat {
    |Print(e, min, [])|
  }

  lemma {:induction false} Counted(e: Expr, min: nat, rest: seq<Token>)
    ensures |Print(e, min, rest)| == Count(e, min) + |rest|
  {
    PrintAppends(e, min, [], rest);
    assert [] + rest == rest;
  }

  /** More parentheses for a tighter place, never fewer. */
  lemma {:induction false} CountGrows(e: Expr, min: nat, min': nat)
    requires min <= min'
    ensures Count(e, min) <= Count(e, min') <= Count(e, 0) + 2
  {
    BareAppends(e, [], [P(RParen)]);
    assert Cons(P(RParen), []) == [] + [P(RParen)];
  }

  lemma {:induction false} CountPair(x: Expr, m: nat, t: Token, y: Expr, k: nat, rest: seq<Token>)
    ensures |Print(x, m, Cons(t, Print(y, k, rest)))| == Count(x, m) + 1 + Count(y, k) + |rest|
  {
    Counted(y, k, rest);
    Counted(x, m, Cons(t, Print(y, k, rest)));
  }

  /** The arguments with the commas between them. */
  function ArgsCount(args: seq<Expr>): nat {
    if |args| == 0 then 0 else if |args| == 1 then Count(args[0], 1) else Count(args[0], 1) + 1 + ArgsCount(args[1..])
  }

  lemma {:induction false} ArgsCounted(e: Expr, i: nat, rest: seq<Token>)
    requires e.Call? && i <= |e.args|
    ensures |PrintArgs(e, i, rest)| == ArgsCount(e.args[i..]) + |rest|
    decreases |e.args| - i
  {
    if i < |e.args| {
      ArgsCounted(e, i + 1, rest);
      assert e.args[i..][1..] == e.args[i + 1..];
      Counted(e.args[i], 1, if i + 1 < |e.args| then Cons(P(Comma), PrintArgs(e, i + 1, rest)) else rest);
    }
  }

  lemma {:induction false} ArgsCountSnoc(args: seq<Expr>, a: Expr)
    ensures ArgsCount(args + [a]) == ArgsCount(args) + (if args == [] then 0 else 1) + Count(a, 1)
    decreases |args|
  {
    if args != [] {
      ArgsCountSnoc(args[1..], a);
      assert (args + [a])[1..] == args[1..] + [a];
    }
  }

  function CalleeCount(c: Callee): nat {
    if c.ArrayOf? then 3 + Count(c.len, 1) else 1
  }

  /** The tokens of a construct in terms of those of its parts. */
  function Parts(e: Expr): nat {
    match e
    case Call(c, args) => CalleeCount(c) + 2 + ArgsCount(args)
    case Index(x, i) => Count(x, 15) + 1 + Count(i, 0) + 1
    case Field(x, _) => Count(x, 15) + 2
    case Length(x) => Count(x, 15) + 4
    case Post(_, x) => Count(x, 15) + 1
    case Prefix(_, x) => 1 + Count(x, 14)
    case Binary(_, l, r) => Count(l, Binding(e)) + 1 + Count(r, Binding(e) + 1)
    case Conditional(c, a, b) => Count(c, 3) + 1 + Count(a, 0) + 1 + Count(b, 1)
    case Assign(_, l, r) => Count(l, 3) + 1 + Count(r, 1)
    case CommaPair(l, r) => Count(l, 0) + 1 + Count(r, 1)
    case _ => 1
  }

  lemma {:induction false} PartsCounted(e: Expr)
    ensures Count(e, Binding(e)) == Parts(e)
  {
    assert Print(e, Binding(e), []) == PrintBare(e, []);
    match e {
      case Call(c, args) => CountCall(e);
      case Index(x, i) => CountPair(x, 15, P(LBracket), i, 0, Cons(P(RBracket), []));
      case Field(x, name) => Counted(x, 15, Cons(P(Dot), Cons(Id(name), [])));
      case Length(x) => Counted(x, 15, Cons(P(Dot), Cons(Id("length"), Cons(P(LParen), Cons(P(RParen), [])))));
      case Post(op, x) => Counted(x, 15, Cons(P(op), []));
      case Prefix(_, _) =>
      case Binary(op, l, r) => CountPair(l, Binding(e), P(op), r, Binding(e) + 1, []);
      case Conditional(c, a, b) =>
        CountPair(a, 0, P(Colon), b, 1, []);
        Counted(c, 3, Cons(P(Question), Print(a, 0, Cons(P(Colon), Print(b, 1, [])))));
      case Assign(op, l, r) => CountPair(l, 3, P(op), r, 1, []);
      case CommaPair(l, r) => CountPair(l, 0, P(Comma), r, 1, []);
      case _ =>
    }
  }

  lemma {:induction false} CountCall(e: Expr)
    requires e.Call?
    ensures |PrintBare(e, [])| == CalleeCount(e.callee) + 2 + ArgsCount(e.args)
  {
    var c, close := e.callee, Cons(P(RParen), []);
    var inside := Cons(P(LParen), PrintArgs(e, 0, close));
    ArgsCounted(e, 0, close);
    assert e.args[0..] == e.args;
    if c.ArrayOf? {
      Counted(c.len, 1, Cons(P(RBracket), inside));
      assert PrintBare(e, []) == Cons(Id(c.name), Cons(P(LBracket), Print(c.len, 1, Cons(P(RBracket), inside))));
    } else {
      assert PrintBare(e, []) == Cons(Id(c.name), inside);
    }
  }

  // ----- no shorter way to write it, level by level

  ghost predicate NotLonger(r: Parsed<Expr>, min: nat, length: nat) {
    r.Ok? ==> Count(r.value, min) + |r.rest| <= length
  }

  lemma {:induction false} PrimaryShort(n: Names, toks: seq<Token>)
    requires n.Valid()
    ensures NotLonger(ParsePrimary(n, toks), 16, |toks|)
    decreases |toks|, 0
  {
    match Head(toks) {
      case Num(v, kind) => PartsCounted(Number(v, kind));
      case Id(name) =>
        PartsCounted(Bool(name == "true"));
        PartsCounted(Var(name));
        if name == "true" || name == "false" {
        } else if name in n.types {
          ConstructorShort(n, name, toks[1..]);
        } else if name !in n.keywords && At(toks[1..], LParen) {
          CallShort(n, Function(name), toks[2..]);
        }
      case P(p) =>
        if p == LParen {
          ExpressionShort(n, toks[1..]);
          var e := ParseExpression(n, toks[1..]);
          if e.Ok? { CountGrows(e.value, 0, 16); }
        }
      case _ =>
    }
  }

  lemma {:induction false} ConstructorShort(n: Names, name: string, toks: seq<Token>)
    requires n.Valid() && name in n.types && name != "true" && name != "false"
    ensures NotLonger(ParseConstructor(n, name, toks), 16, |toks| + 1)
    decreases |toks|, 21
  {
    if At(toks, LBracket) {
      AssignmentShort(n, toks[1..]);
      var len := ParseAssignment(n, toks[1..]);
      if len.Ok? && At(len.rest, RBracket) && At(len.rest[1..], LParen) {
        CallShort(n, ArrayOf(name, len.value), len.rest[2..]);
      }
    } else if At(toks, LParen) {
      CallShort(n, Type(name), toks[1..]);
    }
  }

  lemma {:induction false} CallShort(n: Names, c: Callee, toks: seq<Token>)
    requires n.Valid() && WellFormedCallee(n, c)
    ensures NotLonger(ParseCall(n, c, toks), 16, CalleeCount(c) + 1 + |toks|)
    decreases |toks|, 21
  {
    PartsCounted(Call(c, []));
    if !(Head(toks) == Id("void") && At(toks[1..], RParen)) && !At(toks, RParen) { ArgsShort(n, c, [], toks); }
  }

  lemma {:induction false} ArgsShort(n: Names, c: Callee, args: seq<Expr>, toks: seq<Token>)
    requires n.Valid() && WellFormedCallee(n, c) && forall i :: 0 <= i < |args| ==> WellFormed(n, args[i])
    ensures NotLonger(ParseArgs(n, c, args, toks), 16,
      CalleeCount(c) + 1 + ArgsCount(args) + (if args == [] then 0 else 1) + |toks|)
    decreases |toks|, 20
  {
    AssignmentShort(n, toks);
    var a := ParseAssignment(n, toks);
    if a.Ok? {
      ArgsCountSnoc(args, a.value);
      if At(a.rest, Comma) {
        ArgsShort(n, c, args + [a.value], a.rest[1..]);
      } else if At(a.rest, RParen) {
        PartsCounted(Call(c, args + [a.value]));
      }
    }
  }

  lemma {:induction false} PostfixShort(n: Names, toks: seq<Token>)
    requires n.Valid()
    ensures NotLonger(ParsePostfix(n, toks), 15, |toks|)
    decreases |toks|, 1
  {
    PrimaryShort(n, toks);
    var e := ParsePrimary(n, toks);
    if e.Ok? {
      CountGrows(e.value, 15, 16);
      PostfixLoopShort(n, e.value, e.rest);
    }
  }

  lemma {:induction false} PostfixLoopShort(n: Names, e: Expr, toks: seq<Token>)
    requires n.Valid() && WellFormed(n, e)
    ensures NotLonger(PostfixLoop(n, e, toks), 15, Count(e, 15) + |toks|)
    decreases |toks|, 0
  {
    if At(toks, LBracket) {
      ExpressionShort(n, toks[1..]);
      var i := ParseExpression(n, toks[1..]);
      if i.Ok? && At(i.rest, RBracket) {
        PartsCounted(Index(e, i.value));
        PostfixLoopShort(n, Index(e, i.value), i.rest[1..]);
      }
    } else if At(toks, Dot) {
      if Head(toks[1..]).Id? { DotShort(n, e, toks); }
    } else if At(toks, Inc) || At(toks, Dec) {
      PartsCounted(Post(toks[0].p, e));
      PostfixLoopShort(n, Post(toks[0].p, e), toks[1..]);
    }
  }

  lemma {:induction false} DotShort(n: Names, e: Expr, toks: seq<Token>)
    requires n.Valid() && WellFormed(n, e) && At(toks, Dot) && Head(toks[1..]).Id?
    ensures NotLonger(PostfixLoop(n, e, toks), 15, Count(e, 15) + |toks|)
    decreases |toks| - 1, 1
  {
    if toks[1] == Id("length") && At(toks[2..], LParen) {
      if At(toks[3..], RParen) {
        PartsCounted(Length(e));
        PostfixLoopShort(n, Length(e), toks[4..]);
      }
    } else {
      PartsCounted(Field(e, toks[1].name));
      PostfixLoopShort(n, Field(e, toks[1].name), toks[2..]);
    }
  }

  lemma {:induction false} UnaryShort(n: Names, toks: seq<Token>)
    requires n.Valid()
    ensures NotLonger(ParseUnary(n, toks), 14, |toks|)
    decreases |toks|, 2
  {
    if Head(toks).P? && IsPrefix(toks[0].p) {
      UnaryShort(n, toks[1..]);
      var e := ParseUnary(n, toks[1..]);
      if e.Ok? { PartsCounted(Prefix(toks[0].p, e.value)); }
    } else {
      PostfixShort(n, toks);
      var e := ParsePostfix(n, toks);
      if e.Ok? { CountGrows(e.value, 14, 15); }
    }
  }

  lemma {:induction false} BinaryShort(n: Names, k: nat, toks: seq<Token>)
    requires n.Valid() && k <= 11
    ensures NotLonger(ParseBinary(n, k, toks), 3 + k, |toks|)
    decreases |toks|, 14 - k
  {
    if k == 11 {
      UnaryShort(n, toks);
    } else {
      BinaryShort(n, k + 1, toks);
      var l := ParseBinary(n, k + 1, toks);
      if l.Ok? {
        CountGrows(l.value, 3 + k, 4 + k);
        BinaryLoopShort(n, k, l.value, l.rest);
      }
    }
  }

  lemma {:induction false} BinaryLoopShort(n: Names, k: nat, l: Expr, toks: seq<Token>)
    requires n.Valid() && k < 11 && WellFormed(n, l)
    ensures NotLonger(BinaryLoop(n, k, l, toks), 3 + k, Count(l, 3 + k) + |toks|)
    decreases |toks|, 0
  {
    if Head(toks).P? && Level(toks[0].p) == k {
      BinaryShort(n, k + 1, toks[1..]);
      var r := ParseBinary(n, k + 1, toks[1..]);
      if r.Ok? {
        PartsCounted(Binary(toks[0].p, l, r.value));
        BinaryLoopShort(n, k, Binary(toks[0].p, l, r.value), r.rest);
      }
    }
  }

  predicate AtAssign(toks: seq<Token>) {
    Head(toks).P? && IsAssign(toks[0].p)
  }

  /** A conditional is never followed by an assignment operator: its last branch has taken it. */
  lemma {:induction false} ConditionalShort(n: Names, toks: seq<Token>)
    requires n.Valid()
    ensures NotLonger(ParseConditional(n, toks), 2, |toks|)
    ensures var r := ParseConditional(n, toks); r.Ok? && AtAssign(r.rest) ==> NotLonger(r, 3, |toks|)
    decreases |toks|, 15
  {
    BinaryShort(n, 0, toks);
    var c := ParseBinary(n, 0, toks);
    if c.Ok? {
      CountGrows(c.value, 2, 3);
      if At(c.rest, Question) { BranchesShort(n, c.value, c.rest[1..]); }
    }
  }

  lemma {:induction false} BranchesShort(n: Names, c: Expr, toks: seq<Token>)
    requires n.Valid()
    ensures var a := ParseExpression(n, toks); a.Ok? && At(a.rest, Colon) ==>
      var b := ParseAssignment(n, a.rest[1..]);
      b.Ok? ==> Count(Conditional(c, a.value, b.value), 2) + |b.rest| <= Count(c, 3) + 1 + |toks| && !AtAssign(b.rest)
    decreases |toks|, 22
  {
    ExpressionShort(n, toks);
    var a := ParseExpression(n, toks);
    if a.Ok? && At(a.rest, Colon) {
      AssignmentShort(n, a.rest[1..]);
      var b := ParseAssignment(n, a.rest[1..]);
      if b.Ok? { PartsCounted(Conditional(c, a.value, b.value)); }
    }
  }

  lemma {:induction false} AssignmentShort(n: Names, toks: seq<Token>)
    requires n.Valid()
    ensures NotLonger(ParseAssignment(n, toks), 1, |toks|)
    ensures var r := ParseAssignment(n, toks); r.Ok? ==> !AtAssign(r.rest)
    decreases |toks|, 16
  {
    ConditionalShort(n, toks);
    var l := ParseConditional(n, toks);
    if l.Ok? {
      CountGrows(l.value, 1, 2);
      if AtAssign(l.rest) {
        AssignmentShort(n, l.rest[1..]);
        var r := ParseAssignment(n, l.rest[1..]);
        if r.Ok? { PartsCounted(Assign(l.rest[0].p, l.value, r.value)); }
      }
    }
  }

  lemma {:induction false} ExpressionShort(n: Names, toks: seq<Token>)
    requires n.Valid()
    ensures NotLonger(ParseExpression(n, toks), 0, |toks|)
    decreases |toks|, 17
  {
    AssignmentShort(n, toks);
    var e := ParseAssignment(n, toks);
    if e.Ok? {
      CountGrows(e.value, 0, 1);
      CommaLoopShort(n, e.value, e.rest);
    }
  }

  lemma {:induction false} CommaLoopShort(n: Names, e: Expr, toks: seq<Token>)
    requires n.Valid() && WellFormed(n, e)
    ensures NotLonger(CommaLoop(n, e, toks), 0, Count(e, 0) + |toks|)
    decreases |toks|, 0
  {
    if At(toks, Comma) {
      AssignmentShort(n, toks[1..]);
      var r := ParseAssignment(n, toks[1..]);
      if r.Ok? {
        PartsCounted(CommaPair(e, r.value));
        CommaLoopShort(n, CommaPair(e, r.value), r.rest);
      }
    }
  }

  // ----- the results

  /** Parsing a printed tree gives the tree and consumes exactly the printed tokens. */
  lemma {:induction false} ParseOfPrint(n: Names, e: Expr, rest: seq<Token>)
    requires n.Valid() && WellFormed(n, e) && Ends(Head(rest), 0)
    ensures ParseExpression(n, Print(e, 0, []) + rest) == Ok(e, rest)
  {
    PrintAppends(e, 0, [], rest);
    assert [] + rest == rest;
    ExpressionBack(n, e, rest);
  }

  /** Whatever the tokens, the tree they parse to prints to tokens that parse to the same tree, and
      there are no more of these than were consumed. */
  lemma {:induction false} PrintOfParse(n: Names, toks: seq<Token>)
    requires n.Valid() && ParseExpression(n, toks).Ok?
    ensures var r := ParseExpression(n, toks);
      ParseExpression(n, Print(r.value, 0, [])) == Ok(r.value, []) && |Print(r.value, 0, [])| <= |toks| - |r.rest|
  {
    ExpressionShort(n, toks);
    ExpressionBack(n, ParseExpression(n, toks).value, []);
  }

  /** Two trees that print alike are the same tree. */
  lemma {:induction false} PrintInjective(n: Names, e: Expr, f: Expr)
    requires n.Valid() && WellFormed(n, e) && WellFormed(n, f) && Print(e, 0, []) == Print(f, 0, [])
    ensures e == f
  {
    ExpressionBack(n, e, []);
    ExpressionBack(n, f, []);
  }
}
