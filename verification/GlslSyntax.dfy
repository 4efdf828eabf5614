/**
 The expression grammar of the shader compiler: tokens, syntax trees, the recursive-descent parser as
 functions from the tokens ahead, and printing with only the parentheses that are needed.
 */
module GlslSyntax {

  datatype Punct =
    | LParen | RParen | LBracket | RBracket | LBrace | RBrace | Dot | Comma | Semicolon | Question | Colon
    | Inc | Dec | Bang | Tilde
    | BarBar | CaretCaret | AmpAmp | Bar | Caret | Amp | EqEq | BangEq | Less | Greater | LessEq | GreaterEq
    | Shl | Shr | Plus | Minus | Star | Slash | Percent
    | Set | PlusSet | MinusSet | StarSet | SlashSet | PercentSet | ShlSet | ShrSet | AmpSet | BarSet | CaretSet

  datatype NumberKind = Float | Int | Uint

  datatype Token = Num(v: real, kind: NumberKind) | Id(name: string) | P(p: Punct) | Eof

  datatype Callee = Function(name: string) | Type(name: string) | ArrayOf(name: string, len: Expr)

  datatype Expr =
    | Number(v: real, kind: NumberKind)
    | Bool(value: bool)
    | Var(name: string)
    | Call(callee: Callee, args: seq<Expr>)
    | Index(e: Expr, i: Expr)
    | Field(e: Expr, name: string)
    | Length(e: Expr)
    | Post(op: Punct, e: Expr)
    | Prefix(op: Punct, e: Expr)
    | Binary(op: Punct, l: Expr, r: Expr)
    | Conditional(c: Expr, a: Expr, b: Expr)
    | Assign(op: Punct, l: Expr, r: Expr)
    | CommaPair(l: Expr, r: Expr)

  /** The names that stand for types and those that cannot be identifiers. */
  datatype Names = Names(types: set<string>, keywords: set<string>) {
    predicate Valid() {
      "true" in keywords && "false" in keywords && "void" in types
    }

    predicate Plain(name: string) {
      name !in types && name !in keywords
    }
  }

  /** The binary operators by level, loosest first; -1 for anything else. */
  function Level(p: Punct): (k: int)
    ensures -1 <= k < 11
  {
    match p
    case BarBar => 0
    case CaretCaret => 1
    case AmpAmp => 2
    case Bar => 3
    case Caret => 4
    case Amp => 5
    case EqEq | BangEq => 6
    case Less | Greater | LessEq | GreaterEq => 7
    case Shl | Shr => 8
    case Plus | Minus => 9
    case Star | Slash | Percent => 10
    case _ => -1
  }

  predicate IsAssign(p: Punct) {
    p.Set? || p.PlusSet? || p.MinusSet? || p.StarSet? || p.SlashSet? || p.PercentSet? || p.ShlSet? || p.ShrSet?
    || p.AmpSet? || p.BarSet? || p.CaretSet?
  }

  predicate IsPrefix(p: Punct) {
    p.Plus? || p.Minus? || p.Bang? || p.Tilde? || p.Inc? || p.Dec?
  }

  // ----- the parser

  datatype Parsed<T> = Ok(value: T, rest: seq<Token>) | SyntaxError

  function Head(toks: seq<Token>): Token {
    if toks == [] then Eof else toks[0]
  }

  predicate At(toks: seq<Token>, p: Punct) {
    Head(toks) == P(p)
  }

  /** What the parser can build. */
  predicate WellFormed(n: Names, e: Expr) {
    match e
    case Number(_, _) => true
    case Bool(_) => true
    case Var(name) => n.Plain(name)
    case Call(callee, args) =>
      && (callee.Function? ==> n.Plain(callee.name))
      && (!callee.Function? ==> callee.name in n.types && callee.name != "true" && callee.name != "false")
      && (callee.ArrayOf? ==> WellFormed(n, callee.len))
      && forall i :: 0 <= i < |args| ==> WellFormed(n, args[i])
    case Index(x, i) => WellFormed(n, x) && WellFormed(n, i)
    case Field(x, _) => WellFormed(n, x)
    case Length(x) => WellFormed(n, x)
    case Post(op, x) => (op.Inc? || op.Dec?) && WellFormed(n, x)
    case Prefix(op, x) => IsPrefix(op) && WellFormed(n, x)
    case Binary(op, l, r) => Level(op) >= 0 && WellFormed(n, l) && WellFormed(n, r)
    case Conditional(c, a, b) => WellFormed(n, c) && WellFormed(n, a) && WellFormed(n, b)
    case Assign(op, l, r) => IsAssign(op) && WellFormed(n, l) && WellFormed(n, r)
    case CommaPair(l, r) => WellFormed(n, l) && WellFormed(n, r)
  }

  ghost predicate Good(n: Names, r: Parsed<Expr>, toks: seq<Token>) {
    r.Ok? ==> WellFormed(n, r.value) && |r.rest| < |toks|
  }

  function ParsePrimary(n: Names, toks: seq<Token>): (r: Parsed<Expr>)
    requires n.Valid()
    ensures Good(n, r, toks)
    decreases |toks|, 0
  {
    match Head(toks)
    case Num(v, kind) => Ok(Number(v, kind), toks[1..])
    case Id(name) =>
      if name == "true" || name == "false" then Ok(Bool(name == "true"), toks[1..])
      else if name in n.types then ParseConstructor(n, name, toks[1..])
      else if name in n.keywords then SyntaxError
      else if At(toks[1..], LParen) then ParseCall(n, Function(name), toks[2..])
      else Ok(Var(name), toks[1..])
    case P(p) =>
      if p == LParen then
        var e := ParseExpression(n, toks[1..]);
        if e.Ok? && At(e.rest, RParen) then Ok(e.value, e.rest[1..]) else SyntaxError
      else SyntaxError
    case Eof => SyntaxError
  }

  /** After the name of a type. */
  function ParseConstructor(n: Names, name: string, toks: seq<Token>): (r: Parsed<Expr>)
    requires n.Valid() && name in n.types && name != "true" && name != "false"
    ensures Good(n, r, toks)
    decreases |toks|, 21
  {
    if At(toks, LBracket) then
      var len := ParseAssignment(n, toks[1..]);
      if len.Ok? && At(len.rest, RBracket) && At(len.rest[1..], LParen)
      then ParseCall(n, ArrayOf(name, len.value), len.rest[2..])
      else SyntaxError
    else if At(toks, LParen) then ParseCall(n, Type(name), toks[1..])
    else SyntaxError
  }

  predicate WellFormedCallee(n: Names, c: Callee) {
    WellFormed(n, Call(c, []))
  }

  /** After the opening parenthesis of an argument list. */
  function ParseCall(n: Names, c: Callee, toks: seq<Token>): (r: Parsed<Expr>)
    requires n.Valid() && WellFormedCallee(n, c)
    ensures Good(n, r, toks)
    decreases |toks|, 21
  {
    if Head(toks) == Id("void") && At(toks[1..], RParen) then Ok(Call(c, []), toks[2..])
    else if At(toks, RParen) then Ok(Call(c, []), toks[1..])
    else ParseArgs(n, c, [], toks)
  }

  function ParseArgs(n: Names, c: Callee, args: seq<Expr>, toks: seq<Token>): (r: Parsed<Expr>)
    requires n.Valid() && WellFormedCallee(n, c) && forall i :: 0 <= i < |args| ==> WellFormed(n, args[i])
    ensures Good(n, r, toks)
    decreases |toks|, 20
  {
    var a := ParseAssignment(n, toks);
    if a.SyntaxError? then SyntaxError
    else if At(a.rest, Comma) then ParseArgs(n, c, args + [a.value], a.rest[1..])
    else if At(a.rest, RParen) then Ok(Call(c, args + [a.value]), a.rest[1..])
    else SyntaxError
  }

  function ParsePostfix(n: Names, toks: seq<Token>): (r: Parsed<Expr>)
    requires n.Valid()
    ensures Good(n, r, toks)
    decreases |toks|, 1
  {
    var e := ParsePrimary(n, toks);
    if e.SyntaxError? then e else PostfixLoop(n, e.value, e.rest)
  }

  function PostfixLoop(n: Names, e: Expr, toks: seq<Token>): (r: Parsed<Expr>)
    requires n.Valid() && WellFormed(n, e)
    ensures r.Ok? ==> WellFormed(n, r.value) && |r.rest| <= |toks|
    decreases |toks|, 0
  {
    if At(toks, LBracket) then
      var i := ParseExpression(n, toks[1..]);
      if i.Ok? && At(i.rest, RBracket) then PostfixLoop(n, Index(e, i.value), i.rest[1..]) else SyntaxError
    else if At(toks, Dot) then
      if !Head(toks[1..]).Id? then SyntaxError
      else if toks[1] == Id("length") && At(toks[2..], LParen) then
        if At(toks[3..], RParen) then PostfixLoop(n, Length(e), toks[4..]) else SyntaxError
      else PostfixLoop(n, Field(e, toks[1].name), toks[2..])
    else if At(toks, Inc) || At(toks, Dec) then PostfixLoop(n, Post(toks[0].p, e), toks[1..])
    else Ok(e, toks)
  }

  function ParseUnary(n: Names, toks: seq<Token>): (r: Parsed<Expr>)
    requires n.Valid()
    ensures Good(n, r, toks)
    decreases |toks|, 2
  {
    if Head(toks).P? && IsPrefix(toks[0].p) then
      var e := ParseUnary(n, toks[1..]);
      if e.Ok? then Ok(Prefix(toks[0].p, e.value), e.rest) else SyntaxError
    else ParsePostfix(n, toks)
  }

  function ParseBinary(n: Names, k: nat, toks: seq<Token>): (r: Parsed<Expr>)
    requires n.Valid() && k <= 11
    ensures Good(n, r, toks)
    decreases |toks|, 14 - k
  {
    if k == 11 then ParseUnary(n, toks)
    else
      var l := ParseBinary(n, k + 1, toks);
      if l.SyntaxError? then l else BinaryLoop(n, k, l.value, l.rest)
  }

  function BinaryLoop(n: Names, k: nat, l: Expr, toks: seq<Token>): (r: Parsed<Expr>)
    requires n.Valid() && k < 11 && WellFormed(n, l)
    ensures r.Ok? ==> WellFormed(n, r.value) && |r.rest| <= |toks|
    decreases |toks|, 0
  {
    if Head(toks).P? && Level(toks[0].p) == k then
      var r := ParseBinary(n, k + 1, toks[1..]);
      if r.SyntaxError? then r else BinaryLoop(n, k, Binary(toks[0].p, l, r.value), r.rest)
    else Ok(l, toks)
  }

  function ParseConditional(n: Names, toks: seq<Token>): (r: Parsed<Expr>)
    requires n.Valid()
    ensures Good(n, r, toks)
    decreases |toks|, 15
  {
    var c := ParseBinary(n, 0, toks);
    if c.SyntaxError? || !At(c.rest, Question) then c
    else
      var a := ParseExpression(n, c.rest[1..]);
      if a.SyntaxError? || !At(a.rest, Colon) then SyntaxError
      else
        var b := ParseAssignment(n, a.rest[1..]);
        if b.SyntaxError? then b else Ok(Conditional(c.value, a.value, b.value), b.rest)
  }

  function ParseAssignment(n: Names, toks: seq<Token>): (r: Parsed<Expr>)
    requires n.Valid()
    ensures Good(n, r, toks)
    decreases |toks|, 16
  {
    var l := ParseConditional(n, toks);
    if l.SyntaxError? then l
    else if Head(l.rest).P? && IsAssign(l.rest[0].p) then
      var r := ParseAssignment(n, l.rest[1..]);
      if r.SyntaxError? then r else Ok(Assign(l.rest[0].p, l.value, r.value), r.rest)
    else l
  }

  function ParseExpression(n: Names, toks: seq<Token>): (r: Parsed<Expr>)
    requires n.Valid()
    ensures Good(n, r, toks)
    decreases |toks|, 17
  {
    var e := ParseAssignment(n, toks);
    if e.SyntaxError? then e else CommaLoop(n, e.value, e.rest)
  }

  function CommaLoop(n: Names, e: Expr, toks: seq<Token>): (r: Parsed<Expr>)
    requires n.Valid() && WellFormed(n, e)
    ensures r.Ok? ==> WellFormed(n, r.value) && |r.rest| <= |toks|
    decreases |toks|, 0
  {
    if At(toks, Comma) then
      var r := ParseAssignment(n, toks[1..]);
      if r.SyntaxError? then r else CommaLoop(n, CommaPair(e, r.value), r.rest)
    else Ok(e, toks)
  }

  // ----- printing

  /** How tightly the outermost construct binds: 0 comma, 1 assignment, 2 conditional, 3 to 13 binary,
      14 prefix, 15 postfix, 16 primary. */
  function Binding(e: Expr): (b: nat)
    ensures b <= 16
  {
    match e
    case CommaPair(_, _) => 0
    case Assign(_, _, _) => 1
    case Conditional(_, _, _) => 2
    case Binary(op, _, _) => if Level(op) >= 0 then 3 + Level(op) else 3
    case Prefix(_, _) => 14
    case Index(_, _) | Field(_, _) | Length(_) | Post(_, _) => 15
    case _ => 16
  }

  function Cons(t: Token, rest: seq<Token>): (s: seq<Token>)
    ensures |s| == |rest| + 1 && s[0] == t && s[1..] == rest
  {
    [t] + rest
  }

  /** The tokens of `e`, in parentheses if it binds more loosely than `min`, in front of `rest`. */
  function Print(e: Expr, min: nat, rest: seq<Token>): seq<Token>
    decreases e, 1
  {
    if Binding(e) >= min then PrintBare(e, rest) else Cons(P(LParen), PrintBare(e, Cons(P(RParen), rest)))
  }

  function PrintBare(e: Expr, rest: seq<Token>): seq<Token>
    decreases e, 0
  {
    match e
    case Number(v, kind) => Cons(Num(v, kind), rest)
    case Bool(b) => Cons(Id(if b then "true" else "false"), rest)
    case Var(name) => Cons(Id(name), rest)
    case Call(c, args) =>
      var inside := Cons(P(LParen), PrintArgs(e, 0, Cons(P(RParen), rest)));
      Cons(Id(c.name), if c.ArrayOf? then Cons(P(LBracket), Print(c.len, 1, Cons(P(RBracket), inside))) else inside)
    case Index(x, i) => Print(x, 15, Cons(P(LBracket), Print(i, 0, Cons(P(RBracket), rest))))
    case Field(x, name) => Print(x, 15, Cons(P(Dot), Cons(Id(name), rest)))
    case Length(x) => Print(x, 15, Cons(P(Dot), Cons(Id("length"), Cons(P(LParen), Cons(P(RParen), rest)))))
    case Post(op, x) => Print(x, 15, Cons(P(op), rest))
    case Prefix(op, x) => Cons(P(op), Print(x, 14, rest))
    case Binary(op, l, r) => Print(l, Binding(e), Cons(P(op), Print(r, Binding(e) + 1, rest)))
    case Conditional(c, a, b) => Print(c, 3, Cons(P(Question), Print(a, 0, Cons(P(Colon), Print(b, 1, rest)))))
    case Assign(op, l, r) => Print(l, 3, Cons(P(op), Print(r, 1, rest)))
    case CommaPair(l, r) => Print(l, 0, Cons(P(Comma), Print(r, 1, rest)))
  }

  /** The arguments of a call from number `i` on. */
  function PrintArgs(e: Expr, i: nat, rest: seq<Token>): seq<Token>
    requires e.Call? && i <= |e.args|
    decreases e, 0, |e.args| - i
  {
    if i == |e.args| then rest
    else Print(e.args[i], 1, if i + 1 < |e.args| then Cons(P(Comma), PrintArgs(e, i + 1, rest)) else rest)
  }
}
