/** The parser itself: one cursor over the tokens, moved by mutually recursive methods. */
module GlslParser {
  import opened Options
  import opened GlslSyntax

  class Parser {
    const names: Names
    const tokens: seq<Token>
    var p: nat

    ghost predicate Valid()
      reads this
    {
      names.Valid() && p <= |tokens|
    }

    function Ahead(): seq<Token>
      requires p <= |tokens|
      reads this
    {
      tokens[p..]
    }

    function Peek(): (t: Token)
      requires p <= |tokens|
      reads this
      ensures t == Head(Ahead())
    {
      if p < |tokens| then tokens[p] else Eof
    }

    predicate IsP(q: Punct)
      requires p <= |tokens|
      reads this
    {
      Peek() == P(q)
    }

    /** The result and the cursor are those of the function that defines the construct. */
    ghost predicate Is(r: Option<Expr>, spec: Parsed<Expr>)
      reads this
    {
      Valid() && if spec.Ok? then r == Some(spec.value) && Ahead() == spec.rest else r == None
    }

    constructor (n: Names, toks: seq<Token>)
      requires n.Valid()
      ensures Valid() && names == n && tokens == toks && Ahead() == toks
    {
      names, tokens, p := n, toks, 0;
    }

    method Advance()
      requires p < |tokens|
      modifies this`p
      ensures p == old(p) + 1 && Ahead() == old(Ahead())[1..]
    {
      p := p + 1;
    }

    /** Moves past the given token if it is next. */
    method Eat(q: Punct) returns (ok: bool)
      requires Valid()
      modifies this`p
      ensures Valid() && ok == At(old(Ahead()), q)
      ensures Ahead() == if ok then old(Ahead())[1..] else old(Ahead())
    {
      ok := IsP(q);
      if ok { Advance(); }
    }

    method Primary() returns (r: Option<Expr>)
      requires Valid()
      modifies this`p
      ensures Is(r, ParsePrimary(names, old(Ahead())))
      decreases |tokens| - p, 0
    {
      match Peek() {
        case Num(v, kind) =>
          Advance();
          return Some(Number(v, kind));
        case Id(name) =>
          Advance();
          assert [Id(name)] + Ahead() == old(Ahead());
          r := AfterName(name);
        case P(q) =>
          if q != LParen { return None; }
          Advance();
          r := Expression();
          if r.Some? {
            var ok := Eat(RParen);
            if !ok { return None; }
          }
        case Eof => return None;
      }
    }

    /** A literal, a constructor, a call or a variable, by its first name. */
    method AfterName(name: string) returns (r: Option<Expr>)
      requires Valid()
      modifies this`p
      ensures Is(r, ParsePrimary(names, [Id(name)] + old(Ahead())))
      decreases |tokens| - p, 22
    {
      ghost var toks := [Id(name)] + Ahead();
      assert toks[1..] == Ahead() && (Ahead() != [] ==> toks[2..] == Ahead()[1..]);
      if name == "true" || name == "false" { return Some(Bool(name == "true")); }
      if name in names.types {
        r := Constructor(name);
      } else if name in names.keywords {
        return None;
      } else {
        var call := Eat(LParen);
        if call { r := ArgList(Function(name)); } else { return Some(Var(name)); }
      }
    }

    method Constructor(name: string) returns (r: Option<Expr>)
      requires Valid() && name in names.types && name != "true" && name != "false"
      modifies this`p
      ensures Is(r, ParseConstructor(names, name, old(Ahead())))
      decreases |tokens| - p, 21
    {
      var c := Type(name);
      var sized := Eat(LBracket);
      if sized {
        var len := Assignment();
        if len.None? { return None; }
        var ok := Eat(RBracket);
        if !ok { return None; }
        c := ArrayOf(name, len.value);
      }
      var call := Eat(LParen);
      if !call { return None; }
      r := ArgList(c);
    }

    method ArgList(c: Callee) returns (r: Option<Expr>)
      requires Valid() && WellFormedCallee(names, c)
      modifies this`p
      ensures Is(r, ParseCall(names, c, old(Ahead())))
      decreases |tokens| - p, 21
    {
      if Peek() == Id("void") && p + 1 < |tokens| && tokens[p + 1] == P(RParen) {
        Advance();
        Advance();
        return Some(Call(c, []));
      }
      var none := Eat(RParen);
      if none { return Some(Call(c, [])); }
      r := Args(c);
    }

    /** What is left to read after the last argument. */
    ghost function Closed(c: Callee, args: seq<Expr>): Parsed<Expr>
      requires Valid()
      reads this
    {
      if At(Ahead(), RParen) then Ok(Call(c, args), Ahead()[1..]) else SyntaxError
    }

    method Args(c: Callee) returns (r: Option<Expr>)
      requires Valid() && WellFormedCallee(names, c)
      modifies this`p
      ensures Is(r, ParseArgs(names, c, [], old(Ahead())))
      decreases |tokens| - p, 20
    {
      var args: seq<Expr> := [];
      var more := true;
      while more
        invariant Valid() && p >= old(p) && forall i :: 0 <= i < |args| ==> WellFormed(names, args[i])
        invariant more ==> ParseArgs(names, c, args, Ahead()) == ParseArgs(names, c, [], old(Ahead()))
        invariant !more ==> ParseArgs(names, c, [], old(Ahead())) == Closed(c, args)
        decreases |tokens| - p, more
      {
        var a := Assignment();
        if a.None? { return None; }
        args := args + [a.value];
        more := Eat(Comma);
      }
      var ok := Eat(RParen);
      if !ok { return None; }
      return Some(Call(c, args));
    }

    method Postfix() returns (r: Option<Expr>)
      requires Valid()
      modifies this`p
      ensures Is(r, ParsePostfix(names, old(Ahead())))
      decreases |tokens| - p, 1
    {
      var first := Primary();
      if first.None? { return None; }
      var e := first.value;
      while IsP(LBracket) || IsP(Dot) || IsP(Inc) || IsP(Dec)
        invariant Valid() && p > old(p) && WellFormed(names, e)
        invariant PostfixLoop(names, e, Ahead()) == ParsePostfix(names, old(Ahead()))
        decreases |tokens| - p
      {
        var next := Suffix(e);
        if next.None? { return None; }
        e := next.value;
      }
      return Some(e);
    }

    /** One subscript, selection or increment. */
    method Suffix(e: Expr) returns (r: Option<Expr>)
      requires Valid() && WellFormed(names, e) && (IsP(LBracket) || IsP(Dot) || IsP(Inc) || IsP(Dec))
      modifies this`p
      ensures Valid() && (r.Some? ==> p > old(p))
      ensures r.None? ==> PostfixLoop(names, e, old(Ahead())).SyntaxError?
      ensures r.Some? ==>
        WellFormed(names, r.value) && PostfixLoop(names, e, old(Ahead())) == PostfixLoop(names, r.value, Ahead())
      decreases |tokens| - p, 0
    {
      var t := Peek();
      Advance();
      if t == P(LBracket) {
        var i := Expression();
        if i.None? { return None; }
        var ok := Eat(RBracket);
        if !ok { return None; }
        return Some(Index(e, i.value));
      }
      if t == P(Dot) {
        var f := Peek();
        if !f.Id? { return None; }
        Advance();
        if f.name == "length" && IsP(LParen) {
          Advance();
          var ok := Eat(RParen);
          if !ok { return None; }
          return Some(Length(e));
        }
        return Some(Field(e, f.name));
      }
      return Some(Post(t.p, e));
    }

    method Unary() returns (r: Option<Expr>)
      requires Valid()
      modifies this`p
      ensures Is(r, ParseUnary(names, old(Ahead())))
      decreases |tokens| - p, 2
    {
      var t := Peek();
      if t.P? && IsPrefix(t.p) {
        Advance();
        r := Unary();
        return if r.Some? then Some(Prefix(t.p, r.value)) else None;
      }
      r := Postfix();
    }

    method BinaryLevel(k: nat) returns (r: Option<Expr>)
      requires Valid() && k <= 11
      modifies this`p
      ensures Is(r, ParseBinary(names, k, old(Ahead())))
      decreases |tokens| - p, 14 - k
    {
      if k == 11 {
        r := Unary();
        return;
      }
      r := BinaryLevel(k + 1);
      if r.None? { return; }
      var l := r.value;
      while Peek().P? && Level(Peek().p) == k
        invariant Valid() && p > old(p) && WellFormed(names, l)
        invariant BinaryLoop(names, k, l, Ahead()) == ParseBinary(names, k, old(Ahead()))
        decreases |tokens| - p
      {
        var t := Peek();
        Advance();
        r := BinaryLevel(k + 1);
        if r.None? { return; }
        l := Binary(t.p, l, r.value);
      }
      return Some(l);
    }

    method ConditionalLevel() returns (r: Option<Expr>)
      requires Valid()
      modifies this`p
      ensures Is(r, ParseConditional(names, old(Ahead())))
      decreases |tokens| - p, 15
    {
      r := BinaryLevel(0);
      if r.None? { return; }
      var c := r.value;
      var asked := Eat(Question);
      if !asked { return; }
      var a := Expression();
      if a.None? { return None; }
      var ok := Eat(Colon);
      if !ok { return None; }
      var b := Assignment();
      return if b.Some? then Some(Conditional(c, a.value, b.value)) else None;
    }

    method Assignment() returns (r: Option<Expr>)
      requires Valid()
      modifies this`p
      ensures Is(r, ParseAssignment(names, old(Ahead())))
      decreases |tokens| - p, 16
    {
      r := ConditionalLevel();
      if r.None? { return; }
      var l, t := r.value, Peek();
      if t.P? && IsAssign(t.p) {
        Advance();
        r := Assignment();
        return if r.Some? then Some(Assign(t.p, l, r.value)) else None;
      }
    }

    method Expression() returns (r: Option<Expr>)
      requires Valid()
      modifies this`p
      ensures Is(r, ParseExpression(names, old(Ahead())))
      decreases |tokens| - p, 17
    {
      r := Assignment();
      if r.None? { return; }
      var e := r.value;
      while IsP(Comma)
        invariant Valid() && p > old(p) && WellFormed(names, e)
        invariant CommaLoop(names, e, Ahead()) == ParseExpression(names, old(Ahead()))
        decreases |tokens| - p
      {
        Advance();
        r := Assignment();
        if r.None? { return; }
        e := CommaPair(e, r.value);
      }
      return Some(e);
    }
  }
}
