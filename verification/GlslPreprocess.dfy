/**
 The shader preprocessor: a machine over lines with a stack of open groups, and the reading of the same
 lines as nested groups of which at most one branch is selected.
 */
module GlslPreprocess {
  import opened Options

  /** A macro: its parameters, when it takes any, and its body. `__LINE__` has no body of its own. */
  datatype Macro = Macro(params: Option<seq<string>>, body: string) | LineNumber

  type Macros = map<string, Macro>

  /** The arguments of `#version`. */
  type Number = Option<(nat, Option<string>)>

  /** A line after directive names have been read; `None` stands for arguments that do not have the right form. */
  datatype Line =
    | Code(text: string, blank: bool)
    | If(condition: string)
    | Ifdef(name: string)
    | Ifndef(name: string)
    | Elif(condition: string)
    | Else
    | Endif
    | Define(definition: Option<(string, Macro)>)
    | Undef(name: string)
    | Version(number: Number)
    | Extension(request: Option<(string, string)>)
    | ErrorLine
    | Ignored
    | Unknown

  /** Macro expansion, conditions and the extensions the context has; expansion and conditions can fail. */
  datatype World = World(
    expand: (Macros, nat, string) -> Option<string>,
    eval: (Macros, nat, string) -> Option<bool>,
    supported: set<string>)

  datatype Env = Env(macros: Macros, version: nat, sawCode: bool, extensions: seq<string>)

  datatype Outcome<T> = Ok(value: T) | Failed {
    predicate IsFailure() { Failed? }
    function PropagateFailure<U>(): Outcome<U> requires Failed? { Failed }
    function Extract(): T requires Ok? { value }
  }

  function StartsWith(s: string, prefix: string): bool {
    |prefix| <= |s| && s[..|prefix|] == prefix
  }

  predicate HasDoubleUnderscore(s: string) {
    exists i :: 0 <= i < |s| - 1 && s[i] == '_' && s[i + 1] == '_'
  }

  predicate Reserved(name: string) {
    StartsWith(name, "GL_") || HasDoubleUnderscore(name)
  }

  function VersionBody(v: nat): Macro {
    Macro(None, if v == 300 then "300" else "100")
  }

  predicate Accepted(number: Number) {
    number.Some? && var (v, suffix) := number.value;
      (v == 300 && suffix == Some("es")) || (v == 100 && (suffix.None? || suffix.value == "es"))
  }

  function WithVersion(env: Env, v: nat): Env {
    env.(version := v, macros := env.macros["__VERSION__" := VersionBody(v)])
  }

  /** A `#version` line. */
  function Declared(env: Env, number: Number): Outcome<Env> {
    if env.sawCode || !Accepted(number) then Failed else Ok(WithVersion(env, number.value.0))
  }

  /** Every line that neither opens, continues nor closes a group. */
  function Simple(w: World, active: bool, env: Env, at: nat, l: Line): Outcome<(Env, string)> {
    match l
    case Code(text, blank) =>
      if !active then Ok((env, ""))
      else
        var t := w.expand(env.macros, at, text);
        if t.None? then Failed else Ok((env.(sawCode := env.sawCode || !blank), t.value))
    case Version(number) =>
      var e :- Declared(env, number);
      Ok((e, ""))
    case Define(definition) =>
      if !active then Ok((env, ""))
      else if definition.None? || Reserved(definition.value.0) then Failed
      else Ok((env.(macros := env.macros[definition.value.0 := definition.value.1]), ""))
    case Undef(name) => Ok((if active then env.(macros := env.macros - {name}) else env, ""))
    case Extension(request) =>
      if !active then Ok((env, ""))
      else if request.None? || request.value.1 !in {"enable", "require", "warn", "disable"} then Failed
      else
        var (name, behaviour) := request.value;
        if name == "all" then Ok((env, ""))
        else if name !in w.supported then (if behaviour == "require" then Failed else Ok((env, "")))
        else if behaviour == "disable" then Ok((env.(macros := env.macros - {name}), ""))
        else Ok((env.(extensions := env.extensions + [name], macros := env.macros[name := Macro(None, "1")]), ""))
    case ErrorLine | Unknown => if active then Failed else Ok((env, ""))
    case _ => Ok((env, ""))
  }

  predicate Opens(l: Line) {
    l.If? || l.Ifdef? || l.Ifndef?
  }

  predicate Continues(l: Line) {
    l.Elif? || l.Else?
  }

  predicate IsSimple(l: Line) {
    !Opens(l) && !Continues(l) && !l.Endif?
  }

  /** Whether the first branch of a group is chosen, were the group itself read. */
  function Guard(w: World, active: bool, env: Env, at: nat, l: Line): Outcome<bool>
    requires Opens(l)
  {
    match l
    case If(c) => if active then Evaluated(w, env, at, c) else Ok(false)
    case Ifdef(name) => Ok(name in env.macros)
    case Ifndef(name) => Ok(name !in env.macros)
  }

  function Evaluated(w: World, env: Env, at: nat, c: string): Outcome<bool> {
    var v := w.eval(env.macros, at, c);
    if v.None? then Failed else Ok(v.value)
  }

  // ----- the machine

  datatype Frame = Frame(par: bool, taken: bool)

  datatype State = State(stack: seq<Frame>, active: bool, env: Env, out: seq<string>)

  function Top(s: State): Frame
    requires s.stack != []
  {
    s.stack[|s.stack| - 1]
  }

  function WithTop(s: State, f: Frame, active: bool): State
    requires s.stack != []
  {
    s.(stack := s.stack[..|s.stack| - 1] + [f], active := active)
  }

  function Step(w: World, s: State, l: Line): (r: Outcome<State>)
    ensures r.Ok? ==> |r.value.out| == |s.out| + 1
  {
    var at := |s.out| + 1;
    if Opens(l) then
      var v :- Guard(w, s.active, s.env, at, l);
      Ok(State(s.stack + [Frame(s.active, v)], s.active && v, s.env, s.out + [""]))
    else if IsSimple(l) then
      var r :- Simple(w, s.active, s.env, at, l);
      Ok(s.(env := r.0, out := s.out + [r.1]))
    else if s.stack == [] then Failed
    else
      var f, s' := Top(s), s.(out := s.out + [""]);
      match l
      case Elif(c) =>
        if f.taken then Ok(s'.(active := false))
        else
          var v :- if f.par then Evaluated(w, s.env, at, c) else Ok(false);
          Ok(WithTop(s', Frame(f.par, v), f.par && v))
      case Else => Ok(WithTop(s', Frame(f.par, true), f.par && !f.taken))
      case _ => Ok(s'.(stack := s.stack[..|s.stack| - 1], active := f.par))
  }

  function Run(w: World, s: State, lines: seq<Line>): (r: Outcome<State>)
    ensures r.Ok? ==> |r.value.out| == |s.out| + |lines|
    decreases |lines|
  {
    if lines == [] then Ok(s)
    else
      var s' :- Step(w, s, lines[0]);
      Run(w, s', lines[1..])
  }

  // ----- the nested reading

  datatype Block =
    | Done
    | Then(line: Line, rest: Block)
    | Group(head: Line, body: Block, clauses: Clauses, rest: Block)

  /** The further branches of a group, up to and including its end. */
  datatype Clauses = End | Clause(head: Line, body: Block, more: Clauses)

  predicate Proper(b: Block) {
    match b
    case Done => true
    case Then(l, rest) => IsSimple(l) && Proper(rest)
    case Group(head, body, clauses, rest) => Opens(head) && Proper(body) && ProperClauses(clauses) && Proper(rest)
  }

  predicate ProperClauses(c: Clauses) {
    match c
    case End => true
    case Clause(head, body, more) => Continues(head) && Proper(body) && ProperClauses(more)
  }

  /** The lines of a block in front of further lines. */
  function Lines(b: Block, rest: seq<Line>): (r: seq<Line>)
    ensures |r| >= |rest|
  {
    match b
    case Done => rest
    case Then(l, more) => [l] + Lines(more, rest)
    case Group(head, body, clauses, more) => [head] + Lines(body, ClauseLines(clauses, Lines(more, rest)))
  }

  function ClauseLines(c: Clauses, rest: seq<Line>): (r: seq<Line>)
    ensures |r| > |rest|
  {
    match c
    case End => [Endif] + rest
    case Clause(head, body, more) => [head] + Lines(body, ClauseLines(more, rest))
  }

  /** What a block leaves and its output. */
  datatype Reading = Reading(env: Env, out: seq<string>)

  function Meaning(w: World, b: Block, active: bool, env: Env, at: nat): Outcome<Reading>
    requires Proper(b)
    decreases b, 1
  {
    match b
    case Done => Ok(Reading(env, []))
    case Then(l, rest) =>
      var r :- Simple(w, active, env, at, l);
      var m :- Meaning(w, rest, active, r.0, at + 1);
      Ok(Reading(m.env, [r.1] + m.out))
    case Group(head, body, clauses, rest) =>
      var v :- Guard(w, active, env, at, head);
      var m :- Meaning(w, body, active && v, env, at + 1);
      var r :- Rest(w, b, Frame(active, v), m.env, at + 1 + |m.out|);
      Ok(Reading(r.env, [""] + (m.out + r.out)))
  }

  /** The further branches of a group and what comes after it. */
  function Rest(w: World, g: Block, f: Frame, env: Env, at: nat): Outcome<Reading>
    requires Proper(g) && g.Group?
    decreases g, 0
  {
    var c :- ClausesMeaning(w, g.clauses, f.par, f.taken, env, at);
    var r :- Meaning(w, g.rest, f.par, c.0.env, at + |c.0.out|);
    Ok(Reading(r.env, c.0.out + r.out))
  }

  /** The branches after the first: none is selected once one has been, or when the group is not read.
      Also tells which were selected. */
  function ClausesMeaning(w: World, c: Clauses, par: bool, taken: bool, env: Env, at: nat)
    : Outcome<(Reading, seq<bool>)>
    requires ProperClauses(c)
    decreases c, 1
  {
    match c
    case End => Ok((Reading(env, [""]), []))
    case Clause(head, body, more) =>
      var v :-
        if head.Else? then Ok(true)
        else if taken || !par then Ok(false)
        else Evaluated(w, env, at, head.condition);
      var chosen := par && !taken && v;
      var m :- Meaning(w, body, chosen, env, at + 1);
      var r :- ClausesMeaning(w, more, par, taken || v, m.env, at + 1 + |m.out|);
      Ok((Reading(r.0.env, [""] + (m.out + r.0.out)), [chosen] + r.1))
  }

  // ----- the machine reads blocks as they are nested

  /** Going on after a block. */
  ghost function After(w: World, s: State, m: Outcome<Reading>, active: bool, stack: seq<Frame>,
      rest: seq<Line>): Outcome<State> {
    if m.Failed? then Failed else Run(w, State(stack, active, m.value.env, s.out + m.value.out), rest)
  }

  lemma {:induction false} RunStep(w: World, s: State, l: Line, rest: seq<Line>)
    ensures Run(w, s, [l] + rest) == if Step(w, s, l).Failed? then Failed else Run(w, Step(w, s, l).value, rest)
  {
    assert ([l] + rest)[1..] == rest;
  }

  /** One reading after the other. */
  ghost function InTurn(m: Outcome<Reading>, k: Outcome<Reading>): Outcome<Reading> {
    if m.Failed? || k.Failed? then Failed else Ok(Reading(k.value.env, m.value.out + k.value.out))
  }

  ghost function Going(s: State, m: Reading, active: bool, stack: seq<Frame>): State {
    State(stack, active, m.env, s.out + m.out)
  }

  lemma {:induction false} Chain(w: World, s: State, all: seq<Line>, m: Outcome<Reading>, a1: bool, k1: seq<Frame>,
      mid: seq<Line>, n: Outcome<Reading>, a2: bool, k2: seq<Frame>, rest: seq<Line>)
    requires Run(w, s, all) == After(w, s, m, a1, k1, mid)
    requires m.Ok? ==> Run(w, Going(s, m.value, a1, k1), mid) == After(w, Going(s, m.value, a1, k1), n, a2, k2, rest)
    ensures Run(w, s, all) == After(w, s, InTurn(m, n), a2, k2, rest)
  {
    if m.Ok? && n.Ok? { assert s.out + m.value.out + n.value.out == s.out + (m.value.out + n.value.out); }
  }

  /** A line on its own. */
  ghost function Alone(v: Outcome<bool>, env: Env): Outcome<Reading> {
    if v.Failed? then Failed else Ok(Reading(env, [""]))
  }

  lemma {:induction false} OpenStep(w: World, s: State, head: Line, rest: seq<Line>, v: Outcome<bool>)
    requires Opens(head) && v == Guard(w, s.active, s.env, |s.out| + 1, head)
    ensures Run(w, s, [head] + rest) ==
      After(w, s, Alone(v, s.env), s.active && (v.Ok? ==> v.value), s.stack + [Frame(s.active, v.Ok? && v.value)], rest)
  {
    RunStep(w, s, head, rest);
  }

  lemma {:induction false} SimpleStep(w: World, s: State, l: Line, rest: seq<Line>, r: Outcome<(Env, string)>)
    requires IsSimple(l) && r == Simple(w, s.active, s.env, |s.out| + 1, l)
    ensures Run(w, s, [l] + rest) ==
      After(w, s, if r.Ok? then Ok(Reading(r.value.0, [r.value.1])) else Failed, s.active, s.stack, rest)
  {
    RunStep(w, s, l, rest);
  }

  lemma {:induction false} EndStep(w: World, s: State, stack: seq<Frame>, f: Frame, rest: seq<Line>)
    requires s.stack == stack + [f]
    ensures Run(w, s, [Endif] + rest) == After(w, s, Ok(Reading(s.env, [""])), f.par, stack, rest)
  {
    RunStep(w, s, Endif, rest);
    assert s.stack[..|s.stack| - 1] == stack;
  }

  /** Whether the condition of a further branch holds; it is read only in a group that is read and has no branch yet. */
  ghost function Tried(w: World, f: Frame, env: Env, at: nat, head: Line): Outcome<bool>
    requires Continues(head)
  {
    if head.Else? then Ok(true) else if f.taken || !f.par then Ok(false) else Evaluated(w, env, at, head.condition)
  }

  lemma {:induction false} ClauseStep(w: World, s: State, stack: seq<Frame>, f: Frame, head: Line, rest: seq<Line>,
      v: Outcome<bool>)
    requires Continues(head) && s.stack == stack + [f] && v == Tried(w, f, s.env, |s.out| + 1, head)
    ensures Run(w, s, [head] + rest) ==
      After(w, s, Alone(v, s.env), f.par && !f.taken && v.Ok? && v.value,
        stack + [Frame(f.par, f.taken || (v.Ok? && v.value))], rest)
  {
    RunStep(w, s, head, rest);
    assert Top(s) == f && s.stack[..|s.stack| - 1] == stack;
  }

  /** The parts of a group in turn: its head, its first branch, the others, and what comes after it. */
  lemma {:induction false} GroupMeaning(w: World, b: Block, active: bool, env: Env, at: nat, v: Outcome<bool>,
      m: Outcome<Reading>)
    requires Proper(b) && b.Group? && v == Guard(w, active, env, at, b.head)
    requires v.Ok? ==> m == Meaning(w, b.body, active && v.value, env, at + 1)
    ensures Meaning(w, b, active, env, at) ==
      if v.Failed? then Failed else InTurn(Alone(v, env), InTurn(m, Tail(w, b, Frame(active, v.value), m, at + 1)))
  {
  }

  /** What follows the first branch, if that was read. */
  ghost function Tail(w: World, b: Block, f: Frame, m: Outcome<Reading>, at: nat): Outcome<Reading>
    requires Proper(b) && b.Group?
  {
    if m.Failed? then Failed else Rest(w, b, f, m.value.env, at + |m.value.out|)
  }

  lemma {:induction false} RestMeaning(w: World, g: Block, f: Frame, env: Env, at: nat, m: Outcome<Reading>,
      n: Outcome<Reading>)
    requires Proper(g) && g.Group? && m == ReadingOf(ClausesMeaning(w, g.clauses, f.par, f.taken, env, at))
    requires m.Ok? ==> n == Meaning(w, g.rest, f.par, m.value.env, at + |m.value.out|)
    ensures Rest(w, g, f, env, at) == InTurn(m, n)
  {
  }

  ghost function ReadingOf(m: Outcome<(Reading, seq<bool>)>): Outcome<Reading> {
    if m.Ok? then Ok(m.value.0) else Failed
  }

  ghost function More(w: World, c: Clauses, f: Frame, m: Outcome<Reading>, at: nat): Outcome<Reading>
    requires ProperClauses(c)
  {
    if m.Failed? then Failed else ReadingOf(ClausesMeaning(w, c, f.par, f.taken, m.value.env, at + |m.value.out|))
  }

  lemma {:induction false} ClauseMeaning(w: World, c: Clauses, f: Frame, env: Env, at: nat, v: Outcome<bool>,
      m: Outcome<Reading>)
    requires ProperClauses(c) && c.Clause? && v == Tried(w, f, env, at, c.head)
    requires v.Ok? ==> m == Meaning(w, c.body, f.par && !f.taken && v.value, env, at + 1)
    ensures ReadingOf(ClausesMeaning(w, c, f.par, f.taken, env, at)) ==
      if v.Failed? then Failed
      else InTurn(Alone(v, env), InTurn(m, More(w, c.more, Frame(f.par, f.taken || v.value), m, at + 1)))
  {
  }

  /** The machine reads a block as its meaning `m` says, and goes on with the lines after it. */
  lemma {:induction false} RunReadsBlock(w: World, s: State, b: Block, rest: seq<Line>, at: nat, m: Outcome<Reading>)
    requires Proper(b) && at == |s.out| + 1 && m == Meaning(w, b, s.active, s.env, at)
    ensures Run(w, s, Lines(b, rest)) == After(w, s, m, s.active, s.stack, rest)
    decreases b, 3
  {
    match b {
      case Done => assert s.out + [] == s.out;
      case Then(l, more) =>
        var r := Simple(w, s.active, s.env, at, l);
        SimpleStep(w, s, l, Lines(more, rest), r);
        var m0 := if r.Ok? then Ok(Reading(r.value.0, [r.value.1])) else Failed;
        var n := if r.Ok? then Meaning(w, more, s.active, r.value.0, at + 1) else Failed;
        if r.Ok? { RunReadsBlock(w, Going(s, m0.value, s.active, s.stack), more, rest, at + 1, n); }
        Chain(w, s, Lines(b, rest), m0, s.active, s.stack, Lines(more, rest), n, s.active, s.stack, rest);
      case Group(_, _, _, _) => RunReadsGroup(w, s, b, rest, at, m);
    }
  }

  lemma {:induction false} RunReadsGroup(w: World, s: State, b: Block, rest: seq<Line>, at: nat, r: Outcome<Reading>)
    requires Proper(b) && b.Group? && at == |s.out| + 1 && r == Meaning(w, b, s.active, s.env, at)
    ensures Run(w, s, Lines(b, rest)) == After(w, s, r, s.active, s.stack, rest)
    decreases b, 2
  {
    var tail := ClauseLines(b.clauses, Lines(b.rest, rest));
    var v := Guard(w, s.active, s.env, at, b.head);
    OpenStep(w, s, b.head, Lines(b.body, tail), v);
    var m := if v.Ok? then Meaning(w, b.body, s.active && v.value, s.env, at + 1) else Failed;
    GroupMeaning(w, b, s.active, s.env, at, v, m);
    if v.Ok? {
      var f := Frame(s.active, v.value);
      var s1 := Going(s, Reading(s.env, [""]), s.active && v.value, s.stack + [f]);
      var n := Tail(w, b, f, m, at + 1);
      RunReadsBranch(w, s1, s.stack, f, b, rest, at + 1, m, n);
      Chain(w, s, Lines(b, rest), Alone(v, s.env), s1.active, s1.stack, Lines(b.body, tail), InTurn(m, n), s.active,
        s.stack, rest);
    }
  }

  /** From the first branch of a group on. */
  lemma {:induction false} RunReadsBranch(w: World, s: State, stack: seq<Frame>, f: Frame, b: Block, rest: seq<Line>,
      at: nat, m: Outcome<Reading>, n: Outcome<Reading>)
    requires Proper(b) && b.Group? && s.stack == stack + [f] && at == |s.out| + 1
    requires m == Meaning(w, b.body, s.active, s.env, at) && n == Tail(w, b, f, m, at)
    ensures Run(w, s, Lines(b.body, ClauseLines(b.clauses, Lines(b.rest, rest)))) ==
      After(w, s, InTurn(m, n), f.par, stack, rest)
    decreases b, 1
  {
    var tail := ClauseLines(b.clauses, Lines(b.rest, rest));
    RunReadsBlock(w, s, b.body, tail, at, m);
    if m.Ok? { RunReadsTail(w, Going(s, m.value, s.active, s.stack), stack, f, b, rest, at + |m.value.out|, n); }
    Chain(w, s, Lines(b.body, tail), m, s.active, s.stack, tail, n, f.par, stack, rest);
  }

  /** From the line after the first branch on. */
  lemma {:induction false} RunReadsTail(w: World, s: State, stack: seq<Frame>, f: Frame, g: Block, rest: seq<Line>,
      at: nat, r: Outcome<Reading>)
    requires Proper(g) && g.Group? && s.stack == stack + [f] && at == |s.out| + 1 && r == Rest(w, g, f, s.env, at)
    ensures Run(w, s, ClauseLines(g.clauses, Lines(g.rest, rest))) == After(w, s, r, f.par, stack, rest)
    decreases g, 0
  {
    var after := Lines(g.rest, rest);
    var m := ReadingOf(ClausesMeaning(w, g.clauses, f.par, f.taken, s.env, at));
    var n := if m.Ok? then Meaning(w, g.rest, f.par, m.value.env, at + |m.value.out|) else Failed;
    RestMeaning(w, g, f, s.env, at, m, n);
    RunReadsClauses(w, s, stack, f, g.clauses, after, at, m);
    if m.Ok? { RunReadsBlock(w, Going(s, m.value, f.par, stack), g.rest, rest, at + |m.value.out|, n); }
    Chain(w, s, ClauseLines(g.clauses, after), m, f.par, stack, after, n, f.par, stack, rest);
  }

  lemma {:induction false} RunReadsClauses(w: World, s: State, stack: seq<Frame>, f: Frame, c: Clauses, rest: seq<Line>,
      at: nat, r: Outcome<Reading>)
    requires ProperClauses(c) && s.stack == stack + [f] && at == |s.out| + 1
    requires r == ReadingOf(ClausesMeaning(w, c, f.par, f.taken, s.env, at))
    ensures Run(w, s, ClauseLines(c, rest)) == After(w, s, r, f.par, stack, rest)
    decreases c, 1
  {
    match c {
      case End => EndStep(w, s, stack, f, rest);
      case Clause(head, body, more) =>
        var v := Tried(w, f, s.env, at, head);
        var lines := Lines(body, ClauseLines(more, rest));
        ClauseStep(w, s, stack, f, head, lines, v);
        var m := if v.Ok? then Meaning(w, body, f.par && !f.taken && v.value, s.env, at + 1) else Failed;
        ClauseMeaning(w, c, f, s.env, at, v, m);
        if v.Ok? {
          var f' := Frame(f.par, f.taken || v.value);
          var s1 := Going(s, Reading(s.env, [""]), f.par && !f.taken && v.value, stack + [f']);
          var n := More(w, more, f', m, at + 1);
          RunReadsClause(w, s1, stack, f', c, rest, at + 1, m, n);
          Chain(w, s, ClauseLines(c, rest), Alone(v, s.env), s1.active, s1.stack, lines, InTurn(m, n), f.par, stack,
            rest);
        }
    }
  }

  /** From the body of a further branch on. */
  lemma {:induction false} RunReadsClause(w: World, s: State, stack: seq<Frame>, f: Frame, c: Clauses, rest: seq<Line>,
      at: nat, m: Outcome<Reading>, n: Outcome<Reading>)
    requires ProperClauses(c) && c.Clause? && s.stack == stack + [f] && at == |s.out| + 1
    requires m == Meaning(w, c.body, s.active, s.env, at) && n == More(w, c.more, f, m, at)
    ensures Run(w, s, Lines(c.body, ClauseLines(c.more, rest))) == After(w, s, InTurn(m, n), f.par, stack, rest)
    decreases c, 0
  {
    var tail := ClauseLines(c.more, rest);
    RunReadsBlock(w, s, c.body, tail, at, m);
    if m.Ok? {
      RunReadsClauses(w, Going(s, m.value, s.active, s.stack), stack, f, c.more, rest, at + |m.value.out|, n);
    }
    Chain(w, s, Lines(c.body, tail), m, s.active, s.stack, tail, n, f.par, stack, rest);
  }

  // ----- every list of lines has one nested reading or is not well nested

  /** Reads a block up to the end of the lines or to a line that belongs to the group around it. */
  function ReadBlock(lines: seq<Line>): (r: Option<(Block, seq<Line>)>)
    ensures r.Some? ==> Proper(r.value.0) && Lines(r.value.0, r.value.1) == lines && |r.value.1| <= |lines|
    ensures r.Some? && r.value.1 != [] ==> Continues(r.value.1[0]) || r.value.1[0].Endif?
    decreases |lines|
  {
    if lines == [] || Continues(lines[0]) || lines[0].Endif? then Some((Done, lines))
    else if IsSimple(lines[0]) then
      var r := ReadBlock(lines[1..]);
      if r.None? then None else Some((Then(lines[0], r.value.0), r.value.1))
    else
      var body := ReadBlock(lines[1..]);
      if body.None? then None
      else
        var c := ReadClauses(body.value.1);
        if c.None? then None
        else
          var rest := ReadBlock(c.value.1);
          if rest.None? then None else Some((Group(lines[0], body.value.0, c.value.0, rest.value.0), rest.value.1))
  }

  /** Reads the other branches of a group and its end; `None` when the lines end first. */
  function ReadClauses(lines: seq<Line>): (r: Option<(Clauses, seq<Line>)>)
    requires lines != [] ==> Continues(lines[0]) || lines[0].Endif?
    ensures r.Some? ==> ProperClauses(r.value.0) && ClauseLines(r.value.0, r.value.1) == lines && |r.value.1| < |lines|
    decreases |lines|
  {
    if lines == [] then None
    else if lines[0].Endif? then Some((End, lines[1..]))
    else
      var body := ReadBlock(lines[1..]);
      if body.None? then None
      else
        var more := ReadClauses(body.value.1);
        if more.None? then None else Some((Clause(lines[0], body.value.0, more.value.0), more.value.1))
  }

  /** The whole source as nested groups. */
  function Nested(lines: seq<Line>): (r: Option<Block>)
    ensures r.Some? ==> Proper(r.value) && Lines(r.value, []) == lines
  {
    var r := ReadBlock(lines);
    if r.Some? && r.value.1 == [] then Some(r.value.0) else None
  }

  /** How many groups are open afterwards; nothing when a group is continued or closed that is not open. */
  function Depth(lines: seq<Line>, d: nat): Option<nat> {
    if lines == [] then Some(d)
    else if Opens(lines[0]) then Depth(lines[1..], d + 1)
    else if IsSimple(lines[0]) then Depth(lines[1..], d)
    else if d == 0 then None
    else Depth(lines[1..], if lines[0].Endif? then d - 1 else d)
  }

  lemma {:induction false} RunDepth(w: World, s: State, lines: seq<Line>)
    ensures Run(w, s, lines).Ok? ==> Depth(lines, |s.stack|) == Some(|Run(w, s, lines).value.stack|)
    decreases |lines|
  {
    if lines != [] && Step(w, s, lines[0]).Ok? { RunDepth(w, Step(w, s, lines[0]).value, lines[1..]); }
  }

  lemma {:induction false} BlockDepth(lines: seq<Line>, d: nat)
    ensures var r := ReadBlock(lines);
      if r.Some? then Depth(lines, d) == Depth(r.value.1, d) else Depth(lines, d).None? || Depth(lines, d).value > d
    decreases |lines|
  {
    if lines == [] || Continues(lines[0]) || lines[0].Endif? {
    } else if IsSimple(lines[0]) {
      BlockDepth(lines[1..], d);
    } else {
      BlockDepth(lines[1..], d + 1);
      var body := ReadBlock(lines[1..]);
      if body.Some? {
        ClausesDepth(body.value.1, d);
        var c := ReadClauses(body.value.1);
        if c.Some? { BlockDepth(c.value.1, d); }
      }
    }
  }

  lemma {:induction false} ClausesDepth(lines: seq<Line>, d: nat)
    requires lines != [] ==> Continues(lines[0]) || lines[0].Endif?
    ensures var r := ReadClauses(lines);
      if r.Some? then Depth(lines, d + 1) == Depth(r.value.1, d)
      else Depth(lines, d + 1).None? || Depth(lines, d + 1).value > d
    decreases |lines|
  {
    if lines != [] && !lines[0].Endif? {
      BlockDepth(lines[1..], d + 1);
      var body := ReadBlock(lines[1..]);
      if body.Some? { ClausesDepth(body.value.1, d); }
    }
  }

  // ----- the preprocessor

  function Start(): State {
    State([], true, Env(map["GL_ES" := Macro(None, "1"), "__LINE__" := LineNumber, "__FILE__" := Macro(None, "0"),
      "__VERSION__" := Macro(None, "100"), "GL_FRAGMENT_PRECISION_HIGH" := Macro(None, "1")], 100, false, []), [])
  }

  /** The machine accepts exactly the well-nested sources, and then does what their nested reading says. */
  lemma {:induction false} MachineIsMeaning(w: World, lines: seq<Line>)
    ensures var r := Run(w, Start(), lines);
      (if r.Ok? && r.value.stack == [] then Ok(Reading(r.value.env, r.value.out)) else Failed)
      == match Nested(lines) case Some(b) => Meaning(w, b, true, Start().env, 1) case None => Failed
  {
    var read := ReadBlock(lines);
    BlockDepth(lines, 0);
    RunDepth(w, Start(), lines);
    if read.Some? && read.value.1 == [] {
      var m := Meaning(w, read.value.0, true, Start().env, 1);
      RunReadsBlock(w, Start(), read.value.0, [], 1, m);
      if m.Ok? { assert [] + m.value.out == m.value.out; }
    }
  }

  method IsReserved(name: string) returns (r: bool)
    ensures r == Reserved(name)
  {
    if |name| >= 3 && name[0] == 'G' && name[1] == 'L' && name[2] == '_' { return true; }
    var i := 1;
    while i < |name|
      invariant 1 <= i
      invariant forall j :: 0 <= j < i - 1 && j + 1 < |name| ==> !(name[j] == '_' && name[j + 1] == '_')
    {
      if name[i - 1] == '_' && name[i] == '_' { return true; }
      i := i + 1;
    }
    r := false;
  }

  class Machine {
    const w: World
    var stack: seq<Frame>
    var active: bool
    var macros: Macros
    var version: nat
    var sawCode: bool
    var extensions: seq<string>
    var out: seq<string>

    function Now(): State
      reads this
    {
      State(stack, active, Env(macros, version, sawCode, extensions), out)
    }

    constructor (world: World)
      ensures w == world && Now() == Start()
    {
      w, stack, active, version, sawCode, extensions, out := world, [], true, 100, false, [], [];
      macros := map["__LINE__" := LineNumber, "__FILE__" := Macro(None, "0"), "__VERSION__" := Macro(None, "100"),
        "GL_ES" := Macro(None, "1"), "GL_FRAGMENT_PRECISION_HIGH" := Macro(None, "1")];
    }

    /** Reads one line; the flag says that it was accepted. */
    method ReadLine(l: Line) returns (ok: bool)
      modifies this
      ensures Step(w, old(Now()), l) == if ok then Ok(Now()) else Failed
    {
      var at := |out| + 1;
      if l.Code? {
        if !active {
          out := out + [""];
          return true;
        }
        if !l.blank { sawCode := true; }
        var text := w.expand(macros, at, l.text);
        if text.None? { return false; }
        out := out + [text.value];
        return true;
      }
      out := out + [""];
      match l {
        case If(c) => ok := OpenIf(c, at);
        case Ifdef(name) => Open(name in macros);
        case Ifndef(name) => Open(name !in macros);
        case Elif(c) => ok := ContinueIf(c, at);
        case Else => ok := Otherwise();
        case Endif => ok := Close();
        case Version(number) => ok := SetVersion(number);
        case Define(definition) => ok := DefineMacro(definition);
        case Undef(name) => if active { macros := macros - {name}; }
        case Extension(request) => ok := Request(request);
        case ErrorLine => return !active;
        case Unknown => return !active;
        case _ =>
      }
      if l.Ifdef? || l.Ifndef? || l.Undef? || l.Ignored? { ok := true; }
    }

    method Open(v: bool)
      modifies this`stack, this`active
      ensures Now() == old(Now()).(stack := old(stack) + [Frame(old(active), v)], active := old(active) && v)
    {
      stack := stack + [Frame(active, v)];
      active := active && v;
    }

    method OpenIf(c: string, at: nat) returns (ok: bool)
      modifies this`stack, this`active
      ensures ok == (!old(active) || w.eval(macros, at, c).Some?)
      ensures ok ==> var v := old(active) && w.eval(macros, at, c).value;
        stack == old(stack) + [Frame(old(active), v)] && active == v
    {
      var v := false;
      if active {
        var chosen := w.eval(macros, at, c);
        if chosen.None? { return false; }
        v := chosen.value;
      }
      Open(v);
      ok := true;
    }

    method ContinueIf(c: string, at: nat) returns (ok: bool)
      modifies this`stack, this`active
      ensures old(stack) == [] ==> !ok
      ensures old(stack) != [] ==>
        var f := old(stack)[|old(stack)| - 1];
        && ok == (f.taken || !f.par || w.eval(macros, at, c).Some?)
        && (f.taken ==> !active && stack == old(stack))
        && (ok && !f.taken ==>
          var v := f.par && w.eval(macros, at, c).value;
          active == v && stack == old(stack)[..|old(stack)| - 1] + [Frame(f.par, v)])
    {
      if stack == [] { return false; }
      var f := stack[|stack| - 1];
      if f.taken {
        active := false;
        return true;
      }
      var v := false;
      if f.par {
        var chosen := w.eval(macros, at, c);
        if chosen.None? { return false; }
        v := chosen.value;
      }
      stack := stack[..|stack| - 1] + [Frame(f.par, v)];
      active := f.par && v;
      ok := true;
    }

    method Otherwise() returns (ok: bool)
      modifies this`stack, this`active
      ensures ok == (old(stack) != [])
      ensures ok ==> var f := old(stack)[|old(stack)| - 1];
        active == (f.par && !f.taken) && stack == old(stack)[..|old(stack)| - 1] + [Frame(f.par, true)]
    {
      if stack == [] { return false; }
      var f := stack[|stack| - 1];
      active, stack := f.par && !f.taken, stack[..|stack| - 1] + [Frame(f.par, true)];
      ok := true;
    }

    method Close() returns (ok: bool)
      modifies this`stack, this`active
      ensures ok == (old(stack) != [])
      ensures ok ==> active == old(stack)[|old(stack)| - 1].par && stack == old(stack)[..|old(stack)| - 1]
    {
      if stack == [] { return false; }
      active, stack := stack[|stack| - 1].par, stack[..|stack| - 1];
      ok := true;
    }

    method SetVersion(number: Number) returns (ok: bool)
      modifies this`version, this`macros
      ensures Declared(old(Now()).env, number) == if ok then Ok(Now().env) else Failed
    {
      if sawCode || number.None? { return false; }
      var (v, suffix) := number.value;
      if v == 300 && suffix != Some("es") { return false; }
      if v != 100 && v != 300 { return false; }
      if v == 100 && suffix != None && suffix != Some("es") { return false; }
      version := v;
      macros := macros["__VERSION__" := Macro(None, if v == 100 then "100" else "300")];
      ok := true;
    }

    method DefineMacro(definition: Option<(string, Macro)>) returns (ok: bool)
      modifies this`macros
      ensures !old(active) ==> ok && macros == old(macros)
      ensures old(active) ==> ok == (definition.Some? && !Reserved(definition.value.0))
      ensures old(active) && ok ==> macros == old(macros)[definition.value.0 := definition.value.1]
    {
      if !active { return true; }
      if definition.None? { return false; }
      var reserved := IsReserved(definition.value.0);
      if reserved { return false; }
      macros := macros[definition.value.0 := definition.value.1];
      ok := true;
    }

    method Request(request: Option<(string, string)>) returns (ok: bool)
      modifies this`macros, this`extensions
      ensures Simple(w, old(active), old(Now()).env, |out|, Extension(request)) ==
        if ok then Ok((Now().env, "")) else Failed
    {
      if !active { return true; }
      if request.None? { return false; }
      var (name, behaviour) := request.value;
      if behaviour != "enable" && behaviour != "require" && behaviour != "warn" && behaviour != "disable" {
        return false;
      }
      var known := name == "all" || name in w.supported;
      if !known && behaviour == "require" { return false; }
      if known && name != "all" && behaviour != "disable" {
        extensions := extensions + [name];
        macros := macros[name := Macro(None, "1")];
      }
      if known && name != "all" && behaviour == "disable" { macros := macros - {name}; }
      ok := true;
    }
  }

  /** The loop of the preprocessor, one line at a time. */
  method Preprocess(w: World, lines: seq<Line>) returns (r: Outcome<Reading>)
    ensures r == match Nested(lines) case Some(b) => Meaning(w, b, true, Start().env, 1) case None => Failed
  {
    var m := new Machine(w);
    MachineIsMeaning(w, lines);
    for i := 0 to |lines|
      invariant m.w == w && fresh(m) && Run(w, Start(), lines) == Run(w, m.Now(), lines[i..])
    {
      assert lines[i..][0] == lines[i] && lines[i..][1..] == lines[i + 1..];
      var ok := m.ReadLine(lines[i]);
      if !ok { return Failed; }
    }
    if m.stack != [] { return Failed; }
    return Ok(Reading(m.Now().env, m.out));
  }

  // ----- what the nested reading promises

  /** One line of output for every line. */
  lemma {:induction false} LineForLine(w: World, b: Block, active: bool, env: Env, at: nat)
    requires Proper(b) && at >= 1
    ensures Meaning(w, b, active, env, at).Ok? ==> |Meaning(w, b, active, env, at).value.out| == |Lines(b, [])|
  {
    var s := State([], active, env, seq(at - 1, _ => ""));
    RunReadsBlock(w, s, b, [], at, Meaning(w, b, active, env, at));
  }

  ghost function Count(picks: seq<bool>): nat {
    if picks == [] then 0 else (if picks[0] then 1 else 0) + Count(picks[1..])
  }

  predicate HasElse(c: Clauses) {
    c.Clause? && (c.head.Else? || HasElse(c.more))
  }

  /** Of the branches after the first, at most one is selected, and only if none has been. */
  lemma {:induction false} OneFurtherBranch(w: World, c: Clauses, par: bool, taken: bool, env: Env, at: nat)
    requires ProperClauses(c) && ClausesMeaning(w, c, par, taken, env, at).Ok?
    ensures Count(ClausesMeaning(w, c, par, taken, env, at).value.1) <= if par && !taken then 1 else 0
    ensures HasElse(c) && par && !taken ==> Count(ClausesMeaning(w, c, par, taken, env, at).value.1) == 1
    decreases c
  {
    if c.Clause? {
      var v :=
        if c.head.Else? then Ok(true)
        else if taken || !par then Ok(false)
        else Evaluated(w, env, at, c.head.condition);
      var m := Meaning(w, c.body, par && !taken && v.value, env, at + 1);
      OneFurtherBranch(w, c.more, par, taken || v.value, m.value.env, at + 1 + |m.value.out|);
    }
  }

  /** Which branches of a group are read. */
  ghost function Picks(w: World, g: Block, active: bool, env: Env, at: nat): Outcome<seq<bool>>
    requires Proper(g) && g.Group?
  {
    var v :- Guard(w, active, env, at, g.head);
    var m :- Meaning(w, g.body, active && v, env, at + 1);
    var c :- ClausesMeaning(w, g.clauses, active, v, m.env, at + 1 + |m.out|);
    Ok([active && v] + c.1)
  }

  /** At most one branch of a group is read, exactly one of a group with `#else`, and none of a group that is
      not read itself. */
  lemma {:induction false} OneBranch(w: World, g: Block, active: bool, env: Env, at: nat)
    requires Proper(g) && g.Group? && Meaning(w, g, active, env, at).Ok?
    ensures Picks(w, g, active, env, at).Ok?
    ensures Count(Picks(w, g, active, env, at).value) <= if active then 1 else 0
    ensures active && HasElse(g.clauses) ==> Count(Picks(w, g, active, env, at).value) == 1
  {
    var v := Guard(w, active, env, at, g.head).value;
    var m := Meaning(w, g.body, active && v, env, at + 1).value;
    OneFurtherBranch(w, g.clauses, active, v, m.env, at + 1 + |m.out|);
    var c := ClausesMeaning(w, g.clauses, active, v, m.env, at + 1 + |m.out|).value;
    assert ([active && v] + c.1)[1..] == c.1;
  }

  /** The first branch of a group that is read is selected by its condition, or by whether the name is defined. */
  lemma {:induction false} FirstBranch(w: World, g: Block, env: Env, at: nat)
    requires Proper(g) && g.Group? && Meaning(w, g, true, env, at).Ok?
    ensures Picks(w, g, true, env, at).Ok? && |Picks(w, g, true, env, at).value| > 0
    ensures Picks(w, g, true, env, at).value[0] == match g.head
      case Ifdef(name) => name in env.macros
      case Ifndef(name) => name !in env.macros
      case If(c) => w.eval(env.macros, at, c) == Some(true)
      case _ => false
  {
    OneBranch(w, g, true, env, at);
  }

  // ----- what an unselected branch can do

  /** The `#version` lines of a block, in order. */
  function Versions(b: Block): seq<Number> {
    match b
    case Done => []
    case Then(l, rest) => (if l.Version? then [l.number] else []) + Versions(rest)
    case Group(_, body, clauses, rest) => Versions(body) + (ClauseVersions(clauses) + Versions(rest))
  }

  function ClauseVersions(c: Clauses): seq<Number> {
    match c
    case End => []
    case Clause(_, body, more) => Versions(body) + ClauseVersions(more)
  }

  function DeclaredAll(env: Env, ns: seq<Number>): Outcome<Env>
    decreases |ns|
  {
    if ns == [] then Ok(env)
    else
      var e :- Declared(env, ns[0]);
      DeclaredAll(e, ns[1..])
  }

  lemma {:induction false} DeclaredConcat(env: Env, ms: seq<Number>, ns: seq<Number>, e: Outcome<Env>)
    requires e == DeclaredAll(env, ms)
    ensures DeclaredAll(env, ms + ns) == if e.Failed? then Failed else DeclaredAll(e.value, ns)
    decreases |ms|
  {
    if ms == [] {
      assert ms + ns == ns;
    } else {
      assert (ms + ns)[1..] == ms[1..] + ns;
      var d := Declared(env, ms[0]);
      if d.Ok? { DeclaredConcat(d.value, ms[1..], ns, e); }
    }
  }

  predicate AllAccepted(ns: seq<Number>) {
    forall i :: 0 <= i < |ns| ==> Accepted(ns[i])
  }

  lemma {:induction false} LastVersion(env: Env, u: nat, v: nat)
    ensures WithVersion(WithVersion(env, u), v) == WithVersion(env, v)
  {
    assert WithVersion(WithVersion(env, u), v).macros == WithVersion(env, v).macros;
  }

  /** All of them are acted on, and the last one stays. */
  lemma {:induction false} DeclaredAllIs(env: Env, ns: seq<Number>)
    requires ns != []
    ensures DeclaredAll(env, ns) ==
      if env.sawCode || !AllAccepted(ns) then Failed else Ok(WithVersion(env, ns[|ns| - 1].value.0))
    decreases |ns|
  {
    assert AllAccepted(ns) <==> Accepted(ns[0]) && AllAccepted(ns[1..]);
    if |ns| > 1 && Declared(env, ns[0]).Ok? {
      DeclaredAllIs(WithVersion(env, ns[0].value.0), ns[1..]);
      if AllAccepted(ns) { LastVersion(env, ns[0].value.0, ns[|ns| - 1].value.0); }
    }
  }

  ghost predicate Blank(out: seq<string>) {
    forall i :: 0 <= i < |out| ==> out[i] == ""
  }

  /** The reading leaves this environment and only empty lines, or they both fail. */
  ghost predicate Leaves(m: Outcome<Reading>, e: Outcome<Env>) {
    (m.Ok? <==> e.Ok?) && (m.Ok? ==> m.value.env == e.value && Blank(m.value.out))
  }

  lemma {:induction false} LeavesInTurn(m: Outcome<Reading>, n: Outcome<Reading>, env: Env, ms: seq<Number>,
      ns: seq<Number>)
    requires Leaves(m, DeclaredAll(env, ms))
    requires m.Ok? ==> Leaves(n, DeclaredAll(m.value.env, ns))
    ensures Leaves(InTurn(m, n), DeclaredAll(env, ms + ns))
  {
    DeclaredConcat(env, ms, ns, DeclaredAll(env, ms));
  }

  /** Where nothing is read, the `#version` lines are acted on all the same, and nothing else is. */
  lemma {:induction false} UnreadDoes(w: World, b: Block, env: Env, at: nat)
    requires Proper(b)
    ensures Leaves(Meaning(w, b, false, env, at), DeclaredAll(env, Versions(b)))
    decreases b, 1
  {
    match b {
      case Done =>
      case Then(l, rest) => UnreadLineDoes(w, b, env, at);
      case Group(head, body, clauses, rest) =>
        var v := Guard(w, false, env, at, head);
        var m := Meaning(w, body, false, env, at + 1);
        var n := Tail(w, b, Frame(false, v.value), m, at + 1);
        GroupMeaning(w, b, false, env, at, v, m);
        UnreadDoes(w, body, env, at + 1);
        if m.Ok? { UnreadRestDoes(w, b, v.value, m.value.env, at + 1 + |m.value.out|); }
        LeavesInTurn(m, n, env, Versions(body), ClauseVersions(clauses) + Versions(rest));
        LeavesAfterBlank(InTurn(m, n), env, DeclaredAll(env, Versions(b)));
    }
  }

  /** A blank line in front. */
  lemma {:induction false} LeavesAfterBlank(m: Outcome<Reading>, env: Env, e: Outcome<Env>)
    requires Leaves(m, e)
    ensures Leaves(InTurn(Alone(Ok(false), env), m), e) && Leaves(InTurn(Alone(Ok(true), env), m), e)
  {
  }

  lemma {:induction false} UnreadLineDoes(w: World, b: Block, env: Env, at: nat)
    requires Proper(b) && b.Then?
    ensures Leaves(Meaning(w, b, false, env, at), DeclaredAll(env, Versions(b)))
    decreases b, 0
  {
    var r := Simple(w, false, env, at, b.line);
    if b.line.Version? {
      assert Versions(b)[0] == b.line.number && Versions(b)[1..] == Versions(b.rest);
    } else {
      assert Versions(b) == Versions(b.rest);
    }
    if r.Ok? { UnreadDoes(w, b.rest, r.value.0, at + 1); }
  }

  lemma {:induction false} UnreadRestDoes(w: World, g: Block, taken: bool, env: Env, at: nat)
    requires Proper(g) && g.Group?
    ensures Leaves(Rest(w, g, Frame(false, taken), env, at),
      DeclaredAll(env, ClauseVersions(g.clauses) + Versions(g.rest)))
    decreases g, 0
  {
    var m := ReadingOf(ClausesMeaning(w, g.clauses, false, taken, env, at));
    var n := if m.Ok? then Meaning(w, g.rest, false, m.value.env, at + |m.value.out|) else Failed;
    UnreadClausesDo(w, g.clauses, taken, env, at);
    if m.Ok? { UnreadDoes(w, g.rest, m.value.env, at + |m.value.out|); }
    RestMeaning(w, g, Frame(false, taken), env, at, m, n);
    LeavesInTurn(m, n, env, ClauseVersions(g.clauses), Versions(g.rest));
  }

  lemma {:induction false} UnreadClausesDo(w: World, c: Clauses, taken: bool, env: Env, at: nat)
    requires ProperClauses(c)
    ensures Leaves(ReadingOf(ClausesMeaning(w, c, false, taken, env, at)), DeclaredAll(env, ClauseVersions(c)))
    decreases c, 1
  {
    if c.Clause? {
      var f := Frame(false, taken);
      var v := Tried(w, f, env, at, c.head);
      var m := Meaning(w, c.body, false, env, at + 1);
      var n := More(w, c.more, Frame(false, taken || v.value), m, at + 1);
      ClauseMeaning(w, c, f, env, at, v, m);
      UnreadDoes(w, c.body, env, at + 1);
      if m.Ok? { UnreadClausesDo(w, c.more, taken || v.value, m.value.env, at + 1 + |m.value.out|); }
      LeavesInTurn(m, n, env, Versions(c.body), ClauseVersions(c.more));
      LeavesAfterBlank(InTurn(m, n), env, DeclaredAll(env, ClauseVersions(c)));
    }
  }

  /** Nothing happens and only empty lines come out. */
  ghost predicate Inert(m: Outcome<Reading>, env: Env) {
    m.Ok? && m.value.env == env && Blank(m.value.out)
  }

  /** These lines change nothing: there are none, or all can be accepted, no code has come before them, and
      what the last one sets is so already. */
  ghost predicate Unnoticed(env: Env, ns: seq<Number>) {
    ns == [] || (!env.sawCode && AllAccepted(ns) && env == WithVersion(env, ns[|ns| - 1].value.0))
  }

  /** Exactly when lines that are not selected have no effect. */
  lemma {:induction false} UnreadIsInertHere(w: World, b: Block, env: Env, at: nat)
    requires Proper(b)
    ensures Inert(Meaning(w, b, false, env, at), env) <==> Unnoticed(env, Versions(b))
  {
    UnreadDoes(w, b, env, at);
    if Versions(b) != [] { DeclaredAllIs(env, Versions(b)); }
  }

  /** A `#version` line is acted on even where nothing is read: after code it fails there too. */
  lemma {:induction false} UnreadVersionFails(w: World, b: Block, env: Env, at: nat)
    requires Proper(b) && Versions(b) != [] && env.sawCode
    ensures Meaning(w, b, false, env, at).Failed?
  {
    UnreadDoes(w, b, env, at);
    DeclaredAllIs(env, Versions(b));
  }

  /** Lines that are not selected have no effect whatever came before just when no `#version` is among them. */
  lemma {:induction false} UnreadIsInertExactly(w: World, b: Block)
    requires Proper(b)
    ensures Versions(b) == [] <==> forall env, at :: Inert(Meaning(w, b, false, env, at), env)
  {
    if Versions(b) == [] {
      forall env, at ensures Inert(Meaning(w, b, false, env, at), env) { UnreadIsInertHere(w, b, env, at); }
    } else {
      var env := Env(map[], 100, true, []);
      UnreadVersionFails(w, b, env, 1);
      assert !Inert(Meaning(w, b, false, env, 1), env);
    }
  }

  function AsItIs(m: Macros, at: nat, text: string): Option<string> {
    Some(text)
  }

  function Never(m: Macros, at: nat, condition: string): Option<bool> {
    Some(false)
  }

  /** After code, in a branch that is not selected: the machine goes past any other line, but not past `#version`. */
  lemma {:induction false} UnreadLine(w: World, s: State, l: Line)
    requires s.stack == [Frame(true, false)] && !s.active && s.env.sawCode && (l.Version? || l.Ignored?)
    ensures Run(w, s, [l, Endif]) == if l.Version? then Failed else Ok(State([], true, s.env, s.out + [""] + [""]))
  {
    var s' := s.(out := s.out + [""]);
    RunStep(w, s, l, [Endif]);
    RunStep(w, s', Endif, []);
    assert [l, Endif] == [l] + [Endif] && [Endif] == [Endif] + [];
    assert s.stack[..0] == [];
    if l.Ignored? { assert Step(w, s, l) == Ok(s'); }
  }

  /** A source that is refused for a line no branch of it selects. */
  lemma {:induction false} RefusedForUnread(w: World)
    requires w == World(AsItIs, Never, {})
    ensures Run(w, Start(), [Code("x", false), If("0"), Version(Some((100, None))), Endif]).Failed?
    ensures Run(w, Start(), [Code("x", false), If("0"), Ignored, Endif]).Ok?
  {
    var env := Start().env.(sawCode := true);
    var s1 := State([], true, env, ["x"]);
    var s2 := State([Frame(true, false)], false, env, ["x", ""]);
    var code, open, bad := Code("x", false), If("0"), Version(Some((100, None)));
    UnreadLine(w, s2, bad);
    UnreadLine(w, s2, Ignored);
    assert Step(w, Start(), code) == Ok(s1) by { assert [] + ["x"] == ["x"]; }
    assert Step(w, s1, open) == Ok(s2) by {
      assert [] + [Frame(true, false)] == [Frame(true, false)] && ["x"] + [""] == ["x", ""];
    }
    RunStep(w, Start(), code, [open, Ignored, Endif]);
    RunStep(w, Start(), code, [open, bad, Endif]);
    RunStep(w, s1, open, [Ignored, Endif]);
    RunStep(w, s1, open, [bad, Endif]);
    assert [code, open, Ignored, Endif] == [code] + [open, Ignored, Endif];
    assert [code, open, bad, Endif] == [code] + [open, bad, Endif];
    assert [open, Ignored, Endif] == [open] + [Ignored, Endif] && [open, bad, Endif] == [open] + [bad, Endif];
  }
}
