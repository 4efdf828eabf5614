/**
 XPath 1.0 expressions and what they mean, read straight off the recommendation: a step
 takes every node of every input node's axis, filters it by proximity position, and the
 results of all input nodes are united; a node-set is handed on in document order.
 Nothing here is optimised. A node-set where none was given is the only error.
 */
module XPathSemantics {
  import opened Options
  import opened XPathTree
  import opened XPathOrder

  datatype Result<+T> = Ok(value: T) | TypeError {
    predicate IsFailure() { TypeError? }
    function PropagateFailure<U>(): Result<U> requires TypeError? { TypeError }
    function Extract(): T requires Ok? { value }
  }

  // ----- syntax

  datatype Axis =
    | Ancestor | AncestorOrSelf | Attribute | Child | Descendant | DescendantOrSelf | Following
    | FollowingSibling | Namespace | ParentAxis | Preceding | PrecedingSibling | SelfAxis

  datatype NodeTest = AnyNode | TextTest | CommentTest | PiTest(target: Option<string>) | NameTest(name: string)

  datatype CmpOp = Eq | Ne | Lt | Le | Gt | Ge

  datatype ArithOp = Add | Sub | Mul | Div | Mod

  datatype Type = NumberType | StringType | BooleanType | NodesetType

  /** A library function other than position, last, count and id, with its declared type. */
  datatype Fn = NumFn(name: string) | StrFn(name: string) | BoolFn(name: string)

  datatype Expr =
    | NumLit(v: Num)
    | StrLit(str: string)
    | Or(a: Expr, b: Expr)
    | And(a: Expr, b: Expr)
    | Cmp(cmp: CmpOp, a: Expr, b: Expr)
    | Arith(op: ArithOp, a: Expr, b: Expr)
    | Neg(a: Expr)
    | Union(first: Expr, rest: seq<Expr>)
    | Position
    | Last
    | Count(a: Expr)
    | Id(a: Expr)
    | Call(fn: Fn, args: seq<Expr>)
    | Filter(e: Expr, preds: seq<Expr>)
    | Path(start: Option<Expr>, abs: bool, steps: seq<Step>)

  /** `SlashSlash` is the one shared step object the parser emits for `//`; a spelled-out
      `descendant-or-self::node()` is an ordinary step. */
  datatype Step = SlashSlash | Step(axis: Axis, test: NodeTest, preds: seq<Expr>)

  // ----- values

  /** Numbers without rounding and without a signed zero. */
  datatype Num = NaN | PosInf | NegInf | Fin(r: real)

  datatype Value = VNum(n: Num) | VStr(s: string) | VBool(b: bool) | VSet(nodes: seq<Node>)

  /** The tree, what the node tests and string functions see of it, and the arithmetic. */
  datatype World = World(
    doc: Doc,
    elementMatches: (nat, string) -> bool,
    attributeMatches: (nat, nat, string) -> bool,
    isNsDecl: (nat, nat) -> bool,
    piTarget: nat -> string,
    stringValue: Node -> string,
    strToNum: string -> Num,
    numToStr: Num -> string,
    arith: (ArithOp, Num, Num) -> Num,
    numFn: (string, Node, seq<Value>) -> Num,
    strFn: (string, Node, seq<Value>) -> string,
    boolFn: (string, Node, seq<Value>) -> bool,
    byId: Value -> seq<nat>)
  {
    ghost predicate Valid() {
      doc.Valid() && forall v, k :: 0 <= k < |byId(v)| ==> byId(v)[k] < |doc.parents|
    }
  }

  function TypeOf(v: Value): Type {
    match v
    case VNum(_) => NumberType
    case VStr(_) => StringType
    case VBool(_) => BooleanType
    case VSet(_) => NodesetType
  }

  function ToBool(v: Value): bool {
    match v
    case VBool(b) => b
    case VNum(n) => n != NaN && n != Fin(0.0)
    case VStr(s) => |s| != 0
    case VSet(nodes) => |nodes| != 0
  }

  function ToStr(w: World, v: Value): string {
    match v
    case VStr(s) => s
    case VNum(n) => w.numToStr(n)
    case VBool(b) => if b then "true" else "false"
    case VSet(nodes) => if |nodes| == 0 then "" else w.stringValue(nodes[0])
  }

  function ToNum(w: World, v: Value): Num {
    match v
    case VNum(n) => n
    case VStr(s) => w.strToNum(s)
    case VBool(b) => if b then Fin(1.0) else Fin(0.0)
    case VSet(_) => w.strToNum(ToStr(w, v))
  }

  function Negate(n: Num): Num {
    match n case NaN => NaN case PosInf => NegInf case NegInf => PosInf case Fin(r) => Fin(-r)
  }

  function Less(a: Num, b: Num): bool {
    match (a, b)
    case (NaN, _) => false
    case (_, NaN) => false
    case (NegInf, _) => b != NegInf
    case (_, PosInf) => a != PosInf
    case (Fin(x), Fin(y)) => x < y
    case _ => false
  }

  function CmpNum(op: CmpOp, a: Num, b: Num): bool {
    match op
    case Eq => a != NaN && a == b
    case Ne => !(a != NaN && a == b)
    case Lt => Less(a, b)
    case Le => Less(a, b) || (a != NaN && a == b)
    case Gt => Less(b, a)
    case Ge => Less(b, a) || (a != NaN && a == b)
  }

  /** Comparison of values that are not node-sets. */
  function CmpPrim(w: World, op: CmpOp, x: Value, y: Value): bool {
    if op == Eq || op == Ne then
      var eq :=
        if x.VBool? || y.VBool? then ToBool(x) == ToBool(y)
        else if x.VNum? || y.VNum? then CmpNum(Eq, ToNum(w, x), ToNum(w, y))
        else x == y;
      if op == Eq then eq else !eq
    else CmpNum(op, ToNum(w, x), ToNum(w, y))
  }

  /** Section 3.4: a node-set compares as some member's string-value, but as a boolean with a boolean. */
  predicate Compare(w: World, op: CmpOp, x: Value, y: Value) {
    match (x, y)
    case (VSet(xs), VSet(ys)) =>
      exists i, j ::
        0 <= i < |xs| && 0 <= j < |ys| && CmpPrim(w, op, VStr(w.stringValue(xs[i])), VStr(w.stringValue(ys[j])))
    case (VSet(xs), VBool(_)) => CmpPrim(w, op, VBool(|xs| != 0), y)
    case (VBool(_), VSet(ys)) => CmpPrim(w, op, x, VBool(|ys| != 0))
    case (VSet(xs), _) => exists i :: 0 <= i < |xs| && CmpPrim(w, op, VStr(w.stringValue(xs[i])), y)
    case (_, VSet(ys)) => exists j :: 0 <= j < |ys| && CmpPrim(w, op, x, VStr(w.stringValue(ys[j])))
    case _ => CmpPrim(w, op, x, y)
  }

  // ----- axes and node tests

  predicate IsReverse(axis: Axis) {
    axis == Ancestor || axis == AncestorOrSelf || axis == Preceding || axis == PrecedingSibling
  }

  ghost predicate IsDescendant(d: Doc, m: Node, n: Node)
    requires d.Valid() && InDoc(d, m) && InDoc(d, n)
  {
    m.Tree? && n.Tree? && n != m && d.Contains(m.id, n.id)
  }

  ghost predicate IsAncestor(d: Doc, m: Node, n: Node)
    requires d.Valid() && InDoc(d, m) && InDoc(d, n)
  {
    n.Tree? && if m.Attr? then d.Contains(n.id, m.owner) else m.Tree? && n != m && d.Contains(n.id, m.id)
  }

  /** Section 2.2. An attribute is on nobody's child, descendant or sibling axis; its own
      `following` starts after its element's subtree. */
  ghost predicate OnAxis(d: Doc, axis: Axis, m: Node, n: Node)
    requires d.Valid() && InDoc(d, m) && InDoc(d, n)
  {
    match axis
    case SelfAxis => n == m
    case DescendantOrSelf => n == m || IsDescendant(d, m, n)
    case AncestorOrSelf => n == m || IsAncestor(d, m, n)
    case Child => m.Tree? && n.Tree? && d.parents[n.id] == m.id
    case Descendant => IsDescendant(d, m, n)
    case ParentAxis => n.Tree? && if m.Attr? then n.id == m.owner else m.Tree? && n.id == d.parents[m.id]
    case Ancestor => IsAncestor(d, m, n)
    case FollowingSibling => m.Tree? && n.Tree? && n.id > m.id && d.parents[n.id] == d.parents[m.id]
    case PrecedingSibling => m.Tree? && n.Tree? && n.id < m.id && d.parents[n.id] == d.parents[m.id]
    case Following => !m.Orphan? && n.Tree? && n.id > OwnerRank(m) && !d.Contains(OwnerRank(m), n.id)
    case Preceding => !m.Orphan? && n.Tree? && n.id < OwnerRank(m) && !d.Contains(n.id, OwnerRank(m))
    case Attribute => m.Tree? && n.Attr? && n.owner == m.id
    case Namespace => false
  }

  /** The recommendation's own words: after `m` in document order and not below it. */
  ghost predicate AfterInDocument(d: Doc, m: Node, n: Node)
    requires d.Valid() && InDoc(d, m) && InDoc(d, n)
  {
    n.Tree? && Before(m, n) && !IsDescendant(d, m, n)
  }

  ghost predicate BeforeInDocument(d: Doc, m: Node, n: Node)
    requires d.Valid() && InDoc(d, m) && InDoc(d, n)
  {
    n.Tree? && Before(n, m) && !IsAncestor(d, m, n)
  }

  /** `preceding` is what the recommendation says for every node, `following` for every tree
      node. For an attribute it is exactly when its element has no children; otherwise those
      children, which the recommendation counts, are left out. */
  lemma {:induction false} OutsideAxesAsRecommended(d: Doc, m: Node)
    requires d.Valid() && InDoc(d, m) && !m.Orphan?
    ensures forall n :: InDoc(d, n) ==> (OnAxis(d, Preceding, m, n) <==> BeforeInDocument(d, m, n))
    ensures (forall n :: InDoc(d, n) ==> (OnAxis(d, Following, m, n) <==> AfterInDocument(d, m, n)))
      <==> m.Tree? || d.ChildIds(m.owner) == []
  {
    if m.Attr? {
      var o := m.owner;
      FirstChild(d, o);
      ChildrenAt(d, o, o + 1);
      if d.ChildIds(o) != [] {
        var child := Tree(o + 1);
        assert d.Contains(o, o) && d.Contains(o, child.id);
        assert AfterInDocument(d, m, child) && !OnAxis(d, Following, m, child);
      } else {
        forall n | InDoc(d, n) ensures OnAxis(d, Following, m, n) <==> AfterInDocument(d, m, n) {
          if n.Tree? { SubtreeIsInterval(d, o, n.id); }
        }
      }
    }
  }

  /** The smallest document where they differ: an element with an attribute and a child. */
  lemma {:induction false} ChildOfOwnerIsMissed(d: Doc)
    requires d == Doc([NONE, 0], [ELEMENT, ELEMENT], [1, 0])
    ensures d.Valid() && InDoc(d, Attr(0, 0)) && InDoc(d, Tree(1))
    ensures AfterInDocument(d, Attr(0, 0), Tree(1)) && !OnAxis(d, Following, Attr(0, 0), Tree(1))
  {
    assert d.Contains(0, 0);
    assert d.NodeOk(0) && d.NodeOk(1);
  }

  predicate TreeTest(w: World, test: NodeTest, id: nat)
    requires id < |w.doc.kinds|
  {
    var k := w.doc.kinds[id];
    match test
    case AnyNode => true
    case TextTest => k == TEXT || k == CDATA
    case CommentTest => k == COMMENT
    case PiTest(target) => k == INSTRUCTION && (target.None? || w.piTarget(id) == target.value)
    case NameTest(name) => k == ELEMENT && w.elementMatches(id, name)
  }

  predicate AttrTest(w: World, test: NodeTest, owner: nat, index: nat) {
    match test
    case NameTest(name) => w.attributeMatches(owner, index, name)
    case AnyNode => !w.isNsDecl(owner, index)
    case _ => false
  }

  /** Attributes are the principal node type of the attribute axis only. */
  predicate Passes(w: World, axis: Axis, test: NodeTest, n: Node)
    requires n.Tree? ==> n.id < |w.doc.kinds|
  {
    match n
    case Tree(id) => TreeTest(w, test, id)
    case Attr(owner, index) => if axis == Attribute then AttrTest(w, test, owner, index) else test == AnyNode
    case Orphan => test == AnyNode
  }

  ghost function Universe(d: Doc): (u: set<Node>)
    requires d.Valid()
    ensures forall n :: n in u <==> InDoc(d, n)
  {
    (set id: nat | id < |d.parents| :: Tree(id))
    + (set owner: nat, index: nat | owner < |d.parents| && index < d.attrCounts[owner] :: Attr(owner, index))
    + {Orphan}
  }

  ghost function Candidates(w: World, axis: Axis, test: NodeTest, m: Node): set<Node>
    requires w.Valid() && InDoc(w.doc, m)
  {
    set n | n in Universe(w.doc) && OnAxis(w.doc, axis, m, n) && Passes(w, axis, test, n)
  }

  /** The candidates by proximity to `m`: reverse axes count backwards. */
  ghost function AxisOrder(w: World, axis: Axis, test: NodeTest, m: Node): (l: seq<Node>)
    requires w.Valid() && InDoc(w.doc, m)
    ensures AllInDoc(w.doc, l)
  {
    var l := Listing(Candidates(w, axis, test, m));
    InListing(w.doc, Candidates(w, axis, test, m));
    ReverseMembers(l);
    if IsReverse(axis) then Reverse(l) else l
  }

  lemma {:induction false} OrderMembers(w: World, axis: Axis, test: NodeTest, m: Node)
    requires w.Valid() && InDoc(w.doc, m)
    ensures forall n :: n in AxisOrder(w, axis, test, m) <==> n in Candidates(w, axis, test, m)
  {
    var c := Candidates(w, axis, test, m);
    assert forall n :: n in Listing(c) <==> n in Elems(Listing(c));
    ReverseMembers(Listing(c));
  }

  // ----- evaluation

  function RootOf(n: Node): Node {
    if n.Orphan? then Orphan else Tree(0)
  }

  /** Section 2.4: a number selects by position, anything else by its truth. */
  predicate Selects(v: Value, position: nat) {
    if v.VNum? then CmpNum(Eq, v.n, Fin(position as real)) else ToBool(v)
  }

  ghost predicate GoodValue(d: Doc, r: Result<Value>) {
    r.Ok? && r.value.VSet? ==> Sorted(r.value.nodes) && AllInDoc(d, r.value.nodes)
  }

  function NodeSetOf(v: Value): Result<seq<Node>> {
    if v.VSet? then Ok(v.nodes) else TypeError
  }

  function FnResult(w: World, fn: Fn, n: Node, args: seq<Value>): Value {
    match fn
    case NumFn(name) => VNum(w.numFn(name, n, args))
    case StrFn(name) => VStr(w.strFn(name, n, args))
    case BoolFn(name) => VBool(w.boolFn(name, n, args))
  }

  function IdNodes(w: World, n: Node, v: Value): (l: seq<Node>)
    ensures w.Valid() ==> AllInDoc(w.doc, l)
  {
    if n.Orphan? then [] else seq(|w.byId(v)|, k requires 0 <= k < |w.byId(v)| => Tree(w.byId(v)[k]))
  }

  /** The value of `e` at context node `n`, position `p` and size `s`. */
  ghost function Eval(w: World, e: Expr, n: Node, p: nat, s: nat): (r: Result<Value>)
    requires w.Valid() && InDoc(w.doc, n)
    ensures GoodValue(w.doc, r)
    decreases e, 0, 0
  {
    match e
    case NumLit(v) => Ok(VNum(v))
    case StrLit(str) => Ok(VStr(str))
    case Or(a, b) =>
      var x :- Eval(w, a, n, p, s);
      if ToBool(x) then Ok(VBool(true)) else var y :- Eval(w, b, n, p, s); Ok(VBool(ToBool(y)))
    case And(a, b) =>
      var x :- Eval(w, a, n, p, s);
      if !ToBool(x) then Ok(VBool(false)) else var y :- Eval(w, b, n, p, s); Ok(VBool(ToBool(y)))
    case Cmp(op, a, b) =>
      var x :- Eval(w, a, n, p, s);
      var y :- Eval(w, b, n, p, s);
      Ok(VBool(Compare(w, op, x, y)))
    case Arith(op, a, b) =>
      var x :- Eval(w, a, n, p, s);
      var y :- Eval(w, b, n, p, s);
      Ok(VNum(w.arith(op, ToNum(w, x), ToNum(w, y))))
    case Neg(a) =>
      var x :- Eval(w, a, n, p, s);
      Ok(VNum(Negate(ToNum(w, x))))
    case Union(first, rest) =>
      var x :- Eval(w, first, n, p, s);
      var l :- NodeSetOf(x);
      var t :- EvalUnion(w, rest, n, p, s);
      InListing(w.doc, Elems(l) + t);
      Ok(VSet(Listing(Elems(l) + t)))
    case Position => Ok(VNum(Fin(p as real)))
    case Last => Ok(VNum(Fin(s as real)))
    case Count(a) =>
      var x :- Eval(w, a, n, p, s);
      var l :- NodeSetOf(x);
      Ok(VNum(Fin(|l| as real)))
    case Id(a) =>
      var x :- Eval(w, a, n, p, s);
      InListing(w.doc, Elems(IdNodes(w, n, x)));
      Ok(VSet(Listing(Elems(IdNodes(w, n, x)))))
    case Call(fn, args) =>
      var vs :- EvalArgs(w, args, n, p, s);
      Ok(FnResult(w, fn, n, vs))
    case Filter(e', preds) =>
      var x :- Eval(w, e', n, p, s);
      var l :- NodeSetOf(x);
      var l' :- FilterAll(w, preds, l);
      Ok(VSet(l'))
    case Path(start, abs, steps) =>
      var x :- (if start.Some? then Eval(w, start.value, n, p, s) else Ok(VSet([if abs then RootOf(n) else n])));
      var l :- NodeSetOf(x);
      var l' :- Steps(w, steps, l);
      Ok(VSet(l'))
  }

  lemma {:induction false} InListing(d: Doc, s: set<Node>)
    ensures (forall n :: n in s ==> InDoc(d, n)) ==> AllInDoc(d, Listing(s))
  {
    assert forall n :: n in Listing(s) ==> n in Elems(Listing(s));
  }

  ghost function EvalUnion(w: World, list: seq<Expr>, n: Node, p: nat, s: nat): (r: Result<set<Node>>)
    requires w.Valid() && InDoc(w.doc, n)
    ensures r.Ok? ==> forall x :: x in r.value ==> InDoc(w.doc, x)
    decreases list, 0, 0
  {
    if list == [] then Ok({}) else
      var x :- Eval(w, list[0], n, p, s);
      var l :- NodeSetOf(x);
      var t :- EvalUnion(w, list[1..], n, p, s);
      Ok(Elems(l) + t)
  }

  ghost function EvalArgs(w: World, args: seq<Expr>, n: Node, p: nat, s: nat): (r: Result<seq<Value>>)
    requires w.Valid() && InDoc(w.doc, n)
    decreases args, 0, 0
  {
    if args == [] then Ok([]) else
      var x :- Eval(w, args[0], n, p, s);
      var t :- EvalArgs(w, args[1..], n, p, s);
      Ok([x] + t)
  }

  /** The members of `list` from index `k` on that one predicate keeps. */
  ghost function Kept(w: World, pred: Expr, list: seq<Node>, k: nat): (r: Result<seq<Node>>)
    requires w.Valid() && AllInDoc(w.doc, list) && k <= |list|
    ensures r.Ok? ==> forall x :: x in r.value ==> x in list[k..]
    ensures r.Ok? && Sorted(list) ==> Sorted(r.value)
    ensures r.Ok? && SortedDown(list) ==> SortedDown(r.value)
    decreases pred, 1, |list| - k
  {
    if k == |list| then Ok([]) else
      var v :- Eval(w, pred, list[k], k + 1, |list|);
      var rest :- Kept(w, pred, list, k + 1);
      assert list[k..] == [list[k]] + list[k + 1..];
      HeadFirst(list, rest, k);
      Ok(if Selects(v, k + 1) then [list[k]] + rest else rest)
  }

  lemma {:induction false} HeadFirst(list: seq<Node>, rest: seq<Node>, k: nat)
    requires k < |list| && forall x :: x in rest ==> x in list[k + 1..]
    ensures Sorted(list) ==> forall i :: 0 <= i < |rest| ==> Before(list[k], rest[i])
    ensures SortedDown(list) ==> forall i :: 0 <= i < |rest| ==> Before(rest[i], list[k])
  {
    forall i | 0 <= i < |rest|
      ensures Sorted(list) ==> Before(list[k], rest[i])
      ensures SortedDown(list) ==> Before(rest[i], list[k])
    {
      assert rest[i] in rest;
      var j :| 0 <= j < |list[k + 1..]| && list[k + 1..][j] == rest[i];
      assert list[k + 1 + j] == rest[i];
    }
  }

  ghost function FilterAll(w: World, preds: seq<Expr>, list: seq<Node>): (r: Result<seq<Node>>)
    requires w.Valid() && AllInDoc(w.doc, list)
    ensures r.Ok? ==> forall x :: x in r.value ==> x in list
    ensures r.Ok? && Sorted(list) ==> Sorted(r.value)
    ensures r.Ok? && SortedDown(list) ==> SortedDown(r.value)
    decreases preds, 2, 0
  {
    if preds == [] then Ok(list) else
      var l :- Kept(w, preds[0], list, 0);
      FilterAll(w, preds[1..], l)
  }

  /** One step from one node, by proximity. */
  ghost function StepNode(w: World, step: Step, m: Node): (r: Result<seq<Node>>)
    requires w.Valid() && InDoc(w.doc, m)
    ensures r.Ok? ==> AllInDoc(w.doc, r.value)
    decreases step, 2, 0
  {
    match step
    case SlashSlash => Ok(AxisOrder(w, DescendantOrSelf, AnyNode, m))
    case Step(axis, test, preds) => FilterAll(w, preds, AxisOrder(w, axis, test, m))
  }

  /** One step from every input node, from index `k` on. */
  ghost function StepSet(w: World, step: Step, input: seq<Node>, k: nat): (r: Result<set<Node>>)
    requires w.Valid() && AllInDoc(w.doc, input) && k <= |input|
    ensures r.Ok? ==> forall x :: x in r.value ==> InDoc(w.doc, x)
    decreases step, 3, |input| - k
  {
    if k == |input| then Ok({}) else
      var l :- StepNode(w, step, input[k]);
      var rest :- StepSet(w, step, input, k + 1);
      Ok(Elems(l) + rest)
  }

  ghost function Steps(w: World, steps: seq<Step>, input: seq<Node>): (r: Result<seq<Node>>)
    requires w.Valid() && AllInDoc(w.doc, input)
    ensures r.Ok? ==> AllInDoc(w.doc, r.value)
    ensures r.Ok? && Sorted(input) ==> Sorted(r.value)
    decreases steps, 4, 0
  {
    if steps == [] then Ok(input) else
      var t :- StepSet(w, steps[0], input, 0);
      InListing(w.doc, t);
      Steps(w, steps[1..], Listing(t))
  }
}
