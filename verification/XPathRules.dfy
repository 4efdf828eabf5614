/** The rules of XPath 1.0 on values and node tests, each said without the functions that carry it out. */
module XPathRules {
  import opened Options
  import opened XPathOrder
  import opened XPathSemantics
  import opened XPathPositions

  // ----- section 4: booleans, numbers and strings

  predicate IsTrue(v: Value) {
    || v == VBool(true)
    || (v.VStr? && v.s != "")
    || (v.VSet? && v.nodes != [])
    || (v.VNum? && (v.n.PosInf? || v.n.NegInf? || (v.n.Fin? && (v.n.r < 0.0 || v.n.r > 0.0))))
  }

  lemma {:induction false} Truth(v: Value)
    ensures ToBool(v) <==> IsTrue(v)
  {
  }

  /** `or` looks at the second operand only if the first does not decide, so that it may fail. */
  lemma {:induction false} Disjunction(w: World, a: Expr, b: Expr, n: Node, p: nat, s: nat)
    requires w.Valid() && InDoc(w.doc, n) && Eval(w, a, n, p, s).Ok?
    ensures var x, y := Eval(w, a, n, p, s).value, Eval(w, b, n, p, s);
      Eval(w, Or(a, b), n, p, s) ==
        if IsTrue(x) then Ok(VBool(true)) else if y.Ok? then Ok(VBool(IsTrue(y.value))) else TypeError
  {
    Truth(Eval(w, a, n, p, s).value);
    if Eval(w, b, n, p, s).Ok? { Truth(Eval(w, b, n, p, s).value); }
  }

  /** And so does `and`. */
  lemma {:induction false} Conjunction(w: World, a: Expr, b: Expr, n: Node, p: nat, s: nat)
    requires w.Valid() && InDoc(w.doc, n) && Eval(w, a, n, p, s).Ok?
    ensures var x, y := Eval(w, a, n, p, s).value, Eval(w, b, n, p, s);
      Eval(w, And(a, b), n, p, s) ==
        if !IsTrue(x) then Ok(VBool(false)) else if y.Ok? then Ok(VBool(IsTrue(y.value))) else TypeError
  {
    Truth(Eval(w, a, n, p, s).value);
    if Eval(w, b, n, p, s).Ok? { Truth(Eval(w, b, n, p, s).value); }
  }

  /** The string of a node-set is the string-value of its first node, and its number is the number of that. */
  lemma {:induction false} Conversions(w: World, v: Value)
    ensures v.VSet? ==> var text := if v.nodes == [] then "" else w.stringValue(v.nodes[0]);
      ToStr(w, v) == text && ToNum(w, v) == w.strToNum(text)
    ensures v == VBool(true) ==> ToStr(w, v) == "true" && ToNum(w, v) == Fin(1.0)
    ensures v == VBool(false) ==> ToStr(w, v) == "false" && ToNum(w, v) == Fin(0.0)
    ensures v.VStr? ==> ToStr(w, v) == v.s && ToNum(w, v) == w.strToNum(v.s)
    ensures v.VNum? ==> ToStr(w, v) == w.numToStr(v.n) && ToNum(w, v) == v.n
  {
  }

  /** A minus sign turns the number of the operand around zero and leaves NaN as it is. */
  lemma {:induction false} Negation(w: World, a: Expr, n: Node, p: nat, s: nat)
    requires w.Valid() && InDoc(w.doc, n) && Eval(w, a, n, p, s).Ok?
    ensures var x, r := ToNum(w, Eval(w, a, n, p, s).value), Eval(w, Neg(a), n, p, s);
      && r.Ok? && r.value.VNum?
      && (if x.Fin? then r.value.n.Fin? && r.value.n.r + x.r == 0.0
        else (x.NaN? <==> r.value.n.NaN?) && (x.PosInf? <==> r.value.n.NegInf?) && (x.NegInf? <==> r.value.n.PosInf?))
  {
  }

  // ----- section 3.4: comparisons

  predicate NotAbove(a: Num, r: real) {
    a.NegInf? || (a.Fin? && a.r <= r)
  }

  predicate AboveIt(b: Num, r: real) {
    b.PosInf? || (b.Fin? && b.r > r)
  }

  predicate Separates(a: Num, b: Num, r: real) {
    NotAbove(a, r) && AboveIt(b, r)
  }

  /** A number is less than another when a real number separates them; nothing is less than NaN or above it. */
  lemma {:induction false} LessIs(a: Num, b: Num)
    ensures Less(a, b) <==> exists r :: Separates(a, b, r)
  {
    if Less(a, b) { assert Separates(a, b, if a.Fin? then a.r else if b.Fin? then b.r - 1.0 else 0.0); }
  }

  ghost predicate Related(op: CmpOp, a: Num, b: Num) {
    var less, same, more := exists r :: Separates(a, b, r), a == b && !a.NaN?, exists r :: Separates(b, a, r);
    match op
    case Eq => same
    case Ne => !same
    case Lt => less
    case Le => less || same
    case Gt => more
    case Ge => more || same
  }

  lemma {:induction false} NumbersCompared(op: CmpOp, a: Num, b: Num)
    ensures CmpNum(op, a, b) <==> Related(op, a, b)
  {
    LessIs(a, b);
    LessIs(b, a);
  }

  /** Values that are not node-sets: for equality as booleans if one is, else as numbers if one is, else as
      strings; for order as numbers. */
  lemma {:induction false} PrimitivesCompared(w: World, op: CmpOp, x: Value, y: Value)
    requires !x.VSet? && !y.VSet?
    ensures op != Eq && op != Ne ==> (Compare(w, op, x, y) <==> Related(op, ToNum(w, x), ToNum(w, y)))
    ensures x.VBool? || y.VBool? ==>
      (Compare(w, Eq, x, y) <==> IsTrue(x) == IsTrue(y)) && (Compare(w, Ne, x, y) <==> IsTrue(x) != IsTrue(y))
    ensures x.VStr? && y.VStr? ==> (Compare(w, Eq, x, y) <==> x.s == y.s) && (Compare(w, Ne, x, y) <==> x.s != y.s)
    ensures (op == Eq || op == Ne) && !x.VBool? && !y.VBool? && !(x.VStr? && y.VStr?) ==>
      (Compare(w, op, x, y) <==> Related(op, ToNum(w, x), ToNum(w, y)))
  {
    Truth(x);
    Truth(y);
    NumbersCompared(op, ToNum(w, x), ToNum(w, y));
  }

  function Mirrored(op: CmpOp): CmpOp {
    match op case Lt => Gt case Le => Ge case Gt => Lt case Ge => Le case _ => op
  }

  lemma {:induction false} PrimitivesMirrored(w: World, op: CmpOp, x: Value, y: Value)
    ensures CmpPrim(w, op, x, y) <==> CmpPrim(w, Mirrored(op), y, x)
  {
  }

  /** Every comparison, of node-sets too, may be read from right to left. */
  lemma {:induction false} ComparisonMirrored(w: World, op: CmpOp, x: Value, y: Value)
    ensures Compare(w, op, x, y) <==> Compare(w, Mirrored(op), y, x)
  {
    forall a: Value, b: Value ensures CmpPrim(w, op, a, b) <==> CmpPrim(w, Mirrored(op), b, a) {
      PrimitivesMirrored(w, op, a, b);
    }
  }

  // ----- section 2.3: node tests

  /** Nodes by the kinds of the DOM: 1 element, 3 text, 4 CDATA section, 7 processing instruction, 8 comment. */
  predicate IsOfTest(w: World, axis: Axis, test: NodeTest, x: Node)
    requires x.Tree? ==> x.id < |w.doc.kinds|
  {
    if x.Tree? then
      match test
      case AnyNode => true
      case TextTest => w.doc.kinds[x.id] in {3, 4}
      case CommentTest => w.doc.kinds[x.id] == 8
      case PiTest(target) => w.doc.kinds[x.id] == 7 && (target == None || target == Some(w.piTarget(x.id)))
      case NameTest(name) => w.doc.kinds[x.id] == 1 && w.elementMatches(x.id, name)
    else if x.Attr? && axis == Attribute then
      (test == AnyNode && !w.isNsDecl(x.owner, x.index))
      || (test.NameTest? && w.attributeMatches(x.owner, x.index, test.name))
    else test == AnyNode
  }

  lemma {:induction false} ListingMembers(l: seq<Node>, x: Node)
    ensures x in Listing(Elems(l)) <==> x in l
  {
    assert x in Listing(Elems(l)) <==> x in Elems(Listing(Elems(l)));
  }

  lemma {:induction false} CandidatesAre(w: World, axis: Axis, test: NodeTest, n: Node, x: Node)
    requires w.Valid() && InDoc(w.doc, n)
    ensures x in Candidates(w, axis, test, n) <==>
      InDoc(w.doc, x) && OnAxis(w.doc, axis, n, x) && IsOfTest(w, axis, test, x)
  {
  }

  /** A step without predicates selects the nodes of its axis that are of its test, and no others. */
  lemma {:induction false} StepSelects(w: World, axis: Axis, test: NodeTest, n: Node, p: nat, s: nat)
    requires w.Valid() && InDoc(w.doc, n)
    ensures var r := Eval(w, Path(None, false, [Step(axis, test, [])]), n, p, s);
      && r.Ok? && r.value.VSet?
      && forall x :: x in r.value.nodes <==> InDoc(w.doc, x) && OnAxis(w.doc, axis, n, x) && IsOfTest(w, axis, test, x)
  {
    var l := AxisOrder(w, axis, test, n);
    assert StepNode(w, Step(axis, test, []), n) == Ok(l);
    OneStep(w, Step(axis, test, []), n, p, s, l);
    forall x ensures x in Listing(Elems(l)) <==>
        InDoc(w.doc, x) && OnAxis(w.doc, axis, n, x) && IsOfTest(w, axis, test, x) {
      ListingMembers(l, x);
      OrderMembers(w, axis, test, n);
      CandidatesAre(w, axis, test, n, x);
    }
  }

  /** `id()` finds nothing from an attribute without an element, and otherwise the elements found by the value. */
  lemma {:induction false} IdSelects(w: World, a: Expr, n: Node, p: nat, s: nat)
    requires w.Valid() && InDoc(w.doc, n) && Eval(w, a, n, p, s).Ok?
    ensures var r := Eval(w, Id(a), n, p, s);
      && r.Ok? && r.value.VSet?
      && forall x :: x in r.value.nodes <==>
        x.Tree? && n != Orphan && x.id in w.byId(Eval(w, a, n, p, s).value)
  {
    var v := Eval(w, a, n, p, s).value;
    var l := IdNodes(w, n, v);
    forall x ensures x in l <==> x.Tree? && n != Orphan && x.id in w.byId(v) {
      if x.Tree? && n != Orphan && x.id in w.byId(v) {
        var k :| 0 <= k < |w.byId(v)| && w.byId(v)[k] == x.id;
        assert l[k] == x;
      }
    }
    forall x ensures x in Listing(Elems(l)) <==> x in l { ListingMembers(l, x); }
  }
}
