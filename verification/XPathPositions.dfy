/** What predicates select that speak of positions: numbers, `last()` and comparisons with `position()`. */
module XPathPositions {
  import opened Options
  import opened XPathOrder
  import opened XPathSemantics

  /** Whether the predicate keeps member `j`, or fails there. */
  ghost function Decision(w: World, pred: Expr, list: seq<Node>, j: nat): Option<bool>
    requires w.Valid() && AllInDoc(w.doc, list) && j < |list|
  {
    var v := Eval(w, pred, list[j], j + 1, |list|);
    if v.Ok? then Some(Selects(v.value, j + 1)) else None
  }

  function Later(i: nat, j: nat): nat {
    if i < j then j else i
  }

  lemma {:induction false} KeptOne(w: World, pred: Expr, list: seq<Node>, i: nat, keep: bool, rest: seq<Node>)
    requires w.Valid() && AllInDoc(w.doc, list) && i < |list| && Decision(w, pred, list, i) == Some(keep)
    requires Kept(w, pred, list, i + 1) == Ok(rest)
    ensures Kept(w, pred, list, i) == Ok(if keep then [list[i]] + rest else rest)
  {
  }

  lemma {:induction false} KeptBetween(w: World, pred: Expr, list: seq<Node>, i: nat, lo: nat, hi: nat)
    requires w.Valid() && AllInDoc(w.doc, list) && i <= |list| && lo <= hi <= |list|
    requires forall j :: i <= j < |list| ==> Decision(w, pred, list, j) == Some(lo <= j < hi)
    ensures Kept(w, pred, list, i) == Ok(list[Later(i, lo)..Later(i, hi)])
    decreases |list| - i
  {
    if i < |list| {
      var rest := list[Later(i + 1, lo)..Later(i + 1, hi)];
      KeptBetween(w, pred, list, i + 1, lo, hi);
      KeptOne(w, pred, list, i, lo <= i < hi, rest);
      assert list[Later(i, lo)..Later(i, hi)] == if lo <= i < hi then [list[i]] + rest else rest;
    }
  }

  lemma {:induction false} OneMoreOutside(list: seq<Node>, i: nat, lo: nat, hi: nat)
    requires i < |list| && lo <= hi <= |list|
    ensures var rest := list[i + 1..Later(i + 1, lo)] + list[Later(i + 1, hi)..];
      list[i..Later(i, lo)] + list[Later(i, hi)..] == if lo <= i < hi then rest else [list[i]] + rest
  {
  }

  lemma {:induction false} KeptOutside(w: World, pred: Expr, list: seq<Node>, i: nat, lo: nat, hi: nat)
    requires w.Valid() && AllInDoc(w.doc, list) && i <= |list| && lo <= hi <= |list|
    requires forall j :: i <= j < |list| ==> Decision(w, pred, list, j) == Some(!(lo <= j < hi))
    ensures Kept(w, pred, list, i) == Ok(list[i..Later(i, lo)] + list[Later(i, hi)..])
    decreases |list| - i
  {
    if i < |list| {
      var rest := list[i + 1..Later(i + 1, lo)] + list[Later(i + 1, hi)..];
      KeptOutside(w, pred, list, i + 1, lo, hi);
      KeptOne(w, pred, list, i, !(lo <= i < hi), rest);
      OneMoreOutside(list, i, lo, hi);
    } else {
      assert list[i..Later(i, lo)] + list[Later(i, hi)..] == [];
    }
  }

  /** `k` moved into the range from 0 to `n`. */
  function Clip(k: int, n: nat): (c: nat)
    ensures c <= n
  {
    if k < 0 then 0 else if k > n then n else k
  }

  /** The member at position `k`, if there is one; positions count from 1. */
  function Nth(list: seq<Node>, k: int): seq<Node> {
    if 1 <= k <= |list| then [list[k - 1]] else []
  }

  lemma {:induction false} NthIs(list: seq<Node>, k: int)
    ensures Clip(k - 1, |list|) <= Clip(k, |list|) && list[Clip(k - 1, |list|)..Clip(k, |list|)] == Nth(list, k)
  {
  }

  /** A number keeps the node at that position and no other, and nothing where there is no such position. */
  lemma {:induction false} NumberSelects(w: World, list: seq<Node>, v: Num)
    requires w.Valid() && AllInDoc(w.doc, list)
    ensures Kept(w, NumLit(v), list, 0) == Ok(if v.Fin? && v.r == v.r.Floor as real then Nth(list, v.r.Floor) else [])
  {
    var lo, hi := 0, 0;
    if v.Fin? && v.r == v.r.Floor as real { lo, hi := Clip(v.r.Floor - 1, |list|), Clip(v.r.Floor, |list|); }
    forall j | 0 <= j < |list| ensures Decision(w, NumLit(v), list, j) == Some(lo <= j < hi) {
      assert (j + 1) as real == ((j + 1) as real).Floor as real;
    }
    KeptBetween(w, NumLit(v), list, 0, lo, hi);
    NthIs(list, if v.Fin? then v.r.Floor else 0);
  }

  /** `[last()]` keeps the last node. */
  lemma {:induction false} LastSelects(w: World, list: seq<Node>)
    requires w.Valid() && AllInDoc(w.doc, list)
    ensures Kept(w, Last, list, 0) == Ok(Nth(list, |list|))
  {
    forall j | 0 <= j < |list| ensures Decision(w, Last, list, j) == Some(j + 1 == |list|) {}
    KeptBetween(w, Last, list, 0, Clip(|list| - 1, |list|), |list|);
    NthIs(list, |list|);
  }

  function PositionIs(op: CmpOp, k: int): Expr {
    Cmp(op, Position, NumLit(Fin(k as real)))
  }

  predicate Holds(op: CmpOp, a: int, b: int) {
    match op case Eq => a == b case Ne => a != b case Lt => a < b case Le => a <= b case Gt => a > b case Ge => a >= b
  }

  lemma {:induction false} PositionDecides(w: World, list: seq<Node>, k: int, op: CmpOp, j: nat)
    requires w.Valid() && AllInDoc(w.doc, list) && j < |list|
    ensures Decision(w, PositionIs(op, k), list, j) == Some(Holds(op, j + 1, k))
  {
    var e := PositionIs(op, k);
    assert Eval(w, e.a, list[j], j + 1, |list|) == Ok(VNum(Fin((j + 1) as real)));
    assert Eval(w, e.b, list[j], j + 1, |list|) == Ok(VNum(Fin(k as real)));
  }

  /** Comparisons of `position()` with a number. */
  lemma {:induction false} PositionSelects(w: World, list: seq<Node>, k: int, op: CmpOp)
    requires w.Valid() && AllInDoc(w.doc, list)
    ensures Kept(w, PositionIs(op, k), list, 0) == Ok(
      match op
      case Eq => Nth(list, k)
      case Ne => list[..Clip(k - 1, |list|)] + list[Clip(k, |list|)..]
      case Lt => list[..Clip(k - 1, |list|)]
      case Le => list[..Clip(k, |list|)]
      case Gt => list[Clip(k, |list|)..]
      case Ge => list[Clip(k - 1, |list|)..])
  {
    var n, lo, hi, e := |list|, Clip(k - 1, |list|), Clip(k, |list|), PositionIs(op, k);
    NthIs(list, k);
    forall j | 0 <= j < n ensures Decision(w, e, list, j) == Some(Holds(op, j + 1, k)) {
      PositionDecides(w, list, k, op, j);
    }
    match op
    case Eq => KeptBetween(w, e, list, 0, lo, hi);
    case Ne => KeptOutside(w, e, list, 0, lo, hi);
    case Lt => KeptBetween(w, e, list, 0, 0, lo);
    case Le => KeptBetween(w, e, list, 0, 0, hi);
    case Gt =>
      KeptBetween(w, e, list, 0, hi, n);
      assert list[hi..n] == list[hi..];
    case Ge =>
      KeptBetween(w, e, list, 0, lo, n);
      assert list[lo..n] == list[lo..];
  }

  /** A step from the context node alone. */
  lemma {:induction false} OneStep(w: World, step: Step, n: Node, p: nat, s: nat, found: seq<Node>)
    requires w.Valid() && InDoc(w.doc, n) && StepNode(w, step, n) == Ok(found)
    ensures Eval(w, Path(None, false, [step]), n, p, s) == Ok(VSet(Listing(Elems(found))))
  {
    OneInput(w, step, n, found);
    assert [step][1..] == [];
    assert Steps(w, [step], [n]) == Steps(w, [], Listing(Elems(found)));
  }

  lemma {:induction false} OneInput(w: World, step: Step, n: Node, found: seq<Node>)
    requires w.Valid() && InDoc(w.doc, n) && StepNode(w, step, n) == Ok(found)
    ensures StepSet(w, step, [n], 0) == Ok(Elems(found))
  {
    assert StepSet(w, step, [n], 1) == Ok({});
    assert Elems(found) + {} == Elems(found);
  }

  lemma {:induction false} ShortIsListing(l: seq<Node>)
    requires |l| <= 1
    ensures Listing(Elems(l)) == l
  {
    SortedIsUnique(l, Listing(Elems(l)));
  }

  /** A step with a number selects the node with that proximity position: on a reverse axis it counts away
      from the context node. */
  lemma {:induction false} StepWithNumber(w: World, axis: Axis, test: NodeTest, k: int, n: Node, p: nat, s: nat)
    requires w.Valid() && InDoc(w.doc, n)
    ensures Eval(w, Path(None, false, [Step(axis, test, [NumLit(Fin(k as real))])]), n, p, s) ==
      Ok(VSet(Nth(AxisOrder(w, axis, test, n), k)))
  {
    var pred, found := NumLit(Fin(k as real)), Nth(AxisOrder(w, axis, test, n), k);
    NumberSelects(w, AxisOrder(w, axis, test, n), Fin(k as real));
    assert [pred][1..] == [];
    assert FilterAll(w, [pred], AxisOrder(w, axis, test, n)) == FilterAll(w, [], found);
    OneStep(w, Step(axis, test, [pred]), n, p, s, found);
    ShortIsListing(found);
  }
}
