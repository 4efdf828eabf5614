/**
 Matrix inversion as the shader runtime does it: a closed form for two by two, Gauss-Jordan
 elimination in place with row pivoting otherwise. Over the reals it inverts exactly the
 matrices that have an inverse.
 */
module GlslInverse {
  import opened GlslDeterminant
  import opened GlslMatrix

  /** `NoInverse` stands for the runtime's answer with entries that are not finite numbers. */
  datatype Inverse = Inverse(m: Vec) | NoInverse

  // ----- rows of the working matrix

  type Rows = seq<Vec>

  ghost predicate Shape(rows: Rows, n: nat) {
    |rows| == n && forall r :: 0 <= r < n ==> |rows[r]| == 2 * n
  }

  ghost function Left(row: Vec, n: nat): Vec
    requires |row| == 2 * n
  {
    row[..n]
  }

  ghost function Right(row: Vec, n: nat): Vec
    requires |row| == 2 * n
  {
    row[n..]
  }

  /** The left half of a row is its right half times `m`. */
  ghost predicate RowOk(row: Vec, m: Vec, n: nat)
    requires |row| == 2 * n && Sized(m, n, n)
  {
    forall c :: 0 <= c < n ==> row[c] == Dot(Right(row, n), ColOf(m, n, n, c))
  }

  ghost predicate RowsOk(rows: Rows, m: Vec, n: nat)
    requires Shape(rows, n) && Sized(m, n, n)
  {
    forall r :: 0 <= r < n ==> RowOk(rows[r], m, n)
  }

  ghost function Half(row: Vec, n: nat, left: bool): Vec
    requires |row| == 2 * n
  {
    if left then Left(row, n) else Right(row, n)
  }

  /** `x` solves the homogeneous system of the left, or of the right, halves. */
  ghost predicate Solves(rows: Rows, n: nat, left: bool, x: Vec)
    requires Shape(rows, n) && |x| == n
  {
    forall r :: 0 <= r < n ==> Dot(Half(rows[r], n, left), x) == 0.0
  }

  /** The first `c` columns of the left half are those of the identity. */
  ghost predicate Reduced(rows: Rows, n: nat, c: nat)
    requires Shape(rows, n) && c <= n
  {
    forall r, k :: 0 <= r < n && 0 <= k < c ==> rows[r][k] == if r == k then 1.0 else 0.0
  }

  // ----- what the row operations keep

  ghost function Minus(row: Vec, f: real, other: Vec): Vec
    requires |row| == |other|
  {
    seq(|row|, k requires 0 <= k < |row| => row[k] - f * other[k])
  }

  ghost function Divided(row: Vec, d: real): Vec
    requires d != 0.0
  {
    seq(|row|, k requires 0 <= k < |row| => row[k] / d)
  }

  lemma {:induction false} DotMinus(row: Vec, f: real, other: Vec, v: Vec)
    requires |row| == |other| == |v|
    ensures Dot(Minus(row, f, other), v) == Dot(row, v) - f * Dot(other, v)
  {
    var s := Plus(row, Scaled(other, -f));
    forall k | 0 <= k < |row| ensures Minus(row, f, other)[k] == s[k] {
      assert Scaled(other, -f)[k] == -f * other[k];
    }
    assert Minus(row, f, other) == s;
    DotPlus(row, Scaled(other, -f), v);
    DotScaled(other, -f, v);
  }

  lemma {:induction false} DotDivided(row: Vec, d: real, v: Vec)
    requires |row| == |v| && d != 0.0
    ensures Dot(Divided(row, d), v) * d == Dot(row, v)
  {
    var back := Scaled(Divided(row, d), d);
    forall k | 0 <= k < |row| ensures back[k] == row[k] {
      assert Divided(row, d)[k] == row[k] / d;
    }
    assert back == row;
    DotScaled(Divided(row, d), d, v);
  }

  lemma {:induction false} MinusHalves(row: Vec, f: real, other: Vec, n: nat)
    requires |row| == |other| == 2 * n
    ensures Left(Minus(row, f, other), n) == Minus(Left(row, n), f, Left(other, n))
    ensures Right(Minus(row, f, other), n) == Minus(Right(row, n), f, Right(other, n))
  {
    var l, l', r, r' := Left(Minus(row, f, other), n), Minus(Left(row, n), f, Left(other, n)),
      Right(Minus(row, f, other), n), Minus(Right(row, n), f, Right(other, n));
    forall k | 0 <= k < n ensures l[k] == l'[k] && r[k] == r'[k] {
      assert Left(row, n)[k] == row[k] && Left(other, n)[k] == other[k];
      assert Right(row, n)[k] == row[n + k] && Right(other, n)[k] == other[n + k];
    }
  }

  lemma {:induction false} DividedHalves(row: Vec, d: real, n: nat)
    requires |row| == 2 * n && d != 0.0
    ensures Left(Divided(row, d), n) == Divided(Left(row, n), d)
    ensures Right(Divided(row, d), n) == Divided(Right(row, n), d)
  {
    var l, l' := Left(Divided(row, d), n), Divided(Left(row, n), d);
    var r, r' := Right(Divided(row, d), n), Divided(Right(row, n), d);
    forall k | 0 <= k < n ensures l[k] == l'[k] && r[k] == r'[k] {
      assert Left(row, n)[k] == row[k] && Right(row, n)[k] == row[n + k];
    }
  }

  lemma {:induction false} MinusAt(right: Vec, a: real, f: real, other: Vec, b: real, column: Vec)
    requires |right| == |other| == |column| && a == Dot(right, column) && b == Dot(other, column)
    ensures a - f * b == Dot(Minus(right, f, other), column)
  {
    DotMinus(right, f, other, column);
  }

  lemma {:induction false} MinusKeepsAt(row: Vec, f: real, other: Vec, n: nat, column: Vec, c: nat)
    requires |row| == |other| == 2 * n && |column| == n && c < n
    requires row[c] == Dot(Right(row, n), column) && other[c] == Dot(Right(other, n), column)
    ensures Minus(row, f, other)[c] == Dot(Right(Minus(row, f, other), n), column)
  {
    MinusHalves(row, f, other, n);
    MinusAt(Right(row, n), row[c], f, Right(other, n), other[c], column);
  }

  lemma {:induction false} MinusKeeps(row: Vec, f: real, other: Vec, m: Vec, n: nat)
    requires |row| == |other| == 2 * n && Sized(m, n, n) && RowOk(row, m, n) && RowOk(other, m, n)
    ensures RowOk(Minus(row, f, other), m, n)
  {
    forall c | 0 <= c < n ensures Minus(row, f, other)[c] == Dot(Right(Minus(row, f, other), n), ColOf(m, n, n, c)) {
      MinusKeepsAt(row, f, other, n, ColOf(m, n, n, c), c);
    }
  }

  lemma {:induction false} DividedKeeps(row: Vec, d: real, m: Vec, n: nat)
    requires |row| == 2 * n && d != 0.0 && Sized(m, n, n) && RowOk(row, m, n)
    ensures RowOk(Divided(row, d), m, n)
  {
    var o := Divided(row, d);
    DividedHalves(row, d, n);
    forall c | 0 <= c < n ensures o[c] == Dot(Right(o, n), ColOf(m, n, n, c)) {
      DotDivided(Right(row, n), d, ColOf(m, n, n, c));
      QuotientUnique(row[c], Dot(Right(o, n), ColOf(m, n, n, c)), d);
    }
  }

  lemma {:induction false} QuotientUnique(a: real, b: real, d: real)
    requires d != 0.0 && a == b * d
    ensures a / d == b
  {
  }

  lemma {:induction false} HalfMinus(row: Vec, f: real, other: Vec, n: nat, left: bool, x: Vec)
    requires |row| == |other| == 2 * n && |x| == n
    requires Dot(Half(Minus(row, f, other), n, left), x) == 0.0 && Dot(Half(other, n, left), x) == 0.0
    ensures Dot(Half(row, n, left), x) == 0.0
  {
    MinusHalves(row, f, other, n);
    DotMinus(Half(row, n, left), f, Half(other, n, left), x);
  }

  lemma {:induction false} HalfDivided(row: Vec, d: real, n: nat, left: bool, x: Vec)
    requires |row| == 2 * n && |x| == n && d != 0.0 && Dot(Half(Divided(row, d), n, left), x) == 0.0
    ensures Dot(Half(row, n, left), x) == 0.0
  {
    DividedHalves(row, d, n);
    DotDivided(Half(row, n, left), d, x);
  }

  /**
   What elimination keeps: whatever solves the remaining system is taken to zero by `m`, and only
   zero solves the system of the right halves.
   */
  ghost predicate Elimination(rows: Rows, m: Vec, n: nat, c: nat) {
    Sized(m, n, n) && c <= n && Shape(rows, n) && RowsOk(rows, m, n) && Reduced(rows, n, c) && Kernels(rows, m, n)
  }

  ghost predicate Kernels(rows: Rows, m: Vec, n: nat)
    requires Sized(m, n, n) && Shape(rows, n)
  {
    && (forall x: Vec :: |x| == n && Solves(rows, n, true, x) ==> TakesToZero(m, n, x))
    && (forall x: Vec :: |x| == n && Solves(rows, n, false, x) ==> Zero(x))
  }

  /** The part of the invariant that a row operation owes when every solution after it is one before it. */
  lemma {:induction false} FewerSolutions(rows: Rows, o: Rows, m: Vec, n: nat, c: nat)
    requires Elimination(rows, m, n, c) && Shape(o, n) && RowsOk(o, m, n) && Reduced(o, n, c)
    requires forall x: Vec, left :: |x| == n && Solves(o, n, left, x) ==> Solves(rows, n, left, x)
    ensures Elimination(o, m, n, c)
  {
  }

  function Swapped(rows: Rows, i: nat, j: nat): Rows
    requires i < |rows| && j < |rows|
  {
    rows[i := rows[j]][j := rows[i]]
  }

  lemma {:induction false} SwapParts(rows: Rows, m: Vec, n: nat, i: nat, j: nat, c: nat)
    requires Shape(rows, n) && Sized(m, n, n) && RowsOk(rows, m, n) && c <= i < n && c <= j < n && Reduced(rows, n, c)
    ensures Shape(Swapped(rows, i, j), n) && RowsOk(Swapped(rows, i, j), m, n) && Reduced(Swapped(rows, i, j), n, c)
  {
    assert Shape(Swapped(rows, i, j), n);
  }

  lemma {:induction false} SwapSolves(rows: Rows, n: nat, i: nat, j: nat, left: bool, x: Vec)
    requires i < n && j < n && |x| == n && Shape(rows, n) && Shape(Swapped(rows, i, j), n)
    requires Solves(Swapped(rows, i, j), n, left, x)
    ensures Solves(rows, n, left, x)
  {
    forall r | 0 <= r < n ensures Dot(Half(rows[r], n, left), x) == 0.0 {
      var q := if r == i then j else if r == j then i else r;
      assert Swapped(rows, i, j)[q] == rows[r] && Dot(Half(Swapped(rows, i, j)[q], n, left), x) == 0.0;
    }
  }

  /** Exchanging two rows that are not reduced yet. */
  lemma {:induction false} SwapKeeps(rows: Rows, m: Vec, n: nat, i: nat, j: nat, c: nat)
    requires Elimination(rows, m, n, c) && c <= i < n && c <= j < n
    ensures Elimination(Swapped(rows, i, j), m, n, c)
  {
    var o := Swapped(rows, i, j);
    SwapParts(rows, m, n, i, j, c);
    forall x: Vec, left | |x| == n && Solves(o, n, left, x) ensures Solves(rows, n, left, x) {
      SwapSolves(rows, n, i, j, left, x);
    }
    FewerSolutions(rows, o, m, n, c);
  }

  ghost function WithDivided(rows: Rows, c: nat, d: real): Rows
    requires c < |rows| && d != 0.0
  {
    rows[c := Divided(rows[c], d)]
  }

  lemma {:induction false} DivideParts(rows: Rows, m: Vec, n: nat, c: nat)
    requires Shape(rows, n) && Sized(m, n, n) && c < n && RowsOk(rows, m, n) && Reduced(rows, n, c) && rows[c][c] != 0.0
    ensures var o := WithDivided(rows, c, rows[c][c]);
      Shape(o, n) && RowsOk(o, m, n) && Reduced(o, n, c) && o[c][c] == 1.0
  {
    var d := rows[c][c];
    DividedKeeps(rows[c], d, m, n);
    var o := WithDivided(rows, c, d);
    assert Shape(o, n);
    QuotientUnique(d, 1.0, d);
    forall r, k | 0 <= r < n && 0 <= k < c ensures o[r][k] == if r == k then 1.0 else 0.0 {
      if r == c {
        assert rows[c][k] == 0.0;
        QuotientUnique(rows[c][k], 0.0, d);
      }
    }
  }

  lemma {:induction false} DivideSolves(rows: Rows, n: nat, c: nat, d: real, left: bool, x: Vec)
    requires c < n && d != 0.0 && |x| == n && Shape(rows, n) && Shape(WithDivided(rows, c, d), n)
    requires Solves(WithDivided(rows, c, d), n, left, x)
    ensures Solves(rows, n, left, x)
  {
    forall r | 0 <= r < n ensures Dot(Half(rows[r], n, left), x) == 0.0 {
      assert Dot(Half(WithDivided(rows, c, d)[r], n, left), x) == 0.0;
      if r == c { HalfDivided(rows[c], d, n, left, x); }
    }
  }

  /** Dividing a row by an entry of it that is not zero. */
  lemma {:induction false} DivideKeeps(rows: Rows, m: Vec, n: nat, c: nat)
    requires Elimination(rows, m, n, c) && c < n && rows[c][c] != 0.0
    ensures Elimination(WithDivided(rows, c, rows[c][c]), m, n, c)
    ensures WithDivided(rows, c, rows[c][c])[c][c] == 1.0
  {
    var d := rows[c][c];
    var o := WithDivided(rows, c, d);
    DivideParts(rows, m, n, c);
    forall x: Vec, left | |x| == n && Solves(o, n, left, x) ensures Solves(rows, n, left, x) {
      DivideSolves(rows, n, c, d, left, x);
    }
    FewerSolutions(rows, o, m, n, c);
  }

  ghost function WithMinus(rows: Rows, r: nat, f: real, c: nat): Rows
    requires r < |rows| && c < |rows| && |rows[r]| == |rows[c]|
  {
    rows[r := Minus(rows[r], f, rows[c])]
  }

  lemma {:induction false} MinusParts(rows: Rows, m: Vec, n: nat, c: nat, r: nat, f: real)
    requires Shape(rows, n) && Sized(m, n, n) && c < n && r < n && r != c && RowsOk(rows, m, n) && Reduced(rows, n, c)
    ensures var o := WithMinus(rows, r, f, c); Shape(o, n) && RowsOk(o, m, n) && Reduced(o, n, c)
  {
    MinusKeeps(rows[r], f, rows[c], m, n);
    var o := WithMinus(rows, r, f, c);
    assert Shape(o, n);
    forall q, k | 0 <= q < n && 0 <= k < c ensures o[q][k] == if q == k then 1.0 else 0.0 {
      if q == r { assert rows[c][k] == 0.0; }
    }
  }

  lemma {:induction false} MinusSolves(rows: Rows, n: nat, c: nat, r: nat, f: real, left: bool, x: Vec)
    requires c < n && r < n && r != c && |x| == n && Shape(rows, n)
    requires Shape(WithMinus(rows, r, f, c), n) && Solves(WithMinus(rows, r, f, c), n, left, x)
    ensures Solves(rows, n, left, x)
  {
    forall q | 0 <= q < n ensures Dot(Half(rows[q], n, left), x) == 0.0 {
      assert Dot(Half(WithMinus(rows, r, f, c)[q], n, left), x) == 0.0;
      assert Dot(Half(WithMinus(rows, r, f, c)[c], n, left), x) == 0.0;
      if q == r { HalfMinus(rows[r], f, rows[c], n, left, x); }
    }
  }

  /** Taking a multiple of row `c` off row `r`. */
  lemma {:induction false} EliminateKeeps(rows: Rows, m: Vec, n: nat, c: nat, r: nat)
    requires Elimination(rows, m, n, c) && c < n && r < n && r != c && rows[c][c] == 1.0
    ensures Elimination(WithMinus(rows, r, rows[r][c], c), m, n, c)
    ensures WithMinus(rows, r, rows[r][c], c)[r][c] == 0.0
  {
    var f := rows[r][c];
    var o := WithMinus(rows, r, f, c);
    MinusParts(rows, m, n, c, r, f);
    forall x: Vec, left | |x| == n && Solves(o, n, left, x) ensures Solves(rows, n, left, x) {
      MinusSolves(rows, n, c, r, f, left, x);
    }
    FewerSolutions(rows, o, m, n, c);
  }

  // ----- when no pivot is left

  /** The solution that column `c` gives when it has no entry below the reduced rows. */
  ghost function Witness(rows: Rows, n: nat, c: nat): Vec
    requires Shape(rows, n) && c < n
  {
    seq(n, k requires 0 <= k < n => if k < c then -rows[k][c] else if k == c then 1.0 else 0.0)
  }

  /** A reduced row times a vector that ends at column `c`. */
  lemma {:induction false} DotReduced(row: Vec, x: Vec, r: nat, c: nat)
    requires |row| == |x| && c < |row|
    requires forall k :: 0 <= k < c ==> row[k] == if r == k then 1.0 else 0.0
    requires forall k :: c < k < |x| ==> x[k] == 0.0
    ensures Dot(row, x) == (if r < c then x[r] else 0.0) + row[c] * x[c]
    decreases |row|
  {
    var n := |row| - 1;
    if c < n {
      DotReduced(row[..n], x[..n], r, c);
    } else if r < c {
      DotUnit(row[..n], x[..n], r);
    } else {
      DotZero(row[..n], x[..n]);
    }
  }

  lemma {:induction false} WitnessSolves(rows: Rows, n: nat, c: nat, r: nat)
    requires Shape(rows, n) && c < n && r < n && (forall k :: 0 <= k < c ==> rows[r][k] == if r == k then 1.0 else 0.0)
    requires r >= c ==> rows[r][c] == 0.0
    ensures Dot(Half(rows[r], n, true), Witness(rows, n, c)) == 0.0
  {
    DotReduced(Left(rows[r], n), Witness(rows, n, c), r, c);
  }

  lemma {:induction false} NoPivot(rows: Rows, m: Vec, n: nat, c: nat)
    requires Elimination(rows, m, n, c) && c < n && forall r :: c <= r < n ==> rows[r][c] == 0.0
    ensures Singular(m, n)
  {
    var x := Witness(rows, n, c);
    forall r | 0 <= r < n ensures Dot(Half(rows[r], n, true), x) == 0.0 { WitnessSolves(rows, n, c, r); }
    assert Solves(rows, n, true, x) && x[c] == 1.0;
    assert TakesToZero(m, n, x);
  }

  lemma {:induction false} SingularHasNoInverse(m: Vec, w: Vec, p: Vec, n: nat)
    requires Sized(m, n, n) && Sized(w, n, n) && Singular(m, n) && IsProduct(p, w, m, n, n, n)
    ensures !IsIdentity(p, n)
  {
    var x: Vec :| |x| == n && !Zero(x) && TakesToZero(m, n, x);
    if IsIdentity(p, n) {
      var rows := seq(n, k requires 0 <= k < n => RowOf(m, n, n, k));
      forall r | 0 <= r < n ensures x[r] == 0.0 {
        var u := RowOf(w, n, n, r);
        RowTimesMatrixTimesColumn(u, rows, x);
        forall k | 0 <= k < n ensures RowOf(p, n, n, r)[k] == Combined(u, rows, n)[k] {
          CombinedAt(u, rows, n, k, ColOf(m, n, n, k));
        }
        assert RowOf(p, n, n, r) == Combined(u, rows, n);
        DotUnit(RowOf(p, n, n, r), x, r);
        DotSwap(u, Applied(rows, x));
        DotZero(Applied(rows, x), u);
      }
    }
  }

  // ----- elimination in place

  ghost function RowsOf(a: array2<real>): Rows
    reads a
  {
    seq(a.Length0, r requires 0 <= r < a.Length0 reads a => RowAt(a, r))
  }

  ghost function RowAt(a: array2<real>, r: nat): Vec
    requires r < a.Length0
    reads a
  {
    seq(a.Length1, k requires 0 <= k < a.Length1 reads a => a[r, k])
  }

  /** The matrix on the left, the identity on the right. */
  ghost predicate IsAugmented(rows: Rows, m: Vec, n: nat) {
    && Sized(m, n, n) && Shape(rows, n)
    && (forall r :: 0 <= r < n ==> Left(rows[r], n) == RowOf(m, n, n, r))
    && (forall r, k :: 0 <= r < n && 0 <= k < n ==> Right(rows[r], n)[k] == if r == k then 1.0 else 0.0)
  }

  lemma {:induction false} AugmentedStarts(rows: Rows, m: Vec, n: nat)
    requires IsAugmented(rows, m, n)
    ensures Elimination(rows, m, n, 0)
  {
    forall r | 0 <= r < n ensures RowOk(rows[r], m, n) {
      forall c | 0 <= c < n ensures rows[r][c] == Dot(Right(rows[r], n), ColOf(m, n, n, c)) {
        DotUnit(Right(rows[r], n), ColOf(m, n, n, c), r);
        assert rows[r][c] == Left(rows[r], n)[c];
      }
    }
    forall x: Vec | |x| == n && Solves(rows, n, true, x) ensures TakesToZero(m, n, x) {
      forall r | 0 <= r < n ensures Dot(RowOf(m, n, n, r), x) == 0.0 { assert Dot(Half(rows[r], n, true), x) == 0.0; }
    }
    forall x: Vec | |x| == n && Solves(rows, n, false, x) ensures Zero(x) {
      forall r | 0 <= r < n ensures x[r] == 0.0 {
        assert Dot(Half(rows[r], n, false), x) == 0.0;
        DotUnit(Right(rows[r], n), x, r);
      }
    }
  }

  function AugmentedEntry(m: Vec, n: nat, r: nat, k: nat): real
    requires Sized(m, n, n) && r < n
  {
    if k < n then At(m, n, n, r, k) else if k - n == r then 1.0 else 0.0
  }

  method Augmented(m: Vec, n: nat) returns (a: array2<real>)
    requires Sized(m, n, n)
    ensures fresh(a) && a.Length0 == n && a.Length1 == 2 * n && Elimination(RowsOf(a), m, n, 0)
  {
    a := new real[n, 2 * n]((r, k) requires 0 <= r < n && 0 <= k => AugmentedEntry(m, n, r, k));
    ghost var rows := RowsOf(a);
    forall r | 0 <= r < n ensures Left(rows[r], n) == RowOf(m, n, n, r) {
      forall k | 0 <= k < n ensures Left(rows[r], n)[k] == RowOf(m, n, n, r)[k] { assert rows[r][k] == a[r, k]; }
    }
    forall r, k | 0 <= r < n && 0 <= k < n ensures Right(rows[r], n)[k] == if r == k then 1.0 else 0.0 {
      assert rows[r][n + k] == a[r, n + k];
    }
    AugmentedStarts(rows, m, n);
  }

  method SwapRows(a: array2<real>, i: nat, j: nat)
    requires i < a.Length0 && j < a.Length0
    modifies a
    ensures RowsOf(a) == old(RowsOf(a))[i := old(RowsOf(a))[j]][j := old(RowsOf(a))[i]]
  {
    for k := 0 to a.Length1
      invariant forall r, k' :: 0 <= r < a.Length0 && 0 <= k' < a.Length1 ==>
        a[r, k'] == if k' < k then old(a[if r == j then i else if r == i then j else r, k']) else old(a[r, k'])
    {
      a[i, k], a[j, k] := a[j, k], a[i, k];
    }
    assert forall r :: 0 <= r < a.Length0 ==>
      RowAt(a, r) == old(RowAt(a, if r == j then i else if r == i then j else r));
  }

  method DivideRow(a: array2<real>, c: nat, d: real)
    requires c < a.Length0 && d != 0.0
    modifies a
    ensures RowsOf(a) == old(RowsOf(a))[c := Divided(old(RowsOf(a))[c], d)]
  {
    for k := 0 to a.Length1
      invariant forall r, k' :: 0 <= r < a.Length0 && 0 <= k' < a.Length1 ==>
        a[r, k'] == if r == c && k' < k then old(a[r, k']) / d else old(a[r, k'])
    {
      a[c, k] := a[c, k] / d;
    }
    assert forall r :: 0 <= r < a.Length0 && r != c ==> RowAt(a, r) == old(RowAt(a, r));
    assert RowAt(a, c) == Divided(old(RowAt(a, c)), d);
  }

  method SubtractRow(a: array2<real>, r: nat, f: real, c: nat)
    requires c < a.Length0 && r < a.Length0 && r != c
    modifies a
    ensures RowsOf(a) == old(RowsOf(a))[r := Minus(old(RowsOf(a))[r], f, old(RowsOf(a))[c])]
  {
    for k := 0 to a.Length1
      invariant forall q, k' :: 0 <= q < a.Length0 && 0 <= k' < a.Length1 ==>
        a[q, k'] == if q == r && k' < k then old(a[q, k']) - f * old(a[c, k']) else old(a[q, k'])
    {
      a[r, k] := a[r, k] - f * a[c, k];
    }
    assert forall q :: 0 <= q < a.Length0 && q != r ==> RowAt(a, q) == old(RowAt(a, q));
    ghost var after, expected := RowAt(a, r), Minus(old(RowAt(a, r)), f, old(RowAt(a, c)));
    assert forall k :: 0 <= k < a.Length1 ==> after[k] == expected[k];
    assert after == expected;
  }

  function Abs(x: real): real {
    if x < 0.0 then -x else x
  }

  /** The row at or below `c` with the largest entry in column `c`. */
  method FindPivot(a: array2<real>, c: nat) returns (p: nat)
    requires c < a.Length0 && c < a.Length1
    ensures c <= p < a.Length0 && forall r :: c <= r < a.Length0 ==> Abs(a[r, c]) <= Abs(a[p, c])
  {
    p := c;
    for r := c + 1 to a.Length0
      invariant c <= p < a.Length0 && forall r' :: c <= r' < r ==> Abs(a[r', c]) <= Abs(a[p, c])
    {
      if Abs(a[r, c]) > Abs(a[p, c]) { p := r; }
    }
  }

  ghost predicate ColumnClear(rows: Rows, c: nat, r: nat)
    requires c < |rows| && r <= |rows| && forall q :: 0 <= q < |rows| ==> c < |rows[q]|
  {
    rows[c][c] == 1.0 && forall q :: 0 <= q < r && q != c ==> rows[q][c] == 0.0
  }

  /** Column `c` is cleared in the rows before `r`. */
  ghost predicate Clearing(rows: Rows, m: Vec, n: nat, c: nat, r: nat) {
    c < n && r <= n && Elimination(rows, m, n, c) && ColumnClear(rows, c, r)
  }

  lemma {:induction false} EntryCleared(rows: Rows, m: Vec, n: nat, c: nat, r: nat, o: Rows)
    requires Clearing(rows, m, n, c, r) && r < n && r != c && o == WithMinus(rows, r, rows[r][c], c)
    ensures Clearing(o, m, n, c, r + 1)
  {
    EliminateKeeps(rows, m, n, c, r);
    var row := o[r];
    assert o == rows[r := row];
    ColumnAfter(rows, o, r, c);
  }

  lemma {:induction false} ColumnAfter(rows: Rows, o: Rows, r: nat, c: nat)
    requires |o| == |rows| && r < |rows| && c < |rows| && r != c && (forall q :: 0 <= q < |rows| ==> c < |rows[q]|)
    requires c < |o[r]| && o == rows[r := o[r]] && o[r][c] == 0.0 && ColumnClear(rows, c, r)
    ensures forall q :: 0 <= q < |o| ==> c < |o[q]|
    ensures ColumnClear(o, c, r + 1)
  {
  }

  /** Takes the right multiple of row `c` off row `r` unless it is zero. */
  method ClearEntry(a: array2<real>, m: Vec, n: nat, c: nat, r: nat)
    requires a.Length0 == n && a.Length1 == 2 * n && r < n && Clearing(RowsOf(a), m, n, c, r)
    modifies a
    ensures Clearing(RowsOf(a), m, n, c, r + 1)
  {
    if r != c {
      var f := a[r, c];
      EntryCleared(RowsOf(a), m, n, c, r, WithMinus(RowsOf(a), r, f, c));
      if f != 0.0 { SubtractRow(a, r, f, c); }
    }
  }

  /** Clears column `c` in every row but row `c`. */
  method ClearColumn(a: array2<real>, m: Vec, n: nat, c: nat)
    requires a.Length0 == n && a.Length1 == 2 * n && Clearing(RowsOf(a), m, n, c, 0)
    modifies a
    ensures Elimination(RowsOf(a), m, n, c + 1)
  {
    for r := 0 to n
      invariant Clearing(RowsOf(a), m, n, c, r)
    {
      ClearEntry(a, m, n, c, r);
    }
    OneMoreColumn(RowsOf(a), m, n, c);
  }

  lemma {:induction false} OneMoreColumn(rows: Rows, m: Vec, n: nat, c: nat)
    requires Elimination(rows, m, n, c) && c < n && forall r :: 0 <= r < n ==> rows[r][c] == if r == c then 1.0 else 0.0
    ensures Elimination(rows, m, n, c + 1)
  {
    ReducedNext(rows, n, c);
  }

  lemma {:induction false} ReducedNext(rows: Rows, n: nat, c: nat)
    requires Shape(rows, n) && c < n && Reduced(rows, n, c)
    requires forall r :: 0 <= r < n ==> rows[r][c] == if r == c then 1.0 else 0.0
    ensures Reduced(rows, n, c + 1)
  {
  }

  /** One column: pivot, scale, clear; or the column has no pivot and the matrix no inverse. */
  method ReduceColumn(a: array2<real>, m: Vec, n: nat, c: nat) returns (ok: bool)
    requires a.Length0 == n && a.Length1 == 2 * n && c < n && Elimination(RowsOf(a), m, n, c)
    modifies a
    ensures ok ==> Elimination(RowsOf(a), m, n, c + 1)
    ensures !ok ==> Singular(m, n)
  {
    var p := FindPivot(a, c);
    if a[p, c] == 0.0 {
      NoPivot(RowsOf(a), m, n, c);
      return false;
    }
    SwapKeeps(RowsOf(a), m, n, c, p, c);
    SwapRows(a, c, p);
    DivideKeeps(RowsOf(a), m, n, c);
    DivideRow(a, c, a[c, c]);
    ClearColumn(a, m, n, c);
    return true;
  }

  // ----- the whole operation

  /** `w` undoes `m` from the left and from the right. */
  ghost predicate Inverts(w: Vec, m: Vec, n: nat) {
    && Sized(w, n, n) && Sized(m, n, n)
    && (forall p :: IsProduct(p, w, m, n, n, n) ==> IsIdentity(p, n))
    && (forall p :: IsProduct(p, m, w, n, n, n) ==> IsIdentity(p, n))
  }

  lemma {:induction false} LeftInverse(rows: Rows, m: Vec, n: nat, w: Vec, p: Vec)
    requires Elimination(rows, m, n, n) && Sized(w, n, n) && IsProduct(p, w, m, n, n, n)
    requires forall r :: 0 <= r < n ==> RowOf(w, n, n, r) == Right(rows[r], n)
    ensures IsIdentity(p, n)
  {
    forall r, c | 0 <= r < n && 0 <= c < n ensures At(p, n, n, r, c) == if r == c then 1.0 else 0.0 {
      assert RowOk(rows[r], m, n);
    }
  }

  /** Entry `r` of `w` times column `j` of `m w` is the entry of `w` itself when `w m` is the identity. */
  lemma {:induction false} TimesProduct(w: Vec, m: Vec, n: nat, p: Vec, q: Vec, r: nat, j: nat)
    requires Sized(w, n, n) && Sized(m, n, n) && IsProduct(p, w, m, n, n, n) && IsIdentity(p, n)
    requires IsProduct(q, m, w, n, n, n)
    requires r < n && j < n
    ensures Dot(RowOf(w, n, n, r), ColOf(q, n, n, j)) == At(w, n, n, r, j)
  {
    var rows := seq(n, k requires 0 <= k < n => RowOf(m, n, n, k));
    var u, v := RowOf(w, n, n, r), ColOf(w, n, n, j);
    RowTimesMatrixTimesColumn(u, rows, v);
    assert ColOf(q, n, n, j) == Applied(rows, v);
    forall k | 0 <= k < n ensures RowOf(p, n, n, r)[k] == Combined(u, rows, n)[k] {
      CombinedAt(u, rows, n, k, ColOf(m, n, n, k));
    }
    assert RowOf(p, n, n, r) == Combined(u, rows, n);
    DotUnit(RowOf(p, n, n, r), v, r);
  }

  ghost function Unit(n: nat, c: nat): Vec {
    seq(n, k => if k == c then 1.0 else 0.0)
  }

  /** `w` takes column `c` of `m w`, less the unit vector, to zero. */
  lemma {:induction false} ColumnLessUnit(w: Vec, m: Vec, n: nat, p: Vec, q: Vec, i: nat, c: nat)
    requires Sized(w, n, n) && Sized(m, n, n) && IsProduct(p, w, m, n, n, n) && IsIdentity(p, n)
    requires IsProduct(q, m, w, n, n, n)
    requires i < n && c < n
    ensures Dot(RowOf(w, n, n, i), Minus(ColOf(q, n, n, c), 1.0, Unit(n, c))) == 0.0
  {
    var u, col, e := RowOf(w, n, n, i), ColOf(q, n, n, c), Unit(n, c);
    TimesProduct(w, m, n, p, q, i, c);
    DotMinus(col, 1.0, e, u);
    DotSwap(u, col);
    DotUnit(e, u, c);
    DotSwap(u, Minus(col, 1.0, e));
  }

  lemma {:induction false} RightInverse(rows: Rows, m: Vec, n: nat, w: Vec, p: Vec, q: Vec)
    requires Elimination(rows, m, n, n) && Sized(w, n, n) && IsProduct(p, w, m, n, n, n) && IsIdentity(p, n)
    requires forall r :: 0 <= r < n ==> RowOf(w, n, n, r) == Right(rows[r], n)
    requires IsProduct(q, m, w, n, n, n)
    ensures IsIdentity(q, n)
  {
    forall c | 0 <= c < n ensures Zero(Minus(ColOf(q, n, n, c), 1.0, Unit(n, c))) {
      var x := Minus(ColOf(q, n, n, c), 1.0, Unit(n, c));
      forall i | 0 <= i < n ensures Dot(Half(rows[i], n, false), x) == 0.0 { ColumnLessUnit(w, m, n, p, q, i, c); }
      assert Solves(rows, n, false, x);
    }
    ColumnsAreUnits(q, n);
  }

  lemma {:induction false} ColumnsAreUnits(q: Vec, n: nat)
    requires Sized(q, n, n) && forall c :: 0 <= c < n ==> Zero(Minus(ColOf(q, n, n, c), 1.0, Unit(n, c)))
    ensures IsIdentity(q, n)
  {
    forall r, c | 0 <= r < n && 0 <= c < n ensures At(q, n, n, r, c) == if r == c then 1.0 else 0.0 {
      assert Minus(ColOf(q, n, n, c), 1.0, Unit(n, c))[r] == ColOf(q, n, n, c)[r] - Unit(n, c)[r];
    }
  }

  method RightBlock(a: array2<real>, n: nat) returns (o: Vec)
    requires a.Length0 == n && a.Length1 == 2 * n
    ensures Sized(o, n, n) && forall r :: 0 <= r < n ==> RowOf(o, n, n, r) == Right(RowsOf(a)[r], n)
  {
    var out := new real[n * n](_ => 0.0);
    for r := 0 to n
      invariant forall r', c' :: 0 <= r' < r && 0 <= c' < n ==>
        Idx(n, c', r') < out.Length && out[Idx(n, c', r')] == a[r', n + c']
    {
      for c := 0 to n
        invariant forall r', c' :: 0 <= c' < n && (0 <= r' < r || (r' == r && c' < c)) ==>
          Idx(n, c', r') < out.Length && out[Idx(n, c', r')] == a[r', n + c']
      {
        IdxBound(n, n, c, r);
        forall r', c' | 0 <= r' < n && 0 <= c' < n ensures Idx(n, c', r') == Idx(n, c, r) ==> r' == r && c' == c {
          IdxInverse(n, c', r');
          IdxInverse(n, c, r);
        }
        out[c * n + r] := a[r, n + c];
      }
    }
    o := out[..];
    forall r | 0 <= r < n ensures RowOf(o, n, n, r) == Right(RowsOf(a)[r], n) {
      forall c | 0 <= c < n ensures RowOf(o, n, n, r)[c] == Right(RowsOf(a)[r], n)[c] {
        assert Idx(n, c, r) < out.Length;
      }
    }
  }

  lemma {:induction false} BothInverses(rows: Rows, m: Vec, n: nat, w: Vec)
    requires Elimination(rows, m, n, n) && Sized(w, n, n)
    requires forall r :: 0 <= r < n ==> RowOf(w, n, n, r) == Right(rows[r], n)
    ensures Inverts(w, m, n)
  {
    forall p | IsProduct(p, w, m, n, n, n) ensures IsIdentity(p, n) { LeftInverse(rows, m, n, w, p); }
    forall q | IsProduct(q, m, w, n, n, n) ensures IsIdentity(q, n) {
      var p := Product(w, m, n);
      LeftInverse(rows, m, n, w, p);
      RightInverse(rows, m, n, w, p, q);
    }
  }

  // ----- two by two

  lemma {:induction false} Dot2(u: Vec, v: Vec)
    requires |u| == |v| == 2
    ensures Dot(u, v) == u[0] * v[0] + u[1] * v[1]
  {
    assert Dot(u[..1], v[..1]) == Dot(u[..1][..0], v[..1][..0]) + u[0] * v[0];
  }

  lemma {:induction false} Entries2(m: Vec)
    requires |m| == 4
    ensures Sized(m, 2, 2)
    ensures At(m, 2, 2, 0, 0) == m[0] && At(m, 2, 2, 1, 0) == m[1] && At(m, 2, 2, 0, 1) == m[2]
    ensures At(m, 2, 2, 1, 1) == m[3]
  {
  }

  lemma {:induction false} Product2(p: Vec, a: Vec, b: Vec)
    requires |a| == |b| == 4 && IsProduct(p, a, b, 2, 2, 2)
    ensures At(p, 2, 2, 0, 0) == a[0] * b[0] + a[2] * b[1] && At(p, 2, 2, 1, 0) == a[1] * b[0] + a[3] * b[1]
    ensures At(p, 2, 2, 0, 1) == a[0] * b[2] + a[2] * b[3] && At(p, 2, 2, 1, 1) == a[1] * b[2] + a[3] * b[3]
  {
    Entries2(a);
    Entries2(b);
    forall r, c | 0 <= r < 2 && 0 <= c < 2
      ensures At(p, 2, 2, r, c) == At(a, 2, 2, r, 0) * At(b, 2, 2, 0, c) + At(a, 2, 2, r, 1) * At(b, 2, 2, 1, c)
    {
      Dot2(RowOf(a, 2, 2, r), ColOf(b, 2, 2, c));
    }
  }

  /** A sum of products over a common divisor. */
  lemma {:induction false} Quotients(a: real, b: real, c: real, e: real, d: real, q: real)
    requires d != 0.0 && a * b + c * e == q * d
    ensures a / d * b + c / d * e == q
  {
    var x, y := a / d, c / d;
    assert x * b * d == a * b && y * e * d == c * e;
    assert (x * b + y * e) * d == q * d;
    QuotientUnique(q * d, x * b + y * e, d);
    QuotientUnique(q * d, q, d);
  }

  lemma {:induction false} Identity2(p: Vec)
    requires Sized(p, 2, 2) && At(p, 2, 2, 0, 0) == 1.0 == At(p, 2, 2, 1, 1)
    requires At(p, 2, 2, 1, 0) == 0.0 == At(p, 2, 2, 0, 1)
    ensures IsIdentity(p, 2)
  {
    forall r, c | 0 <= r < 2 && 0 <= c < 2 ensures At(p, 2, 2, r, c) == if r == c then 1.0 else 0.0 {
      if r == 0 { if c == 0 {} else {} } else { if c == 0 {} else {} }
    }
  }

  lemma {:induction false} ClosedFormLeft(m: Vec, w: Vec, d: real, p: Vec)
    requires |m| == |w| == 4 && d == Det(m, 2) != 0.0 && w == [m[3] / d, -m[1] / d, -m[2] / d, m[0] / d]
    requires IsProduct(p, w, m, 2, 2, 2)
    ensures IsIdentity(p, 2)
  {
    Product2(p, w, m);
    Quotients(m[3], m[0], -m[2], m[1], d, 1.0);
    Quotients(-m[1], m[0], m[0], m[1], d, 0.0);
    Quotients(m[3], m[2], -m[2], m[3], d, 0.0);
    Quotients(-m[1], m[2], m[0], m[3], d, 1.0);
    Identity2(p);
  }

  lemma {:induction false} ClosedFormRight(m: Vec, w: Vec, d: real, p: Vec)
    requires |m| == |w| == 4 && d == Det(m, 2) != 0.0 && w == [m[3] / d, -m[1] / d, -m[2] / d, m[0] / d]
    requires IsProduct(p, m, w, 2, 2, 2)
    ensures IsIdentity(p, 2)
  {
    Product2(p, m, w);
    Quotients(m[3], m[0], -m[1], m[2], d, 1.0);
    Quotients(m[3], m[1], -m[1], m[3], d, 0.0);
    Quotients(-m[2], m[0], m[0], m[2], d, 0.0);
    Quotients(-m[2], m[1], m[0], m[3], d, 1.0);
    Identity2(p);
  }

  lemma {:induction false} ClosedForm(m: Vec, w: Vec, d: real)
    requires |m| == |w| == 4 && d == Det(m, 2) != 0.0 && w == [m[3] / d, -m[1] / d, -m[2] / d, m[0] / d]
    ensures Inverts(w, m, 2)
  {
    forall p | IsProduct(p, w, m, 2, 2, 2) ensures IsIdentity(p, 2) { ClosedFormLeft(m, w, d, p); }
    forall p | IsProduct(p, m, w, 2, 2, 2) ensures IsIdentity(p, 2) { ClosedFormRight(m, w, d, p); }
  }

  lemma {:induction false} ZeroDeterminant(m: Vec)
    requires |m| == 4 && Det(m, 2) == 0.0
    ensures Sized(m, 2, 2) && Singular(m, 2)
  {
    var x :=
      if m[0] != 0.0 || m[2] != 0.0 then [m[2], -m[0]]
      else if m[1] != 0.0 || m[3] != 0.0 then [m[3], -m[1]]
      else [1.0, 0.0];
    assert x[0] != 0.0 || x[1] != 0.0;
    Entries2(m);
    Dot2(RowOf(m, 2, 2, 0), x);
    Dot2(RowOf(m, 2, 2, 1), x);
    assert m[0] * x[0] + m[2] * x[1] == 0.0 && m[1] * x[0] + m[3] * x[1] == 0.0;
    forall r | 0 <= r < 2 ensures Dot(RowOf(m, 2, 2, r), x) == 0.0 {
      if r == 0 {} else {}
    }
    assert TakesToZero(m, 2, x);
  }

  /** Inverts exactly the matrices that have an inverse, which are those with a determinant other than zero. */
  method InverseOf(m: Vec, n: nat) returns (r: Inverse)
    requires Sized(m, n, n)
    ensures r.NoInverse? <==> Singular(m, n)
    ensures r.Inverse? ==> Inverts(r.m, m, n)
    ensures 2 <= n <= 4 ==> (r.NoInverse? <==> Det(m, n) == 0.0)
  {
    if n == 2 {
      var d := Det(m, 2);
      if d == 0.0 {
        ZeroDeterminant(m);
        return NoInverse;
      }
      var w := [m[3] / d, -m[1] / d, -m[2] / d, m[0] / d];
      ClosedForm(m, w, d);
      InvertsNotSingular(w, m, n);
      return Inverse(w);
    }
    r := Eliminate(m, n);
    DeterminantTells(r, m, n);
  }

  /** Gauss-Jordan elimination. */
  method Eliminate(m: Vec, n: nat) returns (r: Inverse)
    requires Sized(m, n, n)
    ensures r.NoInverse? <==> Singular(m, n)
    ensures r.Inverse? ==> Inverts(r.m, m, n)
  {
    var a := Augmented(m, n);
    for c := 0 to n
      invariant Elimination(RowsOf(a), m, n, c)
    {
      var ok := ReduceColumn(a, m, n, c);
      if !ok { return NoInverse; }
    }
    var o := RightBlock(a, n);
    BothInverses(RowsOf(a), m, n, o);
    InvertsNotSingular(o, m, n);
    return Inverse(o);
  }

  lemma {:induction false} DeterminantTells(r: Inverse, m: Vec, n: nat)
    requires Sized(m, n, n) && (r.NoInverse? <==> Singular(m, n)) && (r.Inverse? ==> Inverts(r.m, m, n))
    ensures 2 <= n <= 4 ==> (r.NoInverse? <==> Det(m, n) == 0.0)
  {
    if 2 <= n <= 4 {
      if r.NoInverse? { DetOfSingular(m, n); } else { DetOfInvertible(r.m, m, Product(r.m, m, n), n); }
    }
  }

  lemma {:induction false} InvertsNotSingular(w: Vec, m: Vec, n: nat)
    requires Inverts(w, m, n)
    ensures !Singular(m, n)
  {
    if Singular(m, n) { SingularHasNoInverse(m, w, Product(w, m, n), n); }
  }
}
