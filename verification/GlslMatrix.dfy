/** Column-major matrices of any size, as the shader runtime multiplies and transposes them, over the reals. */
module GlslMatrix {

  type Vec = seq<real>

  // ----- dot products

  function Dot(u: Vec, v: Vec): real
    requires |u| == |v|
  {
    if |u| == 0 then 0.0 else Dot(u[..|u| - 1], v[..|v| - 1]) + u[|u| - 1] * v[|v| - 1]
  }

  function Scaled(u: Vec, f: real): Vec {
    seq(|u|, k requires 0 <= k < |u| => f * u[k])
  }

  function Plus(u: Vec, v: Vec): Vec
    requires |u| == |v|
  {
    seq(|u|, k requires 0 <= k < |u| => u[k] + v[k])
  }

  lemma {:induction false} DotScaled(u: Vec, f: real, v: Vec)
    requires |u| == |v|
    ensures Dot(Scaled(u, f), v) == f * Dot(u, v)
    decreases |u|
  {
    if |u| > 0 {
      var n := |u| - 1;
      DotScaled(u[..n], f, v[..n]);
      var s, t := Scaled(u, f)[..n], Scaled(u[..n], f);
      forall k | 0 <= k < n ensures s[k] == t[k] {
        assert u[..n][k] == u[k];
      }
      assert s == t;
      Distribute(f, Dot(u[..n], v[..n]), u[n], v[n]);
    }
  }

  lemma {:induction false} Distribute(f: real, d: real, x: real, y: real)
    ensures f * d + f * x * y == f * (d + x * y)
  {
  }

  lemma {:induction false} DotPlus(u: Vec, w: Vec, v: Vec)
    requires |u| == |w| == |v|
    ensures Dot(Plus(u, w), v) == Dot(u, v) + Dot(w, v)
    decreases |u|
  {
    if |u| > 0 {
      DotPlus(u[..|u| - 1], w[..|w| - 1], v[..|v| - 1]);
      assert Plus(u, w)[..|u| - 1] == Plus(u[..|u| - 1], w[..|w| - 1]);
    }
  }

  lemma {:induction false} DotSwap(u: Vec, v: Vec)
    requires |u| == |v|
    ensures Dot(u, v) == Dot(v, u)
    decreases |u|
  {
    if |u| > 0 { DotSwap(u[..|u| - 1], v[..|v| - 1]); }
  }

  lemma {:induction false} DotZero(u: Vec, v: Vec)
    requires |u| == |v| && forall k :: 0 <= k < |u| ==> u[k] == 0.0
    ensures Dot(u, v) == 0.0
    decreases |u|
  {
    if |u| > 0 { DotZero(u[..|u| - 1], v[..|v| - 1]); }
  }

  /** A vector with a single entry that is not zero picks out one entry of the other. */
  lemma {:induction false} DotUnit(u: Vec, v: Vec, i: nat)
    requires |u| == |v| && i < |u| && forall k :: 0 <= k < |u| && k != i ==> u[k] == 0.0
    ensures Dot(u, v) == u[i] * v[i]
    decreases |u|
  {
    if i < |u| - 1 { DotUnit(u[..|u| - 1], v[..|v| - 1], i); } else { DotZero(u[..|u| - 1], v[..|v| - 1]); }
  }

  // ----- column-major layout

  /** Where row `r` of column `c` is when columns have `rows` entries. */
  function Idx(rows: nat, c: nat, r: nat): nat {
    c * rows + r
  }

  lemma {:induction false} IdxBound(rows: nat, cols: nat, c: nat, r: nat)
    requires c < cols && r < rows
    ensures Idx(rows, c, r) < cols * rows
  {
    assert c * rows + rows == (c + 1) * rows <= cols * rows;
  }

  lemma {:induction false} MulLess(a: int, b: int, n: int)
    requires n > 0
    ensures a < b <==> a * n < b * n
  {
  }

  lemma {:induction false} IdxInverse(rows: nat, c: nat, r: nat)
    requires r < rows
    ensures Idx(rows, c, r) / rows == c && Idx(rows, c, r) % rows == r
  {
    var q := Idx(rows, c, r) / rows;
    assert (c - q) * rows == Idx(rows, c, r) % rows - r;
    MulLess(c - q, 1, rows);
    MulLess(-1, c - q, rows);
  }

  lemma {:induction false} IdxOf(rows: nat, cols: nat, i: nat)
    requires i < cols * rows
    ensures rows > 0 && i / rows < cols && i % rows < rows && Idx(rows, i / rows, i % rows) == i
  {
    assert rows > 0;
    MulLess(i / rows, cols, rows);
  }

  predicate Sized(m: Vec, cols: nat, rows: nat) {
    |m| == cols * rows
  }

  function At(m: Vec, cols: nat, rows: nat, r: nat, c: nat): real
    requires Sized(m, cols, rows) && r < rows && c < cols
  {
    IdxBound(rows, cols, c, r);
    m[Idx(rows, c, r)]
  }

  function RowOf(m: Vec, cols: nat, rows: nat, r: nat): Vec
    requires Sized(m, cols, rows) && r < rows
  {
    seq(cols, c requires 0 <= c < cols => At(m, cols, rows, r, c))
  }

  function ColOf(m: Vec, cols: nat, rows: nat, c: nat): Vec
    requires Sized(m, cols, rows) && c < cols
  {
    seq(rows, r requires 0 <= r < rows => At(m, cols, rows, r, c))
  }

  /** Matrices with the same entries are the same. */
  lemma {:induction false} SameMatrix(a: Vec, b: Vec, cols: nat, rows: nat)
    requires Sized(a, cols, rows) && Sized(b, cols, rows)
    requires forall r, c :: 0 <= r < rows && 0 <= c < cols ==> At(a, cols, rows, r, c) == At(b, cols, rows, r, c)
    ensures a == b
  {
    forall i | 0 <= i < |a| ensures a[i] == b[i] {
      IdxOf(rows, cols, i);
      assert At(a, cols, rows, i % rows, i / rows) == At(b, cols, rows, i % rows, i / rows);
    }
  }

  // ----- the operations, by their entries

  /** `a` has `ac` columns of `ar` entries, `b` has `bc` columns of `ac` entries. */
  ghost predicate IsProduct(o: Vec, a: Vec, b: Vec, ac: nat, ar: nat, bc: nat)
    requires Sized(a, ac, ar) && Sized(b, bc, ac)
  {
    && Sized(o, bc, ar)
    && forall r, c :: 0 <= r < ar && 0 <= c < bc ==>
      At(o, bc, ar, r, c) == Dot(RowOf(a, ac, ar, r), ColOf(b, bc, ac, c))
  }

  ghost predicate IsTranspose(o: Vec, m: Vec, c: nat, r: nat)
    requires Sized(m, c, r)
  {
    Sized(o, r, c) && forall ci, ri :: 0 <= ci < c && 0 <= ri < r ==> At(o, r, c, ci, ri) == At(m, c, r, ri, ci)
  }

  ghost predicate IsIdentity(m: Vec, n: nat) {
    Sized(m, n, n) && forall r, c :: 0 <= r < n && 0 <= c < n ==> At(m, n, n, r, c) == if r == c then 1.0 else 0.0
  }

  /** Entry `i` of a product, in the order it is stored. */
  ghost function ProductEntry(a: Vec, b: Vec, ac: nat, ar: nat, bc: nat, i: nat): real
    requires Sized(a, ac, ar) && Sized(b, bc, ac) && i < bc * ar
  {
    IdxOf(ar, bc, i);
    Dot(RowOf(a, ac, ar, i % ar), ColOf(b, bc, ac, i / ar))
  }

  method RowTimesColumn(a: Vec, b: Vec, ac: nat, ar: nat, bc: nat, r: nat, c: nat) returns (s: real)
    requires Sized(a, ac, ar) && Sized(b, bc, ac) && r < ar && c < bc
    ensures s == Dot(RowOf(a, ac, ar, r), ColOf(b, bc, ac, c))
  {
    s := 0.0;
    ghost var u, v := RowOf(a, ac, ar, r), ColOf(b, bc, ac, c);
    for k := 0 to ac
      invariant s == Dot(u[..k], v[..k])
    {
      IdxBound(ar, ac, k, r);
      IdxBound(ac, bc, c, k);
      s := s + a[k * ar + r] * b[c * ac + k];
      assert u[..k + 1][..k] == u[..k] && v[..k + 1][..k] == v[..k];
    }
    assert u[..ac] == u && v[..ac] == v;
  }

  method FillColumn(out: array<real>, a: Vec, b: Vec, ac: nat, ar: nat, bc: nat, c: nat, base: nat)
    requires Sized(a, ac, ar) && Sized(b, bc, ac) && out.Length == bc * ar && c < bc && base == c * ar
    requires base + ar <= out.Length && forall i :: 0 <= i < base ==> out[i] == ProductEntry(a, b, ac, ar, bc, i)
    modifies out
    ensures forall i :: 0 <= i < base + ar ==> out[i] == ProductEntry(a, b, ac, ar, bc, i)
  {
    for r := 0 to ar
      invariant forall i :: 0 <= i < base + r ==> out[i] == ProductEntry(a, b, ac, ar, bc, i)
    {
      var s := RowTimesColumn(a, b, ac, ar, bc, r, c);
      EntryStored(a, b, ac, ar, bc, r, c, base);
      out[base + r] := s;
    }
  }

  method MMul(a: Vec, b: Vec, ac: nat, ar: nat, bc: nat) returns (o: Vec)
    requires Sized(a, ac, ar) && Sized(b, bc, ac)
    ensures IsProduct(o, a, b, ac, ar, bc)
  {
    var out := new real[bc * ar](_ => 0.0);
    for c := 0 to bc
      invariant forall i :: 0 <= i < c * ar <= bc * ar ==> out[i] == ProductEntry(a, b, ac, ar, bc, i)
    {
      ColumnFits(ar, bc, c);
      FillColumn(out, a, b, ac, ar, bc, c, c * ar);
    }
    o := out[..];
    EntriesMakeProduct(o, a, b, ac, ar, bc);
  }

  lemma {:induction false} ColumnFits(rows: nat, cols: nat, c: nat)
    requires c < cols
    ensures c * rows + rows == (c + 1) * rows <= cols * rows
  {
  }

  lemma {:induction false} EntriesMakeProduct(o: Vec, a: Vec, b: Vec, ac: nat, ar: nat, bc: nat)
    requires Sized(a, ac, ar) && Sized(b, bc, ac) && Sized(o, bc, ar)
    requires forall i :: 0 <= i < |o| ==> o[i] == ProductEntry(a, b, ac, ar, bc, i)
    ensures IsProduct(o, a, b, ac, ar, bc)
  {
    forall r, c | 0 <= r < ar && 0 <= c < bc
      ensures At(o, bc, ar, r, c) == Dot(RowOf(a, ac, ar, r), ColOf(b, bc, ac, c))
    {
      IdxBound(ar, bc, c, r);
      IdxInverse(ar, c, r);
    }
  }

  lemma {:induction false} EntryStored(a: Vec, b: Vec, ac: nat, ar: nat, bc: nat, r: nat, c: nat, base: nat)
    requires Sized(a, ac, ar) && Sized(b, bc, ac) && r < ar && c < bc && base == c * ar
    ensures base + r < bc * ar
    ensures ProductEntry(a, b, ac, ar, bc, base + r) == Dot(RowOf(a, ac, ar, r), ColOf(b, bc, ac, c))
  {
    IdxBound(ar, bc, c, r);
    IdxInverse(ar, c, r);
  }

  ghost function Product(a: Vec, b: Vec, n: nat): (p: Vec)
    requires Sized(a, n, n) && Sized(b, n, n)
    ensures IsProduct(p, a, b, n, n, n)
  {
    var p := seq(n * n, i requires 0 <= i < n * n => ProductEntry(a, b, n, n, n, i));
    EntriesMakeProduct(p, a, b, n, n, n);
    p
  }

  ghost predicate Zero(x: Vec) {
    forall k :: 0 <= k < |x| ==> x[k] == 0.0
  }

  /** A matrix that takes a vector other than zero to zero has no inverse. */
  ghost predicate Singular(m: Vec, n: nat)
    requires Sized(m, n, n)
  {
    exists x: Vec :: |x| == n && !Zero(x) && TakesToZero(m, n, x)
  }

  ghost predicate TakesToZero(m: Vec, n: nat, x: Vec)
    requires Sized(m, n, n) && |x| == n
  {
    forall r :: 0 <= r < n ==> Dot(RowOf(m, n, n, r), x) == 0.0
  }

  /** What the first `i` columns contribute to entry `j` of a matrix times a vector. */
  ghost function PartialEntry(m: Vec, v: Vec, c: nat, r: nat, j: nat, i: nat): real
    requires Sized(m, c, r) && |v| == c && j < r && i <= c
  {
    Dot(RowOf(m, c, r, j)[..i], v[..i])
  }

  lemma {:induction false} PartialNext(m: Vec, v: Vec, c: nat, r: nat, j: nat, i: nat)
    requires Sized(m, c, r) && |v| == c && j < r && i < c
    ensures i * r + j < |m|
    ensures PartialEntry(m, v, c, r, j, i + 1) == PartialEntry(m, v, c, r, j, i) + m[i * r + j] * v[i]
  {
    IdxBound(r, c, i, j);
    var u := RowOf(m, c, r, j);
    assert u[..i + 1][..i] == u[..i] && v[..i + 1][..i] == v[..i];
  }

  /** Matrix times column vector, one column at a time. */
  method MVMul(m: Vec, v: Vec, c: nat, r: nat) returns (o: Vec)
    requires Sized(m, c, r) && |v| == c
    ensures |o| == r && forall j :: 0 <= j < r ==> o[j] == Dot(RowOf(m, c, r, j), v)
  {
    var out := new real[r](_ => 0.0);
    for i := 0 to c
      invariant forall j :: 0 <= j < r ==> out[j] == PartialEntry(m, v, c, r, j, i)
    {
      for j := 0 to r
        invariant forall j' :: 0 <= j' < r ==> out[j'] == PartialEntry(m, v, c, r, j', if j' < j then i + 1 else i)
      {
        PartialNext(m, v, c, r, j, i);
        out[j] := out[j] + m[i * r + j] * v[i];
      }
    }
    o := out[..];
    forall j | 0 <= j < r ensures o[j] == Dot(RowOf(m, c, r, j), v) {
      assert RowOf(m, c, r, j)[..c] == RowOf(m, c, r, j) && v[..c] == v;
    }
  }

  /** Row vector times matrix. */
  method VMMul(v: Vec, m: Vec, c: nat, r: nat) returns (o: Vec)
    requires Sized(m, c, r) && |v| == r
    ensures |o| == c && forall i :: 0 <= i < c ==> o[i] == Dot(v, ColOf(m, c, r, i))
  {
    o := [];
    for i := 0 to c
      invariant |o| == i && forall i' :: 0 <= i' < i ==> o[i'] == Dot(v, ColOf(m, c, r, i'))
    {
      var s := 0.0;
      ghost var u := ColOf(m, c, r, i);
      for j := 0 to r
        invariant s == Dot(v[..j], u[..j])
      {
        IdxBound(r, c, i, j);
        s := s + v[j] * m[i * r + j];
        assert u[..j + 1][..j] == u[..j] && v[..j + 1][..j] == v[..j];
      }
      assert u[..r] == u && v[..r] == v;
      o := o + [s];
    }
  }

  method Transpose(m: Vec, c: nat, r: nat) returns (o: Vec)
    requires Sized(m, c, r)
    ensures IsTranspose(o, m, c, r)
  {
    var out := new real[c * r](_ => 0.0);
    for ci := 0 to c
      invariant forall ci', ri' :: 0 <= ci' < ci && 0 <= ri' < r ==>
        Idx(c, ri', ci') < out.Length && out[Idx(c, ri', ci')] == At(m, c, r, ri', ci')
    {
      for ri := 0 to r
        invariant forall ci', ri' :: 0 <= ri' < r && (0 <= ci' < ci || (ci' == ci && ri' < ri)) ==>
          Idx(c, ri', ci') < out.Length && out[Idx(c, ri', ci')] == At(m, c, r, ri', ci')
      {
        IdxBound(r, c, ci, ri);
        IdxBound(c, r, ri, ci);
        forall ci', ri' | 0 <= ci' < c && 0 <= ri' < r
          ensures Idx(c, ri', ci') == Idx(c, ri, ci) ==> ri' == ri && ci' == ci
        {
          IdxInverse(c, ri', ci');
          IdxInverse(c, ri, ci);
        }
        out[ri * c + ci] := m[ci * r + ri];
      }
    }
    o := out[..];
    forall ci, ri | 0 <= ci < c && 0 <= ri < r ensures Sized(o, r, c) && At(o, r, c, ci, ri) == At(m, c, r, ri, ci) {
      IdxBound(c, r, ri, ci);
    }
  }

  // ----- laws

  /** A row vector times a matrix given by its rows. */
  ghost function Combined(u: Vec, rows: seq<Vec>, q: nat): Vec
    requires |u| == |rows| && forall k :: 0 <= k < |rows| ==> |rows[k]| == q
    ensures |Combined(u, rows, q)| == q
  {
    if |u| == 0 then seq(q, _ => 0.0)
    else Plus(Combined(u[..|u| - 1], rows[..|rows| - 1], q), Scaled(rows[|rows| - 1], u[|u| - 1]))
  }

  ghost function Applied(rows: seq<Vec>, v: Vec): Vec
    requires forall k :: 0 <= k < |rows| ==> |rows[k]| == |v|
  {
    seq(|rows|, k requires 0 <= k < |rows| => Dot(rows[k], v))
  }

  lemma {:induction false} CombinedStep(u: Vec, rows: seq<Vec>, v: Vec, n: nat)
    requires |u| == |rows| == n + 1 && forall k :: 0 <= k < |rows| ==> |rows[k]| == |v|
    ensures Dot(Combined(u, rows, |v|), v) == Dot(Combined(u[..n], rows[..n], |v|), v) + u[n] * Dot(rows[n], v)
  {
    DotPlus(Combined(u[..n], rows[..n], |v|), Scaled(rows[n], u[n]), v);
    DotScaled(rows[n], u[n], v);
  }

  lemma {:induction false} AppliedStep(u: Vec, rows: seq<Vec>, v: Vec, n: nat)
    requires |u| == |rows| == n + 1 && forall k :: 0 <= k < |rows| ==> |rows[k]| == |v|
    ensures Dot(u, Applied(rows, v)) == Dot(u[..n], Applied(rows[..n], v)) + u[n] * Dot(rows[n], v)
  {
    assert Applied(rows, v)[..n] == Applied(rows[..n], v);
  }

  /** (u B) v == u (B v). */
  lemma {:induction false} RowTimesMatrixTimesColumn(u: Vec, rows: seq<Vec>, v: Vec)
    requires |u| == |rows| && forall k :: 0 <= k < |rows| ==> |rows[k]| == |v|
    ensures Dot(Combined(u, rows, |v|), v) == Dot(u, Applied(rows, v))
    decreases |u|
  {
    if |u| == 0 {
      DotZero(Combined(u, rows, |v|), v);
    } else {
      var n := |u| - 1;
      RowTimesMatrixTimesColumn(u[..n], rows[..n], v);
      CombinedStep(u, rows, v, n);
      AppliedStep(u, rows, v, n);
    }
  }

  lemma {:induction false} CombinedAt(u: Vec, rows: seq<Vec>, q: nat, j: nat, column: Vec)
    requires |u| == |rows| && (forall k :: 0 <= k < |rows| ==> |rows[k]| == q) && j < q
    requires |column| == |rows| && forall k :: 0 <= k < |rows| ==> column[k] == rows[k][j]
    ensures Combined(u, rows, q)[j] == Dot(u, column)
    decreases |u|
  {
    var n := |u| - 1;
    if |u| > 0 { CombinedAt(u[..n], rows[..n], q, j, column[..n]); }
  }

  /** Multiplication is associative, whatever the sizes. */
  lemma {:induction false} ProductAssociative(a: Vec, b: Vec, c: Vec, ab: Vec, bc: Vec, l: Vec, r: Vec, p: nat, q: nat,
      s: nat, t: nat)
    requires Sized(a, q, p) && Sized(b, s, q) && Sized(c, t, s)
    requires IsProduct(ab, a, b, q, p, s) && IsProduct(bc, b, c, s, q, t)
    requires IsProduct(l, ab, c, s, p, t) && IsProduct(r, a, bc, q, p, t)
    ensures l == r
  {
    var rows := seq(q, k requires 0 <= k < q => RowOf(b, s, q, k));
    forall i, j | 0 <= i < p && 0 <= j < t ensures At(l, t, p, i, j) == At(r, t, p, i, j) {
      var u, v := RowOf(a, q, p, i), ColOf(c, t, s, j);
      RowTimesMatrixTimesColumn(u, rows, v);
      forall k | 0 <= k < s ensures RowOf(ab, s, p, i)[k] == Combined(u, rows, s)[k] {
        CombinedAt(u, rows, s, k, ColOf(b, s, q, k));
      }
      assert RowOf(ab, s, p, i) == Combined(u, rows, s);
      assert ColOf(bc, t, q, j) == Applied(rows, v);
    }
    SameMatrix(l, r, t, p);
  }

  /** The transpose of a product is the product of the transposes the other way round. */
  lemma {:induction false} TransposeOfProduct(a: Vec, b: Vec, ab: Vec, at: Vec, bt: Vec, o: Vec, p: nat, q: nat, s: nat)
    requires Sized(a, q, p) && Sized(b, s, q) && IsProduct(ab, a, b, q, p, s)
    requires IsTranspose(at, a, q, p) && IsTranspose(bt, b, s, q)
    requires IsProduct(o, bt, at, q, s, p)
    ensures IsTranspose(o, ab, s, p)
  {
    forall ci, ri | 0 <= ci < s && 0 <= ri < p ensures At(o, p, s, ci, ri) == At(ab, s, p, ri, ci) {
      assert RowOf(bt, q, s, ci) == ColOf(b, s, q, ci);
      assert ColOf(at, p, q, ri) == RowOf(a, q, p, ri);
      DotSwap(ColOf(b, s, q, ci), RowOf(a, q, p, ri));
    }
  }

  lemma {:induction false} TransposeTwice(m: Vec, t: Vec, o: Vec, c: nat, r: nat)
    requires Sized(m, c, r) && IsTranspose(t, m, c, r) && IsTranspose(o, t, r, c)
    ensures o == m
  {
    SameMatrix(o, m, c, r);
  }

  /** A column vector is a matrix of one column. */
  lemma {:induction false} ColumnVector(m: Vec, v: Vec, o: Vec, p: Vec, c: nat, r: nat)
    requires Sized(m, c, r) && |v| == c && |o| == r && forall j :: 0 <= j < r ==> o[j] == Dot(RowOf(m, c, r, j), v)
    requires IsProduct(p, m, v, c, r, 1)
    ensures p == o
  {
    assert ColOf(v, 1, c, 0) == v;
    forall j | 0 <= j < r ensures p[j] == o[j] {
      assert At(p, 1, r, j, 0) == p[j];
    }
  }

  /** A row vector times a matrix is the transposed matrix times the column vector. */
  lemma {:induction false} RowVector(v: Vec, m: Vec, t: Vec, o: Vec, p: Vec, c: nat, r: nat)
    requires Sized(m, c, r) && IsTranspose(t, m, c, r) && |v| == r
    requires |o| == c && forall i :: 0 <= i < c ==> o[i] == Dot(v, ColOf(m, c, r, i))
    requires |p| == c && forall i :: 0 <= i < c ==> p[i] == Dot(RowOf(t, r, c, i), v)
    ensures o == p
  {
    forall i | 0 <= i < c ensures o[i] == p[i] {
      assert RowOf(t, r, c, i) == ColOf(m, c, r, i);
      DotSwap(v, ColOf(m, c, r, i));
    }
  }
}
