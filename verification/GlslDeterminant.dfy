/**
 The determinant of the shader runtime: the formulas for two, three and four columns over the reals. A
 smaller matrix is a four by four one with the identity below it, so that all of them are one form: the
 pairing of the minors of the first two rows with those of the last two.
 */
module GlslDeterminant {
  import opened GlslMatrix

  function Det(m: Vec, n: nat): real
    requires 2 <= n <= 4 && Sized(m, n, n)
  {
    if n == 2 then m[0] * m[3] - m[1] * m[2]
    else if n == 3 then
      m[0] * (m[4] * m[8] - m[5] * m[7]) - m[3] * (m[1] * m[8] - m[2] * m[7]) + m[6] * (m[1] * m[5] - m[2] * m[4])
    else
      var (s0, s1, s2) := (m[0] * m[5] - m[4] * m[1], m[0] * m[9] - m[8] * m[1], m[0] * m[13] - m[12] * m[1]);
      var (s3, s4, s5) := (m[4] * m[9] - m[8] * m[5], m[4] * m[13] - m[12] * m[5], m[8] * m[13] - m[12] * m[9]);
      var (c5, c4, c3) := (m[10] * m[15] - m[14] * m[11], m[6] * m[15] - m[14] * m[7], m[6] * m[11] - m[10] * m[7]);
      var (c2, c1, c0) := (m[2] * m[15] - m[14] * m[3], m[2] * m[11] - m[10] * m[3], m[2] * m[7] - m[6] * m[3]);
      s0 * c5 - s1 * c4 + s2 * c3 + s3 * c2 - s4 * c1 + s5 * c0
  }

  // ----- four rows

  datatype Row = Row(x: real, y: real, z: real, w: real)

  /** The minors of two rows, or numbers to multiply them with. */
  datatype Six = Six(xy: real, xz: real, xw: real, yz: real, yw: real, zw: real)

  ghost function Minor(a: real, b: real, c: real, d: real): real {
    a * b - c * d
  }

  /** All minors of two rows. */
  ghost function Wedge(a: Row, b: Row): Six {
    Six(Minor(a.x, b.y, a.y, b.x), Minor(a.x, b.z, a.z, b.x), Minor(a.x, b.w, a.w, b.x),
      Minor(a.y, b.z, a.z, b.y), Minor(a.y, b.w, a.w, b.y), Minor(a.z, b.w, a.w, b.z))
  }

  /** Each minor times the one in the other two columns, with its sign. */
  ghost function Pair(s: Six, c: Six): real {
    s.xy * c.zw - s.xz * c.yw + s.xw * c.yz + s.yz * c.xw - s.yw * c.xz + s.zw * c.xy
  }

  ghost function Form(a: Row, b: Row, c: Row, d: Row): real {
    Pair(Wedge(a, b), Wedge(c, d))
  }

  lemma {:induction false} TwoMinors(m: real, n: real, a: real, b: real, c: real, d: real, e: real, f: real, g: real,
      h: real)
    requires m == Minor(a, b, c, d) && n == Minor(e, f, g, h)
    ensures m * n == a * b * e * f - a * b * g * h - c * d * e * f + c * d * g * h
  {
  }

  /** All terms of the form: one entry of each row, from different columns. */
  lemma {:induction false} FormExpanded(a: Row, b: Row, c: Row, d: Row)
    ensures Form(a, b, c, d) ==
      a.x * b.y * c.z * d.w - a.x * b.y * c.w * d.z - a.y * b.x * c.z * d.w + a.y * b.x * c.w * d.z
      - a.x * b.z * c.y * d.w + a.x * b.z * c.w * d.y + a.z * b.x * c.y * d.w - a.z * b.x * c.w * d.y
      + a.x * b.w * c.y * d.z - a.x * b.w * c.z * d.y - a.w * b.x * c.y * d.z + a.w * b.x * c.z * d.y
      + a.y * b.z * c.x * d.w - a.y * b.z * c.w * d.x - a.z * b.y * c.x * d.w + a.z * b.y * c.w * d.x
      - a.y * b.w * c.x * d.z + a.y * b.w * c.z * d.x + a.w * b.y * c.x * d.z - a.w * b.y * c.z * d.x
      + a.z * b.w * c.x * d.y - a.z * b.w * c.y * d.x - a.w * b.z * c.x * d.y + a.w * b.z * c.y * d.x
  {
    var s, t := Wedge(a, b), Wedge(c, d);
    TwoMinors(s.xy, t.zw, a.x, b.y, a.y, b.x, c.z, d.w, c.w, d.z);
    TwoMinors(s.xz, t.yw, a.x, b.z, a.z, b.x, c.y, d.w, c.w, d.y);
    TwoMinors(s.xw, t.yz, a.x, b.w, a.w, b.x, c.y, d.z, c.z, d.y);
    TwoMinors(s.yz, t.xw, a.y, b.z, a.z, b.y, c.x, d.w, c.w, d.x);
    TwoMinors(s.yw, t.xz, a.y, b.w, a.w, b.y, c.x, d.z, c.z, d.x);
    TwoMinors(s.zw, t.xy, a.z, b.w, a.w, b.z, c.x, d.y, c.y, d.x);
  }

  ghost function Dot4(u: Row, v: Row): real {
    u.x * v.x + u.y * v.y + u.z * v.z + u.w * v.w
  }

  ghost function Dot6(s: Six, c: Six): real {
    s.xy * c.xy + s.xz * c.xz + s.xw * c.xw + s.yz * c.yz + s.yw * c.yw + s.zw * c.zw
  }

  lemma {:induction false} OneTerm(a: real, b: real, v: Row, q: Row, r: real)
    requires r == Dot4(v, q)
    ensures a * b * r == a * b * v.x * q.x + a * b * v.y * q.y + a * b * v.z * q.z + a * b * v.w * q.w
  {
  }

  lemma {:induction false} DotsProduct(u: Row, p: Row, v: Row, q: Row, l: real, r: real)
    requires l == Dot4(u, p) && r == Dot4(v, q)
    ensures l * r ==
      u.x * p.x * v.x * q.x + u.x * p.x * v.y * q.y + u.x * p.x * v.z * q.z + u.x * p.x * v.w * q.w
      + u.y * p.y * v.x * q.x + u.y * p.y * v.y * q.y + u.y * p.y * v.z * q.z + u.y * p.y * v.w * q.w
      + u.z * p.z * v.x * q.x + u.z * p.z * v.y * q.y + u.z * p.z * v.z * q.z + u.z * p.z * v.w * q.w
      + u.w * p.w * v.x * q.x + u.w * p.w * v.y * q.y + u.w * p.w * v.z * q.z + u.w * p.w * v.w * q.w
  {
    OneTerm(u.x, p.x, v, q, r);
    OneTerm(u.y, p.y, v, q, r);
    OneTerm(u.z, p.z, v, q, r);
    OneTerm(u.w, p.w, v, q, r);
  }

  /** The identity of Binet and Cauchy: a minor of dot products is the dot product of the minors. */
  lemma {:induction false} BinetCauchy(u: Row, v: Row, p: Row, q: Row, s: Six, t: Six, up: real, vq: real, uq: real,
      vp: real)
    requires s == Wedge(u, v) && t == Wedge(p, q)
    requires up == Dot4(u, p) && vq == Dot4(v, q) && uq == Dot4(u, q) && vp == Dot4(v, p)
    ensures up * vq - uq * vp == Dot6(s, t)
  {
    DotsProduct(u, p, v, q, up, vq);
    DotsProduct(u, q, v, p, uq, vp);
    TwoMinors(s.xy, t.xy, u.x, v.y, u.y, v.x, p.x, q.y, p.y, q.x);
    TwoMinors(s.xz, t.xz, u.x, v.z, u.z, v.x, p.x, q.z, p.z, q.x);
    TwoMinors(s.xw, t.xw, u.x, v.w, u.w, v.x, p.x, q.w, p.w, q.x);
    TwoMinors(s.yz, t.yz, u.y, v.z, u.z, v.y, p.y, q.z, p.z, q.y);
    TwoMinors(s.yw, t.yw, u.y, v.w, u.w, v.y, p.y, q.w, p.w, q.y);
    TwoMinors(s.zw, t.zw, u.z, v.w, u.w, v.z, p.z, q.w, p.w, q.z);
  }

  // ----- the rows of a product

  datatype Matrix4 = Matrix4(a: Row, b: Row, c: Row, d: Row)

  ghost function Whole(m: Matrix4): real {
    Form(m.a, m.b, m.c, m.d)
  }

  ghost function Transposed(m: Matrix4): Matrix4 {
    Matrix4(Row(m.a.x, m.b.x, m.c.x, m.d.x), Row(m.a.y, m.b.y, m.c.y, m.d.y),
      Row(m.a.z, m.b.z, m.c.z, m.d.z), Row(m.a.w, m.b.w, m.c.w, m.d.w))
  }

  /** A row times a matrix, given by its columns. */
  ghost function Combo(u: Row, columns: Matrix4): Row {
    Row(Dot4(u, columns.a), Dot4(u, columns.b), Dot4(u, columns.c), Dot4(u, columns.d))
  }

  ghost function RowsProduct(k: Matrix4, m: Matrix4): Matrix4 {
    var t := Transposed(m);
    Matrix4(Combo(k.a, t), Combo(k.b, t), Combo(k.c, t), Combo(k.d, t))
  }

  /** The minors of all pairs of rows. */
  datatype Minors = Minors(ab: Six, ac: Six, ad: Six, bc: Six, bd: Six, cd: Six)

  ghost function MinorsOf(m: Matrix4): Minors {
    Minors(Wedge(m.a, m.b), Wedge(m.a, m.c), Wedge(m.a, m.d), Wedge(m.b, m.c), Wedge(m.b, m.d), Wedge(m.c, m.d))
  }

  /** The same numbers, by columns and by rows. */
  ghost predicate Turned(v: Minors, w: Minors) {
    && v.ab == Six(w.ab.xy, w.ac.xy, w.ad.xy, w.bc.xy, w.bd.xy, w.cd.xy)
    && v.ac == Six(w.ab.xz, w.ac.xz, w.ad.xz, w.bc.xz, w.bd.xz, w.cd.xz)
    && v.ad == Six(w.ab.xw, w.ac.xw, w.ad.xw, w.bc.xw, w.bd.xw, w.cd.xw)
    && v.bc == Six(w.ab.yz, w.ac.yz, w.ad.yz, w.bc.yz, w.bd.yz, w.cd.yz)
    && v.bd == Six(w.ab.yw, w.ac.yw, w.ad.yw, w.bc.yw, w.bd.yw, w.cd.yw)
    && v.cd == Six(w.ab.zw, w.ac.zw, w.ad.zw, w.bc.zw, w.bd.zw, w.cd.zw)
  }

  lemma {:induction false} MinorsTurned(m: Matrix4)
    ensures Turned(MinorsOf(Transposed(m)), MinorsOf(m))
  {
  }

  ghost function Mixed(s: Six, columns: Minors): Six {
    Six(Dot6(s, columns.ab), Dot6(s, columns.ac), Dot6(s, columns.ad), Dot6(s, columns.bc), Dot6(s, columns.bd),
      Dot6(s, columns.cd))
  }

  /** The minors of two rows of a product. */
  lemma {:induction false} WedgeCombo(u: Row, v: Row, t: Matrix4, s: Six)
    requires s == Wedge(u, v)
    ensures Wedge(Combo(u, t), Combo(v, t)) == Mixed(s, MinorsOf(t))
  {
    MinorCombo(u, v, t.a, t.b, s);
    MinorCombo(u, v, t.a, t.c, s);
    MinorCombo(u, v, t.a, t.d, s);
    MinorCombo(u, v, t.b, t.c, s);
    MinorCombo(u, v, t.b, t.d, s);
    MinorCombo(u, v, t.c, t.d, s);
  }

  lemma {:induction false} MinorCombo(u: Row, v: Row, p: Row, q: Row, s: Six)
    requires s == Wedge(u, v)
    ensures Minor(Dot4(u, p), Dot4(v, q), Dot4(u, q), Dot4(v, p)) == Dot6(s, Wedge(p, q))
  {
    BinetCauchy(u, v, p, q, s, Wedge(p, q), Dot4(u, p), Dot4(v, q), Dot4(u, q), Dot4(v, p));
  }

  ghost function Scale(k: real, s: Six): Six {
    Six(k * s.xy, k * s.xz, k * s.xw, k * s.yz, k * s.yw, k * s.zw)
  }

  ghost function Plus6(s: Six, t: Six): Six {
    Six(s.xy + t.xy, s.xz + t.xz, s.xw + t.xw, s.yz + t.yz, s.yw + t.yw, s.zw + t.zw)
  }

  ghost function Sum6(a: Six, b: Six, d: Six, e: Six, f: Six, g: Six): Six {
    Plus6(Plus6(Plus6(Plus6(Plus6(a, b), d), e), f), g)
  }

  /** The minors of the pairs of rows, each multiplied with a number, together. */
  ghost function Together(s: Six, w: Minors): Six {
    Sum6(Scale(s.xy, w.ab), Scale(s.xz, w.ac), Scale(s.xw, w.ad), Scale(s.yz, w.bc), Scale(s.yw, w.bd),
      Scale(s.zw, w.cd))
  }

  lemma {:induction false} TogetherXY(s: Six, w: Minors)
    ensures Together(s, w).xy == Dot6(s, Six(w.ab.xy, w.ac.xy, w.ad.xy, w.bc.xy, w.bd.xy, w.cd.xy))
  {
  }

  lemma {:induction false} TogetherXZ(s: Six, w: Minors)
    ensures Together(s, w).xz == Dot6(s, Six(w.ab.xz, w.ac.xz, w.ad.xz, w.bc.xz, w.bd.xz, w.cd.xz))
  {
  }

  lemma {:induction false} TogetherXW(s: Six, w: Minors)
    ensures Together(s, w).xw == Dot6(s, Six(w.ab.xw, w.ac.xw, w.ad.xw, w.bc.xw, w.bd.xw, w.cd.xw))
  {
  }

  lemma {:induction false} TogetherYZ(s: Six, w: Minors)
    ensures Together(s, w).yz == Dot6(s, Six(w.ab.yz, w.ac.yz, w.ad.yz, w.bc.yz, w.bd.yz, w.cd.yz))
  {
  }

  lemma {:induction false} TogetherYW(s: Six, w: Minors)
    ensures Together(s, w).yw == Dot6(s, Six(w.ab.yw, w.ac.yw, w.ad.yw, w.bc.yw, w.bd.yw, w.cd.yw))
  {
  }

  lemma {:induction false} TogetherZW(s: Six, w: Minors)
    ensures Together(s, w).zw == Dot6(s, Six(w.ab.zw, w.ac.zw, w.ad.zw, w.bc.zw, w.bd.zw, w.cd.zw))
  {
  }

  lemma {:induction false} MixedIs(s: Six, v: Minors, w: Minors)
    requires Turned(v, w)
    ensures Mixed(s, v) == Together(s, w)
  {
    TogetherXY(s, w);
    TogetherXZ(s, w);
    TogetherXW(s, w);
    TogetherYZ(s, w);
    TogetherYW(s, w);
    TogetherZW(s, w);
  }

  /** A product by name: proofs pass it on without looking into it. */
  ghost predicate Times(l: real, k: real, q: real) {
    l == k * q
  }

  ghost predicate Times6(s: Six, p: Six, l: Six) {
    && Times(l.xy, s.xy, p.xy) && Times(l.xz, s.xz, p.xz) && Times(l.xw, s.xw, p.xw)
    && Times(l.yz, s.yz, p.yz) && Times(l.yw, s.yw, p.yw) && Times(l.zw, s.zw, p.zw)
  }

  lemma {:induction false} PairScale(k: real, s: Six, c: Six, t: Six, q: real, l: real)
    requires t == Scale(k, s) && q == Pair(s, c) && Times(l, k, q)
    ensures Pair(t, c) == l
  {
    Factors(k, s.xy, c.zw, t.xy);
    Factors(k, s.xz, c.yw, t.xz);
    Factors(k, s.xw, c.yz, t.xw);
    Factors(k, s.yz, c.xw, t.yz);
    Factors(k, s.yw, c.xz, t.yw);
    Factors(k, s.zw, c.xy, t.zw);
  }

  lemma {:induction false} Factors(k: real, a: real, b: real, t: real)
    requires t == k * a
    ensures t * b == k * (a * b)
  {
  }

  lemma {:induction false} PairPlus(s: Six, t: Six, c: Six, l: real, k: real)
    requires l == Pair(s, c) && k == Pair(t, c)
    ensures Pair(Plus6(s, t), c) == l + k
  {
    var r := Plus6(s, t);
    Sums(s.xy, t.xy, c.zw, r.xy);
    Sums(s.xz, t.xz, c.yw, r.xz);
    Sums(s.xw, t.xw, c.yz, r.xw);
    Sums(s.yz, t.yz, c.xw, r.yz);
    Sums(s.yw, t.yw, c.xz, r.yw);
    Sums(s.zw, t.zw, c.xy, r.zw);
  }

  lemma {:induction false} Sums(a: real, b: real, y: real, r: real)
    requires r == a + b
    ensures r * y == a * y + b * y
  {
  }

  /** The form is linear in the minors of the first two rows. */
  lemma {:induction false} TogetherPair(s: Six, w: Minors, c: Six, p: Six, l: Six)
    requires p == Six(Pair(w.ab, c), Pair(w.ac, c), Pair(w.ad, c), Pair(w.bc, c), Pair(w.bd, c), Pair(w.cd, c))
    requires Times6(s, p, l)
    ensures Pair(Together(s, w), c) == l.xy + l.xz + l.xw + l.yz + l.yw + l.zw
  {
    var a, b, d := Scale(s.xy, w.ab), Scale(s.xz, w.ac), Scale(s.xw, w.ad);
    var e, f, g := Scale(s.yz, w.bc), Scale(s.yw, w.bd), Scale(s.zw, w.cd);
    PairScale(s.xy, w.ab, c, a, p.xy, l.xy);
    PairScale(s.xz, w.ac, c, b, p.xz, l.xz);
    PairScale(s.xw, w.ad, c, d, p.xw, l.xw);
    PairScale(s.yz, w.bc, c, e, p.yz, l.yz);
    PairScale(s.yw, w.bd, c, f, p.yw, l.yw);
    PairScale(s.zw, w.cd, c, g, p.zw, l.zw);
    var ab := Plus6(a, b);
    var abd := Plus6(ab, d);
    var abde := Plus6(abd, e);
    PairPlus(a, b, c, l.xy, l.xz);
    PairPlus(ab, d, c, l.xy + l.xz, l.xw);
    PairPlus(abd, e, c, l.xy + l.xz + l.xw, l.yz);
    PairPlus(abde, f, c, l.xy + l.xz + l.xw + l.yz, l.yw);
    PairPlus(Plus6(abde, f), g, c, l.xy + l.xz + l.xw + l.yz + l.yw, l.zw);
  }

  lemma {:induction false} MixedPair(s: Six, v: Minors, w: Minors, c: Six, x: Six, p: Six)
    requires Turned(v, w) && x == Mixed(s, v)
    requires p == Six(Pair(w.ab, c), Pair(w.ac, c), Pair(w.ad, c), Pair(w.bc, c), Pair(w.bd, c), Pair(w.cd, c))
    ensures Pair(x, c) == Dot6(s, p)
  {
    MixedIs(s, v, w);
    var l := DotTerms(s, p);
    TogetherPair(s, w, c, p, l);
  }

  ghost function DotTerms(s: Six, p: Six): (l: Six)
    ensures Times6(s, p, l) && Dot6(s, p) == l.xy + l.xz + l.xw + l.yz + l.yw + l.zw
  {
    Six(s.xy * p.xy, s.xz * p.xz, s.xw * p.xw, s.yz * p.yz, s.yw * p.yw, s.zw * p.zw)
  }

  lemma {:induction false} Repeated(a: Row, b: Row, c: Row)
    ensures Form(a, b, a, c) == 0.0 && Form(a, b, c, a) == 0.0 && Form(b, a, a, c) == 0.0 && Form(b, a, c, a) == 0.0
  {
    FormExpanded(a, b, a, c);
    FormExpanded(a, b, c, a);
    FormExpanded(b, a, a, c);
    FormExpanded(b, a, c, a);
  }

  lemma {:induction false} Reordered(m: Matrix4)
    ensures Form(m.a, m.c, m.b, m.d) == -Whole(m) && Form(m.a, m.d, m.b, m.c) == Whole(m)
    ensures Form(m.b, m.c, m.a, m.d) == Whole(m) && Form(m.b, m.d, m.a, m.c) == -Whole(m)
    ensures Form(m.c, m.d, m.a, m.b) == Whole(m)
  {
    FormExpanded(m.a, m.b, m.c, m.d);
    FormExpanded(m.a, m.c, m.b, m.d);
    FormExpanded(m.a, m.d, m.b, m.c);
    FormExpanded(m.b, m.c, m.a, m.d);
    FormExpanded(m.b, m.d, m.a, m.c);
    FormExpanded(m.c, m.d, m.a, m.b);
  }

  /** The form of every pair of rows and one pair. */
  ghost function PairsWith(m: Matrix4, c: Six): Six {
    Six(Pair(Wedge(m.a, m.b), c), Pair(Wedge(m.a, m.c), c), Pair(Wedge(m.a, m.d), c), Pair(Wedge(m.b, m.c), c),
      Pair(Wedge(m.b, m.d), c), Pair(Wedge(m.c, m.d), c))
  }

  lemma {:induction false} PairsWithAB(m: Matrix4, d: real)
    requires d == Whole(m)
    ensures PairsWith(m, Wedge(m.a, m.b)) == Six(0.0, 0.0, 0.0, 0.0, 0.0, d)
  {
    Reordered(m);
    Repeated(m.a, m.b, m.b);
    Repeated(m.a, m.c, m.b);
    Repeated(m.a, m.d, m.b);
    Repeated(m.b, m.c, m.a);
    Repeated(m.b, m.d, m.a);
  }

  lemma {:induction false} PairsWithAC(m: Matrix4, d: real)
    requires d == Whole(m)
    ensures PairsWith(m, Wedge(m.a, m.c)) == Six(0.0, 0.0, 0.0, 0.0, -d, 0.0)
  {
    Reordered(m);
    Repeated(m.a, m.b, m.c);
    Repeated(m.a, m.c, m.c);
    Repeated(m.a, m.d, m.c);
    Repeated(m.c, m.b, m.a);
    Repeated(m.c, m.d, m.a);
  }

  lemma {:induction false} PairsWithAD(m: Matrix4, d: real)
    requires d == Whole(m)
    ensures PairsWith(m, Wedge(m.a, m.d)) == Six(0.0, 0.0, 0.0, d, 0.0, 0.0)
  {
    Reordered(m);
    Repeated(m.a, m.b, m.d);
    Repeated(m.a, m.c, m.d);
    Repeated(m.a, m.d, m.d);
    Repeated(m.d, m.b, m.a);
    Repeated(m.d, m.c, m.a);
  }

  lemma {:induction false} PairsWithBC(m: Matrix4, d: real)
    requires d == Whole(m)
    ensures PairsWith(m, Wedge(m.b, m.c)) == Six(0.0, 0.0, d, 0.0, 0.0, 0.0)
  {
    Reordered(m);
    Repeated(m.b, m.a, m.c);
    Repeated(m.c, m.a, m.b);
    Repeated(m.b, m.c, m.c);
    Repeated(m.b, m.d, m.c);
    Repeated(m.c, m.d, m.b);
  }

  lemma {:induction false} PairsWithBD(m: Matrix4, d: real)
    requires d == Whole(m)
    ensures PairsWith(m, Wedge(m.b, m.d)) == Six(0.0, -d, 0.0, 0.0, 0.0, 0.0)
  {
    Reordered(m);
    Repeated(m.b, m.a, m.d);
    Repeated(m.d, m.a, m.b);
    Repeated(m.b, m.c, m.d);
    Repeated(m.b, m.d, m.d);
    Repeated(m.d, m.c, m.b);
  }

  lemma {:induction false} PairsWithCD(m: Matrix4, d: real)
    requires d == Whole(m)
    ensures PairsWith(m, Wedge(m.c, m.d)) == Six(d, 0.0, 0.0, 0.0, 0.0, 0.0)
  {
    Reordered(m);
    Repeated(m.c, m.a, m.d);
    Repeated(m.d, m.a, m.c);
    Repeated(m.c, m.b, m.d);
    Repeated(m.d, m.b, m.c);
    Repeated(m.c, m.d, m.d);
  }

  lemma {:induction false} Paired(t: Six, v: Minors, m: Matrix4, x: Six, c: Six, p: Six)
    requires v == MinorsOf(Transposed(m)) && x == Mixed(t, v) && p == PairsWith(m, c)
    ensures Pair(x, c) == Dot6(t, p)
  {
    MinorsTurned(m);
    MixedPair(t, v, MinorsOf(m), c, x, p);
  }

  lemma {:induction false} Only(t: Six, d: real)
    ensures Dot6(t, Six(0.0, 0.0, 0.0, 0.0, 0.0, d)) == t.zw * d
    ensures Dot6(t, Six(0.0, 0.0, 0.0, 0.0, -d, 0.0)) == -(t.yw * d)
    ensures Dot6(t, Six(0.0, 0.0, 0.0, d, 0.0, 0.0)) == t.yz * d
    ensures Dot6(t, Six(0.0, 0.0, d, 0.0, 0.0, 0.0)) == t.xw * d
    ensures Dot6(t, Six(0.0, -d, 0.0, 0.0, 0.0, 0.0)) == -(t.xz * d)
    ensures Dot6(t, Six(d, 0.0, 0.0, 0.0, 0.0, 0.0)) == t.xy * d
  {
  }

  lemma {:induction false} PairedAB(t: Six, v: Minors, m: Matrix4, x: Six, d: real)
    requires v == MinorsOf(Transposed(m)) && x == Mixed(t, v) && d == Whole(m)
    ensures Pair(x, Wedge(m.a, m.b)) == t.zw * d
  {
    PairsWithAB(m, d);
    Paired(t, v, m, x, Wedge(m.a, m.b), Six(0.0, 0.0, 0.0, 0.0, 0.0, d));
    Only(t, d);
  }

  lemma {:induction false} PairedAC(t: Six, v: Minors, m: Matrix4, x: Six, d: real)
    requires v == MinorsOf(Transposed(m)) && x == Mixed(t, v) && d == Whole(m)
    ensures Pair(x, Wedge(m.a, m.c)) == -(t.yw * d)
  {
    PairsWithAC(m, d);
    Paired(t, v, m, x, Wedge(m.a, m.c), Six(0.0, 0.0, 0.0, 0.0, -d, 0.0));
    Only(t, d);
  }

  lemma {:induction false} PairedAD(t: Six, v: Minors, m: Matrix4, x: Six, d: real)
    requires v == MinorsOf(Transposed(m)) && x == Mixed(t, v) && d == Whole(m)
    ensures Pair(x, Wedge(m.a, m.d)) == t.yz * d
  {
    PairsWithAD(m, d);
    Paired(t, v, m, x, Wedge(m.a, m.d), Six(0.0, 0.0, 0.0, d, 0.0, 0.0));
    Only(t, d);
  }

  lemma {:induction false} PairedBC(t: Six, v: Minors, m: Matrix4, x: Six, d: real)
    requires v == MinorsOf(Transposed(m)) && x == Mixed(t, v) && d == Whole(m)
    ensures Pair(x, Wedge(m.b, m.c)) == t.xw * d
  {
    PairsWithBC(m, d);
    Paired(t, v, m, x, Wedge(m.b, m.c), Six(0.0, 0.0, d, 0.0, 0.0, 0.0));
    Only(t, d);
  }

  lemma {:induction false} PairedBD(t: Six, v: Minors, m: Matrix4, x: Six, d: real)
    requires v == MinorsOf(Transposed(m)) && x == Mixed(t, v) && d == Whole(m)
    ensures Pair(x, Wedge(m.b, m.d)) == -(t.xz * d)
  {
    PairsWithBD(m, d);
    Paired(t, v, m, x, Wedge(m.b, m.d), Six(0.0, -d, 0.0, 0.0, 0.0, 0.0));
    Only(t, d);
  }

  lemma {:induction false} PairedCD(t: Six, v: Minors, m: Matrix4, x: Six, d: real)
    requires v == MinorsOf(Transposed(m)) && x == Mixed(t, v) && d == Whole(m)
    ensures Pair(x, Wedge(m.c, m.d)) == t.xy * d
  {
    PairsWithCD(m, d);
    Paired(t, v, m, x, Wedge(m.c, m.d), Six(d, 0.0, 0.0, 0.0, 0.0, 0.0));
    Only(t, d);
  }

  lemma {:induction false} PairSwap(s: Six, c: Six)
    ensures Pair(s, c) == Pair(c, s)
  {
  }

  lemma {:induction false} PairsWithMixed(c: Six, v: Minors, m: Matrix4, y: Six, d: real)
    requires v == MinorsOf(Transposed(m)) && y == Mixed(c, v) && d == Whole(m)
    ensures PairsWith(m, y) == Six(c.zw * d, -(c.yw * d), c.yz * d, c.xw * d, -(c.xz * d), c.xy * d)
  {
    PairedAB(c, v, m, y, d);
    PairSwap(y, Wedge(m.a, m.b));
    PairedAC(c, v, m, y, d);
    PairSwap(y, Wedge(m.a, m.c));
    PairedAD(c, v, m, y, d);
    PairSwap(y, Wedge(m.a, m.d));
    PairedBC(c, v, m, y, d);
    PairSwap(y, Wedge(m.b, m.c));
    PairedBD(c, v, m, y, d);
    PairSwap(y, Wedge(m.b, m.d));
    PairedCD(c, v, m, y, d);
    PairSwap(y, Wedge(m.c, m.d));
  }

  lemma {:induction false} PairTimes(s: Six, c: Six, l: real, d: real)
    requires l == Pair(s, c)
    ensures l * d ==
      s.xy * (c.zw * d) - s.xz * (c.yw * d) + s.xw * (c.yz * d)
      + s.yz * (c.xw * d) - s.yw * (c.xz * d) + s.zw * (c.xy * d)
  {
  }

  /** The form of the rows of a product is the product of the forms. */
  lemma {:induction false} WholeProduct(k: Matrix4, m: Matrix4, l: real, d: real)
    requires l == Whole(k) && d == Whole(m)
    ensures Whole(RowsProduct(k, m)) == l * d
  {
    var t, s, c := Transposed(m), Wedge(k.a, k.b), Wedge(k.c, k.d);
    var v := MinorsOf(t);
    WedgeCombo(k.a, k.b, t, s);
    WedgeCombo(k.c, k.d, t, c);
    MixedMixed(s, c, m, v, l, d);
  }

  lemma {:induction false} MixedMixed(s: Six, c: Six, m: Matrix4, v: Minors, l: real, d: real)
    requires v == MinorsOf(Transposed(m)) && l == Pair(s, c) && d == Whole(m)
    ensures Pair(Mixed(s, v), Mixed(c, v)) == l * d
  {
    var y := Mixed(c, v);
    var p := PairsWith(m, y);
    PairsWithMixed(c, v, m, y, d);
    Paired(s, v, m, Mixed(s, v), y, p);
    DotSigned(s, c, p, l, d);
  }

  lemma {:induction false} DotSigned(s: Six, c: Six, p: Six, l: real, d: real)
    requires l == Pair(s, c) && p == Six(c.zw * d, -(c.yw * d), c.yz * d, c.xw * d, -(c.xz * d), c.xy * d)
    ensures Dot6(s, p) == l * d
  {
    PairTimes(s, c, l, d);
  }

  // ----- matrices as four rows

  /** An entry of the matrix, or of the identity below it. */
  ghost function Entry(m: Vec, n: nat, r: nat, c: nat): real
    requires Sized(m, n, n)
  {
    if r < n && c < n then At(m, n, n, r, c) else if r == c then 1.0 else 0.0
  }

  ghost function RowAt(m: Vec, n: nat, r: nat): Row
    requires Sized(m, n, n)
  {
    Row(Entry(m, n, r, 0), Entry(m, n, r, 1), Entry(m, n, r, 2), Entry(m, n, r, 3))
  }

  ghost function Extended(m: Vec, n: nat): Matrix4
    requires Sized(m, n, n)
  {
    Matrix4(RowAt(m, n, 0), RowAt(m, n, 1), RowAt(m, n, 2), RowAt(m, n, 3))
  }

  lemma {:induction false} Extended2(m: Vec)
    requires Sized(m, 2, 2)
    ensures Extended(m, 2) ==
      Matrix4(Row(m[0], m[2], 0.0, 0.0), Row(m[1], m[3], 0.0, 0.0), Row(0.0, 0.0, 1.0, 0.0), Row(0.0, 0.0, 0.0, 1.0))
  {
  }

  lemma {:induction false} Extended3(m: Vec)
    requires Sized(m, 3, 3)
    ensures Extended(m, 3) ==
      Matrix4(Row(m[0], m[3], m[6], 0.0), Row(m[1], m[4], m[7], 0.0), Row(m[2], m[5], m[8], 0.0),
        Row(0.0, 0.0, 0.0, 1.0))
  {
  }

  lemma {:induction false} Extended4(m: Vec)
    requires Sized(m, 4, 4)
    ensures Extended(m, 4) == Matrix4(Row(m[0], m[4], m[8], m[12]), Row(m[1], m[5], m[9], m[13]),
      Row(m[2], m[6], m[10], m[14]), Row(m[3], m[7], m[11], m[15]))
  {
  }

  /** The three formulas are one. */
  lemma {:induction false} DetIsWhole(m: Vec, n: nat)
    requires 2 <= n <= 4 && Sized(m, n, n)
    ensures Det(m, n) == Whole(Extended(m, n))
  {
    if n == 2 { Extended2(m); } else if n == 3 { Det3IsWhole(m); } else { Det4IsWhole(m); }
  }

  lemma {:induction false} Det4IsWhole(m: Vec)
    requires Sized(m, 4, 4)
    ensures Det(m, 4) == Whole(Extended(m, 4))
  {
    Extended4(m);
  }

  lemma {:induction false} Det3IsWhole(m: Vec)
    requires Sized(m, 3, 3)
    ensures Det(m, 3) == Whole(Extended(m, 3))
  {
    Extended3(m);
    var e := Extended(m, 3);
    FormExpanded(e.a, e.b, e.c, e.d);
  }

  // ----- what the determinant tells

  lemma {:induction false} ShortDot(u: Vec, v: Vec, a: Row, b: Row)
    requires 2 <= |u| == |v| <= 4
    requires a == Row(u[0], u[1], if |u| > 2 then u[2] else 0.0, if |u| > 3 then u[3] else 0.0)
    requires b.x == v[0] && b.y == v[1] && (|v| > 2 ==> b.z == v[2]) && (|v| > 3 ==> b.w == v[3])
    ensures Dot(u, v) == Dot4(a, b)
  {
    assert u[..|u|] == u && v[..|v|] == v;
    if |u| == 2 { TwoTerms(u, v); } else if |u| == 3 { ThreeTerms(u, v); } else { FourTerms(u, v); }
  }

  lemma {:induction false} TwoTerms(u: Vec, v: Vec)
    requires 2 <= |u| == |v|
    ensures Dot(u[..2], v[..2]) == u[0] * v[0] + u[1] * v[1]
  {
    DotFront(u, v, 1);
    DotFront(u, v, 2);
  }

  lemma {:induction false} ThreeTerms(u: Vec, v: Vec)
    requires 3 <= |u| == |v|
    ensures Dot(u[..3], v[..3]) == u[0] * v[0] + u[1] * v[1] + u[2] * v[2]
  {
    TwoTerms(u, v);
    DotFront(u, v, 3);
  }

  lemma {:induction false} FourTerms(u: Vec, v: Vec)
    requires 4 <= |u| == |v|
    ensures Dot(u[..4], v[..4]) == u[0] * v[0] + u[1] * v[1] + u[2] * v[2] + u[3] * v[3]
  {
    ThreeTerms(u, v);
    DotFront(u, v, 4);
  }

  lemma {:induction false} DotFront(u: Vec, v: Vec, k: nat)
    requires |u| == |v| && 0 < k <= |u|
    ensures Dot(u[..k], v[..k]) == (if k == 1 then 0.0 else Dot(u[..k - 1], v[..k - 1])) + u[k - 1] * v[k - 1]
  {
    assert u[..k][..k - 1] == u[..k - 1] && v[..k][..k - 1] == v[..k - 1];
  }

  ghost function ColumnAt(m: Vec, n: nat, c: nat): Row
    requires Sized(m, n, n)
  {
    Row(Entry(m, n, 0, c), Entry(m, n, 1, c), Entry(m, n, 2, c), Entry(m, n, 3, c))
  }

  /** Extending matrices and multiplying them can change places. */
  lemma {:induction false} EntryOfProduct(p: Vec, a: Vec, b: Vec, n: nat, r: nat, c: nat)
    requires 2 <= n <= 4 && Sized(a, n, n) && Sized(b, n, n) && IsProduct(p, a, b, n, n, n) && r < 4 && c < 4
    ensures Entry(p, n, r, c) == Dot4(RowAt(a, n, r), ColumnAt(b, n, c))
  {
    if r < n && c < n {
      ShortDot(RowOf(a, n, n, r), ColOf(b, n, n, c), RowAt(a, n, r), ColumnAt(b, n, c));
    } else {
      BelowProduct(a, b, n, r, c);
    }
  }

  lemma {:induction false} BelowProduct(a: Vec, b: Vec, n: nat, r: nat, c: nat)
    requires 2 <= n <= 4 && Sized(a, n, n) && Sized(b, n, n) && r < 4 && c < 4 && (r >= n || c >= n)
    ensures Dot4(RowAt(a, n, r), ColumnAt(b, n, c)) == if r == c then 1.0 else 0.0
  {
  }

  lemma {:induction false} ExtendedProduct(p: Vec, a: Vec, b: Vec, n: nat)
    requires 2 <= n <= 4 && Sized(a, n, n) && Sized(b, n, n) && IsProduct(p, a, b, n, n, n)
    ensures Extended(p, n) == RowsProduct(Extended(a, n), Extended(b, n))
  {
    forall r: nat, c: nat | r < 4 && c < 4 ensures Entry(p, n, r, c) == Dot4(RowAt(a, n, r), ColumnAt(b, n, c)) {
      EntryOfProduct(p, a, b, n, r, c);
    }
  }

  lemma {:induction false} WholeOfProduct(p: Vec, a: Vec, b: Vec, n: nat, x: real, l: real, d: real)
    requires 2 <= n <= 4 && Sized(a, n, n) && Sized(b, n, n) && IsProduct(p, a, b, n, n, n)
    requires x == Whole(Extended(p, n)) && l == Whole(Extended(a, n)) && d == Whole(Extended(b, n))
    ensures x == l * d
  {
    ExtendedProduct(p, a, b, n);
    WholeProduct(Extended(a, n), Extended(b, n), l, d);
  }

  lemma {:induction false} DetGives(m: Vec, n: nat, d: real)
    requires 2 <= n <= 4 && Sized(m, n, n) && d == Det(m, n)
    ensures d == Whole(Extended(m, n))
  {
    DetIsWhole(m, n);
  }

  /** The determinant of a product is the product of the determinants. */
  lemma {:induction false} DetOfProduct(p: Vec, a: Vec, b: Vec, n: nat, x: real, l: real, d: real)
    requires 2 <= n <= 4 && Sized(a, n, n) && Sized(b, n, n) && IsProduct(p, a, b, n, n, n)
    requires x == Det(p, n) && l == Det(a, n) && d == Det(b, n)
    ensures x == l * d
  {
    DetGives(p, n, x);
    DetGives(a, n, l);
    DetGives(b, n, d);
    WholeOfProduct(p, a, b, n, x, l, d);
  }

  /** The identity with column `j` replaced. */
  ghost function Unitary(x: Vec, j: nat): (e: Vec)
    requires j < |x|
    ensures Sized(e, |x|, |x|)
    ensures forall r, c :: 0 <= r < |x| && 0 <= c < |x| ==>
      At(e, |x|, |x|, r, c) == if c == j then x[r] else if r == c then 1.0 else 0.0
  {
    var n := |x|;
    var e := seq(n * n, i requires 0 <= i < n * n =>
      var c := i / n;
      IdxOf(n, n, i);
      if c == j then x[i % n] else if i % n == c then 1.0 else 0.0);
    assert forall r, c :: 0 <= r < n && 0 <= c < n ==>
      At(e, n, n, r, c) == if c == j then x[r] else if r == c then 1.0 else 0.0 by {
      forall r, c | 0 <= r < n && 0 <= c < n
        ensures At(e, n, n, r, c) == if c == j then x[r] else if r == c then 1.0 else 0.0
      {
        IdxBound(n, n, c, r);
        IdxInverse(n, c, r);
      }
    }
    e
  }

  ghost function UnitaryEntry(x: Vec, j: nat, r: nat, c: nat): real {
    if c == j then (if r < |x| then x[r] else 0.0) else if r == c then 1.0 else 0.0
  }

  ghost function UnitaryRow(x: Vec, j: nat, r: nat): Row {
    Row(UnitaryEntry(x, j, r, 0), UnitaryEntry(x, j, r, 1), UnitaryEntry(x, j, r, 2), UnitaryEntry(x, j, r, 3))
  }

  lemma {:induction false} UnitaryRowIs(x: Vec, j: nat, r: nat, e: Vec)
    requires 2 <= |x| <= 4 && j < |x| && r < 4 && e == Unitary(x, j)
    ensures RowAt(e, |x|, r) == UnitaryRow(x, j, r)
  {
  }

  lemma {:induction false} FormUnitary(x: Vec, j: nat)
    requires 2 <= |x| <= 4 && j < |x|
    ensures Form(UnitaryRow(x, j, 0), UnitaryRow(x, j, 1), UnitaryRow(x, j, 2), UnitaryRow(x, j, 3)) == x[j]
  {
    FormExpanded(UnitaryRow(x, j, 0), UnitaryRow(x, j, 1), UnitaryRow(x, j, 2), UnitaryRow(x, j, 3));
  }

  lemma {:induction false} DetUnitary(x: Vec, j: nat)
    requires 2 <= |x| <= 4 && j < |x|
    ensures Det(Unitary(x, j), |x|) == x[j]
  {
    var e := Unitary(x, j);
    DetIsWhole(e, |x|);
    UnitaryRowIs(x, j, 0, e);
    UnitaryRowIs(x, j, 1, e);
    UnitaryRowIs(x, j, 2, e);
    UnitaryRowIs(x, j, 3, e);
    FormUnitary(x, j);
  }

  ghost function Part(r: Row, j: nat): real {
    if j == 0 then r.x else if j == 1 then r.y else if j == 2 then r.z else r.w
  }

  lemma {:induction false} FormZero(m: Matrix4, j: nat)
    requires Part(m.a, j) == Part(m.b, j) == Part(m.c, j) == Part(m.d, j) == 0.0
    ensures Whole(m) == 0.0
  {
    FormExpanded(m.a, m.b, m.c, m.d);
  }

  lemma {:induction false} PartIs(p: Vec, n: nat, r: nat, j: nat)
    requires Sized(p, n, n) && j < n <= 4 && r < 4 && (r < n ==> At(p, n, n, r, j) == 0.0)
    ensures Part(RowAt(p, n, r), j) == 0.0
  {
  }

  lemma {:induction false} ZeroColumn(p: Vec, n: nat, j: nat)
    requires 2 <= n <= 4 && Sized(p, n, n) && j < n && forall r :: 0 <= r < n ==> At(p, n, n, r, j) == 0.0
    ensures Det(p, n) == 0.0
  {
    DetIsWhole(p, n);
    PartIs(p, n, 0, j);
    PartIs(p, n, 1, j);
    PartIs(p, n, 2, j);
    PartIs(p, n, 3, j);
    FormZero(Extended(p, n), j);
  }

  /** A matrix that takes a vector other than zero to zero has determinant zero. */
  lemma {:induction false} DetOfSingular(m: Vec, n: nat)
    requires 2 <= n <= 4 && Sized(m, n, n) && Singular(m, n)
    ensures Det(m, n) == 0.0
  {
    var x: Vec :| |x| == n && !Zero(x) && TakesToZero(m, n, x);
    var j: nat :| j < n && x[j] != 0.0;
    KernelTimes(m, n, x, j, Det(m, n), x[j], 0.0);
  }

  lemma {:induction false} KernelTimes(m: Vec, n: nat, x: Vec, j: nat, d: real, y: real, z: real)
    requires 2 <= n <= 4 && Sized(m, n, n) && |x| == n && TakesToZero(m, n, x) && j < n
    requires d == Det(m, n) && y == x[j] && z == 0.0
    ensures z == d * y
  {
    var e := Unitary(x, j);
    var p := Product(m, e, n);
    TakenColumn(m, n, x, j, e, p);
    ZeroGives(p, n, j, z);
    UnitaryGives(x, j, e, y);
    DetOfProduct(p, m, e, n, z, d, y);
  }

  lemma {:induction false} ZeroGives(p: Vec, n: nat, j: nat, z: real)
    requires 2 <= n <= 4 && Sized(p, n, n) && j < n && forall r :: 0 <= r < n ==> At(p, n, n, r, j) == 0.0
    requires z == 0.0
    ensures z == Det(p, n)
  {
    ZeroColumn(p, n, j);
  }

  lemma {:induction false} UnitaryGives(x: Vec, j: nat, e: Vec, y: real)
    requires 2 <= |x| <= 4 && j < |x| && e == Unitary(x, j) && y == x[j]
    ensures y == Det(e, |x|)
  {
    DetUnitary(x, j);
  }

  lemma {:induction false} TakenColumn(m: Vec, n: nat, x: Vec, j: nat, e: Vec, p: Vec)
    requires Sized(m, n, n) && |x| == n && TakesToZero(m, n, x) && j < n && e == Unitary(x, j)
    requires IsProduct(p, m, e, n, n, n)
    ensures forall r :: 0 <= r < n ==> At(p, n, n, r, j) == 0.0
  {
    assert ColOf(e, n, n, j) == x;
    forall r | 0 <= r < n ensures At(p, n, n, r, j) == 0.0 { assert Dot(RowOf(m, n, n, r), x) == 0.0; }
  }

  lemma {:induction false} DetOfIdentity(p: Vec, n: nat)
    requires 2 <= n <= 4 && IsIdentity(p, n)
    ensures Det(p, n) == 1.0
  {
    var x := ColOf(p, n, n, 0);
    DetUnitary(x, 0);
    SameEntries(p, Unitary(x, 0), n);
  }

  lemma {:induction false} SameEntries(p: Vec, q: Vec, n: nat)
    requires Sized(p, n, n) && Sized(q, n, n)
    requires forall r, c :: 0 <= r < n && 0 <= c < n ==> At(p, n, n, r, c) == At(q, n, n, r, c)
    ensures p == q
  {
    forall i | 0 <= i < |p| ensures p[i] == q[i] {
      IdxOf(n, n, i);
      assert At(p, n, n, i % n, i / n) == At(q, n, n, i % n, i / n);
    }
  }

  /** A matrix that can be undone has a determinant other than zero. */
  lemma {:induction false} DetOfInvertible(w: Vec, m: Vec, p: Vec, n: nat)
    requires 2 <= n <= 4 && Sized(w, n, n) && Sized(m, n, n) && IsProduct(p, w, m, n, n, n) && IsIdentity(p, n)
    ensures Det(m, n) != 0.0
  {
    DetOfIdentity(p, n);
    DetOfProduct(p, w, m, n, 1.0, Det(w, n), Det(m, n));
  }
}
