/**
 Half-precision conversion of the shader runtime: a number is rounded to a single, the bits of the single to
 a half. Bits are quotients and remainders, and magnitudes are counted in units of the smallest single, two to
 the power -149.
 */
module GlslHalf {

  function Pow2(n: nat): nat {
    if n == 0 then 1 else 2 * Pow2(n - 1)
  }

  const SIGN := 0x8000_0000
  const HIDDEN := 0x80_0000
  const INFINITY := 0x7C00
  const INFINITY32 := 0x7F80_0000

  /** The magnitude of a finite single with these bits, sign aside. */
  function Value32(x: nat): nat {
    if x / HIDDEN == 0 then x % HIDDEN else (x % HIDDEN + HIDDEN) * Pow2(x / HIDDEN - 1)
  }

  /** The magnitude of a half with these bits, sign aside; infinity counts as the number after the last. */
  function Value16(h: nat): nat {
    if h / 1024 == 0 then h % 1024 * Pow2(125) else (h % 1024 + 1024) * Pow2(h / 1024 + 124)
  }

  function Distance(a: int, b: int): nat {
    if a < b then b - a else a - b
  }

  // ----- powers of two

  lemma {:induction false} Pow2Add(m: nat, n: nat)
    ensures Pow2(m + n) == Pow2(m) * Pow2(n)
    decreases n
  {
    if n > 0 { Pow2Add(m, n - 1); }
  }

  lemma {:induction false} Pow2Positive(n: nat)
    ensures Pow2(n) >= 1
  {
    if n > 0 { Pow2Positive(n - 1); }
  }

  lemma {:induction false} Pow2Grows(m: nat, n: nat)
    requires m <= n
    ensures Pow2(m) <= Pow2(n)
  {
    if m < n { Pow2Grows(m, n - 1); Pow2Positive(n - 1); }
  }

  lemma {:induction false} Pow2Small()
    ensures Pow2(10) == 1024 && Pow2(13) == 8192 && Pow2(23) == HIDDEN && Pow2(24) == 2 * HIDDEN
  {
    assert Pow2(5) == 32;
    Pow2Add(5, 5);
    assert Pow2(13) == 8 * Pow2(10);
    Pow2Add(13, 10);
  }

  // ----- the halves in order

  /** The step to the next half. */
  lemma {:induction false} NextHalf(h: nat)
    ensures Value16(h + 1) == Value16(h) + Pow2(124 + (if h < 1024 then 1 else h / 1024))
  {
    var e, m := h / 1024, h % 1024;
    if m < 1023 {
      assert (h + 1) / 1024 == e && (h + 1) % 1024 == m + 1;
      Distribute(m + (if e == 0 then 0 else 1024), Pow2(if e == 0 then 125 else e + 124));
    } else {
      assert (h + 1) / 1024 == e + 1 && (h + 1) % 1024 == 0;
      assert Pow2(e + 125) == 2 * Pow2(e + 124);
    }
  }

  lemma {:induction false} Distribute(a: int, p: int)
    ensures (a + 1) * p == a * p + p
  {
  }

  lemma {:induction false} HalvesGrow(g: nat, h: nat)
    requires g < h
    ensures Value16(g) < Value16(h)
    decreases h
  {
    NextHalf(h - 1);
    Pow2Positive(124 + (if h - 1 < 1024 then 1 else (h - 1) / 1024));
    if g < h - 1 { HalvesGrow(g, h - 1); }
  }

  // ----- rounding

  /** `h` is where a magnitude belongs: from halfway below it to less than halfway above it. */
  ghost predicate Around(v: nat, h: nat) {
    && h <= INFINITY
    && (h > 0 ==> Value16(h - 1) + Value16(h) <= 2 * v)
    && (h < INFINITY ==> 2 * v < Value16(h) + Value16(h + 1))
  }

  /** No half is nearer, and one that is as near is closer to zero. */
  lemma {:induction false} AroundIsNearest(v: nat, h: nat, g: nat)
    requires Around(v, h) && g <= INFINITY
    ensures Distance(Value16(h), v) <= Distance(Value16(g), v)
    ensures g != h && Distance(Value16(h), v) == Distance(Value16(g), v) ==> g < h
  {
    if g < h {
      if g < h - 1 { HalvesGrow(g, h - 1); }
      HalvesGrow(h - 1, h);
    } else if g > h {
      if g > h + 1 { HalvesGrow(h + 1, g); }
      HalvesGrow(h, h + 1);
    }
  }

  /** Rounding keeps the order. */
  lemma {:induction false} AroundIsMonotone(v: nat, h: nat, w: nat, g: nat)
    requires Around(v, h) && Around(w, g) && v <= w
    ensures h <= g
  {
    if h > g {
      if h - 1 > g {
        HalvesGrow(g, h - 1);
        HalvesGrow(g + 1, h);
      }
    }
  }

  /** A magnitude that is a half stays what it is. */
  lemma {:induction false} ExactIsKept(v: nat, h: nat, g: nat)
    requires Around(v, h) && g <= INFINITY && v == Value16(g)
    ensures h == g
  {
    AroundIsNearest(v, h, g);
    if h < g { HalvesGrow(h, g); } else if g < h { HalvesGrow(g, h); }
  }

  // ----- the three cases of the conversion

  /** To the nearest multiple of 8192, halves up. */
  function Rounded(m: nat): (q: nat)
    ensures 8192 * q <= m + 4096 < 8192 * (q + 1)
  {
    (m + 4096) / 8192
  }

  lemma {:induction false} BitRounds(m: nat)
    ensures (if m / 0x1000 % 2 == 1 then m + 0x2000 else m) / 8192 == Rounded(m)
  {
    var k, c := m / 4096, m % 4096;
    var a, b := k / 2, k % 2;
    assert m == 8192 * a + 4096 * b + c;
    DivideBy8192(a, 4096 * b + c);
    if b == 1 {
      DivideBy8192(a + 1, 4096 + c);
      DivideBy8192(a + 1, c);
    } else {
      DivideBy8192(a, c + 4096);
    }
  }

  lemma {:induction false} DivideBy8192(a: nat, r: nat)
    requires r < 8192
    ensures (8192 * a + r) / 8192 == a
  {
  }

  lemma {:induction false} Scaled(a: int, b: int, u: int)
    requires u >= 1
    ensures a <= b ==> a * u <= b * u
    ensures a < b ==> a * u < b * u
  {
  }

  /** The half with `q` units of the binade that starts at exponent `e`; `q == 2048` is the first of the next one. */
  lemma {:induction false} BinadeValue(e: nat, q: nat)
    requires 1 <= e && 1024 <= q <= 2048
    ensures Value16((e - 1) * 1024 + q) == q * Pow2(e + 124)
  {
    var h := (e - 1) * 1024 + q;
    if q < 2048 {
      assert h / 1024 == e && h % 1024 == q - 1024;
    } else {
      assert h == (e + 1) * 1024;
      assert Pow2(e + 125) == 2 * Pow2(e + 124);
    }
  }

  /** The halfway points around `q` steps of `8192 u`, in terms of the magnitude that was rounded to `q`. */
  lemma {:induction false} Halfway(m: nat, q: int, u: nat)
    requires u >= 1 && 8192 * q <= m + 4096 < 8192 * (q + 1)
    ensures (2 * q - 1) * (8192 * u) <= 2 * (m * u) < (2 * q + 1) * (8192 * u)
  {
    Scaled((2 * q - 1) * 8192, 2 * m, u);
    Scaled(2 * m, (2 * q + 1) * 8192, u);
    Reorder(2 * q - 1, 8192, u);
    Reorder(2 * q + 1, 8192, u);
    Reorder(2, m, u);
  }

  lemma {:induction false} Reorder(a: int, b: int, c: int)
    ensures a * b * c == a * (b * c)
  {
  }

  lemma {:induction false} Thirteen(n: nat)
    ensures Pow2(n + 13) == 8192 * Pow2(n) && Pow2(n) >= 1
  {
    Pow2Add(n, 13);
    Pow2Small();
    Pow2Positive(n);
  }

  lemma {:induction false} NormalLower(e: nat, m: nat, q: nat, h: nat, u: nat)
    requires 1 <= e <= 30 && HIDDEN <= m < 2 * HIDDEN && q == Rounded(m) && h == (e - 1) * 1024 + q
    requires u == Pow2(e + 111)
    ensures h > 0 && Value16(h - 1) + Value16(h) <= 2 * (m * u)
  {
    Thirteen(e + 111);
    BinadeValue(e, q);
    Halfway(m, q, u);
    if q > 1024 {
      BinadeValue(e, q - 1);
      Sum(q - 1, q, 8192 * u);
    } else {
      HalvesGrow(h - 1, h);
      Scaled(1024 * 8192, m, u);
      Reorder(1024, 8192, u);
    }
  }

  lemma {:induction false} Sum(a: int, b: int, c: int)
    ensures a * c + b * c == (a + b) * c
  {
  }

  lemma {:induction false} NormalUpper(e: nat, m: nat, q: nat, h: nat, u: nat)
    requires 1 <= e <= 30 && HIDDEN <= m < 2 * HIDDEN && q == Rounded(m) && h == (e - 1) * 1024 + q
    requires u == Pow2(e + 111)
    ensures 2 * (m * u) < Value16(h) + Value16(h + 1)
  {
    Thirteen(e + 111);
    BinadeValue(e, q);
    Halfway(m, q, u);
    NextHalf(h);
    var k := if h < 1024 then 1 else h / 1024;
    assert k >= e;
    Pow2Grows(e + 124, 124 + k);
    Sum(q, q + 1, 8192 * u);
    Distribute(q, 8192 * u);
  }

  lemma {:induction false} NormalCase(e: nat, m: nat)
    requires 1 <= e <= 30 && HIDDEN <= m < 2 * HIDDEN
    ensures Around(m * Pow2(e + 111), (e - 1) * 1024 + Rounded(m))
  {
    var q, u := Rounded(m), Pow2(e + 111);
    NormalLower(e, m, q, (e - 1) * 1024 + q, u);
    NormalUpper(e, m, q, (e - 1) * 1024 + q, u);
  }

  lemma {:induction false} Quotient(m: nat, p: nat)
    requires p >= 1
    ensures m / p * p <= m < (m / p + 1) * p
  {
    assert m == m / p * p + m % p;
  }

  /** The first 1024 halves and the one after them are evenly spaced. */
  lemma {:induction false} SmallHalf(q: nat)
    requires q <= 1024
    ensures Value16(q) == q * Pow2(125)
  {
    if q == 1024 { assert Value16(q) == 1024 * Pow2(1 + 124); }
  }

  lemma {:induction false} ShiftedSmall(m: nat, p: nat, m1: nat)
    requires m < 2 * HIDDEN && p >= 2 && m1 * p <= m
    ensures m1 < HIDDEN && Rounded(m1) <= 1024
  {
    if m1 >= 1 { Scaled(2, p, m1); }
  }

  /** A magnitude without its low bits, in larger steps. */
  lemma {:induction false} Shifted(m: nat, p: nat, m1: nat, w: nat, u: nat)
    requires w >= 1 && m1 * p <= m < (m1 + 1) * p && u == p * w
    ensures m1 * u <= m * w < (m1 + 1) * u
  {
    Scaled(m1 * p, m, w);
    Scaled(m, (m1 + 1) * p, w);
    Reorder(m1, p, w);
    Reorder(m1 + 1, p, w);
  }

  lemma {:induction false} SubnormalCase(s: nat, m: nat, m1: nat)
    requires 1 <= s <= 11 && HIDDEN <= m < 2 * HIDDEN && m1 * Pow2(s) <= m < (m1 + 1) * Pow2(s)
    ensures Around(m * Pow2(112 - s), Rounded(m1))
  {
    Pow2Grows(1, s);
    Pow2Positive(112 - s);
    Pow2Add(s, 112 - s);
    SubnormalSteps(m, Pow2(s), m1, Pow2(112 - s));
  }

  lemma {:induction false} SubnormalSteps(m: nat, p: nat, m1: nat, w: nat)
    requires p >= 2 && w >= 1 && m < 2 * HIDDEN && m1 * p <= m < (m1 + 1) * p && p * w == Pow2(112)
    ensures Around(m * w, Rounded(m1))
  {
    ShiftedSmall(m, p, m1);
    Shifted(m, p, m1, w, Pow2(112));
    Thirteen(112);
    EvenlySpaced(m1, Rounded(m1), Pow2(112), m * w);
  }

  lemma {:induction false} EvenlySpaced(m1: nat, q: nat, u: nat, v: nat)
    requires q == Rounded(m1) <= 1024 && u >= 1 && 8192 * u == Pow2(125) && m1 * u <= v < (m1 + 1) * u
    ensures Around(v, q)
  {
    Halfway(m1, q, u);
    SubnormalUpper(m1, q, u, v);
    SmallHalf(q);
    if q > 0 {
      SmallHalf(q - 1);
      Sum(q - 1, q, Pow2(125));
    }
    SmallStep(q);
    Sum(q, q + 1, Pow2(125));
  }

  lemma {:induction false} SmallStep(q: nat)
    requires q <= 1024
    ensures Value16(q + 1) >= (q + 1) * Pow2(125)
  {
    SmallHalf(q);
    NextHalf(q);
    Distribute(q, Pow2(125));
    Pow2Grows(125, 124 + (if q < 1024 then 1 else q / 1024));
  }

  lemma {:induction false} SubnormalUpper(m1: nat, q: int, u: nat, v: nat)
    requires u >= 1 && m1 + 4096 < 8192 * (q + 1) && v < (m1 + 1) * u
    ensures 2 * v < (2 * q + 1) * (8192 * u)
  {
    Scaled(2 * (m1 + 1), (2 * q + 1) * 8192, u);
    Reorder(2, m1 + 1, u);
    Reorder(2 * q + 1, 8192, u);
  }

  lemma {:induction false} TinyCase(x: nat)
    requires x / HIDDEN < 102
    ensures Around(Value32(x), 0)
  {
    Pow2Small();
    var e := x / HIDDEN;
    SmallHalf(0);
    SmallHalf(1);
    Pow2Add(100, 24);
    Pow2Positive(124);
    if e == 0 {
      Pow2Grows(24, 124);
    } else {
      Pow2Grows(e - 1, 100);
      Pow2Positive(e - 1);
      Scaled(x % HIDDEN + HIDDEN, 2 * HIDDEN, Pow2(e - 1));
      Scaled(Pow2(e - 1), Pow2(100), 2 * HIDDEN);
    }
  }

  lemma {:induction false} HugeCase(x: nat)
    requires x / HIDDEN >= 143
    ensures Around(Value32(x), INFINITY)
  {
    var e := x / HIDDEN;
    Pow2Small();
    HalvesGrow(INFINITY - 1, INFINITY);
    assert Value16(INFINITY) == 1024 * Pow2(155);
    Pow2Add(155, 10);
    Pow2Add(142, 23);
    Pow2Grows(142, e - 1);
    Pow2Positive(e - 1);
    Scaled(HIDDEN, x % HIDDEN + HIDDEN, Pow2(e - 1));
    Scaled(Pow2(142), Pow2(e - 1), HIDDEN);
  }

  // ----- the conversion

  method ShiftRight(m: nat, s: nat) returns (r: nat)
    ensures r * Pow2(s) <= m < (r + 1) * Pow2(s)
  {
    Pow2Positive(s);
    r := Divide(m, Pow2(s));
  }

  method Divide(m: nat, p: nat) returns (r: nat)
    requires p >= 1
    ensures r * p <= m < (r + 1) * p
  {
    r := m / p;
    Quotient(m, p);
  }

  method RoundOff(m: nat) returns (q: nat)
    ensures q == Rounded(m)
  {
    BitRounds(m);
    var mant := m;
    if mant / 0x1000 % 2 == 1 { mant := mant + 0x2000; }
    return mant / 0x2000;
  }

  /** A magnitude below the smallest normal half. */
  method SmallMagnitude(exp: int, mantissa: nat) returns (h: nat)
    requires -10 <= exp <= 0 && mantissa < HIDDEN
    ensures Around((mantissa + HIDDEN) * Pow2(exp + 111), h)
  {
    var mant := ShiftRight(mantissa + HIDDEN, 1 - exp);
    SubnormalCase(1 - exp, mantissa + HIDDEN, mant);
    h := RoundOff(mant);
  }

  method NormalMagnitude(exponent: nat, mantissa: nat) returns (h: nat)
    requires 1 <= exponent <= 30 && mantissa < HIDDEN
    ensures Around((mantissa + HIDDEN) * Pow2(exponent + 111), h)
  {
    NormalCase(exponent, mantissa + HIDDEN);
    NormalBits(exponent, mantissa);
    var exp, mant := exponent, mantissa;
    if mant / 0x1000 % 2 == 1 {
      mant := mant + 0x2000;
      if mant >= HIDDEN {
        mant, exp := 0, exp + 1;
        if exp >= 0x1F { return INFINITY; }
      }
    }
    return exp * 1024 + mant / 0x2000;
  }

  method Magnitude(exponent: nat, mant: nat) returns (h: nat)
    requires exponent < 0xFF && mant < HIDDEN
    ensures Around(Value32(exponent * HIDDEN + mant), h)
  {
    var x := exponent * HIDDEN + mant;
    assert x / HIDDEN == exponent && x % HIDDEN == mant;
    var exp := exponent - 127 + 15;
    if exp >= 0x1F {
      HugeCase(x);
      return INFINITY;
    }
    if exp < -10 {
      TinyCase(x);
      return 0;
    }
    if exp <= 0 { h := SmallMagnitude(exp, mant); } else { h := NormalMagnitude(exp, mant); }
  }

  /** Bits without the sign. */
  function Unsigned(bits: nat, sign: nat): nat {
    if bits >= sign then bits - sign else bits
  }

  /** The bits of the half for the bits of a single: sign kept, not-a-number kept, anything else rounded. */
  method HalfOfSingle(bits: nat) returns (h: nat)
    requires bits < 2 * SIGN
    ensures h < 0x1_0000 && (h >= 0x8000 <==> bits >= SIGN)
    ensures var x := Unsigned(bits, SIGN); x <= INFINITY32 ==> Around(Value32(x), Unsigned(h, 0x8000))
    ensures var x := Unsigned(bits, SIGN);
      x / HIDDEN == 0xFF ==> Unsigned(h, 0x8000) == if x % HIDDEN == 0 then INFINITY else INFINITY + 0x200
  {
    var x := Unsigned(bits, SIGN);
    var exp, mant := x / HIDDEN, x % HIDDEN;
    assert x == exp * HIDDEN + mant && exp < 0x100;
    if exp == 0xFF {
      HugeCase(x);
      h := INFINITY + (if mant != 0 then 0x200 else 0);
    } else {
      h := Magnitude(exp, mant);
    }
    if bits >= SIGN { h := 0x8000 + h; }
  }

  /** Carrying into the exponent is the same as counting on. */
  lemma {:induction false} NormalBits(e: nat, mant: nat)
    requires 1 <= e <= 30 && mant < HIDDEN
    ensures var up := if mant / 0x1000 % 2 == 1 then mant + 0x2000 else mant;
      (e - 1) * 1024 + Rounded(mant + HIDDEN) == if up >= HIDDEN then (e + 1) * 1024 else e * 1024 + up / 0x2000
  {
    BitRounds(mant);
  }

  /** What the bits that the conversion returns mean: nothing is nearer, ties go away from zero, a larger
      single never gives a smaller half, and a half that went through a single comes back. */
  lemma {:induction false} ConversionIsRounding(v: nat, h: nat, w: nat, g: nat, f: nat)
    requires Around(v, h) && Around(w, g) && f <= INFINITY
    ensures Distance(Value16(h), v) <= Distance(Value16(f), v)
    ensures f != h && Distance(Value16(h), v) == Distance(Value16(f), v) ==> f < h
    ensures v <= w ==> h <= g
    ensures v == Value16(f) ==> h == f
  {
    AroundIsNearest(v, h, f);
    if v <= w { AroundIsMonotone(v, h, w, g); }
    if v == Value16(f) { ExactIsKept(v, h, f); }
  }

  // ----- from a number to a half

  /** The magnitude is counted in units; a zero has a sign as well. */
  datatype Number = Finite(negative: bool, units: real) | Infinite(negative: bool) | NotANumber

  function Gap(a: real, b: real): (r: real)
    ensures r >= 0.0
  {
    if a < b then b - a else a - b
  }

  /** No single is nearer; infinity counts as the number after the last. */
  ghost predicate NearestSingle(v: real, x: nat) {
    && x <= INFINITY32
    && forall y: nat :: y <= INFINITY32 ==> Gap(Value32(x) as real, v) <= Gap(Value32(y) as real, v)
  }

  ghost predicate NearestHalf(v: real, h: nat) {
    && h <= INFINITY
    && forall g: nat :: g <= INFINITY ==> Gap(Value16(h) as real, v) <= Gap(Value16(g) as real, v)
  }

  /** The single that is `k` times two to the power `j`. */
  function SingleOf(k: nat, j: nat): (x: nat)
    requires 0 < k < 2 * HIDDEN && j <= 200
    ensures Value32(x) == k * Pow2(j) && x <= INFINITY32
    decreases j
  {
    if k >= HIDDEN then
      var x := (j + 1) * HIDDEN + (k - HIDDEN);
      assert x / HIDDEN == j + 1 && x % HIDDEN == k - HIDDEN;
      x
    else if j == 0 then
      assert k / HIDDEN == 0 && k % HIDDEN == k;
      k
    else
      assert 2 * k * Pow2(j - 1) == k * Pow2(j) by { Reorder(2, k, Pow2(j - 1)); Reorder(k, 2, Pow2(j - 1)); }
      SingleOf(2 * k, j - 1)
  }

  /** The point halfway between two neighbouring halves is a single. */
  function Midpoint(h: nat): (x: nat)
    requires h < INFINITY
    ensures 2 * Value32(x) == Value16(h) + Value16(h + 1) && x <= INFINITY32
  {
    var e, m := h / 1024, h % 1024;
    NextHalf(h);
    if e == 0 then
      MiddleOf(m, 124);
      SingleOf(2 * m + 1, 124)
    else
      MiddleOf(m + 1024, e + 123);
      SingleOf(2 * (m + 1024) + 1, e + 123)
  }

  lemma {:induction false} MiddleOf(m: nat, j: nat)
    ensures 2 * ((2 * m + 1) * Pow2(j)) == m * Pow2(j + 1) + (m * Pow2(j + 1) + Pow2(j + 1))
  {
    var p := Pow2(j);
    assert Pow2(j + 1) == 2 * p;
    Sum(2 * m, 1, p);
    Reorder(2, m, p);
    Reorder(m, 2, p);
  }

  /** A half is a single. */
  function Widened(h: nat): (x: nat)
    requires h <= INFINITY
    ensures Value32(x) == Value16(h) && x <= INFINITY32
  {
    var e, m := h / 1024, h % 1024;
    if h == 0 then 0 else if e == 0 then SingleOf(m, 125) else SingleOf(m + 1024, e + 124)
  }

  /** A half whose halfway points are not on the wrong side of a number is nearest to it. */
  lemma {:induction false} BetweenIsNearest(v: real, h: nat)
    requires h <= INFINITY
    requires h > 0 ==> (Value16(h - 1) + Value16(h)) as real <= 2.0 * v
    requires h < INFINITY ==> 2.0 * v <= (Value16(h) + Value16(h + 1)) as real
    ensures NearestHalf(v, h)
  {
    forall g: nat | g <= INFINITY ensures Gap(Value16(h) as real, v) <= Gap(Value16(g) as real, v) {
      if g < h {
        if g < h - 1 { HalvesGrow(g, h - 1); }
        HalvesGrow(h - 1, h);
      } else if g > h {
        if g > h + 1 { HalvesGrow(h + 1, g); }
        HalvesGrow(h, h + 1);
      }
    }
  }

  /** The same without ties: every other half is farther away. */
  lemma {:induction false} BetweenIsStrict(v: real, h: nat, f: nat)
    requires h <= INFINITY && f <= INFINITY && f != h
    requires h > 0 ==> (Value16(h - 1) + Value16(h)) as real < 2.0 * v
    requires h < INFINITY ==> 2.0 * v < (Value16(h) + Value16(h + 1)) as real
    ensures Gap(Value16(h) as real, v) < Gap(Value16(f) as real, v)
  {
    if f < h {
      if f < h - 1 { HalvesGrow(f, h - 1); }
      HalvesGrow(h - 1, h);
    } else {
      if f > h + 1 { HalvesGrow(h + 1, f); }
      HalvesGrow(h, h + 1);
    }
  }

  /** A number is on the same side of every other single as the single nearest to it. */
  lemma {:induction false} SameSide(v: real, x: nat, y: nat)
    requires NearestSingle(v, x) && y <= INFINITY32
    ensures Value32(x) > Value32(y) ==> v > Value32(y) as real
    ensures Value32(x) < Value32(y) ==> v < Value32(y) as real
  {
    assert Gap(Value32(x) as real, v) <= Gap(Value32(y) as real, v);
  }

  /** Halfway between the half `g` and the next one. */
  predicate BetweenBoth(v: nat, g: nat) {
    g < INFINITY && 2 * v == Value16(g) + Value16(g + 1)
  }

  ghost predicate Middle(v: nat) {
    exists g: nat :: BetweenBoth(v, g)
  }

  lemma {:induction false} TieGoesUp(v: nat, h: nat, g: nat)
    requires Around(v, h) && BetweenBoth(v, g)
    ensures h == g + 1
  {
    HalvesGrow(g, g + 1);
    if h <= g {
      if h < g { HalvesGrow(h, g); HalvesGrow(h + 1, g + 1); }
    } else if h > g + 1 {
      HalvesGrow(g + 1, h);
      if h - 1 > g { HalvesGrow(g, h - 1); }
    }
  }

  /** The first rounding went up to the middle between two halves. */
  ghost predicate RoundedUpToMiddle(v: real, x: nat) {
    Middle(Value32(x)) && v < Value32(x) as real
  }

  /** A single that is not in the middle leaves the number strictly between the halfway points of its half. */
  lemma {:induction false} ClearOfMiddles(v: real, x: nat, h: nat)
    requires NearestSingle(v, x) && Around(Value32(x), h)
    requires h > 0 && BetweenBoth(Value32(x), h - 1) ==> v > Value32(x) as real
    ensures h > 0 ==> (Value16(h - 1) + Value16(h)) as real < 2.0 * v
    ensures h < INFINITY ==> 2.0 * v < (Value16(h) + Value16(h + 1)) as real
  {
    if h > 0 { SameSide(v, x, Midpoint(h - 1)); }
    if h < INFINITY { SameSide(v, x, Midpoint(h)); }
  }

  /** What two roundings give: the nearest half, unless the first one ends halfway between two halves and was
      a rounding up. */
  lemma {:induction false} TwoRoundings(v: real, x: nat, h: nat)
    requires NearestSingle(v, x) && Around(Value32(x), h)
    ensures NearestHalf(v, h) <==> !RoundedUpToMiddle(v, x)
  {
    if RoundedUpToMiddle(v, x) {
      var g: nat :| BetweenBoth(Value32(x), g);
      TieGoesUp(Value32(x), h, g);
      HalvesGrow(g, h);
      assert Gap(Value16(g) as real, v) < Gap(Value16(h) as real, v);
    } else {
      if !(h > 0 && BetweenBoth(Value32(x), h - 1) && v == Value32(x) as real) { ClearOfMiddles(v, x, h); }
      BetweenIsNearest(v, h);
    }
  }

  // ----- ties

  /** Rounding to nearest with ties to even (section 4.3.1 of IEEE 754). */
  ghost predicate EvenNearest(v: real, h: nat) {
    h <= INFINITY && forall f: nat :: f <= INFINITY && f != h ==> Beats(v, h, f)
  }

  predicate Beats(v: real, h: nat, f: nat) {
    var a, b := Gap(Value16(h) as real, v), Gap(Value16(f) as real, v);
    a < b || (a == b && h % 2 == 0)
  }

  /** The single is in the middle above the half `g`, and the number is below it; or there too, and `g` even. */
  predicate MissedAt(v: real, x: nat, g: nat) {
    BetweenBoth(Value32(x), g) && (v < Value32(x) as real || (v == Value32(x) as real && g % 2 == 0))
  }

  ghost predicate MissesEven(v: real, x: nat) {
    exists g: nat :: MissedAt(v, x, g)
  }

  lemma {:induction false} MissedByLower(v: real, x: nat, h: nat)
    requires h > 0 && MissedAt(v, x, h - 1)
    ensures !EvenNearest(v, h)
  {
    HalvesGrow(h - 1, h);
    LowerIsNear(v, Value16(h - 1) as real, Value16(h) as real);
    assert !Beats(v, h, h - 1);
  }

  lemma {:induction false} LowerIsNear(v: real, a: real, b: real)
    requires a < b && 2.0 * v <= a + b
    ensures Gap(a, v) <= Gap(b, v) && (2.0 * v < a + b ==> Gap(a, v) < Gap(b, v))
  {
  }

  lemma {:induction false} EvenTie(v: real, h: nat)
    requires NearestHalf(v, h) && h % 2 == 0
    ensures EvenNearest(v, h)
  {
    forall f: nat | f <= INFINITY && f != h ensures Beats(v, h, f) {
      assert Gap(Value16(h) as real, v) <= Gap(Value16(f) as real, v);
    }
  }

  lemma {:induction false} NoTie(v: real, x: nat, h: nat)
    requires NearestSingle(v, x) && Around(Value32(x), h)
    requires h > 0 && BetweenBoth(Value32(x), h - 1) ==> v > Value32(x) as real
    ensures EvenNearest(v, h)
  {
    ClearOfMiddles(v, x, h);
    forall f: nat | f <= INFINITY && f != h ensures Beats(v, h, f) { BetweenIsStrict(v, h, f); }
  }

  /** Only the middle below `h` matters. */
  lemma {:induction false} OnlyLower(v: real, x: nat, h: nat, g: nat)
    requires Around(Value32(x), h) && MissedAt(v, x, g)
    ensures h == g + 1
  {
    TieGoesUp(Value32(x), h, g);
  }

  lemma {:induction false} Hit(v: real, x: nat, h: nat, middle: bool, w: real)
    requires NearestSingle(v, x) && Around(Value32(x), h) && w == Value32(x) as real
    requires middle <==> h > 0 && BetweenBoth(Value32(x), h - 1)
    requires middle ==> v > w || (v == w && h % 2 == 0)
    ensures EvenNearest(v, h)
  {
    if middle && v == w {
      AtTie(v, x, h);
      EvenTie(v, h);
    } else {
      NoTie(v, x, h);
    }
  }

  lemma {:induction false} NotMissed(v: real, x: nat, h: nat)
    requires h > 0 && !MissedAt(v, x, h - 1) && BetweenBoth(Value32(x), h - 1)
    ensures v > Value32(x) as real || (v == Value32(x) as real && h % 2 == 0)
  {
  }

  /** Exactly when the conversion does what IEEE 754 says, ties included. */
  lemma {:induction false} EvenExactly(v: real, x: nat, h: nat)
    requires NearestSingle(v, x) && Around(Value32(x), h)
    ensures EvenNearest(v, h) <==> !MissesEven(v, x)
  {
    if MissesEven(v, x) {
      var g: nat :| MissedAt(v, x, g);
      OnlyLower(v, x, h, g);
      MissedByLower(v, x, h);
    } else {
      var middle := h > 0 && BetweenBoth(Value32(x), h - 1);
      if middle { NotMissed(v, x, h); }
      Hit(v, x, h, middle, Value32(x) as real);
    }
  }

  lemma {:induction false} AtTie(v: real, x: nat, h: nat)
    requires Around(Value32(x), h) && h > 0 && BetweenBoth(Value32(x), h - 1) && v == Value32(x) as real
    ensures NearestHalf(v, h)
  {
    BetweenIsNearest(v, h);
  }

  predicate AboveEven(v: nat, g: nat) {
    BetweenBoth(v, g) && g % 2 == 0
  }

  lemma {:induction false} MissedSingle(x: nat, g: nat, w: real)
    requires w == Value32(x) as real
    ensures MissedAt(w, x, g) <==> AboveEven(Value32(x), g)
  {
  }

  /** For singles: what IEEE 754 says, unless the single is in the middle above an even half. */
  lemma {:induction false} EvenForSingles(x: nat, h: nat, w: real)
    requires x <= INFINITY32 && Around(Value32(x), h) && w == Value32(x) as real
    ensures EvenNearest(w, h) <==> !exists g: nat :: AboveEven(Value32(x), g)
  {
    forall g: nat ensures MissedAt(w, x, g) <==> AboveEven(Value32(x), g) { MissedSingle(x, g, w); }
    SingleIsNearest(x, w);
    EvenExactly(w, x, h);
  }

  lemma {:induction false} SingleIsNearest(x: nat, w: real)
    requires x <= INFINITY32 && w == Value32(x) as real
    ensures NearestSingle(w, x)
  {
  }

  /** A number that is a half comes out as that half. */
  lemma {:induction false} HalfIsKept(v: real, x: nat, h: nat, g: nat)
    requires NearestSingle(v, x) && Around(Value32(x), h) && g <= INFINITY && v == Value16(g) as real
    ensures h == g
  {
    assert Gap(Value32(x) as real, v) <= Gap(Value32(Widened(g)) as real, v);
    ExactIsKept(Value32(x), h, g);
  }

  // ----- numbers that need two roundings

  lemma {:induction false} NextSingle(x: nat)
    ensures Value32(x + 1) == Value32(x) + Pow2(if x < HIDDEN then 0 else x / HIDDEN - 1)
  {
    var e, m := x / HIDDEN, x % HIDDEN;
    if m < HIDDEN - 1 {
      assert (x + 1) / HIDDEN == e && (x + 1) % HIDDEN == m + 1;
      if e > 0 { Distribute(m + HIDDEN, Pow2(e - 1)); }
    } else {
      assert (x + 1) / HIDDEN == e + 1 && (x + 1) % HIDDEN == 0;
      if e > 0 {
        assert Pow2(e) == 2 * Pow2(e - 1);
        Distribute(m + HIDDEN, Pow2(e - 1));
      }
    }
  }

  lemma {:induction false} SinglesGrow(x: nat, y: nat)
    requires x <= y
    ensures Value32(x) <= Value32(y)
    decreases y
  {
    if x < y {
      NextSingle(y - 1);
      SinglesGrow(x, y - 1);
    }
  }

  /** A quarter of a step below the first single of a binade no other single is as near. */
  lemma {:induction false} BelowBinade(e: nat, n: nat, x: nat, v: real, y: nat)
    requires 2 <= e < 0xFF && n + 4 == e && x == e * HIDDEN && v == (Value32(x) - Pow2(n)) as real
    requires y <= INFINITY32 && y != x
    ensures Gap(Value32(x) as real, v) < Gap(Value32(y) as real, v)
  {
    assert (x - 1) / HIDDEN == e - 1;
    assert Pow2(n + 2) == 2 * Pow2(n + 1) && Pow2(n + 1) == 2 * Pow2(n);
    Pow2Positive(n);
    NextSingle(x - 1);
    NextSingle(x);
    Pow2Positive(e - 1);
    if y < x { SinglesGrow(y, x - 1); } else { SinglesGrow(x + 1, y); }
  }

  lemma {:induction false} HalfOfSmallest(n: nat, x: nat)
    requires n == 98 && x == (n + 4) * HIDDEN
    ensures BetweenBoth(Value32(x), 0) && Around(Value32(x), 1)
  {
    Pow2Small();
    Pow2Add(23, n + 3);
    SmallHalf(0);
    SmallHalf(1);
    SmallHalf(2);
    Pow2Positive(n + 27);
  }

  /** Not quite half of the smallest half: the one single nearest to it is exactly halfway, and goes up. */
  lemma {:induction false} NotTheNearest(n: nat, x: nat, v: real)
    requires n == 98 && x == (n + 4) * HIDDEN && v == (Value32(x) - Pow2(n)) as real
    ensures NearestSingle(v, x) && forall y: nat :: NearestSingle(v, y) ==> y == x
    ensures Around(Value32(x), 1) && RoundedUpToMiddle(v, x)
    ensures !NearestHalf(v, 1) && NearestHalf(v, 0)
  {
    forall y: nat | y <= INFINITY32 && y != x ensures Gap(Value32(x) as real, v) < Gap(Value32(y) as real, v) {
      BelowBinade(n + 4, n, x, v, y);
    }
    HalfOfSmallest(n, x);
    Pow2Positive(n);
    TwoRoundings(v, x, 1);
    BetweenIsNearest(v, 0);
  }

  /** Exactly half of the smallest half: it goes up to that, where IEEE 754 has zero. */
  lemma {:induction false} TieAgainstEven(n: nat, x: nat)
    requires n == 98 && x == (n + 4) * HIDDEN
    ensures Around(Value32(x), 1)
    ensures !EvenNearest(Value32(x) as real, 1) && EvenNearest(Value32(x) as real, 0)
  {
    var v := Value32(x) as real;
    HalfOfSmallest(n, x);
    EvenForSingles(x, 1, v);
    assert AboveEven(Value32(x), 0);
    BetweenIsNearest(v, 0);
    EvenTie(v, 0);
  }

  // ----- numbers of halves

  /** Two to the power `k`, in units. */
  function PowerOfTwo(k: int): nat
    requires k >= -149
  {
    Pow2(k + 149)
  }

  /** The number with these bits. */
  function FromHalf(h: nat): Number
    requires h < 0x1_0000
  {
    var negative, exp, mant := h >= 0x8000, h / 1024 % 32, h % 1024;
    if exp == 0 then Finite(negative, (mant * PowerOfTwo(-24)) as real)
    else if exp == 0x1F then if mant != 0 then NotANumber else Infinite(negative)
    else Finite(negative, (1.0 + mant as real / 1024.0) * PowerOfTwo(exp - 15) as real)
  }

  lemma {:induction false} RealProduct(a: int, b: int)
    ensures (a * b) as real == a as real * b as real
  {
  }

  /** The bits of a half mean what their count of units says. */
  lemma {:induction false} FromHalfIs(h: nat)
    requires h < 0x1_0000
    ensures var u := Unsigned(h, 0x8000);
      FromHalf(h) ==
        if u < INFINITY then Finite(h >= 0x8000, Value16(u) as real)
        else if u == INFINITY then Infinite(h >= 0x8000) else NotANumber
  {
    var u := Unsigned(h, 0x8000);
    HalfBits(h, u);
    FromBits(h, u, u / 1024, u % 1024);
  }

  lemma {:induction false} FromBits(h: nat, u: nat, exp: nat, mant: nat)
    requires h < 0x1_0000 && exp == h / 1024 % 32 == u / 1024 && mant == h % 1024 == u % 1024
    ensures FromHalf(h) ==
      if exp < 31 then Finite(h >= 0x8000, Value16(u) as real)
      else if mant == 0 then Infinite(h >= 0x8000) else NotANumber
  {
    if 0 < exp < 31 { NormalValue(exp, mant, PowerOfTwo(exp - 15)); }
  }

  lemma {:induction false} HalfBits(h: nat, u: nat)
    requires h < 0x1_0000 && u == Unsigned(h, 0x8000)
    ensures h / 1024 % 32 == u / 1024 < 32 && h % 1024 == u % 1024
  {
  }

  lemma {:induction false} NormalValue(exp: nat, mant: nat, p: nat)
    requires 0 < exp < 31 && mant < 1024 && p == Pow2(exp + 134)
    ensures (1.0 + mant as real / 1024.0) * p as real == ((mant + 1024) * Pow2(exp + 124)) as real
  {
    Pow2Small();
    Pow2Add(exp + 124, 10);
    NormalProduct(mant, Pow2(exp + 124), p);
  }

  lemma {:induction false} NormalProduct(mant: nat, w: nat, p: nat)
    requires p == w * 1024
    ensures (1.0 + mant as real / 1024.0) * p as real == ((mant + 1024) * w) as real
  {
    RealProduct(mant + 1024, w);
    var k := 1.0 + mant as real / 1024.0;
    assert k * (1024.0 * w as real) == (k * 1024.0) * w as real;
  }

  // ----- the conversion of numbers

  /** A number that a half has is that half. */
  ghost predicate Kept(n: Number, h: nat) {
    forall g: nat :: g < 0x1_0000 && FromHalf(g) == n && !n.NotANumber? ==> h == g
  }

  lemma {:induction false} SpecialConverted(n: Number, h: nat)
    requires !n.Finite? && h < 0x1_0000
    requires Unsigned(h, 0x8000) == INFINITY + if n.NotANumber? then 0x200 else 0
    requires n.Infinite? ==> (h >= 0x8000 <==> n.negative)
    ensures FromHalf(h) == n && Kept(n, h)
  {
    FromHalfIs(h);
    forall g: nat | g < 0x1_0000 && FromHalf(g) == n && !n.NotANumber? ensures h == g { FromHalfIs(g); }
  }

  lemma {:induction false} FiniteBits(n: Number, g: nat)
    requires n.Finite? && g < 0x1_0000 && FromHalf(g) == n
    ensures Unsigned(g, 0x8000) < INFINITY && (n.negative <==> g >= 0x8000)
    ensures n.units == Value16(Unsigned(g, 0x8000)) as real
  {
    FromHalfIs(g);
  }

  lemma {:induction false} FiniteConverted(n: Number, x: nat, h: nat)
    requires n.Finite? && NearestSingle(n.units, x) && h < 0x1_0000
    requires Around(Value32(x), Unsigned(h, 0x8000)) && (h >= 0x8000 <==> n.negative)
    ensures Kept(n, h)
  {
    forall g: nat | g < 0x1_0000 && FromHalf(g) == n ensures h == g {
      FiniteBits(n, g);
      HalfIsKept(n.units, x, Unsigned(h, 0x8000), Unsigned(g, 0x8000));
    }
  }

  /** The bits of the half for a number. `round` stands for storing a number into a single. Sign, infinity and
      not-a-number are kept. The half is a nearest one unless the single was rounded up to the middle between
      two halves, and the one that IEEE 754 says unless that happened or the number is itself in the middle
      above an even half; and a number that a half has is kept. */
  method ToHalf(n: Number, round: real -> nat) returns (h: nat)
    requires forall v: real :: v >= 0.0 ==> NearestSingle(v, round(v))
    requires n.Finite? ==> n.units >= 0.0
    ensures h < 0x1_0000 && Kept(n, h)
    ensures FromHalf(h).NotANumber? <==> n.NotANumber?
    ensures n.Infinite? ==> FromHalf(h) == n
    ensures n.Finite? ==> (h >= 0x8000 <==> n.negative)
    ensures n.Finite? ==> (NearestHalf(n.units, Unsigned(h, 0x8000)) <==> !RoundedUpToMiddle(n.units, round(n.units)))
    ensures n.Finite? ==> (EvenNearest(n.units, Unsigned(h, 0x8000)) <==> !MissesEven(n.units, round(n.units)))
  {
    match n {
      case NotANumber =>
        h := HalfOfSingle(INFINITY32 + 1);
        SpecialConverted(n, h);
      case Infinite(negative) =>
        h := HalfOfSingle(INFINITY32 + if negative then SIGN else 0);
        SpecialConverted(n, h);
      case Finite(negative, units) =>
        var x := round(units);
        h := HalfOfSingle(x + if negative then SIGN else 0);
        TwoRoundings(units, x, Unsigned(h, 0x8000));
        EvenExactly(units, x, Unsigned(h, 0x8000));
        FiniteConverted(n, x, h);
        FromHalfIs(h);
    }
  }
}
