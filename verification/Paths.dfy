/**
 Shapes on their way through a display list: rectangles as they are, anything else as verbs and
 single-precision coordinates.
 */
module Paths {
  import opened Options

  datatype Point = Point(x: real, y: real)

  datatype PathEl =
    | MoveTo(p: Point)
    | LineTo(p: Point)
    | QuadTo(a: Point, b: Point)
    | CurveTo(a: Point, b: Point, c: Point)
    | ClosePath

  /** One number per element, counted as in `PathEl`, where every number from 4 on closes the path. */
  datatype Outline = Outline(verbs: seq<nat>, pts: seq<real>)

  datatype Rect = Rect(x0: real, y0: real, x1: real, y1: real)

  datatype Radii = Radii(topLeft: real, topRight: real, bottomRight: real, bottomLeft: real)

  /** A shape as the geometry library shows it. */
  datatype Shape = Shape(asRect: Option<Rect>, asRounded: Option<(Rect, Radii)>, elements: seq<PathEl>)

  type Four = (real, real, real, real)

  datatype PathData = RectData(r: Four) | RoundedData(r: Four, radii: Four) | PathOf(outline: Outline)

  /** The library's outlines of rectangles. */
  datatype Geometry = Geometry(rectPath: Rect -> seq<PathEl>, roundedPath: (Rect, Radii) -> seq<PathEl>)

  /** Rounding a coordinate to single precision, whatever it does. */
  function NarrowPoint(narrow: real -> real, p: Point): Point {
    Point(narrow(p.x), narrow(p.y))
  }

  function NarrowEl(narrow: real -> real, el: PathEl): PathEl {
    match el
    case MoveTo(p) => MoveTo(NarrowPoint(narrow, p))
    case LineTo(p) => LineTo(NarrowPoint(narrow, p))
    case QuadTo(a, b) => QuadTo(NarrowPoint(narrow, a), NarrowPoint(narrow, b))
    case CurveTo(a, b, c) => CurveTo(NarrowPoint(narrow, a), NarrowPoint(narrow, b), NarrowPoint(narrow, c))
    case ClosePath => ClosePath
  }

  function Narrowed(els: seq<PathEl>, narrow: real -> real): seq<PathEl> {
    seq(|els|, k requires 0 <= k < |els| => NarrowEl(narrow, els[k]))
  }

  /** How many coordinates a verb takes. */
  function Takes(verb: nat): nat {
    if verb <= 1 then 2 else if verb == 2 then 4 else if verb == 3 then 6 else 0
  }

  function TakesAll(verbs: seq<nat>): nat {
    if verbs == [] then 0 else TakesAll(verbs[..|verbs| - 1]) + Takes(verbs[|verbs| - 1])
  }

  /** What an outline stands for: each verb with the coordinates after those of the verbs before it. */
  ghost predicate Stands(d: Outline, els: seq<PathEl>) {
    && |els| == |d.verbs|
    && TakesAll(d.verbs) <= |d.pts|
    && forall k :: 0 <= k < |els| ==> StandsAt(d, els, k)
  }

  ghost predicate StandsAt(d: Outline, els: seq<PathEl>, k: nat)
    requires k < |els| == |d.verbs|
  {
    var i := TakesAll(d.verbs[..k]);
    && i + Takes(d.verbs[k]) <= |d.pts|
    && match d.verbs[k]
       case 0 => els[k] == MoveTo(Point(d.pts[i], d.pts[i + 1]))
       case 1 => els[k] == LineTo(Point(d.pts[i], d.pts[i + 1]))
       case 2 => els[k] == QuadTo(Point(d.pts[i], d.pts[i + 1]), Point(d.pts[i + 2], d.pts[i + 3]))
       case 3 =>
         els[k] ==
           CurveTo(Point(d.pts[i], d.pts[i + 1]), Point(d.pts[i + 2], d.pts[i + 3]), Point(d.pts[i + 4], d.pts[i + 5]))
       case _ => els[k] == ClosePath
  }

  lemma {:induction false} TakesMore(verbs: seq<nat>, k: nat)
    requires k < |verbs|
    ensures TakesAll(verbs[..k + 1]) == TakesAll(verbs[..k]) + Takes(verbs[k]) <= TakesAll(verbs)
    decreases |verbs|
  {
    assert verbs[..k + 1][..k] == verbs[..k];
    if k + 1 < |verbs| {
      var front := verbs[..|verbs| - 1];
      TakesMore(front, k);
      assert front[..k + 1] == verbs[..k + 1] && front[..k] == verbs[..k];
    } else {
      assert verbs[..k + 1] == verbs;
    }
  }

  /** An outline stands for one path only. */
  lemma {:induction false} StandsForOne(d: Outline, a: seq<PathEl>, b: seq<PathEl>)
    requires Stands(d, a) && Stands(d, b)
    ensures a == b
  {
    forall k | 0 <= k < |a| ensures a[k] == b[k] {
      assert StandsAt(d, a, k) && StandsAt(d, b, k);
    }
  }

  lemma {:induction false} StandsSnoc(d: Outline, els: seq<PathEl>, verb: nat, coords: seq<real>, el: PathEl)
    requires Stands(d, els) && |d.pts| == TakesAll(d.verbs) && |coords| == Takes(verb)
    requires var d' := Outline(d.verbs + [verb], d.pts + coords);
      TakesAll(d'.verbs[..|els|]) == |d.pts| ==> StandsAt(d', els + [el], |els|)
    ensures Stands(Outline(d.verbs + [verb], d.pts + coords), els + [el])
    ensures TakesAll(d.verbs + [verb]) == |d.pts + coords|
  {
    var d', all := Outline(d.verbs + [verb], d.pts + coords), els + [el];
    assert d'.verbs[..|els|] == d.verbs;
    TakesMore(d'.verbs, |els|);
    assert d'.verbs[..|els| + 1] == d'.verbs;
    forall k | 0 <= k < |els| ensures StandsAt(d', all, k) {
      assert StandsAt(d, els, k);
      assert d'.verbs[..k] == d.verbs[..k];
    }
  }

  function VerbOf(el: PathEl): nat {
    match el
    case MoveTo(_) => 0
    case LineTo(_) => 1
    case QuadTo(_, _) => 2
    case CurveTo(_, _, _) => 3
    case ClosePath => 4
  }

  function CoordsOf(el: PathEl, narrow: real -> real): seq<real> {
    match el
    case MoveTo(p) => [narrow(p.x), narrow(p.y)]
    case LineTo(p) => [narrow(p.x), narrow(p.y)]
    case QuadTo(a, b) => [narrow(a.x), narrow(a.y), narrow(b.x), narrow(b.y)]
    case CurveTo(a, b, c) => [narrow(a.x), narrow(a.y), narrow(b.x), narrow(b.y), narrow(c.x), narrow(c.y)]
    case ClosePath => []
  }

  lemma {:induction false} Encoded(d: Outline, done: seq<PathEl>, el: PathEl, narrow: real -> real)
    requires Stands(d, done) && |d.pts| == TakesAll(d.verbs)
    ensures var d' := Outline(d.verbs + [VerbOf(el)], d.pts + CoordsOf(el, narrow));
      Stands(d', done + [NarrowEl(narrow, el)]) && |d'.pts| == TakesAll(d'.verbs)
  {
    StandsSnoc(d, done, VerbOf(el), CoordsOf(el, narrow), NarrowEl(narrow, el));
  }

  method Flatten(els: seq<PathEl>, narrow: real -> real) returns (d: Outline)
    ensures Stands(d, Narrowed(els, narrow))
    ensures |d.pts| == TakesAll(d.verbs) && forall k :: 0 <= k < |d.verbs| ==> d.verbs[k] <= 4
  {
    var verbs: seq<nat>, pts: seq<real> := [], [];
    ghost var done: seq<PathEl> := [];
    for n := 0 to |els|
      invariant |done| == n && forall k :: 0 <= k < n ==> done[k] == NarrowEl(narrow, els[k])
      invariant Stands(Outline(verbs, pts), done) && |pts| == TakesAll(verbs)
      invariant forall k :: 0 <= k < |verbs| ==> verbs[k] <= 4
    {
      Encoded(Outline(verbs, pts), done, els[n], narrow);
      verbs := verbs + [VerbOf(els[n])];
      pts := pts + CoordsOf(els[n], narrow);
      done := done + [NarrowEl(narrow, els[n])];
    }
    d := Outline(verbs, pts);
    assert done == Narrowed(els, narrow);
  }

  /** The element a verb makes of the coordinates from `i` on. */
  function ElAt(verb: nat, pts: seq<real>, i: nat): PathEl
    requires i + Takes(verb) <= |pts|
  {
    match verb
    case 0 => MoveTo(Point(pts[i], pts[i + 1]))
    case 1 => LineTo(Point(pts[i], pts[i + 1]))
    case 2 => QuadTo(Point(pts[i], pts[i + 1]), Point(pts[i + 2], pts[i + 3]))
    case 3 => CurveTo(Point(pts[i], pts[i + 1]), Point(pts[i + 2], pts[i + 3]), Point(pts[i + 4], pts[i + 5]))
    case _ => ClosePath
  }

  ghost function Front(d: Outline, n: nat): Outline
    requires n <= |d.verbs| && TakesAll(d.verbs[..n]) <= |d.pts|
  {
    Outline(d.verbs[..n], d.pts[..TakesAll(d.verbs[..n])])
  }

  lemma {:induction false} DecodedOne(d: Outline, n: nat, els: seq<PathEl>)
    requires n < |d.verbs| && TakesAll(d.verbs[..n]) + Takes(d.verbs[n]) <= |d.pts|
    requires Stands(Front(d, n), els)
    ensures var i := TakesAll(d.verbs[..n]);
      && i + Takes(d.verbs[n]) == TakesAll(d.verbs[..n + 1]) <= |d.pts|
      && Stands(Front(d, n + 1), els + [ElAt(d.verbs[n], d.pts, i)])
  {
    TakesMore(d.verbs, n);
    var i, verb := TakesAll(d.verbs[..n]), d.verbs[n];
    var coords := d.pts[i..i + Takes(verb)];
    var el := ElAt(verb, d.pts, i);
    assert d.verbs[..n + 1] == d.verbs[..n] + [verb];
    assert d.pts[..i + Takes(verb)] == d.pts[..i] + coords;
    var d' := Outline(d.verbs[..n] + [verb], d.pts[..i] + coords);
    assert ElAt(verb, d'.pts, i) == el;
    StandsSnoc(Front(d, n), els, verb, coords, el);
  }

  lemma {:induction false} StandsWhole(d: Outline, els: seq<PathEl>)
    requires TakesAll(d.verbs[..|d.verbs|]) <= |d.pts| && Stands(Front(d, |d.verbs|), els)
    ensures Stands(d, els)
  {
    assert d.verbs[..|d.verbs|] == d.verbs;
    forall k | 0 <= k < |els| ensures StandsAt(d, els, k) {
      assert StandsAt(Front(d, |d.verbs|), els, k);
    }
  }

  method FromShape(shape: Shape, narrow: real -> real) returns (d: PathData)
    ensures shape.asRect.Some? ==> d.RectData?
    ensures shape.asRect.None? && shape.asRounded.Some? ==> d.RoundedData?
    ensures d.RectData? ==> shape.asRect == Some(RectOf(d.r))
    ensures d.RoundedData? ==> shape.asRounded == Some((RectOf(d.r), RadiiOf(d.radii)))
    ensures d.PathOf? ==>
      && Stands(d.outline, Narrowed(shape.elements, narrow)) && |d.outline.pts| == TakesAll(d.outline.verbs)
      && forall k :: 0 <= k < |d.outline.verbs| ==> d.outline.verbs[k] <= 4
  {
    match shape.asRect {
      case Some(r) => return RectData((r.x0, r.y0, r.x1, r.y1));
      case None =>
    }
    match shape.asRounded {
      case Some((r, radii)) =>
        return RoundedData((r.x0, r.y0, r.x1, r.y1),
          (radii.topLeft, radii.topRight, radii.bottomRight, radii.bottomLeft));
      case None =>
    }
    var outline := Flatten(shape.elements, narrow);
    d := PathOf(outline);
  }

  function RectOf(r: Four): Rect {
    Rect(r.0, r.1, r.2, r.3)
  }

  function RadiiOf(r: Four): Radii {
    Radii(r.0, r.1, r.2, r.3)
  }

  /** What path data stands for. */
  ghost predicate Draws(d: PathData, g: Geometry, els: seq<PathEl>) {
    match d
    case RectData(r) => els == g.rectPath(RectOf(r))
    case RoundedData(r, radii) => els == g.roundedPath(RectOf(r), RadiiOf(radii))
    case PathOf(outline) => Stands(outline, els)
  }

  /** Data that can be decoded; only outlines that a sender made up cannot. */
  predicate Decodes(d: PathData) {
    d.PathOf? ==> TakesAll(d.outline.verbs) <= |d.outline.pts|
  }

  /** Decoding an outline walks one index through the coordinates. `None` stands for the panic at the first verb
      that finds too few: it happens exactly to data that has too few in all. */
  method ToBezPath(d: PathData, g: Geometry) returns (els: Option<seq<PathEl>>)
    ensures els.Some? <==> Decodes(d)
    ensures els.Some? ==> Draws(d, g, els.value)
  {
    match d {
      case RectData(r) => return Some(g.rectPath(RectOf(r)));
      case RoundedData(r, radii) => return Some(g.roundedPath(RectOf(r), RadiiOf(radii)));
      case PathOf(_) =>
    }
    var Outline(verbs, pts) := d.outline;
    var done: seq<PathEl> := [];
    var i := 0;
    for n := 0 to |verbs|
      invariant i == TakesAll(verbs[..n]) <= |pts|
      invariant Stands(Front(d.outline, n), done)
    {
      TakesMore(verbs, n);
      if i + Takes(verbs[n]) > |pts| { return None; }
      DecodedOne(d.outline, n, done);
      done := done + [ElAt(verbs[n], pts, i)];
      i := i + Takes(verbs[n]);
    }
    StandsWhole(d.outline, done);
    els := Some(done);
  }

  /** There and back: a rectangle and a rounded rectangle are the same to the last digit, the path of anything
      else has its coordinates rounded and is otherwise the same. */
  method RoundTrip(shape: Shape, g: Geometry, narrow: real -> real) returns (back: Option<seq<PathEl>>)
    ensures back == Some(
      if shape.asRect.Some? then g.rectPath(shape.asRect.value)
      else if shape.asRounded.Some? then g.roundedPath(shape.asRounded.value.0, shape.asRounded.value.1)
      else Narrowed(shape.elements, narrow))
  {
    var d := FromShape(shape, narrow);
    back := ToBezPath(d, g);
    if d.PathOf? { StandsForOne(d.outline, back.value, Narrowed(shape.elements, narrow)); }
  }
}
