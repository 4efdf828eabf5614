/**
 Recording a page into a display list that names fonts and images by id, sending each of them
 once, and replaying the list on the other side from a cache.
 */
module DisplayList {
  import opened Options

  type ResId = nat

  /** The contents of a font file or a decoded image. */
  datatype Blob = Blob(bytes: seq<int>)

  // ----- what the painter calls, what is recorded, what is shown

  /** A paint as the painter gives it, with its image data at hand. */
  datatype Paint = SolidPaint(color: int) | ImagePaint(id: ResId, image: Blob, sampler: int) | CustomPaint

  datatype BrushData = Solid(color: int) | Image(id: ResId, sampler: int) | NoBrush

  /** (x, y) goes to (a * x + c * y + e, b * x + d * y + f). */
  datatype Affine = Affine(a: real, b: real, c: real, d: real, e: real, f: real)

  /** `what` stands for the styles and shapes that are copied as they are. */
  datatype Call =
    | Reset
    | Plain(what: int, at: Affine)                   // layers, clips, box shadows
    | Pop
    | Draw(what: int, at: Affine, paint: Paint)      // fill and stroke
    | DrawGlyphs(font: ResId, fontData: Blob, what: int, at: Affine, paint: Paint)

  datatype Cmd =
    | PlainCmd(what: int, at: Affine)
    | PopCmd
    | DrawCmd(what: int, at: Affine, brush: BrushData)
    | GlyphsCmd(fontId: ResId, what: int, at: Affine, brush: BrushData)

  datatype ShownBrush = ShownSolid(color: int) | ShownImage(image: Blob, sampler: int)

  /** What reaches the rasterizer. */
  datatype Shown =
    | ShownPlain(what: int, at: Affine)
    | ShownPop
    | ShownDraw(what: int, at: Affine, brush: ShownBrush)
    | ShownGlyphs(font: Blob, what: int, at: Affine, brush: ShownBrush)

  datatype Resource = Resource(id: ResId, data: Blob)

  datatype List = List(cmds: seq<Cmd>, newFonts: seq<Resource>, newImages: seq<Resource>)

  /** An id stands for one blob as long as the renderer lives. */
  datatype Blobs = Blobs(fonts: ResId -> Blob, images: ResId -> Blob)

  ghost predicate PaintAgrees(b: Blobs, p: Paint) {
    p.ImagePaint? ==> p.image == b.images(p.id)
  }

  ghost predicate Agrees(b: Blobs, c: Call) {
    match c
    case Draw(_, _, paint) => PaintAgrees(b, paint)
    case DrawGlyphs(font, fontData, _, _, paint) => fontData == b.fonts(font) && PaintAgrees(b, paint)
    case _ => true
  }

  ghost predicate AllAgree(b: Blobs, calls: seq<Call>) {
    forall i :: 0 <= i < |calls| ==> Agrees(b, calls[i])
  }

  /** The picture the calls paint when they go straight to a rasterizer. A custom paint has no
      counterpart in a display list and draws nothing. */
  function Painted(calls: seq<Call>): seq<Shown> {
    if calls == [] then [] else
      var before := Painted(calls[..|calls| - 1]);
      var last := calls[|calls| - 1];
      if last.Reset? then [] else before + CallShown(last)
  }

  function CallShown(c: Call): seq<Shown>
    requires !c.Reset?
  {
    match c
    case Plain(what, at) => [ShownPlain(what, at)]
    case Pop => [ShownPop]
    case Draw(what, at, paint) => (match PaintShown(paint) case None => [] case Some(b) => [ShownDraw(what, at, b)])
    case DrawGlyphs(_, fontData, what, at, paint) =>
      match PaintShown(paint) case None => [] case Some(b) => [ShownGlyphs(fontData, what, at, b)]
  }

  function PaintShown(p: Paint): Option<ShownBrush> {
    match p
    case SolidPaint(color) => Some(ShownSolid(color))
    case ImagePaint(_, image, sampler) => Some(ShownImage(image, sampler))
    case CustomPaint => None
  }

  // ----- replay

  function BrushShown(brush: BrushData, images: map<ResId, Blob>): Option<ShownBrush> {
    match brush
    case Solid(color) => Some(ShownSolid(color))
    case Image(id, sampler) => if id in images then Some(ShownImage(images[id], sampler)) else None
    case NoBrush => None
  }

  /** One command: nothing when a resource is missing. */
  function CmdShown(c: Cmd, fonts: map<ResId, Blob>, images: map<ResId, Blob>): seq<Shown> {
    match c
    case PlainCmd(what, at) => [ShownPlain(what, at)]
    case PopCmd => [ShownPop]
    case DrawCmd(what, at, brush) =>
      (match BrushShown(brush, images) case None => [] case Some(b) => [ShownDraw(what, at, b)])
    case GlyphsCmd(fontId, what, at, brush) =>
      if fontId !in fonts then [] else
        match BrushShown(brush, images) case None => [] case Some(b) => [ShownGlyphs(fonts[fontId], what, at, b)]
  }

  /** A command that needs what is not there shows nothing. */
  lemma {:induction false} MissingShowsNothing(c: Cmd, fonts: map<ResId, Blob>, images: map<ResId, Blob>)
    requires !CmdNeeds(c, fonts.Keys, images.Keys)
    ensures CmdShown(c, fonts, images) == []
  {
  }

  function Replayed(cmds: seq<Cmd>, fonts: map<ResId, Blob>, images: map<ResId, Blob>): seq<Shown> {
    if cmds == [] then [] else Replayed(cmds[..|cmds| - 1], fonts, images) + CmdShown(cmds[|cmds| - 1], fonts, images)
  }

  // ----- which resources a list needs

  predicate CmdNeeds(c: Cmd, fonts: set<ResId>, images: set<ResId>) {
    && (c.GlyphsCmd? ==> c.fontId in fonts)
    && ((c.DrawCmd? || c.GlyphsCmd?) && c.brush.Image? ==> c.brush.id in images)
  }

  /** Every id in the commands is among the given ones. */
  predicate Needs(cmds: seq<Cmd>, fonts: set<ResId>, images: set<ResId>) {
    forall i :: 0 <= i < |cmds| ==> CmdNeeds(cmds[i], fonts, images)
  }

  function Ids(l: seq<Resource>): set<ResId> {
    set i | 0 <= i < |l| :: l[i].id
  }

  ghost predicate Carries(l: seq<Resource>, blobs: ResId -> Blob) {
    forall i :: 0 <= i < |l| ==> l[i].data == blobs(l[i].id)
  }

  ghost predicate Holds(m: map<ResId, Blob>, blobs: ResId -> Blob) {
    forall id :: id in m ==> m[id] == blobs(id)
  }

  lemma {:induction false} IdsSnoc(l: seq<Resource>, r: Resource)
    ensures Ids(l + [r]) == Ids(l) + {r.id}
  {
    var m := l + [r];
    forall id | id in Ids(l) ensures id in Ids(m) {
      var i :| 0 <= i < |l| && l[i].id == id;
      assert m[i].id == id;
    }
    assert m[|l|].id == r.id;
  }

  lemma {:induction false} CmdShownAlike(c: Cmd, b: Blobs, fonts: map<ResId, Blob>, images: map<ResId, Blob>,
      fonts': map<ResId, Blob>, images': map<ResId, Blob>)
    requires Holds(fonts, b.fonts) && Holds(images, b.images) && Holds(fonts', b.fonts) && Holds(images', b.images)
    requires CmdNeeds(c, fonts.Keys, images.Keys) && CmdNeeds(c, fonts'.Keys, images'.Keys)
    ensures CmdShown(c, fonts, images) == CmdShown(c, fonts', images')
  {
  }

  /** Two caches that both hold what the commands need show the same picture. */
  lemma {:induction false} ReplayedAlike(cmds: seq<Cmd>, b: Blobs, fonts: map<ResId, Blob>, images: map<ResId, Blob>,
      fonts': map<ResId, Blob>, images': map<ResId, Blob>)
    requires Holds(fonts, b.fonts) && Holds(images, b.images) && Holds(fonts', b.fonts) && Holds(images', b.images)
    requires Needs(cmds, fonts.Keys, images.Keys) && Needs(cmds, fonts'.Keys, images'.Keys)
    ensures Replayed(cmds, fonts, images) == Replayed(cmds, fonts', images')
    decreases |cmds|
  {
    if cmds != [] {
      var last := cmds[|cmds| - 1];
      assert CmdNeeds(last, fonts.Keys, images.Keys) && CmdNeeds(last, fonts'.Keys, images'.Keys);
      CmdShownAlike(last, b, fonts, images, fonts', images');
      ReplayedAlike(cmds[..|cmds| - 1], b, fonts, images, fonts', images');
    }
  }

  // ----- the recorder

  /** The sender's memory of what the receiver has. */
  class SentResources {
    var fonts: set<ResId>
    var images: set<ResId>

    constructor ()
      ensures fonts == {} && images == {}
    {
      fonts, images := {}, {};
    }
  }

  function BrushOf(paint: Paint): BrushData {
    match paint
    case SolidPaint(color) => Solid(color)
    case ImagePaint(id, _, sampler) => Image(id, sampler)
    case CustomPaint => NoBrush
  }

  function CmdOf(c: Call): Cmd
    requires !c.Reset?
  {
    match c
    case Plain(what, at) => PlainCmd(what, at)
    case Pop => PopCmd
    case Draw(what, at, paint) => DrawCmd(what, at, BrushOf(paint))
    case DrawGlyphs(font, _, what, at, paint) => GlyphsCmd(font, what, at, BrushOf(paint))
  }

  lemma {:induction false} CmdShowsCall(b: Blobs, c: Call, fonts: map<ResId, Blob>, images: map<ResId, Blob>)
    requires Agrees(b, c) && !c.Reset? && Holds(fonts, b.fonts) && Holds(images, b.images)
    requires CmdNeeds(CmdOf(c), fonts.Keys, images.Keys)
    ensures CmdShown(CmdOf(c), fonts, images) == CallShown(c)
  {
  }

  /** One more command shows one more call. */
  lemma {:induction false} RecordedShows(b: Blobs, calls: seq<Call>, c: Call, cmds: seq<Cmd>, fonts: map<ResId, Blob>,
      images: map<ResId, Blob>)
    requires Agrees(b, c) && !c.Reset? && Holds(fonts, b.fonts) && Holds(images, b.images)
    requires CmdNeeds(CmdOf(c), fonts.Keys, images.Keys)
    requires Replayed(cmds, fonts, images) == Painted(calls)
    ensures Replayed(cmds + [CmdOf(c)], fonts, images) == Painted(calls + [c])
  {
    assert (cmds + [CmdOf(c)])[..|cmds|] == cmds;
    assert (calls + [c])[..|calls|] == calls;
    CmdShowsCall(b, c, fonts, images);
  }

  class Recorder {
    var cmds: seq<Cmd>
    var newFonts: seq<Resource>
    var newImages: seq<Resource>
    const sent: SentResources
    ghost var calls: seq<Call>           // what has been recorded
    ghost var knownFonts: set<ResId>     // what had been sent when recording began
    ghost var knownImages: set<ResId>

    /** The new resources are those that have been marked as sent since recording began. */
    ghost predicate Tracked(b: Blobs)
      reads this, sent
    {
      && sent.fonts == knownFonts + Ids(newFonts)
      && sent.images == knownImages + Ids(newImages)
      && Carries(newFonts, b.fonts) && Carries(newImages, b.images)
      && Ids(newFonts) !! knownFonts && Ids(newImages) !! knownImages
    }

    /** A cache with everything that has been sent. */
    ghost predicate Complete(b: Blobs, fonts: map<ResId, Blob>, images: map<ResId, Blob>)
      reads sent
    {
      Holds(fonts, b.fonts) && Holds(images, b.images) && sent.fonts <= fonts.Keys && sent.images <= images.Keys
    }

    /** The list so far needs nothing but what was sent before or is in the list itself, and
        shows what the calls painted. */
    ghost predicate Valid(b: Blobs)
      reads this, sent
    {
      && Tracked(b)
      && AllAgree(b, calls)
      && Needs(cmds, sent.fonts, sent.images)
      && forall fonts, images :: Complete(b, fonts, images) ==> Replayed(cmds, fonts, images) == Painted(calls)
    }

    constructor (sent: SentResources, ghost b: Blobs)
      ensures Valid(b) && this.sent == sent && calls == [] && cmds == [] && newFonts == [] && newImages == []
      ensures knownFonts == sent.fonts && knownImages == sent.images
    {
      this.sent := sent;
      cmds, newFonts, newImages, calls := [], [], [], [];
      knownFonts, knownImages := sent.fonts, sent.images;
    }

    /** The brush for a paint; an image not sent yet goes along. */
    method Brush(paint: Paint, ghost b: Blobs) returns (brush: BrushData)
      requires Tracked(b) && PaintAgrees(b, paint)
      modifies this`newImages, sent`images
      ensures Tracked(b) && brush == BrushOf(paint)
      ensures sent.images == old(sent.images) + if paint.ImagePaint? then {paint.id} else {}
      ensures newImages == old(newImages) +
        if paint.ImagePaint? && paint.id !in old(sent.images) then [Resource(paint.id, paint.image)] else []
    {
      match paint {
        case SolidPaint(color) => brush := Solid(color);
        case ImagePaint(id, image, sampler) =>
          if id !in sent.images {
            IdsSnoc(newImages, Resource(id, image));
            sent.images := sent.images + {id};
            newImages := newImages + [Resource(id, image)];
          }
          brush := Image(id, sampler);
        case CustomPaint => brush := NoBrush;
      }
    }

    method Font(id: ResId, data: Blob, ghost b: Blobs) returns (fontId: ResId)
      requires Tracked(b) && data == b.fonts(id)
      modifies this`newFonts, sent`fonts
      ensures Tracked(b) && fontId == id && sent.fonts == old(sent.fonts) + {id}
      ensures newFonts == old(newFonts) + if id !in old(sent.fonts) then [Resource(id, data)] else []
    {
      if id !in sent.fonts {
        IdsSnoc(newFonts, Resource(id, data));
        sent.fonts := sent.fonts + {id};
        newFonts := newFonts + [Resource(id, data)];
      }
      fontId := id;
    }

    /** One call of the painter. `Reset` drops the commands and keeps the resources: they are
        marked as sent, so they must still go out. */
    method Record(c: Call, ghost b: Blobs)
      requires Valid(b) && Agrees(b, c)
      modifies this, sent
      ensures Valid(b) && calls == old(calls) + [c]
      ensures knownFonts == old(knownFonts) && knownImages == old(knownImages)
      ensures old(newFonts) <= newFonts && old(newImages) <= newImages
      ensures cmds == if c.Reset? then [] else old(cmds) + [CmdOf(c)]
      ensures c.Reset? ==> newFonts == old(newFonts) && newImages == old(newImages)
    {
      ghost var before, done := cmds, calls;
      match c {
        case Reset =>
          cmds := [];
        case Plain(what, at) => cmds := cmds + [PlainCmd(what, at)];
        case Pop => cmds := cmds + [PopCmd];
        case Draw(what, at, paint) =>
          var brush := Brush(paint, b);
          cmds := cmds + [DrawCmd(what, at, brush)];
        case DrawGlyphs(font, fontData, what, at, paint) =>
          var fontId := Font(font, fontData, b);
          var brush := Brush(paint, b);
          cmds := cmds + [GlyphsCmd(fontId, what, at, brush)];
      }
      calls := calls + [c];
      forall fonts, images | Complete(b, fonts, images) ensures Replayed(cmds, fonts, images) == Painted(calls) {
        if c.Reset? {
          assert Painted(calls) == [];
        } else {
          assert old(Complete(b, fonts, images));
          RecordedShows(b, done, c, before, fonts, images);
        }
      }
    }
  }

  /** A whole page painted into a new recorder. */
  method RecordAll(calls: seq<Call>, sent: SentResources, ghost b: Blobs) returns (l: List)
    requires AllAgree(b, calls)
    modifies sent
    ensures sent.fonts == old(sent.fonts) + Ids(l.newFonts) && sent.images == old(sent.images) + Ids(l.newImages)
    ensures Carries(l.newFonts, b.fonts) && Carries(l.newImages, b.images)
    ensures Ids(l.newFonts) !! old(sent.fonts) && Ids(l.newImages) !! old(sent.images)
    ensures Needs(l.cmds, sent.fonts, sent.images)
    ensures forall fonts, images ::
      Holds(fonts, b.fonts) && Holds(images, b.images) && sent.fonts <= fonts.Keys && sent.images <= images.Keys
      ==> Replayed(l.cmds, fonts, images) == Painted(calls)
  {
    var rec := new Recorder(sent, b);
    for i := 0 to |calls|
      invariant rec.sent == sent && rec.Valid(b) && rec.calls == calls[..i] && fresh(rec)
      invariant rec.knownFonts == old(sent.fonts) && rec.knownImages == old(sent.images)
    {
      rec.Record(calls[i], b);
      assert calls[..i + 1] == calls[..i] + [calls[i]];
    }
    assert calls[..|calls|] == calls;
    l := List(rec.cmds, rec.newFonts, rec.newImages);
    assert forall fonts, images ::
      Holds(fonts, b.fonts) && Holds(images, b.images) && sent.fonts <= fonts.Keys && sent.images <= images.Keys
      ==> rec.Complete(b, fonts, images);
  }

  // ----- the receiver

  /** Storing a list's resources, in order. */
  function Stored(m: map<ResId, Blob>, l: seq<Resource>): map<ResId, Blob> {
    if l == [] then m else Stored(m, l[..|l| - 1])[l[|l| - 1].id := l[|l| - 1].data]
  }

  lemma {:induction false} StoredIs(m: map<ResId, Blob>, l: seq<Resource>, blobs: ResId -> Blob)
    requires Holds(m, blobs) && Carries(l, blobs)
    ensures Holds(Stored(m, l), blobs) && Stored(m, l).Keys == m.Keys + Ids(l)
    decreases |l|
  {
    if l != [] {
      var front, last := l[..|l| - 1], l[|l| - 1];
      StoredIs(m, front, blobs);
      assert front + [last] == l;
      IdsSnoc(front, last);
    }
  }

  class ResourceCache {
    var fonts: map<ResId, Blob>
    var images: map<ResId, Blob>

    constructor ()
      ensures fonts == map[] && images == map[]
    {
      fonts, images := map[], map[];
    }

    /** Move the resources out of a list into the cache. */
    method Ingest(l: List) returns (rest: List)
      modifies this
      ensures rest == List(l.cmds, [], [])
      ensures fonts == Stored(old(fonts), l.newFonts) && images == Stored(old(images), l.newImages)
    {
      assert l.newFonts[..|l.newFonts|] == l.newFonts && l.newImages[..|l.newImages|] == l.newImages;
      for i := 0 to |l.newFonts|
        invariant fonts == Stored(old(fonts), l.newFonts[..i]) && images == old(images)
      {
        assert l.newFonts[..i + 1][..i] == l.newFonts[..i];
        fonts := fonts[l.newFonts[i].id := l.newFonts[i].data];
      }
      for i := 0 to |l.newImages|
        invariant images == Stored(old(images), l.newImages[..i]) && fonts == Stored(old(fonts), l.newFonts)
      {
        assert l.newImages[..i + 1][..i] == l.newImages[..i];
        images := images[l.newImages[i].id := l.newImages[i].data];
      }
      rest := List(l.cmds, [], []);
    }

    /** Replay a list into a rasterizer under an extra transform, skipping what cannot be shown: the picture of
        the list, moved as a whole. */
    method Replay(cmds: seq<Cmd>, base: Affine) returns (shown: seq<Shown>)
      ensures shown == Moved(base, Replayed(cmds, fonts, images))
    {
      shown := [];
      for i := 0 to |cmds|
        invariant shown == Moved(base, Replayed(cmds[..i], fonts, images))
      {
        assert cmds[..i + 1][..i] == cmds[..i];
        MovedJoin(base, Replayed(cmds[..i], fonts, images), CmdShown(cmds[i], fonts, images));
        var c := cmds[i];
        match c {
          case PlainCmd(what, at) => shown := shown + [ShownPlain(what, Times(base, at))];
          case PopCmd => shown := shown + [ShownPop];
          case DrawCmd(what, at, brush) =>
            var br := BrushShown(brush, images);
            if br.Some? { shown := shown + [ShownDraw(what, Times(base, at), br.value)]; }
          case GlyphsCmd(fontId, what, at, brush) =>
            if fontId in fonts {
              var br := BrushShown(brush, images);
              if br.Some? { shown := shown + [ShownGlyphs(fonts[fontId], what, Times(base, at), br.value)]; }
            }
        }
      }
      assert cmds[..|cmds|] == cmds;
    }
  }

  // ----- moving a picture

  function Linear(p: real, x: real, q: real, y: real): real {
    p * x + q * y
  }

  /** First `t`, then `s`. */
  function Times(s: Affine, t: Affine): Affine {
    Affine(Linear(s.a, t.a, s.c, t.b), Linear(s.b, t.a, s.d, t.b),
      Linear(s.a, t.c, s.c, t.d), Linear(s.b, t.c, s.d, t.d),
      Linear(s.a, t.e, s.c, t.f) + s.e, Linear(s.b, t.e, s.d, t.f) + s.f)
  }

  function MovedItem(base: Affine, x: Shown): Shown {
    if x.ShownPop? then x else x.(at := Times(base, x.at))
  }

  function Moved(base: Affine, picture: seq<Shown>): seq<Shown> {
    seq(|picture|, i requires 0 <= i < |picture| => MovedItem(base, picture[i]))
  }

  lemma {:induction false} MovedJoin(base: Affine, p: seq<Shown>, q: seq<Shown>)
    ensures Moved(base, p + q) == Moved(base, p) + Moved(base, q)
  {
  }

  /** Where a transform takes a point. */
  function Mapped(s: Affine, x: real, y: real): (real, real) {
    (Linear(s.a, x, s.c, y) + s.e, Linear(s.b, x, s.d, y) + s.f)
  }

  /** The product takes every point where first `t` and then `s` take it. */
  lemma {:induction false} ProductMaps(s: Affine, t: Affine, x: real, y: real)
    ensures var (x', y') := Mapped(t, x, y); Mapped(Times(s, t), x, y) == Mapped(s, x', y')
  {
    RowMaps(s.a, s.c, s.e, t, x, y, Times(s, t).a, Times(s, t).c, Times(s, t).e);
    RowMaps(s.b, s.d, s.f, t, x, y, Times(s, t).b, Times(s, t).d, Times(s, t).f);
  }

  lemma {:induction false} RowMaps(p: real, q: real, r: real, t: Affine, x: real, y: real, v: real, w: real, z: real)
    requires v == Linear(p, t.a, q, t.b) && w == Linear(p, t.c, q, t.d) && z == Linear(p, t.e, q, t.f) + r
    ensures Linear(v, x, w, y) + z == Linear(p, Mapped(t, x, y).0, q, Mapped(t, x, y).1) + r
  {
    var l, m := Linear(t.a, x, t.c, y), Linear(t.b, x, t.d, y);
    Distribute(p, q, t, x, y, l, m, v, w);
    Shifted(p, q, l, m, t.e, t.f, l + t.e, m + t.f);
  }

  /** Replaying under a transform and then moving the result is replaying under the product; the transform
      that moves nothing leaves the picture as it is. */
  lemma {:induction false} MovedTwice(s: Affine, t: Affine, picture: seq<Shown>)
    ensures Moved(s, Moved(t, picture)) == Moved(Times(s, t), picture)
    ensures Moved(Affine(1.0, 0.0, 0.0, 1.0, 0.0, 0.0), picture) == picture
  {
    forall i | 0 <= i < |picture| && !picture[i].ShownPop?
      ensures Times(s, Times(t, picture[i].at)) == Times(Times(s, t), picture[i].at)
    {
      TimesAssociative(s, t, picture[i].at);
    }
  }

  lemma {:induction false} TimesAssociative(s: Affine, t: Affine, u: Affine)
    ensures Times(s, Times(t, u)) == Times(Times(s, t), u)
  {
    var tu, st := Times(t, u), Times(s, t);
    RowTimes(s.a, s.c, s.e, t, u, tu, st.a, st.c, st.e);
    RowTimes(s.b, s.d, s.f, t, u, tu, st.b, st.d, st.f);
  }

  /** The same for one row (p, q, r) of the first. */
  lemma {:induction false} RowTimes(p: real, q: real, r: real, t: Affine, u: Affine, tu: Affine, v: real, w: real,
      z: real)
    requires tu == Times(t, u)
    requires v == Linear(p, t.a, q, t.b) && w == Linear(p, t.c, q, t.d) && z == Linear(p, t.e, q, t.f) + r
    ensures Linear(p, tu.a, q, tu.b) == Linear(v, u.a, w, u.b)
    ensures Linear(p, tu.c, q, tu.d) == Linear(v, u.c, w, u.d)
    ensures Linear(p, tu.e, q, tu.f) + r == Linear(v, u.e, w, u.f) + z
  {
    Distribute(p, q, t, u.a, u.b, tu.a, tu.b, v, w);
    Distribute(p, q, t, u.c, u.d, tu.c, tu.d, v, w);
    var x, y := Linear(t.a, u.e, t.c, u.f), Linear(t.b, u.e, t.d, u.f);
    Distribute(p, q, t, u.e, u.f, x, y, v, w);
    Shifted(p, q, x, y, t.e, t.f, tu.e, tu.f);
  }

  lemma {:induction false} Shifted(p: real, q: real, x: real, y: real, e: real, f: real, l: real, m: real)
    requires l == x + e && m == y + f
    ensures Linear(p, l, q, m) == Linear(p, x, q, y) + Linear(p, e, q, f)
  {
    Sums(p, x, e, l);
    Sums(q, y, f, m);
  }

  lemma {:induction false} Distribute(p: real, q: real, t: Affine, x: real, y: real, l: real, m: real, v: real, w: real)
    requires l == Linear(t.a, x, t.c, y) && m == Linear(t.b, x, t.d, y)
    requires v == Linear(p, t.a, q, t.b) && w == Linear(p, t.c, q, t.d)
    ensures Linear(p, l, q, m) == Linear(v, x, w, y)
  {
    Factors(p, t.a, x);
    Factors(p, t.c, y);
    Factors(q, t.b, x);
    Factors(q, t.d, y);
    Sums(p, t.a * x, t.c * y, l);
    Sums(q, t.b * x, t.d * y, m);
    Sums(x, p * t.a, q * t.b, v);
    Sums(y, p * t.c, q * t.d, w);
  }

  lemma {:induction false} Sums(p: real, x: real, y: real, sum: real)
    requires sum == x + y
    ensures p * sum == p * x + p * y
  {
  }

  lemma {:induction false} Factors(p: real, q: real, x: real)
    ensures p * (q * x) == (p * q) * x
  {
  }
}
