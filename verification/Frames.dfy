/**
 Frames from the renderer to the tab: frames that would change nothing are not sent, captures
 go past the tab, pages come and go, and a crashed renderer is replaced by a new one while
 frames of the old one may still arrive.
 */
module Frames {
  import opened DisplayList
  import opened Epochs
  import opened Options

  /** Size, scale, content size and scroll position. */
  datatype Geometry = Geometry(width: nat, height: nat, scale: real, contentWidth: real, contentHeight: real,
    scrollX: real, scrollY: real)

  datatype Frame = Frame(number: nat, geometry: Geometry, captureId: Option<nat>, list: List)

  /** A frame on its way, with the epoch of the renderer it comes from. */
  datatype Message = Message(epoch: nat, frame: Frame)

  datatype Picture = Picture(geometry: Geometry, shown: seq<Shown>)

  ghost function MovedPicture(base: Affine, p: Option<Picture>): Option<Picture> {
    if p.None? then None else Some(p.value.(shown := Moved(base, p.value.shown)))
  }

  // ----- frames on their way

  /** The frames the tab will take: those of the current renderer. */
  ghost function Live(channel: seq<Message>, epoch: nat): seq<Frame> {
    if channel == [] then []
    else (if channel[0].epoch == epoch then [channel[0].frame] else []) + Live(channel[1..], epoch)
  }

  lemma {:induction false} LiveSnoc(channel: seq<Message>, epoch: nat, f: Frame)
    ensures Live(channel + [Message(epoch, f)], epoch) == Live(channel, epoch) + [f]
  {
    if channel == [] {
      assert [Message(epoch, f)][1..] == [];
    } else {
      LiveSnoc(channel[1..], epoch, f);
      assert (channel + [Message(epoch, f)])[1..] == channel[1..] + [Message(epoch, f)];
    }
  }

  lemma {:induction false} LateIsDead(channel: seq<Message>, epoch: nat, late: Message)
    requires late.epoch != epoch
    ensures Live(channel + [late], epoch) == Live(channel, epoch)
  {
    if channel == [] {
      assert [late][1..] == [];
    } else {
      LateIsDead(channel[1..], epoch, late);
      assert (channel + [late])[1..] == channel[1..] + [late];
    }
  }

  /** No message is from the renderer with this number. */
  ghost predicate Foreign(channel: seq<Message>, epoch: nat) {
    forall i :: 0 <= i < |channel| ==> channel[i].epoch != epoch
  }

  lemma {:induction false} NoneLive(channel: seq<Message>, epoch: nat)
    ensures Live(channel, epoch) == [] <==> Foreign(channel, epoch)
  {
    if channel != [] {
      NoneLive(channel[1..], epoch);
      assert Foreign(channel, epoch) <==> channel[0].epoch != epoch && Foreign(channel[1..], epoch);
    }
  }

  /** What the cache will hold when all these frames have been taken in. */
  ghost function FontsWith(fonts: set<ResId>, live: seq<Frame>): set<ResId>
    decreases |live|
  {
    if live == [] then fonts else FontsWith(fonts + Ids(live[0].list.newFonts), live[1..])
  }

  ghost function ImagesWith(images: set<ResId>, live: seq<Frame>): set<ResId>
    decreases |live|
  {
    if live == [] then images else ImagesWith(images + Ids(live[0].list.newImages), live[1..])
  }

  /** Each frame finds what it needs in the cache, in the frames before it, or in itself. */
  ghost predicate Supplied(b: Blobs, fonts: set<ResId>, images: set<ResId>, live: seq<Frame>)
    decreases |live|
  {
    live == [] ||
    var l := live[0].list;
    && Carries(l.newFonts, b.fonts) && Carries(l.newImages, b.images)
    && Needs(l.cmds, fonts + Ids(l.newFonts), images + Ids(l.newImages))
    && Supplied(b, fonts + Ids(l.newFonts), images + Ids(l.newImages), live[1..])
  }

  lemma {:induction false} OneMoreFrame(b: Blobs, fonts: set<ResId>, images: set<ResId>, live: seq<Frame>, f: Frame)
    requires Supplied(b, fonts, images, live)
    requires Carries(f.list.newFonts, b.fonts) && Carries(f.list.newImages, b.images)
    requires Needs(f.list.cmds, FontsWith(fonts, live) + Ids(f.list.newFonts),
      ImagesWith(images, live) + Ids(f.list.newImages))
    ensures Supplied(b, fonts, images, live + [f])
    ensures FontsWith(fonts, live + [f]) == FontsWith(fonts, live) + Ids(f.list.newFonts)
    ensures ImagesWith(images, live + [f]) == ImagesWith(images, live) + Ids(f.list.newImages)
    decreases |live|
  {
    if live == [] {
      assert (live + [f])[1..] == [];
    } else {
      OneMoreFrame(b, fonts + Ids(live[0].list.newFonts), images + Ids(live[0].list.newImages), live[1..], f);
      assert (live + [f])[1..] == live[1..] + [f];
    }
  }

  /** What the tab shows once all these frames have been taken in: captures do not count. */
  ghost function LastShown(frame: Option<Frame>, live: seq<Frame>): Option<Frame>
    decreases |live|
  {
    if live == [] then frame
    else LastShown(if live[0].captureId.None? then Some(live[0]) else frame, live[1..])
  }

  lemma {:induction false} LastShownSnoc(frame: Option<Frame>, live: seq<Frame>, f: Frame)
    ensures LastShown(frame, live + [f]) == if f.captureId.None? then Some(f) else LastShown(frame, live)
    decreases |live|
  {
    if live == [] {
      assert (live + [f])[1..] == [];
    } else {
      LastShownSnoc(if live[0].captureId.None? then Some(live[0]) else frame, live[1..], f);
      assert (live + [f])[1..] == live[1..] + [f];
    }
  }

  // ----- what holds between the two sides

  /** Resources: what is marked as sent is in the cache or on its way, in time for every frame
      that needs it. */
  ghost predicate ResourcesOk(b: Blobs, sentFonts: set<ResId>, sentImages: set<ResId>, fonts: map<ResId, Blob>,
      images: map<ResId, Blob>, frame: Option<Frame>, live: seq<Frame>)
  {
    && Holds(fonts, b.fonts) && Holds(images, b.images)
    && sentFonts == FontsWith(fonts.Keys, live)
    && sentImages == ImagesWith(images.Keys, live)
    && Supplied(b, fonts.Keys, images.Keys, live)
    && (frame.Some? ==> Needs(frame.value.list.cmds, fonts.Keys, images.Keys))
  }

  /** The commands show a picture from any cache that has everything sent so far. */
  ghost predicate CmdsShow(b: Blobs, sentFonts: set<ResId>, sentImages: set<ResId>, cmds: seq<Cmd>, shown: seq<Shown>) {
    && Needs(cmds, sentFonts, sentImages)
    && forall fonts, images :: Complete(b, sentFonts, sentImages, fonts, images) ==>
      Replayed(cmds, fonts, images) == shown
  }

  ghost predicate Complete(b: Blobs, sentFonts: set<ResId>, sentImages: set<ResId>, fonts: map<ResId, Blob>,
      images: map<ResId, Blob>) {
    Holds(fonts, b.fonts) && Holds(images, b.images) && sentFonts <= fonts.Keys && sentImages <= images.Keys
  }

  /** Suppression is invisible: what the tab will show is what was painted last, and the memory
      of the last frame sent, if there is one, is that frame. */
  ghost predicate PictureOk(b: Blobs, sentFonts: set<ResId>, sentImages: set<ResId>,
      lastSent: Option<(Geometry, seq<Cmd>)>, painted: Option<Picture>, last: Option<Frame>)
  {
    && (painted.None? <==> last.None?)
    && (painted.Some? ==> last.value.geometry == painted.value.geometry)
    && (painted.Some? ==> CmdsShow(b, sentFonts, sentImages, last.value.list.cmds, painted.value.shown))
    && (lastSent.Some? ==> last.Some? && lastSent.value == (last.value.geometry, last.value.list.cmds))
  }

  /** More resources sent leave earlier pictures as they are. */
  lemma {:induction false} PictureStays(b: Blobs, fonts: set<ResId>, images: set<ResId>, fonts': set<ResId>,
      images': set<ResId>, painted: Option<Picture>, last: Option<Frame>)
    requires PictureOk(b, fonts, images, None, painted, last) && fonts <= fonts' && images <= images'
    ensures PictureOk(b, fonts', images', None, painted, last)
  {
    if painted.Some? {
      forall m, n | Complete(b, fonts', images', m, n)
        ensures Replayed(last.value.list.cmds, m, n) == painted.value.shown
      {
        assert Complete(b, fonts, images, m, n);
      }
      var cmds := last.value.list.cmds;
      forall i | 0 <= i < |cmds| ensures CmdNeeds(cmds[i], fonts', images') {
        assert CmdNeeds(cmds[i], fonts, images);
      }
    }
  }

  /** Sending a frame whose resources have just been marked as sent. */
  lemma {:induction false} FrameSent(b: Blobs, sentFonts: set<ResId>, sentImages: set<ResId>, fonts: map<ResId, Blob>,
      images: map<ResId, Blob>, frame: Option<Frame>, live: seq<Frame>, f: Frame)
    requires ResourcesOk(b, sentFonts, sentImages, fonts, images, frame, live)
    requires Carries(f.list.newFonts, b.fonts) && Carries(f.list.newImages, b.images)
    requires Needs(f.list.cmds, sentFonts + Ids(f.list.newFonts), sentImages + Ids(f.list.newImages))
    ensures ResourcesOk(b, sentFonts + Ids(f.list.newFonts), sentImages + Ids(f.list.newImages), fonts, images, frame,
      live + [f])
  {
    OneMoreFrame(b, fonts.Keys, images.Keys, live, f);
  }

  lemma {:induction false} PictureSent(b: Blobs, fonts: set<ResId>, images: set<ResId>, fonts': set<ResId>,
      images': set<ResId>, lastSent: Option<(Geometry, seq<Cmd>)>, painted: Option<Picture>, frame: Option<Frame>,
      live: seq<Frame>, f: Frame, shown: seq<Shown>)
    requires PictureOk(b, fonts, images, lastSent, painted, LastShown(frame, live)) && fonts <= fonts'
    requires images <= images'
    requires CmdsShow(b, fonts', images', f.list.cmds, shown)
    ensures PictureOk(b, fonts', images',
      if f.captureId.None? then Some((f.geometry, f.list.cmds)) else None,
      if f.captureId.None? then Some(Picture(f.geometry, shown)) else painted,
      LastShown(frame, live + [f]))
  {
    LastShownSnoc(frame, live, f);
    if f.captureId.Some? { PictureStays(b, fonts, images, fonts', images', painted, LastShown(frame, live)); }
  }

  // ----- a tab and its renderer

  class Pipeline {
    // the renderer
    var sent: SentResources
    var lastSent: Option<(Geometry, seq<Cmd>)>
    var frameSeq: nat
    var pendingCapture: Option<nat>
    var rendererEpoch: nat
    // the channel
    var channel: seq<Message>
    // the tab
    var epoch: nat
    var cache: ResourceCache
    var frame: Option<Frame>
    var frames: nat
    // what a renderer that sends every paint would have shown last
    ghost var blobs: Blobs
    ghost var painted: Option<Picture>

    ghost predicate Valid()
      reads this, sent, cache
    {
      && rendererEpoch == epoch
      && ResourcesOk(blobs, sent.fonts, sent.images, cache.fonts, cache.images, frame, Live(channel, epoch))
      && PictureOk(blobs, sent.fonts, sent.images, lastSent, painted, LastShown(frame, Live(channel, epoch)))
    }

    constructor (ghost b: Blobs)
      ensures Valid() && fresh(sent) && fresh(cache) && painted.None? && frame.None? && channel == []
      ensures pendingCapture.None?
    {
      sent := new SentResources();
      cache := new ResourceCache();
      lastSent, frameSeq, pendingCapture, rendererEpoch := None, 0, None, 0;
      channel, epoch, frame, frames := [], 0, None, 0;
      blobs, painted := b, None;
    }

    /** `produce_frame` from recording to sending. A pending capture is taken and always sent;
        any other frame is sent unless it has no new resources and is the one sent last. */
    method ProduceFrame(calls: seq<Call>, geometry: Geometry) returns (sentFrame: bool)
      requires Valid() && AllAgree(blobs, calls)
      modifies this, sent
      ensures Valid() && sent == old(sent) && cache == old(cache) && frame == old(frame) && epoch == old(epoch)
      ensures blobs == old(blobs)
      ensures pendingCapture.None?
      ensures painted == if old(pendingCapture).Some? then old(painted) else Some(Picture(geometry, Painted(calls)))
      ensures !sentFrame ==> channel == old(channel) && old(pendingCapture).None?
      ensures !sentFrame ==> sent.fonts == old(sent.fonts) && sent.images == old(sent.images)
      ensures sentFrame ==>
        exists f :: channel == old(channel) + [Message(epoch, f)] && f.captureId == old(pendingCapture)
    {
      var capture := pendingCapture;
      pendingCapture := None;
      ghost var fonts, images := sent.fonts, sent.images;
      var list := RecordAll(calls, sent, blobs);
      assert CmdsShow(blobs, sent.fonts, sent.images, list.cmds, Painted(calls));
      var nothingNew := |list.newFonts| == 0 && |list.newImages| == 0;
      var same := capture.None? && nothingNew && lastSent == Some((geometry, list.cmds));
      if same {
        assert sent.fonts == fonts && sent.images == images;
        painted := Some(Picture(geometry, Painted(calls)));
        return false;
      }
      SendFrame(list, geometry, capture, fonts, images, Painted(calls));
      sentFrame := true;
    }

    /** Number the frame, remember it unless it is a capture, and send it. */
    method SendFrame(list: List, geometry: Geometry, capture: Option<nat>, ghost fonts: set<ResId>,
        ghost images: set<ResId>, ghost shown: seq<Shown>)
      requires rendererEpoch == epoch
      requires ResourcesOk(blobs, fonts, images, cache.fonts, cache.images, frame, Live(channel, epoch))
      requires PictureOk(blobs, fonts, images, lastSent, painted, LastShown(frame, Live(channel, epoch)))
      requires sent.fonts == fonts + Ids(list.newFonts) && sent.images == images + Ids(list.newImages)
      requires Carries(list.newFonts, blobs.fonts) && Carries(list.newImages, blobs.images)
      requires CmdsShow(blobs, sent.fonts, sent.images, list.cmds, shown)
      modifies this`lastSent, this`frameSeq, this`channel, this`painted
      ensures Valid()
      ensures painted == if capture.Some? then old(painted) else Some(Picture(geometry, shown))
      ensures channel == old(channel) + [Message(epoch, Frame(frameSeq, geometry, capture, list))]
    {
      ghost var live := Live(channel, epoch);
      var f := Frame(frameSeq + 1, geometry, capture, list);
      FrameSent(blobs, fonts, images, cache.fonts, cache.images, frame, live, f);
      PictureSent(blobs, fonts, images, sent.fonts, sent.images, lastSent, painted, frame, live, f, shown);
      LiveSnoc(channel, epoch, f);
      lastSent := if capture.None? then Some((geometry, list.cmds)) else None;
      frameSeq := frameSeq + 1;
      channel := channel + [Message(rendererEpoch, f)];
      if capture.None? { painted := Some(Picture(geometry, shown)); }
    }

    method RequestCapture(id: nat)
      requires Valid()
      modifies this`pendingCapture
      ensures Valid() && pendingCapture == Some(id)
    {
      pendingCapture := Some(id);
    }

    /** A new document: nothing of it has been sent. */
    method NewPage()
      requires Valid()
      modifies this`lastSent
      ensures Valid() && lastSent.None?
    {
      lastSent := None;
    }

    /** The browser takes the next message. A frame of a replaced renderer is dropped; a capture
        is handed on; any other frame becomes the tab's. Whatever is handed out finds all its
        fonts and images in the cache. */
    method Deliver() returns (capture: Option<Frame>)
      requires Valid() && channel != []
      modifies this, cache
      ensures Valid() && sent == old(sent) && cache == old(cache) && painted == old(painted)
      ensures channel == old(channel)[1..]
      ensures old(channel)[0].epoch != epoch ==>
        capture.None? && frame == old(frame) && cache.fonts == old(cache.fonts) && cache.images == old(cache.images)
      ensures capture.Some? ==> frame == old(frame) && capture.value.captureId.Some?
      ensures capture.Some? ==> Needs(capture.value.list.cmds, cache.fonts.Keys, cache.images.Keys)
      ensures old(channel)[0].epoch == epoch && old(channel)[0].frame.captureId.None? ==>
        && frame.Some? && frame.value.geometry == old(channel)[0].frame.geometry
        && frame.value.list.cmds == old(channel)[0].frame.list.cmds
    {
      var m := channel[0];
      channel := channel[1..];
      capture := None;
      if m.epoch != epoch {
        assert Live(old(channel), epoch) == Live(channel, epoch);
        return;
      }
      var f := m.frame;
      assert Live(old(channel), epoch) == [f] + Live(channel, epoch);
      assert Live(old(channel), epoch)[1..] == Live(channel, epoch);
      StoredIs(cache.fonts, f.list.newFonts, blobs.fonts);
      StoredIs(cache.images, f.list.newImages, blobs.images);
      var rest := cache.Ingest(f.list);
      f := f.(list := rest);
      frames := frames + 1;
      if f.captureId.Some? { return Some(f); }
      SameList(Some(m.frame), Some(f), Live(channel, epoch));
      frame := Some(f);
    }

    /** Replace a crashed renderer, whatever it left behind: a new one that has sent nothing,
        and an empty cache. All is well just when no message in the channel carries the number
        of the new renderer, as it would after 2^32 replacements. */
    method Respawn(ghost b: Blobs)
      modifies this
      ensures fresh(sent) && fresh(cache) && epoch == NextEpoch(old(epoch)) && channel == old(channel)
      ensures frame.None? && painted.None? && pendingCapture.None?
      ensures Live(channel, epoch) == [] <==> Foreign(channel, epoch)
      ensures Foreign(channel, epoch) ==> Valid()
    {
      var newCache := new ResourceCache();
      var newSent := new SentResources();
      StartOver(newCache, newSent, b);
    }

    /** From here on the tab belongs to the new renderer. */
    method StartOver(newCache: ResourceCache, newSent: SentResources, ghost b: Blobs)
      requires newCache.fonts == map[] && newCache.images == map[]
      requires newSent.fonts == {} && newSent.images == {}
      modifies this
      ensures sent == newSent && cache == newCache && epoch == NextEpoch(old(epoch)) && channel == old(channel)
      ensures frame.None? && painted.None? && pendingCapture.None?
      ensures Live(channel, epoch) == [] <==> Foreign(channel, epoch)
      ensures Foreign(channel, epoch) ==> Valid()
    {
      NoneLive(channel, NextEpoch(epoch));
      epoch, rendererEpoch := NextEpoch(epoch), NextEpoch(epoch);
      frame, cache, sent := None, newCache, newSent;
      lastSent, frameSeq, pendingCapture := None, 0, None;
      blobs, painted := b, None;
    }

    /** The reader thread of a replaced renderer outlives it: its last messages may still come. */
    method LateMessage(late: Message)
      requires Valid() && late.epoch != epoch
      modifies this`channel
      ensures Valid() && channel == old(channel) + [late]
      ensures Live(channel, epoch) == old(Live(channel, epoch))
    {
      LateIsDead(channel, epoch, late);
      channel := channel + [late];
    }

    /** Replay the tab's frame. Nothing is missing from it, and when no frame is on its way the
        picture is the last one painted, as if every paint had been sent, moved to its place in the window. */
    method Show(base: Affine) returns (picture: Option<Picture>)
      requires Valid()
      ensures picture.Some? <==> frame.Some?
      ensures Live(channel, epoch) == [] ==> picture == MovedPicture(base, painted)
    {
      if frame.None? { return None; }
      var shown := cache.Replay(frame.value.list.cmds, base);
      picture := Some(Picture(frame.value.geometry, shown));
    }
  }

  /** Taking a frame in empties its resource lists; what is shown stays the same. */
  lemma {:induction false} SameList(a: Option<Frame>, b: Option<Frame>, live: seq<Frame>)
    requires a.Some? && b.Some? && a.value.geometry == b.value.geometry && a.value.list.cmds == b.value.list.cmds
    ensures var x, y := LastShown(a, live), LastShown(b, live);
      x.Some? && y.Some? && x.value.geometry == y.value.geometry && x.value.list.cmds == y.value.list.cmds
    decreases |live|
  {
    if live != [] {
      if live[0].captureId.None? { SomeShown(Some(live[0]), live[1..]); } else { SameList(a, b, live[1..]); }
    }
  }

  lemma {:induction false} SomeShown(a: Option<Frame>, live: seq<Frame>)
    requires a.Some?
    ensures LastShown(a, live).Some?
    decreases |live|
  {
    if live != [] { SomeShown(if live[0].captureId.None? then Some(live[0]) else a, live[1..]); }
  }
}
