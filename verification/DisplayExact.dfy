/** When a flip makes the visible canvas exactly the backbuffer: without clipping always, with it
    once the framebuffer has been painted. */
module DisplayExact {
  import opened Basics
  import opened Canvases
  import opened DisplayModel
  import opened DisplaySync
  import opened DisplayViewport

  // ----- A painted framebuffer -----

  /** Every framebuffer pixel has been painted. */
  ghost predicate Painted(s: Screen) {
    && s.back.width == s.fbWidth && s.back.height == s.fbHeight
    && forall x, y :: Covers(0, 0, s.fbWidth, s.fbHeight, x, y) ==> Opaque(Get(s.back, x, y))
  }

  ghost predicate OpaqueAction(a: Action) {
    match a
    case Blit(_, _, w, h, data) => forall i, j :: 0 <= i < w && 0 <= j < h ==> Opaque(ImageData(data, w, h).at(i, j))
    case _ => true
  }

  /** Blits carry only opaque pixels, whichever bytes are drawn, and a resize does not add pixels;
      images may be translucent. */
  ghost predicate OpaqueEvent(s: Screen, e: Event)
    requires e.Valid()
  {
    match e
    case Call(a) => OpaqueAction(a)
    case BlitCall(x, y, w, h, buffer, start) =>
      && OpaqueAction(Blit(x, y, w, h, buffer[..w * h * 4]))
      && OpaqueAction(Blit(x, y, w, h, buffer[start..start + w * h * 4]))
    case Resize(w, h) => w <= s.fbWidth && h <= s.fbHeight
    case _ => true
  }

  /** Every framebuffer pixel is painted, and everything still queued paints opaquely. */
  ghost predicate PaintedState(d: State) {
    && Painted(d.screen)
    && forall k :: 0 <= k < |d.queue| ==> OpaqueAction(d.queue[k])
  }

  lemma DrawKeepsPainted(s: Screen, a: Action)
    requires Painted(s) && OpaqueAction(a)
    ensures Painted(Draw(s, a))
  {
    var t := Draw(s, a);
    forall x, y | Covers(0, 0, s.fbWidth, s.fbHeight, x, y) ensures Opaque(Get(t.back, x, y)) {
      assert Opaque(Get(s.back, x, y));
    }
  }

  lemma {:induction false} ScanKeepsPainted(d: State)
    requires PaintedState(d)
    ensures PaintedState(Scanned(d))
    decreases |d.queue|
  {
    if d.queue != [] && Ready(d.queue[0], d.ready) {
      DrawKeepsPainted(d.screen, d.queue[0]);
      ScanKeepsPainted(d.(screen := Draw(d.screen, d.queue[0]), queue := d.queue[1..]));
    }
  }

  lemma SubmitKeepsPainted(d: State, a: Action)
    requires PaintedState(d) && OpaqueAction(a)
    ensures PaintedState(Submitted(d, a))
  {
    DrawKeepsPainted(d.screen, a);
    ScanKeepsPainted(d.(queue := d.queue + [a]));
  }

  lemma ReshowKeepsPainted(d: State)
    requires PaintedState(d)
    ensures PaintedState(Reshown(d))
  {
    var vp := d.screen.vp;
    SubmitKeepsPainted(d.(screen := Damaged(d.screen, vp.x, vp.y, vp.w, vp.h)), Flip);
  }

  lemma MoveKeepsPainted(d: State, dx: real, dy: real)
    requires PaintedState(d)
    ensures PaintedState(PosChanged(d, dx, dy))
  {
    ReshowKeepsPainted(d.(screen := d.screen.(vp := Slid(d.screen, dx.Floor, dy.Floor))));
  }

  lemma SizeKeepsPainted(d: State, width: Option<real>, height: Option<real>)
    requires NonNegative(width) && NonNegative(height)
    requires PaintedState(d)
    ensures PaintedState(SizeChanged(d, width, height))
  {
    var s := d.screen;
    var (w, h) := WantedSize(s, width, height);
    var sized := d.(screen := s.(vp := s.vp.(w := w, h := h), vis := Blank(w, h)));
    MoveKeepsPainted(sized, 0.0, 0.0);
    ReshowKeepsPainted(PosChanged(sized, 0.0, 0.0));
  }

  lemma ReadjustKeepsPainted(d: State)
    requires PaintedState(d)
    ensures PaintedState(Readjusted(d))
  {
    var w, h := Some(d.screen.vp.w as real), Some(d.screen.vp.h as real);
    SizeKeepsPainted(d, w, h);
    MoveKeepsPainted(SizeChanged(d, w, h), 0.0, 0.0);
  }

  lemma ShrinkKeepsPainted(s: Screen, width: nat, height: nat)
    requires Painted(s) && width <= s.fbWidth && height <= s.fbHeight
    ensures Painted(BackResized(s, width, height))
  {
    var t := BackResized(s, width, height);
    forall x, y | Covers(0, 0, width, height, x, y) ensures Opaque(Get(t.back, x, y)) {
      ResizedPixel(s, width, height, x, y);
      assert Covers(0, 0, s.fbWidth, s.fbHeight, x, y);
    }
  }

  lemma StepKeepsPainted(d: State, e: Event)
    requires e.Valid() && OpaqueEvent(d.screen, e) && PaintedState(d)
    ensures PaintedState(Step(d, e))
  {
    match e
    case Call(a) => SubmitKeepsPainted(d, a);
    case BlitCall(x, y, w, h, buffer, start) => SubmitKeepsPainted(d, BlitAction(d, x, y, w, h, buffer, start));
    case Load(id) => ScanKeepsPainted(d.(ready := d.ready + {id}));
    case Flush =>
    case MoveViewport(dx, dy) => MoveKeepsPainted(d, dx, dy);
    case SizeViewport(w, h) => SizeKeepsPainted(d, w, h);
    case SetClip(clip) => ReadjustKeepsPainted(d.(screen := d.screen.(clip := clip)));
    case Resize(w, h) =>
      ShrinkKeepsPainted(d.screen, w, h);
      ReadjustKeepsPainted(d.(screen := BackResized(d.screen, w, h)));
  }

  ghost predicate OpaqueRun(d: State, events: seq<Event>)
    requires AllValid(events)
    decreases |events|
  {
    events == [] || (OpaqueEvent(d.screen, events[0]) && OpaqueRun(Step(d, events[0]), events[1..]))
  }

  /** Once the framebuffer has been painted, and as long as blits are opaque and it does not grow,
      every visible pixel outside the damage is exactly the backbuffer pixel behind it, and a flip
      executed at any point makes the whole visible canvas equal to the backbuffer. */
  lemma {:induction false} PaintedRunIsExact(d: State, events: seq<Event>)
    requires AllValid(events) && OpaqueRun(d, events)
    requires Synced(d.screen) && Contained(d.screen) && PaintedState(d)
    ensures var s := Run(d, events).screen;
            ExactOutsideDamage(s) && ShowsBackbuffer(Flipped(s))
    decreases |events|
  {
    if events == [] {
      var s := d.screen;
      forall i, j | Visible(s, i, j) ensures Opaque(Behind(s, i, j)) && PixelSynced(s, i, j) {
        assert Covers(0, 0, s.fbWidth, s.fbHeight, i + s.vp.x, j + s.vp.y);
      }
      FlipIsExactIff(s);
    } else {
      StepKeepsSync(d, events[0]);
      StepKeepsContained(d, events[0]);
      StepKeepsPainted(d, events[0]);
      PaintedRunIsExact(Step(d, events[0]), events[1..]);
    }
  }

  // ----- No clipping -----

  predicate OpaqueOrClear(p: Pixel) {
    Opaque(p) || p == CLEAR
  }

  /** The backbuffer pixel is opaque or was never painted, then nothing is shown there, and outside
      the damage it is what is shown. */
  predicate CleanPixel(s: Screen, i: int, j: int) {
    var b, v := Get(s.back, i, j), Get(s.vis, i, j);
    OpaqueOrClear(b) && (Visible(s, i, j) ==> (b == CLEAR ==> v == CLEAR) && (!IsDamaged(s, i, j) ==> v == b))
  }

  /** Without clipping the viewport is the framebuffer. */
  ghost predicate Clean(s: Screen) {
    && !s.clip && s.vp == Viewport(0, 0, s.fbWidth, s.fbHeight)
    && s.back.width == s.fbWidth && s.back.height == s.fbHeight && Fits(s)
    && forall i, j :: CleanPixel(s, i, j)
  }

  ghost predicate CleanCanvas(c: Canvas) {
    forall i, j :: OpaqueOrClear(Get(c, i, j))
  }

  /** Blits carry opaque pixels, pictures opaque or fully transparent ones. */
  ghost predicate CleanAction(a: Action) {
    match a
    case Img(img, _, _, _, _) => CleanCanvas(img.pixels)
    case Frame(frame, _, _, _, _) => CleanCanvas(frame.pixels)
    case _ => OpaqueAction(a)
  }

  ghost predicate CleanState(d: State) {
    Clean(d.screen) && forall k :: 0 <= k < |d.queue| ==> CleanAction(d.queue[k])
  }

  ghost predicate CleanEvent(e: Event)
    requires e.Valid()
  {
    match e
    case Call(a) => CleanAction(a)
    case BlitCall(x, y, w, h, buffer, start) =>
      && OpaqueAction(Blit(x, y, w, h, buffer[..w * h * 4]))
      && OpaqueAction(Blit(x, y, w, h, buffer[start..start + w * h * 4]))
    case SetClip(clip) => !clip
    case _ => true
  }

  lemma OverOpaqueOrClear(src: Pixel, dst: Pixel)
    requires OpaqueOrClear(src)
    ensures Over(src, dst) == if Opaque(src) then src else dst
  {
    OverReplaces(src, dst);
    ClearPaintsNothing(dst);
  }

  lemma ClearPaintsNothing(color: Pixel)
    ensures Over(CLEAR, color) == color
  {
    assert color == Pixel(color.r, color.g, color.b, color.a);
  }

  lemma FlippedPixel(s: Screen, i: int, j: int)
    requires Clean(s) && Visible(s, i, j)
    ensures Get(Flipped(s).vis, i, j) == Get(s.back, i, j)
  {
    var b, v := Get(s.back, i, j), Get(s.vis, i, j);
    assert CleanPixel(s, i, j) && Behind(s, i, j) == b;
    FlipPaintsDamage(s, i, j);
    OverOpaqueOrClear(b, v);
  }

  lemma FlipKeepsClean(s: Screen)
    requires Clean(s)
    ensures Clean(Flipped(s)) && ShowsBackbuffer(Flipped(s))
  {
    var t := Flipped(s);
    assert t.back == s.back && t.vp == s.vp;
    forall i, j | Visible(t, i, j) ensures Get(t.vis, i, j) == Get(t.back, i, j) {
      FlippedPixel(s, i, j);
    }
    forall i, j ensures CleanPixel(t, i, j) {
      assert CleanPixel(s, i, j);
    }
  }

  /** Painting inside the damaged rectangle, where each pixel stays or becomes opaque. */
  lemma PaintKeepsClean(s: Screen, back: Canvas, x: int, y: int, w: int, h: int)
    requires Clean(s)
    requires back.width == s.back.width && back.height == s.back.height
    requires forall i, j :: !Covers(x, y, x + w, y + h, i, j) ==> Get(back, i, j) == Get(s.back, i, j)
    requires forall i, j :: Opaque(Get(back, i, j)) || Get(back, i, j) == Get(s.back, i, j)
    ensures Clean(Damaged(s.(back := back), x, y, w, h))
  {
    var t := Damaged(s.(back := back), x, y, w, h);
    forall i, j ensures CleanPixel(t, i, j) {
      assert CleanPixel(s, i, j);
    }
  }

  lemma DrawnKeepsOrCovers(dst: Canvas, src: Canvas, sx: int, sy: int, w: int, h: int, dx: int, dy: int, i: int, j: int)
    requires CleanCanvas(src)
    ensures var p := Get(Drawn(dst, src, sx, sy, w, h, dx, dy), i, j); Opaque(p) || p == Get(dst, i, j)
  {
    OverOpaqueOrClear(Get(src, i - dx + sx, j - dy + sy), Get(dst, i, j));
  }

  lemma DrawingKeepsClean(s: Screen, src: Canvas, sx: int, sy: int, w: int, h: int, x: int, y: int)
    requires Clean(s) && CleanCanvas(src)
    ensures Clean(Damaged(s.(back := Drawn(s.back, src, sx, sy, w, h, x, y)), x, y, w, h))
  {
    var back := Drawn(s.back, src, sx, sy, w, h, x, y);
    forall i, j ensures Opaque(Get(back, i, j)) || Get(back, i, j) == Get(s.back, i, j) {
      DrawnKeepsOrCovers(s.back, src, sx, sy, w, h, x, y, i, j);
    }
    PaintKeepsClean(s, back, x, y, w, h);
  }

  lemma BackIsClean(s: Screen)
    requires Clean(s)
    ensures CleanCanvas(s.back)
  {
    forall i, j ensures OpaqueOrClear(Get(s.back, i, j)) {
      assert CleanPixel(s, i, j);
    }
  }

  lemma BlitKeepsClean(s: Screen, x: int, y: int, w: nat, h: nat, data: seq<Byte>)
    requires Clean(s) && OpaqueAction(Blit(x, y, w, h, data))
    ensures Clean(Draw(s, Blit(x, y, w, h, data)))
  {
    var src := ImageData(data, w, h);
    var back := Put(s.back, src, x, y);
    forall i, j ensures Opaque(Get(back, i, j)) || Get(back, i, j) == Get(s.back, i, j) {
      if Covers(x, y, x + w, y + h, i, j) {
        assert Opaque(src.at(i - x, j - y));
      }
    }
    PaintKeepsClean(s, back, x, y, w, h);
  }

  lemma DrawKeepsClean(s: Screen, a: Action)
    requires Clean(s) && CleanAction(a)
    ensures Clean(Draw(s, a))
  {
    match a
    case Flip => FlipKeepsClean(s);
    case Copy(oldX, oldY, x, y, w, h) =>
      BackIsClean(s);
      DrawingKeepsClean(s, s.back, oldX, oldY, w, h, x, y);
    case Fill(x, y, w, h, color) => PaintKeepsClean(s, Filled(s.back, x, y, w, h, Style(color)), x, y, w, h);
    case Blit(x, y, w, h, data) => BlitKeepsClean(s, x, y, w, h, data);
    case Img(img, x, y, w, h) => DrawingKeepsClean(s, img.pixels, 0, 0, img.pixels.width, img.pixels.height, x, y);
    case Frame(frame, x, y, w, h) => DrawingKeepsClean(s, frame.pixels, 0, 0, w, h, x, y);
  }

  lemma {:induction false} ScanKeepsClean(d: State)
    requires CleanState(d)
    ensures CleanState(Scanned(d))
    decreases |d.queue|
  {
    if d.queue != [] && Ready(d.queue[0], d.ready) {
      DrawKeepsClean(d.screen, d.queue[0]);
      ScanKeepsClean(d.(screen := Draw(d.screen, d.queue[0]), queue := d.queue[1..]));
    }
  }

  lemma SubmitKeepsClean(d: State, a: Action)
    requires CleanState(d) && CleanAction(a)
    ensures CleanState(Submitted(d, a))
  {
    DrawKeepsClean(d.screen, a);
    ScanKeepsClean(d.(queue := d.queue + [a]));
  }

  /** A viewport that is the whole framebuffer stays where it is. */
  lemma MoveIsIdle(d: State, dx: real, dy: real)
    requires !d.screen.clip && d.screen.vp == Viewport(0, 0, d.screen.fbWidth, d.screen.fbHeight)
    ensures PosChanged(d, dx, dy) == d
  {}

  /** A framebuffer of another size starts with a blank visible canvas, all of it damaged. */
  lemma ResizeKeepsClean(d: State, width: nat, height: nat)
    requires d.screen.vp.x == d.screen.vp.y == 0 && !d.screen.clip && CleanCanvas(d.screen.back) && Fits(d.screen)
    requires Clean(d.screen) || d.screen.vis == Blank(d.screen.vp.w, d.screen.vp.h)
    requires Clean(d.screen) || forall i, j :: Get(d.screen.back, i, j) == CLEAR
    requires forall k :: 0 <= k < |d.queue| ==> CleanAction(d.queue[k])
    ensures CleanState(Resized(d, width, height))
  {
    var s := BackResized(d.screen, width, height);
    var t := s.(vp := Viewport(0, 0, width, height),
                vis := if s.vp.w == width && s.vp.h == height then s.vis else Blank(width, height));
    forall i, j ensures OpaqueOrClear(Get(s.back, i, j)) &&
                        (s.vp.w == width && s.vp.h == height && Visible(s, i, j) ==> CleanPixel(s, i, j)) {
      ResizedPixel(d.screen, width, height, i, j);
      assert Clean(d.screen) ==> CleanPixel(d.screen, i, j);
    }
    if s.vp.w == width && s.vp.h == height {
      assert t == s;
      forall i, j ensures CleanPixel(t, i, j) {}
      MoveIsIdle(d.(screen := t), 0.0, 0.0);
    } else {
      var u := Damaged(t, 0, 0, width, height);
      forall i, j ensures CleanPixel(u, i, j) {}
      MoveIsIdle(d.(screen := t), 0.0, 0.0);
      SubmitKeepsClean(d.(screen := u), Flip);
      MoveIsIdle(Reshown(d.(screen := t)), 0.0, 0.0);
    }
  }

  lemma StepKeepsClean(d: State, e: Event)
    requires e.Valid() && CleanEvent(e) && CleanState(d)
    ensures CleanState(Step(d, e))
  {
    match e
    case Call(a) => SubmitKeepsClean(d, a);
    case BlitCall(x, y, w, h, buffer, start) => SubmitKeepsClean(d, BlitAction(d, x, y, w, h, buffer, start));
    case Load(id) => ScanKeepsClean(d.(ready := d.ready + {id}));
    case Flush =>
    case MoveViewport(dx, dy) => MoveIsIdle(d, dx, dy);
    case SizeViewport(w, h) =>
    case SetClip(clip) => MoveIsIdle(d, 0.0, 0.0);
    case Resize(w, h) =>
      BackIsClean(d.screen);
      ResizeKeepsClean(d, w, h);
  }

  lemma {:induction false} RunKeepsClean(d: State, events: seq<Event>)
    requires AllValid(events) && forall k :: 0 <= k < |events| ==> CleanEvent(events[k])
    requires CleanState(d)
    ensures CleanState(Run(d, events))
    decreases |events|
  {
    if events != [] {
      StepKeepsClean(d, events[0]);
      RunKeepsClean(Step(d, events[0]), events[1..]);
    }
  }

  /** Without clipping, after the first resize of a new display and over every run with any
      resizes, every visible pixel outside the damage is exactly the backbuffer pixel, and a flip
      executed at any point makes the whole visible canvas equal to the backbuffer. */
  lemma UnclippedRunIsExact(targetWidth: nat, targetHeight: nat, backWidth: nat, backHeight: nat,
                            width: nat, height: nat, events: seq<Event>)
    requires AllValid(events) && forall k :: 0 <= k < |events| ==> CleanEvent(events[k])
    ensures var d := Resized(Fresh(targetWidth, targetHeight, backWidth, backHeight), width, height);
            var s := Run(d, events).screen;
            ExactOutsideDamage(s) && ShowsBackbuffer(Flipped(s))
  {
    var d := Fresh(targetWidth, targetHeight, backWidth, backHeight);
    ResizeKeepsClean(d, width, height);
    RunKeepsClean(Resized(d, width, height), events);
    var s := Run(Resized(d, width, height), events).screen;
    forall i, j | Visible(s, i, j) && !IsDamaged(s, i, j) ensures Get(s.vis, i, j) == Behind(s, i, j) {
      assert CleanPixel(s, i, j);
    }
    FlipKeepsClean(s);
  }

  // ----- With clipping a flip can leave a stale pixel -----

  /** A 2 x 1 framebuffer whose second column was never painted, seen through a 1 x 1 viewport at
      column x, nothing queued. */
  ghost predicate Peephole(d: State, x: int) {
    var s := d.screen;
    && d.queue == [] && s.clip && s.fbWidth == 2 && s.fbHeight == 1 && s.vp == Viewport(x, 0, 1, 1) && Fits(s)
    && s.back.width == 2 && s.back.height == 1 && Get(s.back, 1, 0) == CLEAR
  }

  /** A framebuffer of 2 x 1 that was never painted. */
  ghost predicate Unpainted(d: State, clip: bool) {
    var s := d.screen;
    && d.queue == [] && s.clip == clip && s.fbWidth == 2 && s.fbHeight == 1 && s.vp == Viewport(0, 0, 2, 1)
    && s.back.width == 2 && s.back.height == 1 && Get(s.back, 0, 0) == CLEAR && Get(s.back, 1, 0) == CLEAR
  }

  lemma FirstResize(d: State, tw: nat, th: nat, bw: nat, bh: nat)
    requires d == Fresh(tw, th, bw, bh)
    ensures Unpainted(Resized(d, 2, 1), false)
  {
    ResizedPixel(d.screen, 2, 1, 0, 0);
    ResizedPixel(d.screen, 2, 1, 1, 0);
    ResizeKeepsClean(d, 2, 1);
  }

  lemma Clipped(d: State)
    requires Unpainted(d, false)
    ensures Unpainted(ClipSet(d, true), true)
  {
    assert (2.0).Floor == 2 && (1.0).Floor == 1 && (0.0).Floor == 0;
    var c := d.(screen := d.screen.(clip := true));
    assert WantedSize(c.screen, Some(2.0), Some(1.0)) == (2, 1);
    assert SlideX(0, 2, 2, 0, true) == 0 && SlideY(0, 1, 1, 0, true) == 0;
    assert ClipSet(d, true) == c;
  }

  lemma Narrowed(d: State)
    requires Unpainted(d, true)
    ensures Peephole(SizeChanged(d, Some(1.0), Some(1.0)), 0)
  {
    assert (1.0).Floor == 1 && (0.0).Floor == 0;
    assert WantedSize(d.screen, Some(1.0), Some(1.0)) == (1, 1);
    var s := d.(screen := d.screen.(vp := Viewport(0, 0, 1, 1), vis := Blank(1, 1)));
    assert SlideX(0, 1, 2, 0, true) == 0 && SlideY(0, 1, 1, 0, true) == 0;
    assert PosChanged(s, 0.0, 0.0) == s;
    assert SizeChanged(d, Some(1.0), Some(1.0)) == Reshown(s);
  }

  lemma FilledPixel(c: Canvas, x: int, y: int, w: nat, h: nat, color: Pixel, i: int, j: int)
    requires 0 <= i < c.width && 0 <= j < c.height
    ensures Get(Filled(c, x, y, w, h, color), i, j) ==
            if Covers(x, y, x + w, y + h, i, j) then color else Get(c, i, j)
  {}

  lemma FilledAndShown(d: State, color: Rgb)
    requires Peephole(d, 0)
    ensures var t := Step(Step(d, Call(Fill(0, 0, 1, 1, color))), Call(Flip));
            Peephole(t, 0) && Get(t.screen.vis, 0, 0) == Style(color)
  {
    var s := Draw(d.screen, Fill(0, 0, 1, 1, color));
    FilledPixel(d.screen.back, 0, 0, 1, 1, Style(color), 0, 0);
    FilledPixel(d.screen.back, 0, 0, 1, 1, Style(color), 1, 0);
    assert Behind(s, 0, 0) == Style(color) && IsDamaged(s, 0, 0);
    FlipPaintsDamage(s, 0, 0);
    OverReplaces(Style(color), Get(s.vis, 0, 0));
  }

  lemma MovedAside(d: State)
    requires Peephole(d, 0)
    ensures var t := PosChanged(d, 1.0, 0.0);
            Peephole(t, 1) && t.screen.damage == UNDAMAGED && Get(t.screen.vis, 0, 0) == Get(d.screen.vis, 0, 0)
  {
    assert (1.0).Floor == 1 && (0.0).Floor == 0;
    assert SlideX(0, 1, 2, 1, true) == 1 && SlideY(0, 1, 1, 0, true) == 0;
    var s := d.screen.(vp := Viewport(1, 0, 1, 1));
    var u := Damaged(s, 1, 0, 1, 1);
    FlipPaintsDamage(u, 0, 0);
    ClearPaintsNothing(Get(d.screen.vis, 0, 0));
  }

  ghost predicate StaleRun(events: seq<Event>, color: Rgb) {
    && |events| == 6
    && events[0] == Resize(2, 1) && events[1] == SetClip(true) && events[2] == SizeViewport(Some(1.0), Some(1.0))
    && events[3] == Call(Fill(0, 0, 1, 1, color)) && events[4] == Call(Flip) && events[5] == MoveViewport(1.0, 0.0)
  }

  lemma RunTwo(d: State, e: seq<Event>)
    requires |e| >= 2 && AllValid(e)
    ensures AllValid(e[2..]) && Run(d, e) == Run(Step(Step(d, e[0]), e[1]), e[2..])
  {
    assert e[1..][0] == e[1] && e[1..][1..] == e[2..];
  }

  lemma SixSteps(d: State, color: Rgb)
    requires Unpainted(Resized(d, 2, 1), false)
    ensures var d3 := Step(Step(Step(d, Resize(2, 1)), SetClip(true)), SizeViewport(Some(1.0), Some(1.0)));
            var t := Step(Step(Step(d3, Call(Fill(0, 0, 1, 1, color))), Call(Flip)), MoveViewport(1.0, 0.0));
            Peephole(t, 1) && t.screen.damage == UNDAMAGED && Get(t.screen.vis, 0, 0) == Style(color)
  {
    FirstThree(d);
    LastThree(Step(Step(Step(d, Resize(2, 1)), SetClip(true)), SizeViewport(Some(1.0), Some(1.0))), color);
  }

  lemma FirstThree(d: State)
    requires Unpainted(Resized(d, 2, 1), false)
    ensures Peephole(Step(Step(Step(d, Resize(2, 1)), SetClip(true)), SizeViewport(Some(1.0), Some(1.0))), 0)
  {
    Clipped(Resized(d, 2, 1));
    Narrowed(ClipSet(Resized(d, 2, 1), true));
  }

  lemma LastThree(d: State, color: Rgb)
    requires Peephole(d, 0)
    ensures var t := Step(Step(Step(d, Call(Fill(0, 0, 1, 1, color))), Call(Flip)), MoveViewport(1.0, 0.0));
            Peephole(t, 1) && t.screen.damage == UNDAMAGED && Get(t.screen.vis, 0, 0) == Style(color)
  {
    FilledAndShown(d, color);
    MovedAside(Step(Step(d, Call(Fill(0, 0, 1, 1, color))), Call(Flip)));
  }

  lemma RunOfSix(d: State, e: seq<Event>)
    requires |e| == 6 && AllValid(e)
    ensures Run(d, e) == Step(Step(Step(Step(Step(Step(d, e[0]), e[1]), e[2]), e[3]), e[4]), e[5])
  {
    var d2 := Step(Step(d, e[0]), e[1]);
    var d4 := Step(Step(d2, e[2]), e[3]);
    RunTwo(d, e);
    RunTwo(d2, e[2..]);
    assert e[2..][2..] == e[4..];
    RunTwo(d4, e[4..]);
    assert e[4..][2..] == [];
  }

  lemma StaleRunState(d: State, events: seq<Event>, color: Rgb)
    requires Unpainted(Resized(d, 2, 1), false) && StaleRun(events, color) && AllValid(events)
    ensures var t := Run(d, events);
            Peephole(t, 1) && t.screen.damage == UNDAMAGED && Get(t.screen.vis, 0, 0) == Style(color)
  {
    RunOfSix(d, events);
    SixSteps(d, color);
  }

  /** Resize, clip, shrink the viewport to column 0, fill that, flip, and move to column 1: whatever
      the new display was, column 0's colour is still shown for column 1, which was never painted,
      and no damage is left that a later flip could repair. */
  lemma UnpaintedPixelStaysStale(targetWidth: nat, targetHeight: nat, backWidth: nat, backHeight: nat,
                                 events: seq<Event>, color: Rgb)
    requires StaleRun(events, color)
    ensures AllValid(events)
    ensures var s := Run(Fresh(targetWidth, targetHeight, backWidth, backHeight), events).screen;
            && s.vp == Viewport(1, 0, 1, 1) && s.damage == UNDAMAGED
            && Get(s.vis, 0, 0) == Style(color) && Behind(s, 0, 0) == CLEAR && !ShowsBackbuffer(Flipped(s))
  {
    var d := Fresh(targetWidth, targetHeight, backWidth, backHeight);
    FirstResize(d, targetWidth, targetHeight, backWidth, backHeight);
    StaleRunValid(events, color);
    StaleRunState(d, events, color);
    StaysStale(Run(d, events));
  }

  lemma StaleRunValid(events: seq<Event>, color: Rgb)
    requires StaleRun(events, color)
    ensures AllValid(events)
  {}

  lemma StaysStale(d: State)
    requires Peephole(d, 1) && Get(d.screen.vis, 0, 0) != CLEAR && d.screen.damage == UNDAMAGED
    ensures Behind(d.screen, 0, 0) == CLEAR && !ShowsBackbuffer(Flipped(d.screen))
  {
    var t := Flipped(d.screen);
    FlipPaintsDamage(d.screen, 0, 0);
    assert Visible(t, 0, 0) && Behind(t, 0, 0) == CLEAR && Get(t.vis, 0, 0) != CLEAR;
  }
}
