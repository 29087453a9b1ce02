/** What every drawing action does to every pixel and to the damage, where the viewport calls put
    the viewport, and which pictures hold up the queue for good. */
module DisplayPixels {
  import opened Canvases
  import opened Basics
  import opened DisplayModel
  import opened DisplayViewport
  import opened DisplayOrder

  // ----- Pixels -----

  predicate OnBack(s: Screen, i: int, j: int) {
    0 <= i < s.back.width && 0 <= j < s.back.height
  }

  /** A copy within the backbuffer lays the old pixel of the source over each pixel of the target. */
  lemma CopyPixel(s: Screen, oldX: int, oldY: int, x: int, y: int, w: nat, h: nat, i: int, j: int)
    requires OnBack(s, i, j)
    ensures Get(Draw(s, Copy(oldX, oldY, x, y, w, h)).back, i, j) ==
            if x <= i < x + w && y <= j < y + h
            then Over(Get(s.back, i - x + oldX, j - y + oldY), Get(s.back, i, j))
            else Get(s.back, i, j)
  {}

  lemma FillPixel(s: Screen, x: int, y: int, w: nat, h: nat, color: Rgb, i: int, j: int)
    requires OnBack(s, i, j)
    ensures Get(Draw(s, Fill(x, y, w, h, color)).back, i, j) ==
            if x <= i < x + w && y <= j < y + h
            then Pixel(color.r as real / 255.0, color.g as real / 255.0, color.b as real / 255.0, 1.0)
            else Get(s.back, i, j)
  {
    assert Filled(s.back, x, y, w, h, Style(color)).at(i, j) ==
           if Covers(x, y, x + w, y + h, i, j) then Style(color) else s.back.at(i, j);
  }

  /** A blit replaces pixels, alpha included. Its bytes are RGBA, row by row, and not premultiplied. */
  lemma BlitPixel(s: Screen, x: int, y: int, w: nat, h: nat, data: seq<Byte>, i: int, j: int)
    requires OnBack(s, i, j) && |data| == w * h * 4
    ensures var got := Get(Draw(s, Blit(x, y, w, h, data)).back, i, j);
            if x <= i < x + w && y <= j < y + h
            then
              var k := ((j - y) * w + i - x) * 4;
              && 0 <= k && k + 3 < |data|
              && var a := data[k + 3] as real / 255.0;
                 got == Pixel(data[k] as real / 255.0 * a, data[k + 1] as real / 255.0 * a,
                              data[k + 2] as real / 255.0 * a, a)
            else got == Get(s.back, i, j)
  {
    var img := ImageData(data, w, h);
    assert Put(s.back, img, x, y).at(i, j) ==
           if Covers(x, y, x + w, y + h, i, j) then img.at(i - x, j - y) else s.back.at(i, j);
    if x <= i < x + w && y <= j < y + h {
      RowByRow(i - x, j - y, w, h);
      var n := (j - y) * w + (i - x);
      assert 0 <= n < w * h && |data| == w * h * 4;
      assert img.at(i - x, j - y) == PixelOf(data, n * 4);
    }
  }

  lemma RowByRow(column: nat, row: nat, w: nat, h: nat)
    requires column < w && row < h
    ensures 0 <= row * w + column < w * h
  {
    assert (row + 1) * w <= h * w by {
      NoMore(row + 1, h, w);
    }
  }

  lemma NoMore(a: nat, b: nat, c: nat)
    requires a <= b
    ensures a * c <= b * c
  {}

  /** An image covers a rectangle of its own size, wherever it was announced to. */
  lemma ImagePixel(s: Screen, img: Picture, x: int, y: int, w: nat, h: nat, i: int, j: int)
    requires OnBack(s, i, j)
    ensures Get(Draw(s, Img(img, x, y, w, h)).back, i, j) ==
            if x <= i < x + img.pixels.width && y <= j < y + img.pixels.height
            then Over(img.pixels.at(i - x, j - y), Get(s.back, i, j))
            else Get(s.back, i, j)
  {}

  /** A video frame is cut to the announced rectangle, and clear where it is smaller. */
  lemma FramePixel(s: Screen, frame: Picture, x: int, y: int, w: nat, h: nat, i: int, j: int)
    requires OnBack(s, i, j)
    ensures Get(Draw(s, Frame(frame, x, y, w, h)).back, i, j) ==
            if x <= i < x + w && y <= j < y + h
            then Over(Get(frame.pixels, i - x, j - y), Get(s.back, i, j))
            else Get(s.back, i, j)
  {}

  // ----- Damage -----

  predicate Encloses(r: Rect, x: int, y: int, w: int, h: int) {
    r.left <= x && r.top <= y && x + w <= r.right && y + h <= r.bottom
  }

  predicate Within(r: Rect, q: Rect) {
    q.left <= r.left && q.top <= r.top && r.right <= q.right && r.bottom <= q.bottom
  }

  /** The target rectangle of an action. */
  predicate Targets(a: Action, x: int, y: int, w: nat, h: nat) {
    match a
    case Flip => false
    case Copy(_, _, ax, ay, aw, ah) => x == ax && y == ay && w == aw && h == ah
    case Fill(ax, ay, aw, ah, _) => x == ax && y == ay && w == aw && h == ah
    case Blit(ax, ay, aw, ah, _) => x == ax && y == ay && w == aw && h == ah
    case Img(img, ax, ay, _, _) => x == ax && y == ay && w == img.pixels.width && h == img.pixels.height
    case Frame(_, ax, ay, aw, ah) => x == ax && y == ay && w == aw && h == ah
  }

  /** A drawing action grows the damage to the smallest rectangle that holds the old damage and its
      target, and leaves all but the backbuffer's pixels as it was. */
  lemma DrawDamages(s: Screen, a: Action, x: int, y: int, w: nat, h: nat, q: Rect)
    requires Targets(a, x, y, w, h)
    ensures var t := Draw(s, a);
            && Within(s.damage, t.damage) && Encloses(t.damage, x, y, w, h)
            && (Within(s.damage, q) && Encloses(q, x, y, w, h) ==> Within(t.damage, q))
            && t.(back := s.back, damage := s.damage) == s
            && t.back.width == s.back.width && t.back.height == s.back.height
  {}

  /** After a flip nothing is damaged, and the next action of the first 65536 rows and columns
      damages exactly its target. */
  lemma FlipForgets(s: Screen, x: int, y: int, w: nat, h: nat)
    ensures forall i, j :: !InRect(Flipped(s).damage, i, j)
    ensures 0 <= x <= 65535 && 0 <= y <= 65535 ==>
              Damaged(Flipped(s), x, y, w, h).damage == Rect(x, y, x + w, y + h)
    ensures Flipped(s).back == s.back && SameFrame(s, Flipped(s))
  {}

  // ----- The viewport -----

  /** A move changes neither size, and goes to the asked place or the nearest one inside: down to the
      row, and, from a column that is not negative, to the column. */
  lemma MovedTo(d: State, dx: real, dy: real)
    requires d.screen.clip && d.screen.vp.w <= d.screen.fbWidth && d.screen.vp.h <= d.screen.fbHeight
    ensures var s, t := d.screen, Step(d, MoveViewport(dx, dy)).screen;
            && t.vp.w == s.vp.w && t.vp.h == s.vp.h
            && t.vp.y == Clamp(s.vp.y + dy.Floor, 0, s.fbHeight - s.vp.h)
            && (s.vp.x >= 0 ==> t.vp.x == Clamp(s.vp.x + dx.Floor, 0, s.fbWidth - s.vp.w))
  {
    MoveFrame(d, dx, dy);
  }

  /** The size asked for, rounded down, or that of the framebuffer: where it is smaller, without
      clipping, or if a number is missing. The new visible canvas has that size, too. */
  lemma SizedTo(d: State, width: Option<real>, height: Option<real>)
    requires NonNegative(width) && NonNegative(height)
    ensures var s, t := d.screen, Step(d, SizeViewport(width, height)).screen;
            && t.fbWidth == s.fbWidth && t.fbHeight == s.fbHeight && t.clip == s.clip
            && if !s.clip || width.None? || height.None? then t.vp.w == s.fbWidth && t.vp.h == s.fbHeight
               else
                 && t.vp.w == (if width.value.Floor > s.fbWidth then s.fbWidth else width.value.Floor)
                 && t.vp.h == (if height.value.Floor > s.fbHeight then s.fbHeight else height.value.Floor)
  {
    SizeFrame(d, width, height);
  }

  /** A resize and the clip setter take over what they were given, and fit the viewport's size. */
  lemma ResizedTo(d: State, width: nat, height: nat)
    ensures var s, t := d.screen, Step(d, Resize(width, height)).screen;
            && t.fbWidth == width && t.fbHeight == height && t.clip == s.clip
            && t.vp.w == (if !s.clip || s.vp.w > width then width else s.vp.w)
            && t.vp.h == (if !s.clip || s.vp.h > height then height else s.vp.h)
  {
    FrameAfterReadjust(d.(screen := BackResized(d.screen, width, height)));
  }

  lemma ClippedTo(d: State, clip: bool)
    ensures var s, t := d.screen, Step(d, SetClip(clip)).screen;
            && t.fbWidth == s.fbWidth && t.fbHeight == s.fbHeight && t.clip == clip
            && t.vp.w == (if !clip || s.vp.w > s.fbWidth then s.fbWidth else s.vp.w)
            && t.vp.h == (if !clip || s.vp.h > s.fbHeight then s.fbHeight else s.vp.h)
  {
    FrameAfterReadjust(d.(screen := d.screen.(clip := clip)));
  }

  // ----- A picture of the wrong size -----

  predicate WrongSize(a: Action) {
    a.Img? && (a.img.pixels.width != a.w || a.img.pixels.height != a.h)
  }

  /** One whose decoded size is not the announced one stays at the head of the queue whatever is
      called or becomes ready, and nothing that is drawn later gets past it. */
  lemma {:induction false} WrongSizeStaysForever(d: State, events: seq<Event>)
    requires d.queue != [] && WrongSize(d.queue[0]) && AllValid(events)
    ensures var t := Run(d, events);
            |t.queue| >= |d.queue| && t.queue[..|d.queue|] == d.queue
    decreases |events|
  {
    if events != [] {
      var d1 := Step(d, events[0]);
      WrongSizeStays(d, events[0]);
      assert d1.queue[0] == d1.queue[..|d.queue|][0];
      WrongSizeStaysForever(d1, events[1..]);
      assert Run(d, events).queue[..|d.queue|] == Run(d, events).queue[..|d1.queue|][..|d.queue|];
    }
  }

  lemma WrongSizeStays(d: State, e: Event)
    requires d.queue != [] && WrongSize(d.queue[0]) && e.Valid()
    ensures var t := Step(d, e);
            |t.queue| >= |d.queue| && t.queue[..|d.queue|] == d.queue
  {
    match e
    case MoveViewport(dx, dy) => MoveAddsFlips(d, dx, dy);
    case SizeViewport(w, h) => SizeAddsFlips(d, w, h);
    case SetClip(clip) => ReadjustAddsFlips(d.(screen := d.screen.(clip := clip)));
    case Resize(w, h) => ReadjustAddsFlips(d.(screen := BackResized(d.screen, w, h)));
    case _ =>
  }

  /** Any other picture that holds up the queue is drawn as soon as it is loaded, and the scan goes on. */
  lemma LoadedIsDrawn(d: State, id: nat)
    requires d.queue != [] && !WrongSize(d.queue[0]) && AwaitsAt(d.queue[0], d.ready) == Some(id)
    ensures Loaded(d, id) ==
            Scanned(d.(screen := Draw(d.screen, d.queue[0]), queue := d.queue[1..], ready := d.ready + {id}))
  {}
}
