module DisplaySync {
  import opened Canvases
  import opened Basics
  import opened DisplayModel
  import opened DisplayViewport

  // ----- What a flip shows -----

  /** The backbuffer pixel that visible pixel (i, j) stands for. */
  function Behind(s: Screen, i: int, j: int): Pixel {
    Get(s.back, i + s.vp.x, j + s.vp.y)
  }

  predicate IsDamaged(s: Screen, i: int, j: int) {
    InRect(s.damage, i + s.vp.x, j + s.vp.y)
  }

  predicate Visible(s: Screen, i: int, j: int) {
    0 <= i < s.vp.w && 0 <= j < s.vp.h
  }

  /** The visible canvas always has the size of the viewport. */
  predicate Fits(s: Screen) {
    s.vis.width == s.vp.w && s.vis.height == s.vp.h
  }

  /** The clipping arithmetic of a flip means: paint exactly the damaged part of the viewport. */
  lemma FlipPaintsDamage(s: Screen, i: int, j: int)
    requires Fits(s) && Visible(s, i, j)
    ensures Get(Flipped(s).vis, i, j) ==
            if IsDamaged(s, i, j) then Over(Behind(s, i, j), Get(s.vis, i, j)) else Get(s.vis, i, j)
  {
    var a := AreaToFlip(s);
    assert IsDamaged(s, i, j) <==> Covers(a.vx, a.vy, a.vx + a.w, a.vy + a.h, i, j);
    assert i - a.vx + a.x == i + s.vp.x && j - a.vy + a.y == j + s.vp.y;
  }

  // ----- Dirty rectangle -----

  /** Outside the damage an opaque backbuffer pixel is the visible one. */
  predicate PixelSynced(s: Screen, i: int, j: int) {
    Visible(s, i, j) && !IsDamaged(s, i, j) && Opaque(Behind(s, i, j)) ==>
      Get(s.vis, i, j) == Behind(s, i, j)
  }

  ghost predicate Synced(s: Screen) {
    && Fits(s)
    && forall i, j :: PixelSynced(s, i, j)
  }

  lemma FlipKeepsSync(s: Screen)
    requires Synced(s)
    ensures Synced(Flipped(s))
  {
    var t := Flipped(s);
    forall i, j ensures PixelSynced(t, i, j) {
      if Visible(s, i, j) {
        FlipPaintsDamage(s, i, j);
        assert PixelSynced(s, i, j);
        OverReplaces(Behind(s, i, j), Get(s.vis, i, j));
      }
    }
  }

  /** A change of the backbuffer that stays inside the rectangle it damages is harmless. */
  lemma PaintKeepsSync(s: Screen, back: Canvas, x: int, y: int, w: int, h: int)
    requires Synced(s)
    requires back.width == s.back.width && back.height == s.back.height
    requires forall i, j :: !Covers(x, y, x + w, y + h, i, j) ==> Get(back, i, j) == Get(s.back, i, j)
    ensures Synced(Damaged(s.(back := back), x, y, w, h))
  {
    var t := Damaged(s.(back := back), x, y, w, h);
    forall i, j ensures PixelSynced(t, i, j) {
      assert PixelSynced(s, i, j);
    }
  }

  lemma DrawKeepsSync(s: Screen, a: Action)
    requires Synced(s)
    ensures Synced(Draw(s, a))
  {
    match a
    case Flip => FlipKeepsSync(s);
    case Copy(oldX, oldY, x, y, w, h) => PaintKeepsSync(s, Drawn(s.back, s.back, oldX, oldY, w, h, x, y), x, y, w, h);
    case Fill(x, y, w, h, color) => PaintKeepsSync(s, Filled(s.back, x, y, w, h, Style(color)), x, y, w, h);
    case Blit(x, y, w, h, data) => PaintKeepsSync(s, Put(s.back, ImageData(data, w, h), x, y), x, y, w, h);
    case Img(img, x, y, w, h) =>
      var p := img.pixels;
      PaintKeepsSync(s, Drawn(s.back, p, 0, 0, p.width, p.height, x, y), x, y, p.width, p.height);
    case Frame(frame, x, y, w, h) => PaintKeepsSync(s, Drawn(s.back, frame.pixels, 0, 0, w, h, x, y), x, y, w, h);
  }

  lemma {:induction false} ScanKeepsSync(d: State)
    requires Synced(d.screen)
    ensures Synced(Scanned(d).screen)
    decreases |d.queue|
  {
    if d.queue != [] && Ready(d.queue[0], d.ready) {
      DrawKeepsSync(d.screen, d.queue[0]);
      ScanKeepsSync(d.(screen := Draw(d.screen, d.queue[0]), queue := d.queue[1..]));
    }
  }

  lemma SubmitKeepsSync(d: State, a: Action)
    requires Synced(d.screen)
    ensures Synced(Submitted(d, a).screen)
  {
    DrawKeepsSync(d.screen, a);
    ScanKeepsSync(d.(queue := d.queue + [a]));
  }

  /** Damaging the whole viewport makes any contents acceptable. */
  lemma WholeViewportDamaged(s: Screen)
    requires Fits(s)
    ensures Synced(Damaged(s, s.vp.x, s.vp.y, s.vp.w, s.vp.h))
  {
    var t := Damaged(s, s.vp.x, s.vp.y, s.vp.w, s.vp.h);
    forall i, j ensures PixelSynced(t, i, j) {
      assert Visible(t, i, j) ==> IsDamaged(t, i, j);
    }
  }

  lemma ReshowSyncs(d: State)
    requires Fits(d.screen)
    ensures Synced(Reshown(d).screen)
  {
    var vp := d.screen.vp;
    WholeViewportDamaged(d.screen);
    SubmitKeepsSync(d.(screen := Damaged(d.screen, vp.x, vp.y, vp.w, vp.h)), Flip);
  }

  lemma MoveKeepsSync(d: State, dx: real, dy: real)
    requires Fits(d.screen)
    ensures Fits(PosChanged(d, dx, dy).screen)
    ensures Synced(d.screen) ==> Synced(PosChanged(d, dx, dy).screen)
  {
    var vp := Slid(d.screen, dx.Floor, dy.Floor);
    if vp != d.screen.vp {
      ReshowSyncs(d.(screen := d.screen.(vp := vp)));
    }
  }

  lemma SizeKeepsSync(d: State, width: Option<real>, height: Option<real>)
    requires NonNegative(width) && NonNegative(height)
    requires Synced(d.screen)
    ensures Synced(SizeChanged(d, width, height).screen)
  {
    var s := d.screen;
    var (w, h) := WantedSize(s, width, height);
    if s.vp.w != w || s.vp.h != h {
      var sized := d.(screen := s.(vp := s.vp.(w := w, h := h), vis := Blank(w, h)));
      MoveKeepsSync(sized, 0.0, 0.0);
      ReshowSyncs(PosChanged(sized, 0.0, 0.0));
    }
  }

  lemma ReadjustKeepsSync(d: State)
    requires Synced(d.screen)
    ensures Synced(Readjusted(d).screen)
  {
    var vp := d.screen.vp;
    var w, h := Some(vp.w as real), Some(vp.h as real);
    SizeKeepsSync(d, w, h);
    MoveKeepsSync(SizeChanged(d, w, h), 0.0, 0.0);
  }

  /** A resize keeps every backbuffer pixel that exists before and after, and clears the rest. */
  lemma ResizedPixel(s: Screen, width: nat, height: nat, x: int, y: int)
    ensures var t := BackResized(s, width, height);
            Get(t.back, x, y) == if 0 <= x < width && 0 <= y < height then Get(s.back, x, y) else CLEAR
  {
    var same := s.back.width == width && s.back.height == height;
    if !same && s.back.width > 0 && s.back.height > 0 {
      var put := Put(Blank(width, height), s.back, 0, 0);
      assert Covers(0, 0, 0 + s.back.width, 0 + s.back.height, x, y) <==>
             0 <= x < s.back.width && 0 <= y < s.back.height;
      assert put.at(x, y) == if 0 <= x < s.back.width && 0 <= y < s.back.height then s.back.at(x - 0, y - 0) else CLEAR;
    }
  }

  lemma BackResizeKeepsSync(s: Screen, width: nat, height: nat)
    requires Synced(s)
    ensures Synced(BackResized(s, width, height))
  {
    var t := BackResized(s, width, height);
    forall i, j ensures PixelSynced(t, i, j) {
      ResizedPixel(s, width, height, i + s.vp.x, j + s.vp.y);
      assert PixelSynced(s, i, j);
    }
  }

  lemma StepKeepsSync(d: State, e: Event)
    requires e.Valid() && Synced(d.screen)
    ensures Synced(Step(d, e).screen)
  {
    match e
    case Call(a) => SubmitKeepsSync(d, a);
    case BlitCall(x, y, w, h, buffer, start) => SubmitKeepsSync(d, BlitAction(d, x, y, w, h, buffer, start));
    case Load(id) => ScanKeepsSync(d.(ready := d.ready + {id}));
    case Flush =>
    case MoveViewport(dx, dy) => MoveKeepsSync(d, dx, dy);
    case SizeViewport(w, h) => SizeKeepsSync(d, w, h);
    case SetClip(clip) =>
      forall i, j ensures PixelSynced(d.screen.(clip := clip), i, j) {
        assert PixelSynced(d.screen, i, j);
      }
      ReadjustKeepsSync(d.(screen := d.screen.(clip := clip)));
    case Resize(w, h) =>
      BackResizeKeepsSync(d.screen, w, h);
      ReadjustKeepsSync(d.(screen := BackResized(d.screen, w, h)));
  }

  lemma {:induction false} RunKeepsSync(d: State, events: seq<Event>)
    requires AllValid(events) && Synced(d.screen)
    ensures Synced(Run(d, events).screen)
    decreases |events|
  {
    if events != [] {
      StepKeepsSync(d, events[0]);
      RunKeepsSync(Step(d, events[0]), events[1..]);
    }
  }

  /** Dirty-rectangle soundness over every run of a new display, before and after its first resize. */
  lemma DirtyRectangleSound(targetWidth: nat, targetHeight: nat, backWidth: nat, backHeight: nat, events: seq<Event>)
    requires AllValid(events)
    ensures Synced(Run(Fresh(targetWidth, targetHeight, backWidth, backHeight), events).screen)
  {
    var d := Fresh(targetWidth, targetHeight, backWidth, backHeight);
    forall i, j ensures PixelSynced(d.screen, i, j) {
    }
    RunKeepsSync(d, events);
  }

  ghost predicate ExactOutsideDamage(s: Screen) {
    forall i, j :: Visible(s, i, j) && !IsDamaged(s, i, j) ==> Get(s.vis, i, j) == Behind(s, i, j)
  }

  ghost predicate ShowsBackbuffer(s: Screen) {
    forall i, j :: Visible(s, i, j) ==> Get(s.vis, i, j) == Behind(s, i, j)
  }

  /** A flip makes the visible canvas equal to the backbuffer exactly when no damaged pixel lets
      an old visible pixel shine through. */
  lemma FlipIsExactIff(s: Screen)
    requires Fits(s) && ExactOutsideDamage(s)
    ensures ShowsBackbuffer(Flipped(s)) <==>
            forall i, j :: Visible(s, i, j) && IsDamaged(s, i, j) ==>
              Opaque(Behind(s, i, j)) || Get(s.vis, i, j) == CLEAR
  {
    var t := Flipped(s);
    forall i, j | Visible(s, i, j)
      ensures Get(t.vis, i, j) == Behind(t, i, j) <==>
              (IsDamaged(s, i, j) ==> Opaque(Behind(s, i, j)) || Get(s.vis, i, j) == CLEAR)
    {
      FlipPaintsDamage(s, i, j);
      OverReplaces(Behind(s, i, j), Get(s.vis, i, j));
      assert Behind(t, i, j) == Behind(s, i, j);
    }
    if ShowsBackbuffer(t) {
      forall i, j | Visible(s, i, j) && IsDamaged(s, i, j)
        ensures Opaque(Behind(s, i, j)) || Get(s.vis, i, j) == CLEAR
      {
        assert Visible(t, i, j);
      }
    }
  }
}
