/** The viewport stays inside the framebuffer. */
module DisplayViewport {
  import opened Canvases
  import opened Basics
  import opened DisplayModel

  function Clamp(v: int, low: int, high: int): int
    requires low <= high
  {
    if v < low then low else if v > high then high else v
  }

  /** From a position that is not negative, a slide is a clamp into the framebuffer;
      without clipping the viewport goes back to the origin. */
  lemma SlideIsClamp(x: int, w: nat, fb: nat, delta: int, clip: bool)
    requires 0 <= x && w <= fb
    requires !clip ==> w == fb
    ensures SlideX(x, w, fb, delta, clip) == (if clip then Clamp(x + delta, 0, fb - w) else 0)
    ensures SlideY(x, w, fb, delta, clip) == (if clip then Clamp(x + delta, 0, fb - w) else 0)
  {}

  predicate Contained(s: Screen) {
    && 0 <= s.vp.x && s.vp.x + s.vp.w <= s.fbWidth
    && 0 <= s.vp.y && s.vp.y + s.vp.h <= s.fbHeight
    && (!s.clip ==> s.vp == Viewport(0, 0, s.fbWidth, s.fbHeight))
  }

  /** Drawing touches neither the viewport nor the framebuffer size. */
  predicate SameFrame(s: Screen, t: Screen) {
    s.vp == t.vp && s.fbWidth == t.fbWidth && s.fbHeight == t.fbHeight && s.clip == t.clip
  }

  lemma {:induction false} ScanKeepsFrame(d: State)
    ensures SameFrame(d.screen, Scanned(d).screen)
    decreases |d.queue|
  {
    if d.queue != [] && Ready(d.queue[0], d.ready) {
      ScanKeepsFrame(d.(screen := Draw(d.screen, d.queue[0]), queue := d.queue[1..]));
    }
  }

  lemma SubmitKeepsFrame(d: State, a: Action)
    ensures SameFrame(d.screen, Submitted(d, a).screen)
  {
    ScanKeepsFrame(d.(queue := d.queue + [a]));
  }

  lemma ReshowKeepsFrame(d: State)
    ensures SameFrame(d.screen, Reshown(d).screen)
  {
    var vp := d.screen.vp;
    SubmitKeepsFrame(d.(screen := Damaged(d.screen, vp.x, vp.y, vp.w, vp.h)), Flip);
  }

  /** The new position after `viewportChangePos`, whatever happens to the queue. */
  lemma MoveFrame(d: State, dx: real, dy: real)
    ensures var s, t := d.screen, PosChanged(d, dx, dy).screen;
            t.vp == Slid(s, dx.Floor, dy.Floor)
            && t.fbWidth == s.fbWidth && t.fbHeight == s.fbHeight && t.clip == s.clip
  {
    ReshowKeepsFrame(d.(screen := d.screen.(vp := Slid(d.screen, dx.Floor, dy.Floor))));
  }

  lemma SizeFrame(d: State, width: Option<real>, height: Option<real>)
    requires NonNegative(width) && NonNegative(height)
    ensures var s, t := d.screen, SizeChanged(d, width, height).screen;
            var (w, h) := WantedSize(s, width, height);
            && t.fbWidth == s.fbWidth && t.fbHeight == s.fbHeight && t.clip == s.clip
            && t.vp == if s.vp.w == w && s.vp.h == h then s.vp
                       else Viewport(SlideX(s.vp.x, w, s.fbWidth, 0, s.clip),
                                     SlideY(s.vp.y, h, s.fbHeight, 0, s.clip), w, h)
  {
    var s := d.screen;
    var (w, h) := WantedSize(s, width, height);
    if s.vp.w != w || s.vp.h != h {
      var sized := d.(screen := s.(vp := s.vp.(w := w, h := h), vis := Blank(w, h)));
      MoveFrame(sized, 0.0, 0.0);
      assert (0.0).Floor == 0;
      ReshowKeepsFrame(PosChanged(sized, 0.0, 0.0));
    }
  }

  /** Readjusting contains the viewport exactly when its column is not negative, or clipping is
      off and there are columns to go back over: only the row is clamped without a move. */
  lemma ReadjustContainsIff(d: State)
    ensures Contained(Readjusted(d).screen) <==> d.screen.vp.x >= 0 || (!d.screen.clip && d.screen.fbWidth > 0)
  {
    var vp := d.screen.vp;
    var w, h := Some(vp.w as real), Some(vp.h as real);
    assert (vp.w as real).Floor == vp.w && (vp.h as real).Floor == vp.h && (0.0).Floor == 0;
    SizeFrame(d, w, h);
    MoveFrame(SizeChanged(d, w, h), 0.0, 0.0);
  }

  lemma ResizeContainsIff(d: State, width: nat, height: nat)
    ensures Contained(Resized(d, width, height).screen) <==>
            d.screen.vp.x >= 0 || (!d.screen.clip && width > 0)
  {
    ReadjustContainsIff(d.(screen := BackResized(d.screen, width, height)));
  }

  lemma StepKeepsContained(d: State, e: Event)
    requires e.Valid() && Contained(d.screen)
    ensures Contained(Step(d, e).screen)
  {
    match e
    case Call(a) => SubmitKeepsFrame(d, a);
    case BlitCall(x, y, w, h, buffer, start) => SubmitKeepsFrame(d, BlitAction(d, x, y, w, h, buffer, start));
    case Load(id) => ScanKeepsFrame(d.(ready := d.ready + {id}));
    case Flush =>
    case MoveViewport(dx, dy) => MoveFrame(d, dx, dy);
    case SizeViewport(w, h) => SizeFrame(d, w, h);
    case SetClip(clip) => ReadjustContainsIff(d.(screen := d.screen.(clip := clip)));
    case Resize(w, h) => ResizeContainsIff(d, w, h);
  }

  lemma {:induction false} RunKeepsContained(d: State, events: seq<Event>)
    requires AllValid(events) && Contained(d.screen)
    ensures Contained(Run(d, events).screen)
    decreases |events|
  {
    if events != [] {
      StepKeepsContained(d, events[0]);
      RunKeepsContained(Step(d, events[0]), events[1..]);
    }
  }

  /** Once a new display has been resized, no sequence of calls moves the viewport out. */
  lemma ViewportContained(targetWidth: nat, targetHeight: nat, backWidth: nat, backHeight: nat,
                          width: nat, height: nat, events: seq<Event>)
    requires AllValid(events)
    ensures var d := Resized(Fresh(targetWidth, targetHeight, backWidth, backHeight), width, height);
            Contained(Run(d, events).screen)
  {
    var d := Fresh(targetWidth, targetHeight, backWidth, backHeight);
    ResizeContainsIff(d, width, height);
    RunKeepsContained(Resized(d, width, height), events);
  }

  /** Which moves bring a viewport that is outside back in: those to the left, and those that reach
      column 0. */
  lemma MoveContainsIff(d: State, dx: real, dy: real)
    requires d.screen.clip && d.screen.vp.w <= d.screen.fbWidth && d.screen.vp.h <= d.screen.fbHeight
    ensures Contained(PosChanged(d, dx, dy).screen) <==> dx.Floor < 0 || d.screen.vp.x + dx.Floor >= 0
  {
    MoveFrame(d, dx, dy);
  }

  /** A viewport that was moved before the first resize can be outside after it: with a target of
      10 x 10, one move, clipping on and a resize to 100 x 100 leave column -10. By
      `MoveContainsIff` a move to the left corrects it. */
  lemma EarlyMoveEscapes()
    ensures var events := [MoveViewport(0.0, 0.0), SetClip(true), Resize(100, 100),
                           SizeViewport(Some(10.0), Some(10.0))];
            var s := Run(Fresh(10, 10, 0, 0), events).screen;
            s.vp.x == -10 && s.vp.w == 10 && !Contained(s)
  {
    var d0 := Fresh(10, 10, 0, 0);
    var ten := Some(10.0);
    EarlyMove(d0);
    LateSize(Step(Step(d0, MoveViewport(0.0, 0.0)), SetClip(true)));
    RunFour(d0, MoveViewport(0.0, 0.0), SetClip(true), Resize(100, 100), SizeViewport(ten, ten));
  }

  lemma EarlyMove(d: State)
    requires d.screen.vp == Viewport(0, 0, 10, 10) && d.screen.fbWidth == 0 && d.screen.fbHeight == 0 && !d.screen.clip
    ensures var t := Step(Step(d, MoveViewport(0.0, 0.0)), SetClip(true)).screen;
            t.vp == Viewport(-10, 0, 0, 0) && t.clip
  {
    assert (0.0).Floor == 0 && (10.0).Floor == 10;
    MoveFrame(d, 0.0, 0.0);
    var m := PosChanged(d, 0.0, 0.0);
    FrameAfterReadjust(m.(screen := m.screen.(clip := true)));
  }

  lemma LateSize(d: State)
    requires d.screen.vp == Viewport(-10, 0, 0, 0) && d.screen.clip
    ensures var t := Step(Step(d, Resize(100, 100)), SizeViewport(Some(10.0), Some(10.0))).screen;
            t.vp.x == -10 && t.vp.w == 10
  {
    assert (0.0).Floor == 0 && (10.0).Floor == 10;
    FrameAfterReadjust(d.(screen := BackResized(d.screen, 100, 100)));
    SizeFrame(Resized(d, 100, 100), Some(10.0), Some(10.0));
  }

  lemma RunFour(d: State, e1: Event, e2: Event, e3: Event, e4: Event)
    requires e1.Valid() && e2.Valid() && e3.Valid() && e4.Valid()
    ensures Run(d, [e1, e2, e3, e4]) == Step(Step(Step(Step(d, e1), e2), e3), e4)
  {
    var d1 := Step(d, e1);
    var d2 := Step(d1, e2);
    var d3 := Step(d2, e3);
    assert [e1, e2, e3, e4][1..] == [e2, e3, e4] && [e2, e3, e4][1..] == [e3, e4];
    assert [e3, e4][1..] == [e4] && [e4][1..] == [];
    assert Run(d3, [e4]) == Step(d3, e4);
    assert Run(d2, [e3, e4]) == Run(d3, [e4]);
    assert Run(d1, [e2, e3, e4]) == Run(d2, [e3, e4]);
  }

  /** Both steps of a readjustment at once. */
  lemma FrameAfterReadjust(d: State)
    ensures var s, t := d.screen, Readjusted(d).screen;
            var (w, h) := WantedSize(s, Some(s.vp.w as real), Some(s.vp.h as real));
            var (x, y) := if s.vp.w == w && s.vp.h == h then (s.vp.x, s.vp.y)
                          else (SlideX(s.vp.x, w, s.fbWidth, 0, s.clip), SlideY(s.vp.y, h, s.fbHeight, 0, s.clip));
            && t.fbWidth == s.fbWidth && t.fbHeight == s.fbHeight && t.clip == s.clip
            && t.vp == Viewport(SlideX(x, w, s.fbWidth, 0, s.clip), SlideY(y, h, s.fbHeight, 0, s.clip), w, h)
  {
    var vp := d.screen.vp;
    var w, h := Some(vp.w as real), Some(vp.h as real);
    assert (0.0).Floor == 0;
    SizeFrame(d, w, h);
    MoveFrame(SizeChanged(d, w, h), 0.0, 0.0);
  }
}
