/** The display object itself: each method changes the fields step by step, and its contract
    says that the new state is the one the state machine of `DisplayModel` prescribes. */
module DisplayObject {
  import opened Canvases
  import opened Basics
  import opened DisplayModel

  const BLACK := Rgb(0, 0, 0)

  predicate WellSized(a: Action) {
    a.Blit? ==> |a.data| == a.w * a.h * 4
  }

  class Display {
    var renderQ: seq<Action>
    var flushPending: bool
    var fbWidth: nat
    var fbHeight: nat
    var clipViewport: bool
    var viewportLoc: Viewport
    var damageBounds: Rect
    var target: Canvas
    var backbuffer: Canvas
    // The style set in the drawing context, and the last style set through `SetFillColor`.
    var fillStyle: Rgb
    var prevDrawStyle: Option<Rgb>
    // The images and frames that have become ready.
    var ready: set<nat>

    ghost function Surface(): Screen
      reads this
    {
      Screen(fbWidth, fbHeight, backbuffer, target, viewportLoc, damageBounds, clipViewport)
    }

    ghost function Model(): State
      reads this
    {
      State(Surface(), renderQ, ready, flushPending)
    }

    /** The remembered style is the one in force, so skipping the assignment is safe, and queued
        blits carry exactly the bytes of their rectangle. */
    ghost predicate Valid()
      reads this
    {
      && (prevDrawStyle.Some? ==> fillStyle == prevDrawStyle.value)
      && (forall k :: 0 <= k < |renderQ| ==> WellSized(renderQ[k]))
    }

    constructor (targetWidth: nat, targetHeight: nat, backWidth: nat, backHeight: nat)
      ensures Valid()
      ensures Model() == Fresh(targetWidth, targetHeight, backWidth, backHeight)
    {
      renderQ, flushPending, ready := [], false, {};
      fbWidth, fbHeight := 0, 0;
      prevDrawStyle, fillStyle := None, BLACK;
      target := Blank(targetWidth, targetHeight);
      viewportLoc := Viewport(0, 0, targetWidth, targetHeight);
      backbuffer := Blank(backWidth, backHeight);
      damageBounds := Rect(0, 0, backWidth, backHeight);
      clipViewport := false;
    }

    method SetClipViewport(viewport: bool)
      requires Valid()
      modifies this
      ensures Valid() && Model() == ClipSet(old(Model()), viewport)
    {
      clipViewport := viewport;
      var vp := viewportLoc;
      ViewportChangeSize(Some(vp.w as real), Some(vp.h as real));
      ViewportChangePos(0.0, 0.0);
    }

    method ViewportChangePos(dx: real, dy: real)
      requires Valid()
      modifies this
      ensures Valid() && Model() == PosChanged(old(Model()), dx, dy)
    {
      var vp := viewportLoc;
      var deltaX, deltaY := dx.Floor, dy.Floor;
      if !clipViewport {
        deltaX := -(vp.w as int);
        deltaY := -(vp.h as int);
      }
      var vx2 := vp.x + vp.w - 1;
      var vy2 := vp.y + vp.h - 1;

      if deltaX < 0 && vp.x + deltaX < 0 {
        deltaX := -vp.x;
      }
      if vx2 + deltaX >= fbWidth {
        deltaX := deltaX - (vx2 + deltaX - fbWidth + 1);
      }
      if vp.y + deltaY < 0 {
        deltaY := -vp.y;
      }
      if vy2 + deltaY >= fbHeight {
        deltaY := deltaY - (vy2 + deltaY - fbHeight + 1);
      }
      ghost var slid := Slid(Surface(), dx.Floor, dy.Floor);
      assert slid == vp.(x := vp.x + deltaX, y := vp.y + deltaY);
      if deltaX == 0 && deltaY == 0 {
        return;
      }
      viewportLoc := viewportLoc.(x := vp.x + deltaX, y := vp.y + deltaY);
      Reshow();
    }

    method ViewportChangeSize(width: Option<real>, height: Option<real>)
      requires Valid() && NonNegative(width) && NonNegative(height)
      modifies this
      ensures Valid() && Model() == SizeChanged(old(Model()), width, height)
    {
      var w: int, h: int;
      if !clipViewport || width.None? || height.None? {
        w, h := fbWidth, fbHeight;
      } else {
        w, h := width.value.Floor, height.value.Floor;
      }
      if w > fbWidth {
        w := fbWidth;
      }
      if h > fbHeight {
        h := fbHeight;
      }
      assert (w, h) == WantedSize(Surface(), width, height);
      SetSize(w, h);
    }

    /** The end of `ViewportChangeSize`. */
    method SetSize(w: nat, h: nat)
      requires Valid()
      modifies this
      ensures Valid()
      ensures var s := old(Surface());
              Model() == if s.vp.w == w && s.vp.h == h then old(Model())
                         else
                           var sized := s.(vp := s.vp.(w := w, h := h), vis := Blank(w, h));
                           Reshown(PosChanged(old(Model()).(screen := sized), 0.0, 0.0))
    {
      if viewportLoc.w != w || viewportLoc.h != h {
        viewportLoc := viewportLoc.(w := w, h := h);
        target := Blank(w, h);
        ViewportChangePos(0.0, 0.0);
        Reshow();
      }
    }

    method Resize(width: nat, height: nat)
      requires Valid()
      modifies this
      ensures Valid() && Model() == Resized(old(Model()), width, height)
    {
      prevDrawStyle := None;
      fbWidth, fbHeight := width, height;
      if backbuffer.width != width || backbuffer.height != height {
        var saveImg := None;
        if backbuffer.width > 0 && backbuffer.height > 0 {
          saveImg := Some(backbuffer);
        }
        // Assigning the size clears the canvas and resets its drawing context.
        backbuffer := Blank(width, height);
        fillStyle := BLACK;
        if saveImg.Some? {
          backbuffer := Put(backbuffer, saveImg.value, 0, 0);
        }
      }
      ghost var resized := Model();
      assert resized == old(Model()).(screen := BackResized(old(Surface()), width, height));
      var vp := viewportLoc;
      ViewportChangeSize(Some(vp.w as real), Some(vp.h as real));
      ViewportChangePos(0.0, 0.0);
      assert Model() == Readjusted(resized);
    }

    /** The two calls that end every change of the viewport. */
    method Reshow()
      requires Valid()
      modifies this
      ensures Valid() && Model() == Reshown(old(Model()))
    {
      Damage(viewportLoc.x, viewportLoc.y, viewportLoc.w, viewportLoc.h);
      DoFlip(false);
    }

    method Damage(x: int, y: int, w: int, h: int)
      modifies this`damageBounds
      ensures damageBounds == Grown(old(damageBounds), x, y, w, h)
    {
      if x < damageBounds.left {
        damageBounds := damageBounds.(left := x);
      }
      if y < damageBounds.top {
        damageBounds := damageBounds.(top := y);
      }
      if x + w > damageBounds.right {
        damageBounds := damageBounds.(right := x + w);
      }
      if y + h > damageBounds.bottom {
        damageBounds := damageBounds.(bottom := y + h);
      }
    }

    method DoFlip(fromQueue: bool)
      requires Valid()
      modifies this
      ensures Valid()
      ensures fromQueue ==> Model() == old(Model()).(screen := Flipped(old(Surface())))
      ensures !fromQueue ==> Model() == Submitted(old(Model()), Flip)
      decreases if fromQueue then 0 else 4
    {
      if renderQ != [] && !fromQueue {
        RenderQPush(Flip);
      } else {
        PaintDamage();
      }
    }

    /** The flip itself. */
    method PaintDamage()
      modifies this`target, this`damageBounds
      ensures Surface() == Flipped(old(Surface()))
    {
      var x, y := damageBounds.left, damageBounds.top;
      var w, h := damageBounds.right - x, damageBounds.bottom - y;
      var vx, vy := x - viewportLoc.x, y - viewportLoc.y;
      if vx < 0 {
        w, x, vx := w + vx, x - vx, 0;
      }
      if vy < 0 {
        h, y, vy := h + vy, y - vy, 0;
      }
      if vx + w > viewportLoc.w {
        w := viewportLoc.w - vx;
      }
      if vy + h > viewportLoc.h {
        h := viewportLoc.h - vy;
      }
      assert AreaToFlip(Surface()) == FlipArea(x, y, vx, vy, w, h);
      if w > 0 && h > 0 {
        target := Drawn(target, backbuffer, x, y, w, h, vx, vy);
      }
      damageBounds := UNDAMAGED;
    }

    /** True: the promise is already settled. */
    method DoFlush() returns (settled: bool)
      modifies this`flushPending
      ensures settled == (renderQ == [])
      ensures Model() == Step(old(Model()), Flush)
    {
      settled := renderQ == [];
      if !settled {
        flushPending := true;
      }
    }

    method FillRect(x: int, y: int, width: nat, height: nat, color: Rgb, fromQueue: bool)
      requires Valid()
      modifies this
      ensures Valid()
      ensures var a := Fill(x, y, width, height, color);
              && (fromQueue ==> Model() == old(Model()).(screen := Draw(old(Surface()), a)))
              && (!fromQueue ==> Model() == Submitted(old(Model()), a))
      decreases if fromQueue then 0 else 4
    {
      if renderQ != [] && !fromQueue {
        RenderQPush(Fill(x, y, width, height, color));
      } else {
        SetFillColor(color);
        backbuffer := Filled(backbuffer, x, y, width, height, Style(fillStyle));
        Damage(x, y, width, height);
      }
    }

    method CopyImage(oldX: int, oldY: int, newX: int, newY: int, w: nat, h: nat, fromQueue: bool)
      requires Valid()
      modifies this
      ensures Valid()
      ensures var a := Copy(oldX, oldY, newX, newY, w, h);
              && (fromQueue ==> Model() == old(Model()).(screen := Draw(old(Surface()), a)))
              && (!fromQueue ==> Model() == Submitted(old(Model()), a))
      decreases if fromQueue then 0 else 4
    {
      if renderQ != [] && !fromQueue {
        RenderQPush(Copy(oldX, oldY, newX, newY, w, h));
      } else {
        backbuffer := Drawn(backbuffer, backbuffer, oldX, oldY, w, h, newX, newY);
        Damage(newX, newY, w, h);
      }
    }

    method DoImageRect(img: Picture, x: int, y: int, width: nat, height: nat)
      requires Valid()
      modifies this
      ensures Valid() && Model() == ImageRect(old(Model()), img, x, y, width, height)
    {
      if width == 0 || height == 0 {
        return;
      }
      RenderQPush(Img(img, x, y, width, height));
    }

    method VideoFrame(frame: Picture, x: int, y: int, width: nat, height: nat)
      requires Valid()
      modifies this
      ensures Valid() && Model() == Submitted(old(Model()), Frame(frame, x, y, width, height))
    {
      RenderQPush(Frame(frame, x, y, width, height));
    }

    /** `start` is `byteOffset + offset`. */
    method BlitImage(x: int, y: int, width: nat, height: nat, buffer: seq<Byte>, start: nat, fromQueue: bool)
      requires Valid() && start + width * height * 4 <= |buffer|
      modifies this
      ensures Valid()
      ensures var a := Blit(x, y, width, height, buffer[start..start + width * height * 4]);
              fromQueue ==> Model() == old(Model()).(screen := Draw(old(Surface()), a))
      ensures var a := BlitAction(old(Model()), x, y, width, height, buffer, start);
              !fromQueue ==> Model() == Submitted(old(Model()), a)
      decreases if fromQueue then 0 else 4
    {
      var n := width * height * 4;
      if renderQ != [] && !fromQueue {
        var newArr := buffer[0..0 + n];
        RenderQPush(Blit(x, y, width, height, newArr));
      } else {
        var data := buffer[start..start + n];
        backbuffer := Put(backbuffer, ImageData(data, width, height), x, y);
        Damage(x, y, width, height);
      }
    }

    method DrawPicture(img: Picture, w: nat, h: nat, x: int, y: int)
      modifies this`backbuffer, this`damageBounds
      ensures backbuffer == Drawn(old(backbuffer), img.pixels, 0, 0, w, h, x, y)
      ensures damageBounds == Grown(old(damageBounds), x, y, w, h)
    {
      backbuffer := Drawn(backbuffer, img.pixels, 0, 0, w, h, x, y);
      Damage(x, y, w, h);
    }

    method SetFillColor(color: Rgb)
      requires Valid()
      modifies this`fillStyle, this`prevDrawStyle
      ensures Valid() && fillStyle == color
    {
      if prevDrawStyle != Some(color) {
        fillStyle := color;
        prevDrawStyle := Some(color);
      }
    }

    method RenderQPush(action: Action)
      requires Valid() && WellSized(action)
      modifies this
      ensures Valid() && Model() == Pushed(old(Model()), action)
      decreases 3
    {
      renderQ := renderQ + [action];
      if |renderQ| == 1 {
        ScanRenderQ();
      }
    }

    /** The load event of an image, or the settling of a frame's promise. */
    method OnReady(id: nat)
      requires Valid()
      modifies this
      ensures Valid() && Model() == Loaded(old(Model()), id)
    {
      var awaited := renderQ != [] && AwaitsAt(renderQ[0], ready) == Some(id);
      ready := ready + {id};
      if awaited {
        ScanRenderQ();
      }
    }

    method ScanRenderQ()
      requires Valid()
      modifies this
      ensures Valid() && Model() == Scanned(old(Model()))
      decreases 2
    {
      var isReady := true;
      while isReady && renderQ != []
        invariant Valid()
        invariant Scanned(Model()) == Scanned(old(Model()))
        invariant !isReady ==> renderQ != [] && !Ready(renderQ[0], ready)
        decreases |renderQ|, isReady
      {
        ghost var before := Model();
        var wrongSize;
        isReady, wrongSize := ScanHead(renderQ[0]);
        if wrongSize {
          return;
        }
        if isReady {
          renderQ := renderQ[1..];
          assert Model() == before.(screen := Draw(before.screen, before.queue[0]), queue := before.queue[1..]);
        }
      }
      if renderQ == [] && flushPending {
        flushPending := false;
      }
    }

    /** The body of the scanning loop: executes the action if it is ready. A decoded image of the
        wrong size stops the scan. */
    method ScanHead(a: Action) returns (isReady: bool, wrongSize: bool)
      requires Valid() && WellSized(a)
      modifies this
      ensures Valid() && isReady == Ready(a, old(ready)) && (wrongSize ==> !isReady)
      ensures Model() == if isReady then old(Model()).(screen := Draw(old(Surface()), a)) else old(Model())
      decreases 1
    {
      isReady, wrongSize := true, false;
      match a {
        case Flip => DoFlip(true);
        case Copy(oldX, oldY, x, y, w, h) => CopyImage(oldX, oldY, x, y, w, h, true);
        case Fill(x, y, w, h, color) => FillRect(x, y, w, h, color, true);
        case Blit(x, y, w, h, data) =>
          assert data[0..0 + w * h * 4] == data;
          BlitImage(x, y, w, h, data, 0, true);
        case Img(img, x, y, w, h) =>
          if img.id in ready {
            if img.pixels.width != w || img.pixels.height != h {
              return false, true;
            }
            DrawPicture(img, img.pixels.width, img.pixels.height, x, y);
          } else {
            isReady := false;
          }
        case Frame(frame, x, y, w, h) =>
          if frame.id in ready {
            DrawPicture(frame, w, h, x, y);
          } else {
            isReady := false;
          }
      }
    }
  }
}
