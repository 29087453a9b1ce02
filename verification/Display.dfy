/** The drawing surface of the VNC client: a hidden backbuffer, the visible
    canvas, the viewport, the damaged rectangle and the render queue. */
module DisplayModel {
  import opened Canvases
  import opened Basics

  // ----- Screen: everything but the queue -----

  datatype Viewport = Viewport(x: int, y: int, w: nat, h: nat)

  datatype Rect = Rect(left: int, top: int, right: int, bottom: int)

  datatype Screen = Screen(fbWidth: nat, fbHeight: nat, back: Canvas, vis: Canvas,
                           vp: Viewport, damage: Rect, clip: bool)

  const UNDAMAGED := Rect(65535, 65535, 0, 0)

  function Min(a: int, b: int): int { if a < b then a else b }

  function Max(a: int, b: int): int { if a > b then a else b }

  predicate InRect(r: Rect, x: int, y: int) {
    Covers(r.left, r.top, r.right, r.bottom, x, y)
  }

  function Grown(r: Rect, x: int, y: int, w: int, h: int): Rect {
    Rect(Min(r.left, x), Min(r.top, y), Max(r.right, x + w), Max(r.bottom, y + h))
  }

  function Damaged(s: Screen, x: int, y: int, w: int, h: int): Screen {
    s.(damage := Grown(s.damage, x, y, w, h))
  }

  // ----- Drawing actions -----

  /** The colour of a fill; its `rgb()` style is opaque. */
  datatype Rgb = Rgb(r: Byte, g: Byte, b: Byte)

  function Style(c: Rgb): Pixel {
    Pixel(c.r as real / 255.0, c.g as real / 255.0, c.b as real / 255.0, 1.0)
  }

  /** An image element or a video frame: `pixels` is what it holds once it is ready. */
  datatype Picture = Picture(id: nat, pixels: Canvas)

  datatype Action =
    | Flip
    | Copy(oldX: int, oldY: int, x: int, y: int, w: nat, h: nat)
    | Fill(x: int, y: int, w: nat, h: nat, color: Rgb)
    | Blit(x: int, y: int, w: nat, h: nat, data: seq<Byte>)
    | Img(img: Picture, x: int, y: int, w: nat, h: nat)
    | Frame(frame: Picture, x: int, y: int, w: nat, h: nat)

  function PixelOf(data: seq<Byte>, k: int): Pixel {
    if 0 <= k && k + 3 < |data| then
      var a := data[k + 3] as real / 255.0;
      Pixel(data[k] as real / 255.0 * a, data[k + 1] as real / 255.0 * a, data[k + 2] as real / 255.0 * a, a)
    else CLEAR
  }

  function ImageData(data: seq<Byte>, w: nat, h: nat): Canvas {
    Canvas(w, h, (i, j) => PixelOf(data, (j * w + i) * 4))
  }

  /** What of the damaged rectangle lies inside the viewport, in backbuffer coordinates
      (x, y), in visible coordinates (vx, vy), and its size. */
  datatype FlipArea = FlipArea(x: int, y: int, vx: int, vy: int, w: int, h: int)

  function AreaToFlip(s: Screen): FlipArea {
    var x, y := s.damage.left, s.damage.top;
    var w, h := s.damage.right - x, s.damage.bottom - y;
    var vx, vy := x - s.vp.x, y - s.vp.y;
    var (x, vx, w) := if vx < 0 then (x - vx, 0, w + vx) else (x, vx, w);
    var (y, vy, h) := if vy < 0 then (y - vy, 0, h + vy) else (y, vy, h);
    var w := if vx + w > s.vp.w then s.vp.w - vx else w;
    var h := if vy + h > s.vp.h then s.vp.h - vy else h;
    FlipArea(x, y, vx, vy, w, h)
  }

  function Flipped(s: Screen): Screen {
    var a := AreaToFlip(s);
    var vis := if a.w > 0 && a.h > 0 then Drawn(s.vis, s.back, a.x, a.y, a.w, a.h, a.vx, a.vy) else s.vis;
    s.(vis := vis, damage := UNDAMAGED)
  }

  /** Sequential execution of one action, ready or not. */
  function Draw(s: Screen, a: Action): Screen {
    match a
    case Flip => Flipped(s)
    case Copy(oldX, oldY, x, y, w, h) =>
      Damaged(s.(back := Drawn(s.back, s.back, oldX, oldY, w, h, x, y)), x, y, w, h)
    case Fill(x, y, w, h, color) =>
      Damaged(s.(back := Filled(s.back, x, y, w, h, Style(color))), x, y, w, h)
    case Blit(x, y, w, h, data) =>
      Damaged(s.(back := Put(s.back, ImageData(data, w, h), x, y)), x, y, w, h)
    case Img(img, x, y, w, h) =>
      var p := img.pixels;
      Damaged(s.(back := Drawn(s.back, p, 0, 0, p.width, p.height, x, y)), x, y, p.width, p.height)
    case Frame(frame, x, y, w, h) =>
      Damaged(s.(back := Drawn(s.back, frame.pixels, 0, 0, w, h, x, y)), x, y, w, h)
  }

  function DrawAll(s: Screen, actions: seq<Action>): Screen
    decreases |actions|
  {
    if actions == [] then s else DrawAll(Draw(s, actions[0]), actions[1..])
  }

  // ----- The display as a state machine -----

  datatype State = State(screen: Screen, queue: seq<Action>, ready: set<nat>, flushPending: bool)

  function Fresh(targetWidth: nat, targetHeight: nat, backWidth: nat, backHeight: nat): State {
    State(Screen(0, 0, Blank(backWidth, backHeight), Blank(targetWidth, targetHeight),
                   Viewport(0, 0, targetWidth, targetHeight), Rect(0, 0, backWidth, backHeight), false),
            [], {}, false)
  }

  predicate Waits(a: Action) {
    a.Img? || a.Frame?
  }

  /** A decoded image of the wrong size never becomes ready. */
  predicate Ready(a: Action, ready: set<nat>) {
    match a
    case Img(img, _, _, w, h) => img.id in ready && img.pixels.width == w && img.pixels.height == h
    case Frame(frame, _, _, _, _) => frame.id in ready
    case _ => true
  }

  function Scanned(d: State): State
    decreases |d.queue|
  {
    if d.queue == [] then d.(flushPending := false)
    else if !Ready(d.queue[0], d.ready) then d
    else Scanned(d.(screen := Draw(d.screen, d.queue[0]), queue := d.queue[1..]))
  }

  function Pushed(d: State, a: Action): State {
    var d' := d.(queue := d.queue + [a]);
    if |d'.queue| == 1 then Scanned(d') else d'
  }

  /** A public drawing call: at once when nothing is queued, else in its turn. */
  function Submitted(d: State, a: Action): State {
    if d.queue != [] || Waits(a) then Pushed(d, a) else d.(screen := Draw(d.screen, a))
  }

  function SlideX(x: int, w: nat, fb: nat, delta: int, clip: bool): int {
    var d: int := if clip then delta else -(w as int);
    var d := if d < 0 && x + d < 0 then -x else d;
    var x2 := x + w - 1;
    var d := if x2 + d >= fb then d - (x2 + d - fb + 1) else d;
    x + d
  }

  function SlideY(y: int, h: nat, fb: nat, delta: int, clip: bool): int {
    var d: int := if clip then delta else -(h as int);
    var d := if y + d < 0 then -y else d;
    var y2 := y + h - 1;
    var d := if y2 + d >= fb then d - (y2 + d - fb + 1) else d;
    y + d
  }

  /** The whole viewport is damaged and flipped, at once or in its turn. */
  function Reshown(d: State): State {
    var vp := d.screen.vp;
    Submitted(d.(screen := Damaged(d.screen, vp.x, vp.y, vp.w, vp.h)), Flip)
  }

  function Slid(s: Screen, deltaX: int, deltaY: int): Viewport {
    s.vp.(x := SlideX(s.vp.x, s.vp.w, s.fbWidth, deltaX, s.clip),
          y := SlideY(s.vp.y, s.vp.h, s.fbHeight, deltaY, s.clip))
  }

  function PosChanged(d: State, deltaX: real, deltaY: real): State {
    var vp := Slid(d.screen, deltaX.Floor, deltaY.Floor);
    if vp == d.screen.vp then d else Reshown(d.(screen := d.screen.(vp := vp)))
  }

  function WantedSize(s: Screen, width: Option<real>, height: Option<real>): (int, int) {
    if !s.clip || width.None? || height.None? then (s.fbWidth, s.fbHeight)
    else (Min(width.value.Floor, s.fbWidth), Min(height.value.Floor, s.fbHeight))
  }

  predicate NonNegative(size: Option<real>) {
    size.Some? ==> size.value >= 0.0
  }

  function SizeChanged(d: State, width: Option<real>, height: Option<real>): State
    requires NonNegative(width) && NonNegative(height)
  {
    var s := d.screen;
    var (w, h) := WantedSize(s, width, height);
    if s.vp.w == w && s.vp.h == h then d
    else Reshown(PosChanged(d.(screen := s.(vp := s.vp.(w := w, h := h), vis := Blank(w, h))), 0.0, 0.0))
  }

  /** Assigning a canvas size clears it; the saved picture is put back. */
  function BackResized(s: Screen, width: nat, height: nat): Screen {
    var back :=
      if s.back.width == width && s.back.height == height then s.back
      else if s.back.width > 0 && s.back.height > 0 then Put(Blank(width, height), s.back, 0, 0)
      else Blank(width, height);
    s.(fbWidth := width, fbHeight := height, back := back)
  }

  function Readjusted(d: State): State {
    var vp := d.screen.vp;
    PosChanged(SizeChanged(d, Some(vp.w as real), Some(vp.h as real)), 0.0, 0.0)
  }

  function Resized(d: State, width: nat, height: nat): State {
    Readjusted(d.(screen := BackResized(d.screen, width, height)))
  }

  function ClipSet(d: State, clip: bool): State {
    Readjusted(d.(screen := d.screen.(clip := clip)))
  }

  /** A load event or a settled frame promise wakes the scanner only if the head waits for it. */
  function Loaded(d: State, id: nat): State {
    var d' := d.(ready := d.ready + {id});
    if d.queue != [] && AwaitsAt(d.queue[0], d.ready) == Some(id) then Scanned(d') else d'
  }

  function AwaitsAt(a: Action, ready: set<nat>): Option<nat> {
    match a
    case Img(img, _, _, _, _) => if img.id in ready then None else Some(img.id)
    case Frame(frame, _, _, _, _) => if frame.id in ready then None else Some(frame.id)
    case _ => None
  }

  /** `imageRect` drops empty rectangles before it queues anything. */
  function ImageRect(d: State, img: Picture, x: int, y: int, w: nat, h: nat): State {
    if w == 0 || h == 0 then d else Submitted(d, Img(img, x, y, w, h))
  }

  /** The pixels a blit draws at once start at `start` (`byteOffset + offset`) in the buffer;
      the copy that is queued always starts at 0. */
  function BlitAction(d: State, x: int, y: int, w: nat, h: nat, buffer: seq<Byte>, start: nat): Action
    requires start + w * h * 4 <= |buffer|
  {
    var from := if d.queue != [] then 0 else start;
    Blit(x, y, w, h, buffer[from..from + w * h * 4])
  }

  datatype Event =
    | Call(a: Action)
    | BlitCall(x: int, y: int, w: nat, h: nat, buffer: seq<Byte>, start: nat)
    | Load(id: nat)
    | Flush
    | MoveViewport(deltaX: real, deltaY: real)
    | SizeViewport(width: Option<real>, height: Option<real>)
    | SetClip(clip: bool)
    | Resize(fbWidth: nat, fbHeight: nat)
  {
    predicate Valid() {
      match this
      case BlitCall(_, _, w, h, buffer, start) => start + w * h * 4 <= |buffer|
      case SizeViewport(width, height) => NonNegative(width) && NonNegative(height)
      case _ => true
    }
  }

  function Step(d: State, e: Event): State
    requires e.Valid()
  {
    match e
    case Call(Img(img, x, y, w, h)) => ImageRect(d, img, x, y, w, h)
    case Call(a) => Submitted(d, a)
    case BlitCall(x, y, w, h, buffer, start) => Submitted(d, BlitAction(d, x, y, w, h, buffer, start))
    case Load(id) => Loaded(d, id)
    case Flush => d.(flushPending := d.flushPending || d.queue != [])
    case MoveViewport(dx, dy) => PosChanged(d, dx, dy)
    case SizeViewport(w, h) => SizeChanged(d, w, h)
    case SetClip(clip) => ClipSet(d, clip)
    case Resize(w, h) => Resized(d, w, h)
  }

  predicate AllValid(events: seq<Event>) {
    forall i :: 0 <= i < |events| ==> events[i].Valid()
  }

  function Run(d: State, events: seq<Event>): State
    requires AllValid(events)
    decreases |events|
  {
    if events == [] then d else Run(Step(d, events[0]), events[1..])
  }
}
