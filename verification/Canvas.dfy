/** The part of the browser's 2D canvas that the display uses.

    A canvas holds premultiplied pixels, so that the default `source-over`
    rule of `drawImage` is `source + destination * (1 - alpha of source)`.
    Everything outside a canvas reads as transparent black, which is also how
    `drawImage` clips a source rectangle that reaches over the edge. */
module Canvases {

  datatype Pixel = Pixel(r: real, g: real, b: real, a: real)

  const CLEAR := Pixel(0.0, 0.0, 0.0, 0.0)

  predicate Opaque(p: Pixel) {
    p.a == 1.0
  }

  function Over(src: Pixel, dst: Pixel): Pixel {
    var rest := 1.0 - src.a;
    Pixel(src.r + dst.r * rest, src.g + dst.g * rest, src.b + dst.b * rest, src.a + dst.a * rest)
  }

  lemma ScaledIsZero(v: real, rest: real)
    requires rest != 0.0
    ensures v * rest == 0.0 <==> v == 0.0
  {}

  /** Drawing replaces what was there exactly when nothing of it can shine through. */
  lemma OverReplaces(src: Pixel, dst: Pixel)
    ensures Over(src, dst) == src <==> Opaque(src) || dst == CLEAR
  {
    var rest := 1.0 - src.a;
    if rest != 0.0 {
      ScaledIsZero(dst.r, rest);
      ScaledIsZero(dst.g, rest);
      ScaledIsZero(dst.b, rest);
      ScaledIsZero(dst.a, rest);
    }
  }

  lemma ChannelAssociates(x: real, y: real, z: real, rest: real, below: real, both: real)
    requires both == rest * below
    ensures x + (y + z * below) * rest == x + y * rest + z * both
  {
    assert z * below * rest == z * (rest * below);
  }

  /** Pictures may be composited in any grouping. */
  lemma OverAssociates(p: Pixel, q: Pixel, r: Pixel)
    ensures Over(p, Over(q, r)) == Over(Over(p, q), r)
  {
    var rest, below := 1.0 - p.a, 1.0 - q.a;
    var both := 1.0 - (p.a + q.a * rest);
    assert both == rest * below;
    ChannelAssociates(p.r, q.r, r.r, rest, below, both);
    ChannelAssociates(p.g, q.g, r.g, rest, below, both);
    ChannelAssociates(p.b, q.b, r.b, rest, below, both);
    ChannelAssociates(p.a, q.a, r.a, rest, below, both);
    var pq, qr := Over(p, q), Over(q, r);
    assert 1.0 - pq.a == both;
    assert Over(p, qr) == Pixel(p.r + qr.r * rest, p.g + qr.g * rest, p.b + qr.b * rest, p.a + qr.a * rest);
    assert Over(pq, r) == Pixel(pq.r + r.r * both, pq.g + r.g * both, pq.b + r.b * both, pq.a + r.a * both);
  }

  datatype Canvas = Canvas(width: nat, height: nat, at: (int, int) -> Pixel)

  function Get(c: Canvas, x: int, y: int): Pixel {
    if 0 <= x < c.width && 0 <= y < c.height then c.at(x, y) else CLEAR
  }

  predicate Covers(left: int, top: int, right: int, bottom: int, x: int, y: int) {
    left <= x < right && top <= y < bottom
  }

  /** A new canvas, or one whose `width` or `height` was assigned: transparent black. */
  function Blank(width: nat, height: nat): Canvas {
    Canvas(width, height, (x, y) => CLEAR)
  }

  /** `fillRect` with an opaque `rgb()` style. */
  function Filled(c: Canvas, x: int, y: int, w: nat, h: nat, color: Pixel): Canvas {
    c.(at := (i, j) => if Covers(x, y, x + w, y + h, i, j) then color else c.at(i, j))
  }

  /** `drawImage(src, sx, sy, w, h, dx, dy, w, h)`. */
  function Drawn(dst: Canvas, src: Canvas, sx: int, sy: int, w: int, h: int, dx: int, dy: int): Canvas {
    dst.(at := (i, j) =>
      if Covers(dx, dy, dx + w, dy + h, i, j) then Over(Get(src, i - dx + sx, j - dy + sy), dst.at(i, j))
      else dst.at(i, j))
  }

  /** `putImageData(src, dx, dy)`: a plain copy, alpha included. */
  function Put(dst: Canvas, src: Canvas, dx: int, dy: int): Canvas {
    dst.(at := (i, j) =>
      if Covers(dx, dy, dx + src.width, dy + src.height, i, j) then src.at(i - dx, j - dy) else dst.at(i, j))
  }
}
