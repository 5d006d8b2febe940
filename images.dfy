/** The parts of Go's `image` package that the handlers compute with: points,
    rectangles and their arithmetic, and the image codecs, which are foreign code and
    appear here only as functions supplied by the caller. */
module Images {
  import opened Common

  datatype Point = Point(x: int, y: int)

  /** `image.Rectangle`: the points `min.x <= x < max.x`, `min.y <= y < max.y`. */
  datatype Rectangle = Rectangle(min: Point, max: Point)
  {
    function Dx(): int
    {
      max.x - min.x
    }

    function Dy(): int
    {
      max.y - min.y
    }

    /** `Rectangle.Add`: the rectangle moved by `p`. */
    function Add(p: Point): (r: Rectangle)
      ensures r.Dx() == Dx() && r.Dy() == Dy()
      ensures r.min == Point(min.x + p.x, min.y + p.y)
    {
      Rectangle(Point(min.x + p.x, min.y + p.y), Point(max.x + p.x, max.y + p.y))
    }
  }

  /** `image.Rect`: the rectangle with the given corners, which are swapped where
      needed so that `min` is below `max` in both coordinates. */
  function Rect(x0: int, y0: int, x1: int, y1: int): (r: Rectangle)
    ensures r.Dx() >= 0 && r.Dy() >= 0
    ensures r.min.x == if x0 <= x1 then x0 else x1
    ensures r.max.x == if x0 <= x1 then x1 else x0
    ensures r.min.y == if y0 <= y1 then y0 else y1
    ensures r.max.y == if y0 <= y1 then y1 else y0
  {
    var (lx, hx) := if x0 > x1 then (x1, x0) else (x0, x1);
    var (ly, hy) := if y0 > y1 then (y1, y0) else (y0, y1);
    Rectangle(Point(lx, ly), Point(hx, hy))
  }

  /** Go's integer division, which truncates toward zero (Dafny's rounds down). */
  function Quo(a: int, b: int): int
    requires b > 0
  {
    if a >= 0 then a / b else -((-a) / b)
  }

  /** The image library as the handlers use it: decoding, the bounds of a decoded
      image, resampling to fill a size, taking a sub-image and JPEG encoding. */
  datatype Codec<!Img> = Codec(
    decode: Bytes -> Result<Img>,
    bounds: Img -> Rectangle,
    fill: (Img, int, int) -> Img,
    subImage: (Img, Rectangle) -> Img,
    encode: Img -> Result<Bytes>)
}
