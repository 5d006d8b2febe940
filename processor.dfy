/** The centre crop of the image processor: the size check and the rectangle
    arithmetic around the foreign decoding, sub-imaging and encoding. */
module Processor {
  import opened Common
  import opened Images

  /** The crop rectangle of `Crop`: a `width` by `height` rectangle at the origin,
      moved so that its centre meets the centre of a `dx` by `dy` image, with
      Go's truncating halves. */
  function CropRect(dx: int, dy: int, width: int, height: int): Rectangle
  {
    Rect(0, 0, width, height).Add(Point(Quo(dx, 2) - Quo(width, 2), Quo(dy, 2) - Quo(height, 2)))
  }

  /** `Processor.Crop`: decode, refuse a target larger than the image, take the
      centred sub-image and encode it. */
  function Crop<Img>(data: Bytes, width: int, height: int, codec: Codec<Img>): Result<Bytes>
  {
    match codec.decode(data)
    case Err(e) => Err(e)
    case Ok(img) =>
      var b := codec.bounds(img);
      if width > b.Dx() || height > b.Dy() then Err(InvalidSize(ProcessorPkg))
      else codec.encode(codec.subImage(img, CropRect(b.Dx(), b.Dy(), width, height)))
  }

  /** A target that fits is cropped to exactly its size, inside the image. */
  lemma CropInside(dx: int, dy: int, width: int, height: int)
    requires 0 <= width <= dx && 0 <= height <= dy
    ensures var r := CropRect(dx, dy, width, height);
      && r.Dx() == width && r.Dy() == height
      && 0 <= r.min.x && r.max.x <= dx
      && 0 <= r.min.y && r.max.y <= dy
  {
  }

  /** The crop is centred: the margins on the two sides of each axis differ by at
      most one pixel. */
  lemma CropCentred(dx: int, dy: int, width: int, height: int)
    requires 0 <= width <= dx && 0 <= height <= dy
    ensures var r := CropRect(dx, dy, width, height);
      && -1 <= r.min.x - (dx - r.max.x) <= 1
      && -1 <= r.min.y - (dy - r.max.y) <= 1
  {
  }

  /** The outcomes of `Crop`: a decoding error is returned whatever the target size;
      a decoded image smaller than the target is refused before anything else is
      done with it; otherwise the result is the encoding of the sub-image at the
      crop rectangle. */
  lemma CropOutcomes<Img>(data: Bytes, width: int, height: int, codec: Codec<Img>)
    ensures codec.decode(data).Err? ==> Crop(data, width, height, codec) == Err(codec.decode(data).error)
    ensures codec.decode(data).Ok? ==>
      var img := codec.decode(data).value;
      var b := codec.bounds(img);
      && (width > b.Dx() || height > b.Dy() ==> Crop(data, width, height, codec) == Err(InvalidSize(ProcessorPkg)))
      && (width <= b.Dx() && height <= b.Dy() ==>
            Crop(data, width, height, codec) == codec.encode(codec.subImage(img, CropRect(b.Dx(), b.Dy(), width, height))))
  {
  }
}
