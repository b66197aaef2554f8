/**
 * The values the detector passes between OpenCV calls: images as numpy-like
 * pixel grids, bounding boxes, rotated rectangles and the per-contour
 * measurements that the contour filters read.
 */
module Geometry {
  import opened Seqs

  newtype Channel = x: int | 0 <= x < 256

  /** One pixel of a BGR image. */
  datatype Pixel = Bgr(b: Channel, g: Channel, r: Channel)

  /**
   * An image of `width` columns; `rows` has one entry per row
   * (`img.shape[0]` is `|rows|`, `img.shape[1]` is `width`).
   */
  datatype Image = Image(width: nat, rows: seq<seq<Pixel>>)
  {
    function Height(): nat { |rows| }

    /** A numpy array is rectangular: every row is `width` pixels long. */
    predicate Rectangular()
    {
      forall i :: 0 <= i < |rows| ==> |rows[i]| == width
    }
  }

  /** `cv2.boundingRect`: an axis-aligned box with integer corner and size. */
  datatype Box = Box(x: nat, y: nat, w: nat, h: nat)

  /** `cv2.minAreaRect`: centre, side lengths and angle of the rotated rectangle. */
  datatype RotatedRect = RotatedRect(cx: real, cy: real, w: real, h: real, angle: real)

  /**
   * What the filters learn about one contour from OpenCV: `contourArea`,
   * `boundingRect`, the area of its `convexHull` and its `minAreaRect`.
   */
  datatype Contour = Contour(area: real, box: Box, hullArea: real, rect: RotatedRect)

  /** What is drawn on the annotated copy of the input. */
  datatype Mark =
    | Rectangle(box: Box)                   // cv2.rectangle of a bounding box
    | RotatedOutline(rect: RotatedRect, number: nat)  // boxPoints outline with the caption "Plat <number>"

  /**
   * `img.copy()` after the drawing calls: the pixels of the input and the
   * marks drawn on the copy, in drawing order.
   */
  datatype Annotated = Annotated(base: Image, marks: seq<Mark>)

  /** Number of elements of `range(n)[start:stop]`. */
  function SliceLength(n: nat, start: int, stop: int): nat
  {
    var lo, hi := PyIndex(start, n), PyIndex(stop, n);
    if lo <= hi then hi - lo else 0
  }

  /**
   * `img[y0:y1, x0:x1]`: numpy's two-dimensional slice, clipped to the image
   * and never reading outside it.
   */
  function SliceImage(img: Image, y0: int, y1: int, x0: int, x1: int): (r: Image)
    ensures |r.rows| == SliceLength(img.Height(), y0, y1)
    ensures r.width == SliceLength(img.width, x0, x1)
    ensures img.Rectangular() ==> r.Rectangular()
    ensures img.Rectangular() ==> forall i, j :: 0 <= i < |r.rows| && 0 <= j < r.width ==>
      && PyIndex(y0, img.Height()) + i < img.Height()
      && PyIndex(x0, img.width) + j < img.width
      && r.rows[i][j] == img.rows[PyIndex(y0, img.Height()) + i][PyIndex(x0, img.width) + j]
  {
    var rows := Slice(img.rows, y0, y1);
    Image(SliceLength(img.width, x0, x1), seq(|rows|, i requires 0 <= i < |rows| => Slice(rows[i], x0, x1)))
  }

  /** `img[y:y+h, x:x+w]`: the pixels under a bounding box. */
  function Crop(img: Image, b: Box): Image
  {
    SliceImage(img, b.y, b.y + b.h, b.x, b.x + b.w)
  }

  predicate BoxInside(b: Box, img: Image)
  {
    b.x + b.w <= img.width && b.y + b.h <= img.Height()
  }

  /**
   * A box inside the image crops to a `w` x `h` image whose pixel (i, j) is
   * pixel (y + i, x + j) of the source.
   */
  lemma CropInside(img: Image, b: Box)
    requires img.Rectangular() && BoxInside(b, img)
    ensures var c := Crop(img, b);
      && c.Rectangular() && c.width == b.w && c.Height() == b.h
      && forall i, j :: 0 <= i < b.h && 0 <= j < b.w ==> c.rows[i][j] == img.rows[b.y + i][b.x + j]
  {
  }

  /**
   * A slice whose bounds lie inside the image is `y1 - y0` rows of
   * `x1 - x0` pixels, pixel (i, j) being pixel (y0 + i, x0 + j) of the source.
   */
  lemma SliceInside(img: Image, y0: int, y1: int, x0: int, x1: int)
    requires img.Rectangular()
    requires 0 <= y0 <= y1 <= img.Height() && 0 <= x0 <= x1 <= img.width
    ensures var c := SliceImage(img, y0, y1, x0, x1);
      && c.Rectangular() && c.width == x1 - x0 && c.Height() == y1 - y0
      && forall i, j :: 0 <= i < y1 - y0 && 0 <= j < x1 - x0 ==> c.rows[i][j] == img.rows[y0 + i][x0 + j]
  {
  }

  /** `w / float(h)` of a bounding box; Python raises `ZeroDivisionError` when `h == 0`. */
  function Aspect(b: Box): real
    requires b.h > 0
  {
    b.w as real / b.h as real
  }

  /** The ratio lies strictly between two bounds exactly when the width lies between those multiples of the height. */
  lemma AspectBetween(b: Box, lo: real, hi: real)
    requires b.h > 0
    ensures lo < Aspect(b) < hi <==> lo * b.h as real < b.w as real < hi * b.h as real
  {
    var w, h, a := b.w as real, b.h as real, Aspect(b);
    assert a * h == w;
    assert lo < a <==> lo * h < a * h by {
      if a <= lo { assert a * h <= lo * h; }
    }
    assert a < hi <==> a * h < hi * h by {
      if a >= hi { assert a * h >= hi * h; }
    }
  }

  /** `a` is a copy of `img` with one rectangle per contour of `kept`, in order. */
  predicate BoxesDrawn(a: Annotated, img: Image, kept: seq<Contour>)
  {
    && a.base == img && |a.marks| == |kept|
    && forall i :: 0 <= i < |kept| ==> a.marks[i] == Rectangle(kept[i].box)
  }

  /** `crops` holds the bounding-box crop of each contour of `kept`, in order. */
  predicate BoxCrops(crops: seq<Image>, img: Image, kept: seq<Contour>)
  {
    |crops| == |kept| && forall i :: 0 <= i < |kept| ==> crops[i] == Crop(img, kept[i].box)
  }

  /** Drawing the rectangle of one more kept contour keeps `BoxesDrawn`. */
  lemma BoxesDrawnExtend(marks: seq<Mark>, img: Image, kept: seq<Contour>, c: Contour)
    requires BoxesDrawn(Annotated(img, marks), img, kept)
    ensures BoxesDrawn(Annotated(img, marks + [Rectangle(c.box)]), img, kept + [c])
  {
  }

  /** Cropping one more kept contour keeps `BoxCrops`. */
  lemma BoxCropsExtend(crops: seq<Image>, img: Image, kept: seq<Contour>, c: Contour)
    requires BoxCrops(crops, img, kept)
    ensures BoxCrops(crops + [Crop(img, c.box)], img, kept + [c])
  {
  }
}
