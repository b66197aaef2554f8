/**
 * The contour test of `detect` (CodeFix.py) and of `detect_plate` (DsTuju.py
 * and DsEnam.py): the contour area must lie strictly above a minimum and the
 * width-to-height ratio of its bounding box strictly between two bounds,
 * the ratio of a box of height 0 being taken as 0.
 */
module RatioGate {
  import opened Geometry

  datatype GateParams = GateParams(minArea: real, minRatio: real, maxRatio: real)

  /** The values the three apps put in the session before the user moves a slider. */
  const SessionDefaults := GateParams(1500.0, 2.0, 6.0)

  /** `w/h if h else 0`. */
  function GuardedRatio(b: Box): real
  {
    if b.h != 0 then b.w as real / b.h as real else 0.0
  }

  predicate Keep(c: Contour, p: GateParams)
  {
    c.area > p.minArea && p.minRatio < GuardedRatio(c.box) < p.maxRatio
  }

  /** `Keep` as a value, for filtering a list of contours. */
  function Gate(p: GateParams): Contour -> bool
  {
    c => Keep(c, p)
  }

  /**
   * With a non-negative lower ratio bound (the sliders start at 1.0) a kept box
   * has a positive height, and its width exceeds `minRatio` times its height
   * but stays below `maxRatio` times it.
   */
  lemma KeptBoxShape(c: Contour, p: GateParams)
    requires p.minRatio >= 0.0
    ensures Keep(c, p) <==>
      && c.area > p.minArea && c.box.h > 0
      && p.minRatio * c.box.h as real < c.box.w as real < p.maxRatio * c.box.h as real
  {
    if c.box.h > 0 {
      var w, h := c.box.w as real, c.box.h as real;
      assert w / h * h == w;
      ScaleStrict(p.minRatio, w / h, h);
      ScaleStrict(w / h, p.maxRatio, h);
    }
  }

  /** With the session defaults a contour is kept iff its area exceeds 1500 and 2h < w < 6h. */
  lemma DefaultGate(c: Contour)
    ensures Keep(c, SessionDefaults) <==>
      && c.area > 1500.0 && c.box.h > 0
      && 2.0 * c.box.h as real < c.box.w as real < 6.0 * c.box.h as real
  {
    KeptBoxShape(c, SessionDefaults);
  }

  lemma ScaleStrict(a: real, b: real, h: real)
    requires h > 0.0
    ensures a < b <==> a * h < b * h
  {
  }
}
