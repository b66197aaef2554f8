/**
 * DsLima.py: `process_steps` on the "Langkah Deteksi" page. Contours are
 * filtered by area, solidity and the aspect of their rotated rectangle,
 * ranked by area, cut to `max_plates`, and each survivor is outlined,
 * cropped with padding and read by OCR inside a `try`.
 */
module DsLima {
  import opened Seqs
  import opened PlateText
  import opened Geometry
  import opened Ocr
  import opened AreaRanking

  /** The filter and ranking parameters (the Canny and kernel parameters only feed OpenCV). */
  datatype Params = Params(minArea: real, minAspect: real, maxAspect: real, minSolidity: real, maxPlates: int)

  /** `default_params`. */
  const DefaultParams := Params(1500.0, 2.0, 6.0, 0.6, 1)

  function MinReal(a: real, b: real): real { if a <= b then a else b }
  function MaxReal(a: real, b: real): real { if a >= b then a else b }

  /** `float(area) / hull_area if hull_area > 0 else 0`. */
  function Solidity(c: Contour): real
  {
    if c.hullArea > 0.0 then c.area / c.hullArea else 0.0
  }

  /** `max(w, h) / min(w, h) if min(w, h) > 0 else 0` over the sides of the rotated rectangle. */
  function RotatedAspect(r: RotatedRect): real
  {
    if MinReal(r.w, r.h) > 0.0 then MaxReal(r.w, r.h) / MinReal(r.w, r.h) else 0.0
  }

  predicate Keep(c: Contour, p: Params)
  {
    && c.area > p.minArea
    && Solidity(c) > p.minSolidity
    && p.minAspect < RotatedAspect(c.rect) < p.maxAspect
  }

  function Selector(p: Params): Contour -> bool
  {
    c => Keep(c, p)
  }

  /**
   * The aspect is long side over short side, so it is at least 1 for a
   * proper rectangle and 0 for a degenerate one; with `min_aspect` at least
   * 0 (its slider starts at 1.0) a degenerate rectangle is never kept.
   */
  lemma AspectRange(c: Contour, p: Params)
    ensures MinReal(c.rect.w, c.rect.h) > 0.0 ==> RotatedAspect(c.rect) >= 1.0
    ensures MinReal(c.rect.w, c.rect.h) <= 0.0 ==> RotatedAspect(c.rect) == 0.0
    ensures p.minAspect >= 0.0 && MinReal(c.rect.w, c.rect.h) <= 0.0 ==> !Keep(c, p)
  {
    var lo, hi := MinReal(c.rect.w, c.rect.h), MaxReal(c.rect.w, c.rect.h);
    if lo > 0.0 {
      assert hi >= lo;
      assert hi / lo >= lo / lo;
    }
  }

  /**
   * With a non-negative `min_solidity` (its slider starts at 0.0) a kept
   * contour has a positive hull area and covers more than `min_solidity`
   * of it.
   */
  lemma SolidityGate(c: Contour, p: Params)
    requires p.minSolidity >= 0.0 && Keep(c, p)
    ensures c.hullArea > 0.0 && c.area > p.minSolidity * c.hullArea
  {
    assert c.area / c.hullArea * c.hullArea == c.area;
  }

  /** The contours `process_steps` keeps, after the sort and the cut. */
  function Ranked(cs: seq<Contour>, p: Params): seq<Contour>
  {
    TopK(SortByAreaDesc(Filter(cs, Selector(p))), p.maxPlates)
  }

  /**
   * For a non-negative `max_plates`: `min(N, max_plates)` of the `N`
   * contours that pass the three tests, largest area first, none smaller
   * than a passing contour left out, and among equal areas the ones found
   * first.
   */
  lemma RankedSpec(cs: seq<Contour>, p: Params)
    requires p.maxPlates >= 0
    ensures var kept, top := Filter(cs, Selector(p)), Ranked(cs, p);
      && |top| == MinInt(|kept|, p.maxPlates)
      && SortedByAreaDesc(top)
      && (forall c :: c in top ==> c in cs && Keep(c, p))
      && (forall c, d :: c in top && d in multiset(kept) - multiset(top) ==> c.area >= d.area)
      && (forall a :: Filter(top, AreaIs(a)) <= Filter(kept, AreaIs(a)))
  {
    var kept := Filter(cs, Selector(p));
    TopKShape(kept, p.maxPlates);
    TopKDominates(kept, p.maxPlates);
    forall a ensures Filter(Ranked(cs, p), AreaIs(a)) <= Filter(kept, AreaIs(a)) {
      TopKTies(kept, p.maxPlates, a);
    }
    FilterSound(cs, Selector(p));
    forall c | c in Ranked(cs, p) ensures c in cs && Keep(c, p) {
      assert c in multiset(Ranked(cs, p));
      assert c in multiset(kept);
    }
  }

  /**
   * With `default_params` (`max_plates` 1) at most one contour survives: one
   * exactly when some contour passes the three tests, and then one of the
   * largest such.
   */
  lemma DefaultRanking(cs: seq<Contour>)
    ensures var top := Ranked(cs, DefaultParams);
      && |top| <= 1
      && (|top| == 1 <==> exists c :: c in cs && Keep(c, DefaultParams))
      && (|top| == 1 ==> forall c :: c in cs && Keep(c, DefaultParams) ==> top[0].area >= c.area)
  {
    var p := DefaultParams;
    var kept := Filter(cs, Selector(p));
    var top := TopK(SortByAreaDesc(kept), 1);
    assert Ranked(cs, p) == top;
    TopKShape(kept, 1);
    assert |top| == MinInt(|kept|, 1);
    if exists c :: c in cs && Keep(c, p) {
      var c :| c in cs && Keep(c, p);
      PassingIsKept(cs, p, c);
      assert |top| == 1;
      forall d | d in cs && Keep(d, p) ensures top[0].area >= d.area {
        PassingIsKept(cs, p, d);
        SoleSurvivorDominates(kept, d);
      }
    } else {
      NothingPasses(cs, p);
    }
  }

  /** A contour of the input that passes the three tests is in `filtered_contours`. */
  lemma PassingIsKept(cs: seq<Contour>, p: Params, c: Contour)
    requires c in cs && Keep(c, p)
    ensures c in Filter(cs, Selector(p))
  {
    FilterComplete(cs, Selector(p));
    assert Selector(p)(c);
  }

  /** When no contour passes, nothing is kept. */
  lemma {:induction false} NothingPasses(cs: seq<Contour>, p: Params)
    requires forall c :: c in cs ==> !Keep(c, p)
    ensures Filter(cs, Selector(p)) == []
    decreases |cs|
  {
    if cs != [] {
      var init := cs[..|cs| - 1];
      assert forall c :: c in init ==> c in cs;
      NothingPasses(init, p);
      assert !Selector(p)(cs[|cs| - 1]);
    }
  }

  /** The one contour `sorted(kept)[:1]` keeps is at least as large as every kept contour. */
  lemma SoleSurvivorDominates(kept: seq<Contour>, d: Contour)
    requires d in kept
    ensures var top := TopK(SortByAreaDesc(kept), 1);
      |top| == 1 && top[0].area >= d.area
  {
    var top := TopK(SortByAreaDesc(kept), 1);
    TopKShape(kept, 1);
    TopKDominates(kept, 1);
    assert top[0] in top;
    if d != top[0] {
      assert multiset(top) == multiset{top[0]} by { assert top == [top[0]]; }
      assert d in multiset(kept) - multiset(top);
    }
  }

  /** The padding added on every side of a bounding box before cropping. */
  const Padding := 30

  /** A crop window; its width or height is negative when the box lies beyond the image. */
  datatype Window = Window(x: int, y: int, w: int, h: int)

  /** `x = max(0, x - 30)`, `w = min(W - x, w + 60)`, and the same for `y` and `h`. */
  function PadWindow(b: Box, width: nat, height: nat): Window
  {
    var x := MaxInt(0, b.x - Padding);
    var y := MaxInt(0, b.y - Padding);
    Window(x, y, MinInt(width - x, b.w + 2 * Padding), MinInt(height - y, b.h + 2 * Padding))
  }

  /**
   * The padded window never starts before the image nor ends after it, and
   * when the box lies inside the image the window lies inside it too and
   * contains the box.
   */
  lemma PadWindowSpec(b: Box, width: nat, height: nat)
    ensures var win := PadWindow(b, width, height);
      && 0 <= win.x && win.x + win.w <= width
      && 0 <= win.y && win.y + win.h <= height
    ensures b.x + b.w <= width && b.y + b.h <= height ==>
      var win := PadWindow(b, width, height);
      && win.x <= b.x && b.x + b.w <= win.x + win.w
      && win.y <= b.y && b.y + b.h <= win.y + win.h
      && win.x + win.w <= width && win.y + win.h <= height
  {
  }

  /** `img[y:y+h, x:x+w]` over the padded window. */
  function PaddedCrop(img: Image, b: Box): Image
  {
    var win := PadWindow(b, img.width, img.Height());
    SliceImage(img, win.y, win.y + win.h, win.x, win.x + win.w)
  }

  /**
   * For a box inside the image, the padded window contains the box and the
   * padded crop is exactly the window's pixels.
   */
  lemma PaddedCropContainsBox(img: Image, b: Box)
    requires img.Rectangular() && BoxInside(b, img)
    ensures var win, c := PadWindow(b, img.width, img.Height()), PaddedCrop(img, b);
      && win.x <= b.x && b.x + b.w <= win.x + win.w
      && win.y <= b.y && b.y + b.h <= win.y + win.h
      && c.Rectangular() && c.width == win.w && c.Height() == win.h
      && forall i, j :: 0 <= i < win.h && 0 <= j < win.w ==> c.rows[i][j] == img.rows[win.y + i][win.x + j]
  {
    PadWindowSpec(b, img.width, img.Height());
    var win := PadWindow(b, img.width, img.Height());
    SliceInside(img, win.y, win.y + win.h, win.x, win.x + win.w);
  }

  const NotFound := "Tidak Ditemukan"
  const OcrFailedText := "OCR Gagal"

  /**
   * The entry of `plate_texts` for one OCR reply: the alphanumeric
   * characters, stripped; "Tidak Ditemukan" when none are left; "OCR Gagal"
   * when the call raised.
   */
  function TextEntry(reply: OcrReply): string
  {
    match reply
    case OcrError => OcrFailedText
    case Read(raw) =>
      var cleaned := Strip(Sanitize(raw));
      if cleaned == "" then NotFound else cleaned
  }

  /**
   * The three kinds of entry cannot be confused: "OCR Gagal" exactly when
   * OCR raised, "Tidak Ditemukan" exactly when it read no letter or digit,
   * and otherwise the letters and digits it read, in order (both markers
   * hold a space, which no cleaned text does).
   */
  lemma TextEntrySpec(reply: OcrReply)
    ensures TextEntry(reply) == OcrFailedText <==> reply.OcrError?
    ensures TextEntry(reply) == NotFound <==> reply.Read? && Sanitize(reply.raw) == ""
    ensures reply.Read? && Sanitize(reply.raw) != "" ==> TextEntry(reply) == Sanitize(reply.raw)
  {
    if reply.Read? {
      var t := Sanitize(reply.raw);
      StripSanitized(reply.raw);
      FilterSound(reply.raw, IsAlnum);
      assert !IsAlnum(OcrFailedText[3]) && !IsAlnum(NotFound[5]);
      if t != "" {
        assert t != OcrFailedText && t != NotFound by {
          if |t| > 5 {
            assert IsAlnum(t[3]) && IsAlnum(t[5]);
          }
        }
      }
    }
  }

  /** The first loop of `process_steps`: the contours passing the three tests, in discovery order. */
  method FilterCandidates(cs: seq<Contour>, p: Params) returns (filtered: seq<Contour>)
    ensures filtered == Filter(cs, Selector(p))
  {
    filtered := [];
    for i := 0 to |cs|
      invariant filtered == Filter(cs[..i], Selector(p))
    {
      assert cs[..i + 1][..i] == cs[..i];
      var c := cs[i];
      if c.area > p.minArea {
        var solidity := if c.hullArea > 0.0 then c.area / c.hullArea else 0.0;
        if solidity > p.minSolidity {
          var lo, hi := MinReal(c.rect.w, c.rect.h), MaxReal(c.rect.w, c.rect.h);
          var aspect := if lo > 0.0 then hi / lo else 0.0;
          if p.minAspect < aspect < p.maxAspect {
            filtered := filtered + [c];
          }
        }
      }
    }
    assert cs[..|cs|] == cs;
  }

  /**
   * The second loop of `process_steps`: survivor `i` gets an outline with
   * the caption "Plat i+1", the crop of its padded bounding box and the
   * text entry for what OCR makes of that crop.
   */
  method OutlineCropRead(img: Image, top: seq<Contour>, engine: Engine)
    returns (result: Annotated, crops: seq<Image>, texts: seq<string>)
    ensures result.base == img && |result.marks| == |top|
    ensures forall i :: 0 <= i < |top| ==> result.marks[i] == RotatedOutline(top[i].rect, i + 1)
    ensures |crops| == |top| && forall i :: 0 <= i < |top| ==> crops[i] == PaddedCrop(img, top[i].box)
    ensures |texts| == |top| && forall i :: 0 <= i < |top| ==> texts[i] == TextEntry(engine(crops[i]))
  {
    var marks: seq<Mark> := [];
    crops := [];
    texts := [];
    for i := 0 to |top|
      invariant |marks| == i && |crops| == i && |texts| == i
      invariant forall k :: 0 <= k < i ==> marks[k] == RotatedOutline(top[k].rect, k + 1)
      invariant forall k :: 0 <= k < i ==> crops[k] == PaddedCrop(img, top[k].box)
      invariant forall k :: 0 <= k < i ==> texts[k] == TextEntry(engine(crops[k]))
    {
      marks := marks + [RotatedOutline(top[i].rect, i + 1)];
      var cropped := PaddedCrop(img, top[i].box);
      crops := crops + [cropped];
      texts := texts + [TextEntry(engine(cropped))];
    }
    result := Annotated(img, marks);
  }

  /**
   * `process_steps`: filter, sort the kept list by area in place (largest
   * first), cut it to `max_plates`, then outline, crop and read each
   * survivor.
   */
  method ProcessSteps(img: Image, cs: seq<Contour>, p: Params, engine: Engine)
    returns (result: Annotated, crops: seq<Image>, texts: seq<string>)
    ensures var top := Ranked(cs, p);
      && result.base == img && |result.marks| == |top|
      && (forall i :: 0 <= i < |top| ==> result.marks[i] == RotatedOutline(top[i].rect, i + 1))
      && |crops| == |top| && (forall i :: 0 <= i < |top| ==> crops[i] == PaddedCrop(img, top[i].box))
      && |texts| == |top| && (forall i :: 0 <= i < |top| ==> texts[i] == TextEntry(engine(crops[i])))
  {
    var filtered := FilterCandidates(cs, p);
    filtered := SortByAreaDesc(filtered);
    var top := TopK(filtered, p.maxPlates);
    result, crops, texts := OutlineCropRead(img, top, engine);
  }
}
