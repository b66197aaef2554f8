/**
 * DsTiga.py: `detect_license_plate`, which keeps the contours whose area lies
 * strictly between two bounds and whose bounding box has a width-to-height
 * ratio strictly between two bounds, then draws and crops them.
 */
module DsTiga {
  import opened Outcomes
  import opened Seqs
  import opened Geometry

  /** The filter's keyword arguments (the Canny and kernel arguments only feed OpenCV). */
  datatype Params = Params(minArea: real, maxArea: real, ratioMin: real, ratioMax: real)

  /** The keyword defaults: 500, 50000, 2.0 and 5.0. */
  const Defaults := Params(500.0, 50000.0, 2.0, 5.0)

  /** The first test of the loop, the only one reached before the division. */
  predicate InAreaBand(c: Contour, p: Params)
  {
    p.minArea < c.area < p.maxArea
  }

  predicate Keep(c: Contour, p: Params)
  {
    InAreaBand(c, p) && c.box.h > 0 && p.ratioMin < Aspect(c.box) < p.ratioMax
  }

  function Selector(p: Params): Contour -> bool
  {
    c => Keep(c, p)
  }

  /** With the keyword defaults a contour is kept iff 500 < area < 50000 and 2h < w < 5h. */
  lemma DefaultSelection(c: Contour)
    ensures Keep(c, Defaults) <==>
      && 500.0 < c.area < 50000.0 && c.box.h > 0
      && 2.0 * c.box.h as real < c.box.w as real < 5.0 * c.box.h as real
  {
    if c.box.h > 0 {
      AspectBetween(c.box, 2.0, 5.0);
    }
  }

  /** Some contour passes the area test with a box of height 0, so `w / float(h)` raises. */
  predicate DividesByZero(cs: seq<Contour>, p: Params)
  {
    exists i :: 0 <= i < |cs| && InAreaBand(cs[i], p) && cs[i].box.h == 0
  }

  /**
   * The first loop: `filtered_contours` is the order-preserving selection of
   * the contours that pass both tests, unless a contour in the area band has
   * height 0, which ends the call with `ZeroDivisionError`.
   */
  method FilterContours(cs: seq<Contour>, p: Params) returns (r: Result<seq<Contour>, Fault>)
    ensures r.Err? <==> DividesByZero(cs, p)
    ensures r.Err? ==> r.error == ZeroDivision
    ensures r.Ok? ==> r.value == Filter(cs, Selector(p))
  {
    var filtered: seq<Contour> := [];
    var i := 0;
    while i < |cs|
      invariant 0 <= i <= |cs|
      invariant filtered == Filter(cs[..i], Selector(p))
      invariant !DividesByZero(cs[..i], p)
    {
      var c := cs[i];
      SelectedExtend(cs, i, p);
      if p.minArea < c.area < p.maxArea {
        if c.box.h == 0 {
          RaisesAt(cs, i, p);
          return Err(ZeroDivision);
        }
        var ratio := Aspect(c.box);
        if p.ratioMin < ratio < p.ratioMax {
          filtered := filtered + [c];
        }
      }
      i := i + 1;
    }
    assert cs[..|cs|] == cs;
    r := Ok(filtered);
  }

  /** A contour in the area band with height 0 makes the division raise. */
  lemma RaisesAt(cs: seq<Contour>, i: nat, p: Params)
    requires i < |cs| && InAreaBand(cs[i], p) && cs[i].box.h == 0
    ensures DividesByZero(cs, p)
  {
  }

  /**
   * One more contour of `cs`: it is selected exactly when it passes both
   * tests, and it raises exactly when it is in the area band with height 0.
   */
  lemma SelectedExtend(cs: seq<Contour>, i: nat, p: Params)
    requires i < |cs|
    ensures Filter(cs[..i + 1], Selector(p)) ==
      if Keep(cs[i], p) then Filter(cs[..i], Selector(p)) + [cs[i]] else Filter(cs[..i], Selector(p))
    ensures DividesByZero(cs[..i + 1], p) <==>
      DividesByZero(cs[..i], p) || (InAreaBand(cs[i], p) && cs[i].box.h == 0)
  {
    FilterExtend(cs, i, Selector(p));
    assert Filter(cs[..i], Selector(p)) + [] == Filter(cs[..i], Selector(p));
    var pre := cs[..i + 1];
    assert pre[i] == cs[i];
    if DividesByZero(cs[..i], p) {
      var j :| 0 <= j < i && InAreaBand(cs[..i][j], p) && cs[..i][j].box.h == 0;
      assert pre[j] == cs[..i][j];
    }
    if DividesByZero(pre, p) {
      var j :| 0 <= j < i + 1 && InAreaBand(pre[j], p) && pre[j].box.h == 0;
      if j < i {
        assert cs[..i][j] == pre[j];
      }
    }
  }

  /** The second loop: one rectangle on the copy and one crop per filtered contour. */
  method DrawAndCrop(img: Image, filtered: seq<Contour>) returns (result: Annotated, crops: seq<Image>)
    ensures BoxesDrawn(result, img, filtered)
    ensures BoxCrops(crops, img, filtered)
  {
    var marks: seq<Mark> := [];
    crops := [];
    for i := 0 to |filtered|
      invariant BoxesDrawn(Annotated(img, marks), img, filtered[..i])
      invariant BoxCrops(crops, img, filtered[..i])
    {
      marks := marks + [Rectangle(filtered[i].box)];
      crops := crops + [Crop(img, filtered[i].box)];
    }
    assert filtered[..|filtered|] == filtered;
    result := Annotated(img, marks);
  }

  /** What `detect_license_plate` returns (edge and morphology images are OpenCV output, left out). */
  datatype Detection = Detection(result: Annotated, filtered: seq<Contour>, crops: seq<Image>)

  method DetectLicensePlate(img: Image, cs: seq<Contour>, p: Params) returns (r: Result<Detection, Fault>)
    ensures r.Err? <==> DividesByZero(cs, p)
    ensures r.Err? ==> r.error == ZeroDivision
    ensures r.Ok? ==> && r.value.filtered == Filter(cs, Selector(p))
                      && BoxesDrawn(r.value.result, img, r.value.filtered)
                      && BoxCrops(r.value.crops, img, r.value.filtered)
  {
    var f := FilterContours(cs, p);
    if f.Err? {
      return Err(f.error);
    }
    var result, crops := DrawAndCrop(img, f.value);
    r := Ok(Detection(result, f.value, crops));
  }

  /**
   * The `detect_license_plate` of the two other pages with this policy: the
   * same selection, drawing and cropping, returning only the annotated copy
   * and the crops.
   */
  method DetectAndCrop(img: Image, cs: seq<Contour>, p: Params) returns (r: Result<(Annotated, seq<Image>), Fault>)
    ensures r.Err? <==> DividesByZero(cs, p)
    ensures r.Err? ==> r.error == ZeroDivision
    ensures r.Ok? ==> && BoxesDrawn(r.value.0, img, Filter(cs, Selector(p)))
                      && BoxCrops(r.value.1, img, Filter(cs, Selector(p)))
  {
    var d := DetectLicensePlate(img, cs, p);
    if d.Err? {
      return Err(d.error);
    }
    r := Ok((d.value.result, d.value.crops));
  }

  /**
   * The selection is exactly the contours passing both strict tests, as an
   * order-preserving subsequence: position `k` of the result is the contour
   * at position `idx[k]` of the input, for increasing `idx`, and a contour of
   * the input is at one of those positions exactly when it passes.
   */
  lemma SelectionSpec(cs: seq<Contour>, p: Params)
    ensures var r, idx := Filter(cs, Selector(p)), KeptIndices(cs, Selector(p));
      && |r| == |idx| <= |cs|
      && StrictlyIncreasing(idx)
      && (forall k :: 0 <= k < |r| ==> idx[k] < |cs| && r[k] == cs[idx[k]])
      && (forall i :: 0 <= i < |cs| ==> (i in idx <==> Keep(cs[i], p)))
  {
    FilterCharacterization(cs, Selector(p));
  }

  /** Every kept contour is strictly inside both bands. */
  lemma SelectionBounds(cs: seq<Contour>, p: Params)
    ensures forall c :: c in Filter(cs, Selector(p)) ==>
      && p.minArea < c.area < p.maxArea && c.box.h > 0
      && p.ratioMin < c.box.w as real / c.box.h as real < p.ratioMax
  {
    FilterSound(cs, Selector(p));
  }
}
