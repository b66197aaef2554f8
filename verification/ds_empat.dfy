/**
 * DsEmpat.py: the contour loop of `process_steps` on the "Detection Steps"
 * page, which the "Full Detection Process" page repeats with parameters
 * read from the session.
 */
module DsEmpat {
  import opened Outcomes
  import opened Seqs
  import opened Geometry

  /** The filter's parameters (the Canny and kernel parameters only feed OpenCV). */
  datatype Params = Params(minArea: real, minAspect: real, maxAspect: real)

  /** `default_params`: 1000, 2.0 and 6.0. */
  const DefaultParams := Params(1000.0, 2.0, 6.0)

  predicate Keep(c: Contour, p: Params)
  {
    c.area > p.minArea && c.box.h > 0 && p.minAspect < Aspect(c.box) < p.maxAspect
  }

  function Selector(p: Params): Contour -> bool
  {
    c => Keep(c, p)
  }

  /** Some contour passes the area test with a box of height 0, so `w / float(h)` raises. */
  predicate DividesByZero(cs: seq<Contour>, p: Params)
  {
    exists i :: 0 <= i < |cs| && cs[i].area > p.minArea && cs[i].box.h == 0
  }

  /**
   * `process_steps`: one loop that draws a rectangle on the copy and crops
   * every contour passing both tests, in discovery order, unless a contour
   * above the area minimum has height 0.
   */
  method ProcessSteps(img: Image, cs: seq<Contour>, p: Params) returns (r: Result<(Annotated, seq<Image>), Fault>)
    ensures r.Err? <==> DividesByZero(cs, p)
    ensures r.Err? ==> r.error == ZeroDivision
    ensures r.Ok? ==> && BoxesDrawn(r.value.0, img, Filter(cs, Selector(p)))
                      && BoxCrops(r.value.1, img, Filter(cs, Selector(p)))
  {
    var marks: seq<Mark> := [];
    var crops: seq<Image> := [];
    ghost var kept: seq<Contour> := [];
    var i := 0;
    while i < |cs|
      invariant 0 <= i <= |cs|
      invariant kept == Filter(cs[..i], Selector(p))
      invariant BoxesDrawn(Annotated(img, marks), img, kept)
      invariant BoxCrops(crops, img, kept)
      invariant !DividesByZero(cs[..i], p)
    {
      var c := cs[i];
      SelectedExtend(cs, i, p);
      if c.area > p.minArea {
        if c.box.h == 0 {
          RaisesAt(cs, i, p);
          return Err(ZeroDivision);
        }
        var ratio := Aspect(c.box);
        if p.minAspect < ratio < p.maxAspect {
          assert Keep(c, p);
          BoxesDrawnExtend(marks, img, kept, c);
          BoxCropsExtend(crops, img, kept, c);
          marks := marks + [Rectangle(c.box)];
          crops := crops + [Crop(img, c.box)];
          kept := kept + [c];
        }
      }
      i := i + 1;
    }
    assert cs[..|cs|] == cs;
    r := Ok((Annotated(img, marks), crops));
  }

  /** A contour above the area minimum with height 0 makes the division raise. */
  lemma RaisesAt(cs: seq<Contour>, i: nat, p: Params)
    requires i < |cs| && cs[i].area > p.minArea && cs[i].box.h == 0
    ensures DividesByZero(cs, p)
  {
  }

  /**
   * One more contour of `cs`: it is selected exactly when it passes both
   * tests, and it raises exactly when it passes the area test with height 0.
   */
  lemma SelectedExtend(cs: seq<Contour>, i: nat, p: Params)
    requires i < |cs|
    ensures Filter(cs[..i + 1], Selector(p)) ==
      if Keep(cs[i], p) then Filter(cs[..i], Selector(p)) + [cs[i]] else Filter(cs[..i], Selector(p))
    ensures DividesByZero(cs[..i + 1], p) <==>
      DividesByZero(cs[..i], p) || (cs[i].area > p.minArea && cs[i].box.h == 0)
  {
    FilterExtend(cs, i, Selector(p));
    assert Filter(cs[..i], Selector(p)) + [] == Filter(cs[..i], Selector(p));
    var pre := cs[..i + 1];
    assert pre[i] == cs[i];
    if DividesByZero(cs[..i], p) {
      var j :| 0 <= j < i && cs[..i][j].area > p.minArea && cs[..i][j].box.h == 0;
      assert pre[j] == cs[..i][j];
    }
    if DividesByZero(pre, p) {
      var j :| 0 <= j < i + 1 && pre[j].area > p.minArea && pre[j].box.h == 0;
      if j < i {
        assert cs[..i][j] == pre[j];
      }
    }
  }

  /** `st.session_state.get(key, default)`. */
  function SessionGet(session: map<string, real>, key: string, default: real): real
  {
    if key in session then session[key] else default
  }

  /** The parameters the steps page builds from the session for its custom run. */
  function StepsPageParams(session: map<string, real>): Params
  {
    Params(SessionGet(session, "min_area", 1000.0),
           SessionGet(session, "min_aspect", 2.0),
           SessionGet(session, "max_aspect", 6.0))
  }

  /** The parameters the full-detection page reads from the session (its defaults are written 2 and 6). */
  function FullPageParams(session: map<string, real>): Params
  {
    Params(SessionGet(session, "min_area", 1000.0),
           SessionGet(session, "min_aspect", 2 as real),
           SessionGet(session, "max_aspect", 6 as real))
  }

  /**
   * The two pages read the same parameters from any session, and with an
   * empty session both fall back to `default_params`.
   */
  lemma PagesReadSameParams(session: map<string, real>)
    ensures FullPageParams(session) == StepsPageParams(session)
    ensures StepsPageParams(map[]) == DefaultParams
  {
  }

  /**
   * The "Full Detection Process" page: the same loop as `process_steps`, run
   * with the parameters read from the session.
   */
  method FullDetection(img: Image, cs: seq<Contour>, session: map<string, real>)
    returns (r: Result<(Annotated, seq<Image>), Fault>)
    ensures r.Err? <==> DividesByZero(cs, StepsPageParams(session))
    ensures r.Ok? ==> && BoxesDrawn(r.value.0, img, Filter(cs, Selector(StepsPageParams(session))))
                      && BoxCrops(r.value.1, img, Filter(cs, Selector(StepsPageParams(session))))
  {
    PagesReadSameParams(session);
    r := ProcessSteps(img, cs, FullPageParams(session));
  }

  /**
   * The ratio is `w / h`, not long side over short side, so a tall box is
   * kept whenever `min_aspect` is below 1; with the sliders' range (from 1.0)
   * every kept box is wider than it is tall.
   */
  lemma TallBoxKept()
    ensures Keep(Contour(2000.0, Box(0, 0, 10, 40), 2000.0, RotatedRect(5.0, 20.0, 10.0, 40.0, 0.0)), Params(1000.0, 0.2, 6.0))
  {
  }

  lemma WideBoxes(c: Contour, p: Params)
    requires p.minAspect >= 1.0 && Keep(c, p)
    ensures c.box.w > c.box.h
  {
    var w, h := c.box.w as real, c.box.h as real;
    assert w / h * h == w;
    assert w / h > 1.0;
    assert w / h * h > 1.0 * h;
  }

  /** A kept contour has a positive height and both tests hold strictly. */
  lemma SelectionBounds(cs: seq<Contour>, p: Params)
    ensures forall c :: c in Filter(cs, Selector(p)) ==>
      && c.area > p.minArea && c.box.h > 0
      && p.minAspect < c.box.w as real / c.box.h as real < p.maxAspect
  {
    FilterSound(cs, Selector(p));
  }
}
