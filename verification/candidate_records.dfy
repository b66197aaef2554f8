/**
 * The candidate loop shared by `detect` (CodeFix.py) and `detect_plate`
 * (DsTuju.py, DsEnam.py): every contour that passes the ratio gate gets a
 * rectangle on the copy of the image, its crop, a text and a location, the
 * four lists growing together.
 */
module CandidateRecords {
  import opened Outcomes
  import opened Seqs
  import opened PlateText
  import opened Geometry
  import opened Ocr
  import opened RatioGate

  /** Where the text and the location of a kept candidate come from. */
  datatype OcrMode =
    | Ready(engine: Engine)                        // OCR the crop and keep its alphanumeric characters
    | Unavailable(text: string, location: string)  // fixed markers when no recogniser is installed

  /** What the loop returns: the annotated copy and the three aligned lists. */
  datatype Records = Records(annotated: Annotated, plates: seq<Image>, texts: seq<string>, locations: seq<string>)

  /** The contours the gate lets through, in discovery order. */
  function Kept(cs: seq<Contour>, p: GateParams): seq<Contour>
  {
    Filter(cs, Gate(p))
  }

  /** The text and location recorded for a crop. */
  predicate Entry(mode: OcrMode, resolve: string -> string, plate: Image, text: string, location: string)
  {
    match mode
    case Ready(engine) =>
      engine(plate).Read? && text == Sanitize(engine(plate).raw) && location == resolve(text)
    case Unavailable(t, l) =>
      text == t && location == l
  }

  /** Index by index, `r` holds the rectangle, the crop, the text and the location of each kept contour. */
  predicate Describes(r: Records, img: Image, kept: seq<Contour>, mode: OcrMode, resolve: string -> string)
  {
    && r.annotated.base == img
    && |r.annotated.marks| == |kept| && |r.plates| == |kept|
    && |r.texts| == |kept| && |r.locations| == |kept|
    && forall i :: 0 <= i < |kept| ==>
         && r.annotated.marks[i] == Rectangle(kept[i].box)
         && r.plates[i] == Crop(img, kept[i].box)
         && Entry(mode, resolve, r.plates[i], r.texts[i], r.locations[i])
  }

  /** Some OCR call raises; nothing in the loop catches it. */
  predicate OcrFails(img: Image, kept: seq<Contour>, mode: OcrMode)
  {
    mode.Ready? && exists i :: 0 <= i < |kept| && mode.engine(Crop(img, kept[i].box)).OcrError?
  }

  /**
   * The loop: the run ends in `OcrFailed` exactly when the recogniser raises
   * on some kept crop, and otherwise returns one record per kept contour.
   */
  method DetectCandidates(img: Image, cs: seq<Contour>, p: GateParams, mode: OcrMode, resolve: string -> string)
    returns (r: Result<Records, Fault>)
    ensures r.Err? <==> OcrFails(img, Kept(cs, p), mode)
    ensures r.Err? ==> r.error == OcrFailed
    ensures r.Ok? ==> Describes(r.value, img, Kept(cs, p), mode, resolve)
  {
    var marks: seq<Mark> := [];
    var plates: seq<Image> := [];
    var texts: seq<string> := [];
    var locations: seq<string> := [];
    var i := 0;
    while i < |cs|
      invariant 0 <= i <= |cs|
      invariant Describes(Records(Annotated(img, marks), plates, texts, locations), img, Kept(cs[..i], p), mode, resolve)
    {
      var c := cs[i];
      KeptExtend(cs, i, p);
      if Keep(c, p) {
        var crop := Crop(img, c.box);
        var entry := ReadPlate(crop, mode, resolve);
        if entry.Err? {
          RaisingContour(img, cs, i, p, mode);
          return Err(OcrFailed);
        }
        var (text, location) := entry.value;
        DescribesExtend(Records(Annotated(img, marks), plates, texts, locations), img, Kept(cs[..i], p), mode, resolve, c, text, location);
        marks := marks + [Rectangle(c.box)];
        plates := plates + [crop];
        texts := texts + [text];
        locations := locations + [location];
      }
      i := i + 1;
    }
    assert cs[..|cs|] == cs;
    DescribedRunsRead(Records(Annotated(img, marks), plates, texts, locations), img, Kept(cs, p), mode, resolve);
    r := Ok(Records(Annotated(img, marks), plates, texts, locations));
  }

  /** The text and location of one crop: read and resolved, or the fixed markers. */
  method ReadPlate(crop: Image, mode: OcrMode, resolve: string -> string) returns (r: Result<(string, string), Fault>)
    ensures r.Err? <==> mode.Ready? && mode.engine(crop).OcrError?
    ensures r.Err? ==> r.error == OcrFailed
    ensures r.Ok? ==> Entry(mode, resolve, crop, r.value.0, r.value.1)
  {
    match mode {
      case Ready(engine) =>
        var reply := engine(crop);
        if reply.OcrError? {
          return Err(OcrFailed);
        }
        var text := Sanitize(reply.raw);
        r := Ok((text, resolve(text)));
      case Unavailable(t, l) =>
        r := Ok((t, l));
    }
  }

  /** OCR raising on the crop of a kept contour makes the whole run fail. */
  lemma RaisingContour(img: Image, cs: seq<Contour>, i: nat, p: GateParams, mode: OcrMode)
    requires i < |cs| && Keep(cs[i], p)
    requires mode.Ready? && mode.engine(Crop(img, cs[i].box)).OcrError?
    ensures OcrFails(img, Kept(cs, p), mode)
  {
    KeptPrefix(cs, i, p);
    var j := |Kept(cs[..i], p)|;
    assert Kept(cs, p)[j] == cs[i];
  }

  /** The kept list of `cs[..i + 1]`, from that of `cs[..i]`. */
  lemma KeptExtend(cs: seq<Contour>, i: nat, p: GateParams)
    requires i < |cs|
    ensures Kept(cs[..i + 1], p) == if Keep(cs[i], p) then Kept(cs[..i], p) + [cs[i]] else Kept(cs[..i], p)
  {
    FilterExtend(cs, i, Gate(p));
    assert Kept(cs[..i], p) + [] == Kept(cs[..i], p);
  }

  /** Appending the record of one more kept contour keeps `Describes`. */
  lemma DescribesExtend(r: Records, img: Image, kept: seq<Contour>, mode: OcrMode, resolve: string -> string,
                        c: Contour, text: string, location: string)
    requires Describes(r, img, kept, mode, resolve)
    requires Entry(mode, resolve, Crop(img, c.box), text, location)
    ensures Describes(Records(Annotated(img, r.annotated.marks + [Rectangle(c.box)]), r.plates + [Crop(img, c.box)],
                              r.texts + [text], r.locations + [location]),
                      img, kept + [c], mode, resolve)
  {
  }

  /** When every kept contour has a record, no OCR call raised on them. */
  lemma DescribedRunsRead(r: Records, img: Image, kept: seq<Contour>, mode: OcrMode, resolve: string -> string)
    requires Describes(r, img, kept, mode, resolve)
    ensures !OcrFails(img, kept, mode)
  {
    if mode.Ready? {
      forall i | 0 <= i < |kept| ensures mode.engine(Crop(img, kept[i].box)).Read? {
        assert Entry(mode, resolve, r.plates[i], r.texts[i], r.locations[i]);
      }
    }
  }

  /** A contour kept at position `i` sits in the full kept list right after those kept before it. */
  lemma KeptPrefix(cs: seq<Contour>, i: nat, p: GateParams)
    requires i < |cs| && Keep(cs[i], p)
    ensures |Kept(cs[..i], p)| < |Kept(cs, p)| && Kept(cs, p)[|Kept(cs[..i], p)|] == cs[i]
  {
    assert cs[..i + 1][..i] == cs[..i];
    assert Kept(cs[..i + 1], p) == Kept(cs[..i], p) + [cs[i]];
    FilterPrefix(cs, i + 1, Gate(p));
  }

  /** A recognised text holds only letters and digits, in the order the recogniser read them. */
  lemma RecognisedTexts(r: Records, img: Image, kept: seq<Contour>, engine: Engine, resolve: string -> string)
    requires Describes(r, img, kept, Ready(engine), resolve)
    ensures forall i, k :: 0 <= i < |r.texts| && 0 <= k < |r.texts[i]| ==> IsAlnum(r.texts[i][k])
    ensures forall i :: 0 <= i < |r.texts| ==> r.texts[i] == Filter(engine(r.plates[i]).raw, IsAlnum)
  {
    forall i | 0 <= i < |r.texts|
      ensures forall k :: 0 <= k < |r.texts[i]| ==> IsAlnum(r.texts[i][k])
    {
      FilterSound(engine(r.plates[i]).raw, IsAlnum);
    }
  }
}
