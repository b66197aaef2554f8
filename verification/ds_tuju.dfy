/** DsTuju.py: `detect_plate`, resolving each plate with the Lampung `get_region`. */
module DsTuju {
  import opened Outcomes
  import opened Geometry
  import opened Ocr
  import opened RatioGate
  import opened CandidateRecords
  import opened LampungRegion

  /** The markers recorded for every kept plate when `pytesseract.get_tesseract_version()` raised at start-up. */
  const NoOcrText := "-"
  const NoOcrLocation := "OCR tidak tersedia"

  /** How `detect_plate` fills `texts` and `locs`, given whether OCR was found at start-up. */
  function Mode(ocrReady: bool, engine: Engine): OcrMode
  {
    if ocrReady then Ready(engine) else Unavailable(NoOcrText, NoOcrLocation)
  }

  /**
   * `detect_plate`: the ratio gate, then one rectangle, crop, text and
   * location per kept contour. With OCR ready the text is the alphanumeric
   * part of what OCR reads (an OCR exception ends the call) and the location
   * is `get_region` of that text; without it every entry is "-" and
   * "OCR tidak tersedia".
   */
  method DetectPlate(img: Image, cs: seq<Contour>, p: GateParams, ocrReady: bool, engine: Engine)
    returns (r: Result<Records, Fault>)
    ensures r.Err? <==> ocrReady && OcrFails(img, Kept(cs, p), Ready(engine))
    ensures r.Err? ==> r.error == OcrFailed
    ensures r.Ok? ==> Describes(r.value, img, Kept(cs, p), Mode(ocrReady, engine), GetRegion)
  {
    r := DetectCandidates(img, cs, p, Mode(ocrReady, engine), GetRegion);
  }

  /** Without OCR the run cannot fail, and every kept contour gets the two markers. */
  lemma WithoutOcr(r: Records, img: Image, cs: seq<Contour>, p: GateParams, engine: Engine)
    requires Describes(r, img, Kept(cs, p), Mode(false, engine), GetRegion)
    ensures |r.plates| == |r.texts| == |r.locations| == |Kept(cs, p)|
    ensures forall i :: 0 <= i < |r.texts| ==> r.texts[i] == "-" && r.locations[i] == "OCR tidak tersedia"
  {
    assert forall i :: 0 <= i < |r.texts| ==> Entry(Mode(false, engine), GetRegion, r.plates[i], r.texts[i], r.locations[i]);
  }

  /** With OCR every location is one of the answers `get_region` can give. */
  lemma WithOcr(r: Records, img: Image, cs: seq<Contour>, p: GateParams, engine: Engine)
    requires Describes(r, img, Kept(cs, p), Mode(true, engine), GetRegion)
    ensures forall i :: 0 <= i < |r.locations| ==> r.locations[i] == GetRegion(r.texts[i])
    ensures forall i :: 0 <= i < |r.locations| ==>
      || r.locations[i] in {EmptyText, NotLampung, UnknownCode}
      || exists j :: 0 <= j < |Regencies| && r.locations[i] == Regencies[j].1
  {
    forall i | 0 <= i < |r.locations|
      ensures r.locations[i] == GetRegion(r.texts[i])
      ensures || r.locations[i] in {EmptyText, NotLampung, UnknownCode}
              || exists j :: 0 <= j < |Regencies| && r.locations[i] == Regencies[j].1
    {
      assert Entry(Mode(true, engine), GetRegion, r.plates[i], r.texts[i], r.locations[i]);
      GetRegionTotal(r.texts[i]);
    }
  }
}
