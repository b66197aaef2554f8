/**
 * DsEnam.py: `detect_plate` with the Lampung `get_region`, and the table of
 * codes its explanation page documents.
 */
module DsEnam {
  import opened Outcomes
  import opened PlateText
  import opened Geometry
  import opened Ocr
  import opened RatioGate
  import opened CandidateRecords
  import opened LampungRegion

  /**
   * The start-up flag: the `try` block only assigns the Tesseract path,
   * which cannot raise, so the flag is always set.
   */
  const OcrReady := true

  /** How `detect_plate` fills `texts` and `locations`. */
  function Mode(engine: Engine): OcrMode
  {
    if OcrReady then Ready(engine) else Unavailable("-", NotLampung)
  }

  /**
   * `detect_plate`: the ratio gate, then one rectangle, crop, text and
   * location per kept contour; the text is the alphanumeric part of what
   * OCR reads and the location is `get_region` of it. An OCR exception
   * ends the call.
   */
  method DetectPlate(img: Image, cs: seq<Contour>, p: GateParams, engine: Engine)
    returns (r: Result<Records, Fault>)
    ensures r.Err? <==> OcrFails(img, Kept(cs, p), Ready(engine))
    ensures r.Err? ==> r.error == OcrFailed
    ensures r.Ok? ==> Describes(r.value, img, Kept(cs, p), Ready(engine), GetRegion)
  {
    r := DetectCandidates(img, cs, p, Mode(engine), GetRegion);
  }

  /** The explanation page's list: each regency with the code letters it is given. */
  const DocumentedCodes: seq<(string, seq<char>)> := [
    ("Kota Bandar Lampung", ['A', 'B', 'C']),
    ("Kabupaten Lampung Selatan", ['E', 'F']),
    ("Kabupaten Lampung Tengah", ['G', 'H']),
    ("Kabupaten Lampung Utara", ['J', 'K']),
    ("Kabupaten Tanggamus", ['L', 'M']),
    ("Kabupaten Tulang Bawang", ['N', 'P']),
    ("Kabupaten Lampung Timur", ['Q', 'R']),
    ("Kabupaten Way Kanan", ['S', 'T']),
    ("Kabupaten Pesawaran", ['U', 'V']),
    ("Kabupaten Mesuji", ['W', 'X']),
    ("Kabupaten Pesisir Barat & Tulang Bawang Barat", ['Y', 'Z'])
  ]

  /** The table in the code is the documented list, row by row and letter by letter. */
  lemma TableMatchesDocumentation()
    ensures |DocumentedCodes| == |Regencies|
    ensures forall j :: 0 <= j < |Regencies| ==>
      DocumentedCodes[j].0 == Regencies[j].1 && DocumentedCodes[j].1 == Regencies[j].0
  {
  }

  /**
   * The explanation page says that a code not in the list shows "plat ini
   * bukan dari lampung"; the code answers "kode wilayah Lampung tidak
   * dikenali" for such a plate, and keeps the first answer for text that
   * does not start with BE.
   */
  lemma UnlistedCodeAnswer(text: string)
    requires text != "" && StartsWith(Normalize(text), "BE")
    requires forall i, k, j :: IsLeftmostMatch(Normalize(text), i, k) && 0 <= j < |Regencies| ==>
      Normalize(text)[i + 2 + k] !in Regencies[j].0
    ensures GetRegion(text) == UnknownCode && GetRegion(text) != NotLampung
  {
    GetRegionSpec(text);
    LabelsDistinct();
  }
}
