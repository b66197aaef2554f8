/** The text recogniser (`pytesseract.image_to_string`) seen from the detector. */
module Ocr {
  import opened Geometry

  /** What one OCR call gives back: the raw string read, or the exception it raised. */
  datatype OcrReply = Read(raw: string) | OcrError

  /**
   * The recogniser as an oracle over crops. Any preprocessing the caller
   * applies to the crop first (grayscale, Otsu threshold, rescaling) is part
   * of the oracle.
   */
  type Engine = Image -> OcrReply
}
