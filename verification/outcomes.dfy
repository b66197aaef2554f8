/** Optional values and error-carrying results shared by the whole model. */
module Outcomes {

  datatype Option<+T> = None | Some(value: T)

  /** The outcome of a detection run: its output, or the exception that ended it. */
  datatype Result<+T, +E> = Ok(value: T) | Err(error: E)

  /** The exceptions a detection run can end with. */
  datatype Fault =
    | ZeroDivision   // `w / float(h)` with `h == 0`
    | OcrFailed      // `pytesseract.image_to_string` raised outside any `try`
}
