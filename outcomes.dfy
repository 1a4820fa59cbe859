/** Values shared by every part of the converter: optional values and the
    ways a conversion run can stop. */
module Outcomes {

  /** An optional value; `None` stands for Python's `None`. */
  datatype Option<+T> = None | Some(value: T)

  /** Why a run stops before the document is assembled. */
  datatype Error =
    | TitleMissing                  // no <title> when the output name has to be derived from it
    | SummaryMissing                // no <ul class="summary"> navigation list on the landing page
    | FetchFailed(url: string)      // both request attempts for this page raised
    | ExtractionFailed(url: string) // the page has no content section to extract

  /** The outcome of an operation that may raise one of the errors above. */
  datatype Result<+T> = Ok(value: T) | Err(error: Error)
}
