/** Error kinds and the result type shared by the chart-scoring model. */
module Common {

  /** The exceptions the pipeline can raise, one constructor per cause. */
  datatype Error =
    | EmptySequence        // `max` of a series whose every entry was blank
    | InvalidSampleCount   // sample count not positive, or larger than the series
    | LengthMismatch       // two series of different lengths given to the MSE
    | DivisionByZero       // mean of zero squared errors
    | IndexOutOfRange      // `[-1]` of an empty column, or a label index past the end
    | RaggedColumns        // table columns of different lengths

  /** A value, or the exception that aborted its computation. */
  datatype Result<T> = Ok(value: T) | Err(error: Error)

  /** Python's `s[-1]`. */
  function Last<T>(s: seq<T>): T
    requires |s| > 0
  {
    s[|s| - 1]
  }
}
