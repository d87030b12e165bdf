/** The Python exceptions the step scorer can raise, and a result type that
    carries either a value or the exception that ended the call. */
module Failures {

  datatype Error =
    | ValueError            // min() or max() of an empty sequence
    | StatisticsError       // statistics.mean() of an empty sequence
    | IndexError            // [][-1]
    | NotImplementedError   // an aggregation mode the scorer does not know

  datatype Result<+T> = Ok(value: T) | Err(error: Error)
}
