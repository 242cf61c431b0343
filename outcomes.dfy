/** The conditions the scan core signals, the Python errors its operations
    can raise, and the wrappers that carry them as values. */
module Outcomes {

  /** The five exception classes declared at the end of baking.py.
      Saturation and NonZeroReading are raised there; the other three are
      declared, but not raised, in baking.py. */
  datatype Anomaly =
    | Saturation       // the reading is pinned at full scale and the gain was lowered
    | NonZeroReading   // a reading expected to be zero was not
    | NoisySignal      // excessive noise: fall back to a raster scan
    | Overlapped       // every proposed position was visited already
    | ZeroSignal       // every reading of a set was zero

  /** What a measurement validator returns: the reading passed on, or the
      anomaly it raised. */
  datatype Checked<+T> = Passed(value: T) | Raised(kind: Anomaly)

  /** The built-in Python errors the core can raise. */
  datatype Failure = TypeError | ValueError | IndexError

  /** What an operation that may raise a Python error returns. */
  datatype Result<+T> = Ok(value: T) | Err(error: Failure)

  datatype Option<+T> = None | Some(value: T)
}
