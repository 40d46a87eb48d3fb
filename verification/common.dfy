/** Wrappers shared by every module: optional values, the JavaScript errors the
    handler throws or catches, and results that carry either a value or such an error. */
module Common {

  /** `null`/`undefined` versus a present value. */
  datatype Option<+T> = None | Some(value: T)

  /** A thrown JavaScript `Error`, reduced to the two fields the handler reads.
      The `stack` the handler also prints is treated as a rendering of the same error. */
  datatype Failure = Failure(name: string, message: string)

  /** A computation that either returns a value or throws. */
  datatype Result<+T> = Ok(value: T) | Err(error: Failure)
}
