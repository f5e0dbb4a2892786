/** Option and Result, the two failure-aware return types used across the model. */
module Wrappers {

  datatype Option<+T> = None | Some(value: T)

  /** The error kinds the modelled code can raise. */
  datatype Error =
    | NotFound        // `DetachChild` of a node that is not a direct child
    | Truncated       // a stream ended before the bytes a reader asked for

  datatype Result<+T> = Ok(value: T) | Err(error: Error)
}
