/** Types shared by the models: the two result types used in place of Go's nil and error returns,
    what a context's Err() reports, and bytes. */
module Wrappers {

  datatype Option<+T> = None | Some(value: T)

  datatype Result<+T, +E> = Success(value: T) | Failure(error: E)

  /** A context starts live and ends at most once. */
  datatype Ctx = Live | Canceled | TimedOut

  type Byte = x: int | 0 <= x < 256

  type Bytes = seq<Byte>
}
