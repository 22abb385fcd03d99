/** The two shapes in which the modelled code hands back a value that may be missing:
    `iox::optional` and `iox::expected`. */
module Wrappers {

  datatype Option<+T> = None | Some(value: T)

  datatype Result<+T, +E> = Ok(value: T) | Err(error: E)

  /** `iox::expected<void, E>` */
  datatype Outcome<+E> = Pass | Fail(error: E)
}
