/** The two shapes an answer can take: a value that may be absent, and a
    value or an error. */
module Outcomes {

  datatype Option<T> = None | Some(value: T)

  datatype Result<T, E> = Ok(value: T) | Err(error: E)
}
