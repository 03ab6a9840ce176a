/** Failure-carrying return types shared by the resolvers. */
module Wrappers {

  /** An optional value; `None` stands for an argument or reference that is absent. */
  datatype Option<+T> = None | Some(value: T)

  /** The outcome of a resolver that can raise a user-facing error. */
  datatype Result<+T, +E> = Ok(value: T) | Err(error: E)
}
