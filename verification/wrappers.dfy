/** Optional values and call outcomes shared by the modules of this model:
    `Option` stands for a Java reference that may be null, `Result` for a call
    into a collaborator that may throw. */
module Wrappers {

  datatype Option<+T> = None | Some(value: T)

  datatype Result<+R, +E> = Success(value: R) | Failure(error: E)
}
