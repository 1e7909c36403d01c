/** Plain sum types shared by the modules of this model:
    Option stands for a Java value that may be null or an empty Optional,
    Result for a Response envelope (success value or failure message)
    and for the checked exceptions the services throw. */
module Wrappers {

  datatype Option<+T> = None | Some(value: T)

  datatype Result<+R, +E> = Success(value: R) | Failure(error: E)
}
