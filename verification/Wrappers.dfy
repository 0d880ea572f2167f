// The two sum types every other module shares.
module Wrappers {

  datatype Option<+T> = None | Some(value: T)

  // What went wrong is never inspected, only that something did.
  datatype Result<+T> = Ok(value: T) | Err
}
