/** Values that may be missing. */
module Wrappers {

  datatype Option<+T> = None | Some(value: T)
}

/** Results of operations that may fail, where the reason for a failure is not modelled. */
module Outcomes {

  datatype Result<+T> = Ok(value: T) | Error
}
