/** Results of fallible operations, with the profiler's own errors. */
module Outcomes {

  datatype Option<+T> = None | Some(value: T)

  datatype Error = NixError | IoError | CreatingError | Running | NotRunning

  datatype Result<+T> = Ok(value: T) | Err(error: Error)
}
