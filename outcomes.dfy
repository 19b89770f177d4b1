/** Shared value types: an optional value, the errors the pipeline can raise,
    and a result that carries either a value or one of those errors. */
module Outcomes {

  datatype Option<+T> = None | Some(value: T)

  /** The ways `make_ast_inputs` can stop before finishing. */
  datatype Error =
    /** `obsdata[name]`: the catalog has no column with this name. */
    | KeyError(column: string)
    /** Every magnitude of the filter's column is the 99.0 sentinel, so its
        90th percentile is undefined. */
    | NoValidMagnitudes(filter: string)
    /** A local variable is read on a path that never assigned it. */
    | UnboundLocalError(name: string)

  datatype Result<+T> = Ok(value: T) | Err(error: Error)
}
