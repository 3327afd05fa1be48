/** The crate's `SimulationError` and the result shapes its operations return. */
module Errors {
  import opened Codec

  datatype SimulationError =
    | AgentNotFound(id: U64)
    | NoData
    | Unspendable
    | UnDoable

  datatype Result<+T> = Ok(value: T) | Err(error: SimulationError)

  datatype Option<+T> = None | Some(value: T)
}
