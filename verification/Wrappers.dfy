/** The result types that the components share. */
module Wrappers {
  datatype Option<+T> = None | Some(value: T)

  /** The fate of one database access: it is applied, it is refused, or it is
      applied but the caller is told it failed. */
  datatype Outcome = Done | Refused | Lost
}
