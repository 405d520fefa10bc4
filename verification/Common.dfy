/** Values shared by every module. */
module Common {

  datatype Option<+T> = None | Some(value: T)

  /** Rows are identified by uuids, which the database compares; only their order matters here. */
  type Id = nat
}
