/** What every other module shares. */
module Common {

  /** Stands for a UUID or an auto-incremented key. */
  type Id = nat

  datatype Option<+T> = None | Some(value: T)
}
