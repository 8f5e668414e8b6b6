/** The usual optional value, shared by every component. */
module Options {
  datatype Option<+T> = None | Some(value: T)

  /** As far as `n`, but not beyond `length`. */
  function Upto(n: nat, length: nat): nat {
    if n < length then n else length
  }
}
