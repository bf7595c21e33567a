/** Option, Result and an unspecified choice from a set, as the rest of the project uses them. */
module Wrappers {

  datatype Option<+T> = None | Some(value: T)

  /** The source's `(value, error)` returns: an `Err` leaves the state untouched. */
  datatype Result<+T, +E> = Ok(value: T) | Err(error: E)

  /** Go's map iteration: some element of the set, which one is not specified. */
  method Pick<T(==)>(s: set<T>) returns (x: T)
    requires s != {}
    ensures x in s
  {
    x :| x in s;
  }

  /** The same choice inside a proof. */
  lemma SomeElement<T>(s: set<T>) returns (x: T)
    requires s != {}
    ensures x in s
  {
    x :| x in s;
  }
}
