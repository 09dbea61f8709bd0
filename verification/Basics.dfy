/** Shared vocabulary. */
module Basics {
  datatype Option<+T> = None | Some(value: T)

  /** Any element, for loops over the rows of an unordered result. */
  method Pick<T>(s: set<T>) returns (x: T)
    requires s != {}
    ensures x in s
  {
    x :| x in s;
  }

  lemma AnyElement<T>(s: set<T>) returns (x: T)
    requires s != {}
    ensures x in s
  {
    x :| x in s;
  }
}
