/** Small value types shared by every component of the model. */
module Wrappers {

  /** Workers, slots, threads, turns, messages and the like are named; only equality of names matters. */
  type Name = nat

  predicate Distinct<T(==)>(s: seq<T>) { forall i, j :: 0 <= i < j < |s| ==> s[i] != s[j] }

  function Elements<T(==)>(s: seq<T>): set<T> { set x | x in s }

  datatype Option<+T> = None | Some(value: T)
  {
    function GetOr(default: T): T { if Some? then value else default }
  }

  /** A method result: either a value or the exception the program raises. */
  datatype Result<+T, +E> = Ok(value: T) | Err(error: E)
}
