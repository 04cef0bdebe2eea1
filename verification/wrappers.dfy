/** Failure-carrying datatypes used across the model. */
module Wrappers {

  /** An optional value; `None` stands for an attribute the framework holds as null. */
  datatype Option<+T> = None | Some(value: T)

  /** A value or an error; the shape of a store read, which yields a rule or an error. */
  datatype Result<+R, +E> = Success(value: R) | Failure(error: E)

  /** Success or an error, with no value; the shape of a store mutation. */
  datatype Outcome<+E> = Pass | Fail(error: E)

  /** The number of elements of `s` that satisfy `p`; zero exactly when none does. */
  function CountWhere<T>(s: seq<T>, p: T -> bool): (n: nat)
    ensures n <= |s|
    ensures n == 0 <==> forall i :: 0 <= i < |s| ==> !p(s[i])
  {
    if s == [] then 0
    else (if p(s[0]) then 1 else 0) + CountWhere(s[1..], p)
  }
}
