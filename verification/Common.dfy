/** Small shared types: a value that may be missing, the answer of a tool that may refuse, and a value
    repeated. */
module Common {

  datatype Option<+T> = None | Some(value: T)

  /** The instruments raise `Refused` with a reason instead of answering when an input cannot be
      judged. */
  datatype Result<+T, +E> = Ok(value: T) | Refused(why: E)

  function Repeat<T>(x: T, n: nat): (r: seq<T>)
    ensures |r| == n && forall i :: 0 <= i < n ==> r[i] == x
  {
    seq(n, _ => x)
  }
}
