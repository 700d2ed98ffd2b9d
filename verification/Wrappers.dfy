// Result and option types shared by every module, with the status codes the
// services return.

module Wrappers {

  datatype Option<+T> = None | Some(value: T)

  /** The gRPC status codes the modelled operations answer with. */
  datatype Code =
    | InvalidArgument
    | NotFound
    | PermissionDenied
    | ResourceExhausted
    | FailedPrecondition
    | OutOfRange
    | Unimplemented
    | Unauthenticated
    | Internal

  datatype Result<+T> = Ok(value: T) | Err(code: Code) {
    predicate IsFailure() {
      Err?
    }

    function PropagateFailure<U>(): Result<U>
      requires Err?
    {
      Err(code)
    }

    function Extract(): T
      requires Ok?
    {
      value
    }
  }

  /** A map read that answers absence instead of requiring presence. */
  function Get<K, V>(m: map<K, V>, k: K): Option<V> {
    if k in m then Some(m[k]) else None
  }

  /** A map write where None removes the key. */
  function Put<K(!new), V>(m: map<K, V>, k: K, v: Option<V>): (r: map<K, V>)
    ensures Get(r, k) == v
    ensures forall j :: j != k ==> Get(r, j) == Get(m, j)
  {
    match v
    case Some(x) => m[k := x]
    case None => m - {k}
  }
}
