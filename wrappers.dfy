/** Optional values and results, used wherever the source returns None or raises. */
module Wrappers {

  /** A value that may be absent: Python's `None` versus a value. */
  datatype Option<+T> = None | Some(value: T) {

    /** The value, or `default` when absent. */
    function GetOr(default: T): T {
      match this
      case Some(v) => v
      case None => default
    }
  }

  /** The exceptions the modelled code raises or lets through. */
  datatype Error =
    | ValueError(message: string)   // an unknown metric type, a failed query, a malformed body
    | KeyError(key: string)         // a dictionary or column lookup on a missing key
    | TypeError                     // subscripting or iterating a value of the wrong JSON type
    | AttributeError(name: string)  // an attribute the object does not have
    | UpstreamError                 // whatever the HTTP layer raises (connection failures and the like)

  /** The outcome of a call that either returns a value or raises. */
  datatype Result<+R> = Ok(value: R) | Err(error: Error) {

    predicate IsFailure() {
      Err?
    }

    function PropagateFailure<U>(): Result<U>
      requires Err?
    {
      Err(error)
    }

    function Extract(): R
      requires Ok?
    {
      value
    }
  }

  /** The values collected so far, followed by the values of what is still to read, or
      the error reading it raised. */
  function Extend<T>(collected: seq<T>, rest: Result<seq<T>>): Result<seq<T>> {
    match rest
    case Err(e) => Err(e)
    case Ok(more) => Ok(collected + more)
  }

  lemma ExtendTwice<T>(a: seq<T>, b: seq<T>, rest: Result<seq<T>>)
    ensures Extend(a + b, rest) == Extend(a, Extend(b, rest))
  {
    if rest.Ok? {
      assert (a + b) + rest.value == a + (b + rest.value);
    }
  }

  lemma ExtendEmpty<T>(rest: Result<seq<T>>)
    ensures Extend([], rest) == rest
  {
    if rest.Ok? {
      assert [] + rest.value == rest.value;
    }
  }
}
