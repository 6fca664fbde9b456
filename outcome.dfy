/** Optional values, results and the exceptions raised by investpy/indices.py. */
module Outcome {

  datatype Option<+T> = None | Some(value: T)

  /** The exceptions the module raises, with the error code carried in each message. */
  datatype Error =
    | ValueError(code: string)       // ERR#0025, ERR#0002, ERR#0020, ERR#0023
    | ConnectionError(status: int)   // ERR#0015: a response whose status is not 200
    | IOError(code: string)          // ERR#0036: index_countries.csv missing
    | RuntimeError(code: string)     // ERR#0035: a country listing with no entry
    | FileNotFoundError(code: string) // ERR#0059: indices.csv missing
    | AttributeError                 // `None.strip()` on a row of pass 3 without a flag

  datatype Result<+T> = Ok(value: T) | Err(error: Error)

  /** Appends `prefix` in front of a successful result; an error passes through. */
  function Then<T>(prefix: seq<T>, r: Result<seq<T>>): Result<seq<T>>
  {
    match r
    case Ok(v) => Ok(prefix + v)
    case Err(e) => Err(e)
  }

  /** Running `a` and then `b`, stopping at the first error. */
  function Chain<T>(a: Result<seq<T>>, b: Result<seq<T>>): Result<seq<T>>
  {
    match a
    case Ok(v) => Then(v, b)
    case Err(e) => Err(e)
  }

  /** Accumulating in front of a chain is accumulating in front of its first step. */
  lemma ThenChain<T>(acc: seq<T>, a: Result<seq<T>>, b: Result<seq<T>>)
    ensures Then(acc, Chain(a, b)) == Chain(Then(acc, a), b)
  {
    if a.Ok? && b.Ok? {
      assert acc + (a.value + b.value) == (acc + a.value) + b.value;
    }
  }
}
