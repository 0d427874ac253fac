/** Failure-compatible result types and the Python exceptions the modelled code raises. */
module Wrappers {

  datatype Option<+T> = None | Some(value: T)

  /** The exceptions the source raises (or lets propagate from the runtime). */
  datatype PyError =
    | RuntimeError(message: string)  // explicit `raise RuntimeError(...)`
    | IndexError                     // indexing past the end of a list or array
    | KeyError                       // missing dictionary key or graph attribute
    | AttributeError                 // reading an attribute that was never set
    | TypeError                      // a call or operator given the wrong kind of argument
    | ValueError                     // `min`/`max` of an empty collection, an empty `np.nditer`
    | AssertionError                 // a failed `assert` statement

  datatype Result<+T> = Ok(value: T) | Err(error: PyError)

  /** The number of leading steps that succeeded: a loop that raises stops at the first
      step that fails. */
  function OkPrefix<T>(results: seq<Result<T>>): (k: nat)
    ensures k <= |results|
    ensures forall e :: 0 <= e < k ==> results[e].Ok?
    ensures k < |results| ==> results[k].Err?
  {
    if results == [] || results[0].Err? then 0 else 1 + OkPrefix(results[1..])
  }

  /** A loop that stopped at step `k` stopped at the first failing step. */
  lemma OkPrefixAt<T>(results: seq<Result<T>>, k: nat)
    requires k <= |results| && (forall e :: 0 <= e < k ==> results[e].Ok?)
    requires k < |results| ==> results[k].Err?
    ensures OkPrefix(results) == k
  {
  }
}
