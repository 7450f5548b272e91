/** Success and failure values shared by the model.

    The tool never recovers from an error: every `unwrap` that fails ends the
    process. The model keeps those places as values of `Result`, whose `Fault`
    names the `unwrap` or the slice that would have panicked.
 */
module Outcomes {

  datatype Option<+T> = None | Some(value: T) {
    predicate IsFailure() { None? }

    function PropagateFailure<U>(): Option<U>
      requires None?
    {
      None
    }

    function Extract(): T
      requires Some?
    {
      value
    }
  }

  /** The panics of the core, one per failing `unwrap` or slice. */
  datatype Fault =
    | MissingKey(key: char)        // the permission table has no entry for `key`
    | OctalTooShort(length: nat)   // the octal mode has fewer than three digits

  datatype Result<+T> = Ok(value: T) | Err(fault: Fault) {
    predicate IsFailure() { Err? }

    function PropagateFailure<U>(): Result<U>
      requires Err?
    {
      Err(fault)
    }

    function Extract(): T
      requires Ok?
    {
      value
    }
  }
}
