/** Failure-compatible wrappers and the faults the runtime core throws. */
module Wrappers {

  datatype Option<+T> = None | Some(value: T)

  /** What a JavaScript `throw` carries, one constructor per distinct message. */
  datatype Error =
    | NotAFunction(index: nat)          // `Property[i]` is undefined for i >= 100
    | NotAnObject                       // "Expecting target to return an object"
    | CouldNotDeterminate(id: nat)      // "Could not determinate property <id>"
    | MissingProperty(index: nat)       // "Missing Property[<i>]"
    | CannotReplaceKey(key: string)     // "Cannot replace Key <key>"
    | KeyNotFound(name: string)         // "Property key <name> was not found"
    | Rejected(reason: string)          // thrown by the metadata validation hook
    | NotDecorated                      // "Not decorated by Properties"
    | NotAPropertyLike(key: string)     // "Property <key> is not a property like"
    | TypeError(what: string)           // a host TypeError (calling or reading through null, ...)
    | SyntaxError(what: string)         // `JSON.parse` on text that is not JSON

  datatype Result<+T> = Ok(value: T) | Err(error: Error) {
    predicate IsFailure() { Err? }

    function PropagateFailure<U>(): Result<U>
      requires Err?
    {
      Err(error)
    }

    function Extract(): T
      requires Ok?
    {
      value
    }
  }
}
