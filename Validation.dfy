/** The error accumulator one validation pass fills. */
module Validation {

  /** A validation failure: a numeric code and a message. */
  datatype Error = Error(code: int, message: string)

  /** Error.of: the named-fields factory. */
  function Of(code: int, message: string): (e: Error)
    ensures e.code == code && e.message == message
  {
    Error(code, message)
  }

  /** ValidationResult: an append-only list of errors. */
  class ValidationResult {
    var errors: seq<Error>

    constructor()
      ensures errors == [] && !HasErrors()
    {
      errors := [];
    }

    /** Appends error at the end; nothing already present is dropped or replaced. */
    method Add(error: Error)
      modifies this
      ensures errors == old(errors) + [error]
      ensures |errors| == |old(errors)| + 1 && HasErrors()
    {
      errors := errors + [error];
    }

    /** The errors added so far, in the order they were added. */
    function GetErrors(): (r: seq<Error>)
      reads this
      ensures r == errors
      ensures |r| > 0 <==> HasErrors()
    {
      errors
    }

    /** Whether any error was added. */
    predicate HasErrors()
      reads this
      ensures HasErrors() ==> |errors| > 0 && errors[0] in errors
      ensures !HasErrors() ==> forall e :: e !in errors
    {
      errors != []
    }
  }
}
