/** Failure-compatible wrappers and the exceptions the loader can raise. */
module Results {

  datatype Option<+T> = None | Some(value: T)

  /** A JavaScript exception, as far as the loader can observe it: the
      constructor's `name` and its `message`. */
  datatype Error = Error(name: string, message: string)

  /** Either the value an operation returns or the exception it throws. */
  datatype Result<+T> = Ok(value: T) | Fail(error: Error) {
    predicate IsFailure() { Fail? }

    function PropagateFailure<U>(): Result<U>
      requires Fail?
    {
      Fail(error)
    }

    function Extract(): T
      requires Ok?
    {
      value
    }
  }

  /** `DataView.get*` at an index outside the view (V8's wording). */
  const OUT_OF_BOUNDS := "Offset is outside the bounds of the DataView"

  function RangeError(message: string): Error { Error("RangeError", message) }

  /** Reading property `prop` of `null` or `undefined` (V8's wording). */
  function TypeError(what: string, prop: string): Error
  {
    Error("TypeError", "Cannot read properties of " + what + " (reading '" + prop + "')")
  }

  /** `tennis.Error` of src/tennis-utils.js, constructed with `new`. */
  function UtilsError(message: string): (e: Error)
    ensures e.message == message && e != LoaderError(message)
  {
    Error("Error running tennis utils.", message)
  }

  /** `tennis.Error(message)` as src/tennis-utils.js writes it, without
      `new`: calling a class constructor throws a TypeError of its own, and
      the message passed in is never used. */
  function UtilsErrorAsWritten(message: string): (e: Error)
    ensures e.name == "TypeError" && e != UtilsError(message)
  {
    Error("TypeError", "Class constructor cannot be invoked without 'new'")
  }

  /** Without `new` every utils error is the same error, whatever went
      wrong; with `new` the message survives. */
  lemma UtilsErrorAsWrittenLosesMessage(m1: string, m2: string)
    ensures UtilsErrorAsWritten(m1) == UtilsErrorAsWritten(m2)
    ensures UtilsError(m1) == UtilsError(m2) <==> m1 == m2
  {
  }

  /** `tennis.Error` of src/tennis.js. */
  function LoaderError(message: string): Error { Error("Error loading tennis model.", message) }
}
