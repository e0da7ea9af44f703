/** What validators and the engine return, and the exceptions they can throw. */
module Results {
  import opened Js
  import opened AbolishErrors

  datatype ErrorKind = Error | TypeError | RangeError

  /** A thrown JavaScript exception. */
  datatype Exception = Exception(kind: ErrorKind, message: string)

  /** A call returns normally or throws. */
  datatype Outcome<+T> = Normal(value: T) | Abrupt(ex: Exception)
  {
    predicate IsFailure()
    {
      Abrupt?
    }

    function PropagateFailure<U>(): Outcome<U>
      requires Abrupt?
    {
      Abrupt(ex)
    }

    function Extract(): T
      requires Normal?
    {
      value
    }
  }

  /** What a promise does: it fulfils, rejects, or never settles. */
  datatype Settlement<+T> = Fulfilled(value: T) | Rejected(ex: Exception) | NeverSettles

  /**
   * What one validator run yields. `false` fails, an `AbolishError` fails with its own
   * message, data and code, an exception is caught by the engine, and any other result
   * (`true`, `undefined`, ...) passes.
   */
  datatype Verdict = Pass | Undefined | Fail | Custom(err: ErrorInfo) | Throw(ex: Exception)

  predicate Failed(v: Verdict)
  {
    v.Fail? || v.Custom?
  }

  function FromBool(b: bool): Verdict
  {
    if b then Pass else Fail
  }

  datatype ErrorType = Internal | ValidatorType

  /** The error half of a validation result. */
  datatype ValidationError = ValidationError(
    code: string, key: string, kind: ErrorType, validator: string, message: string, data: Value)

  /** `[error, validated]`: an error and an empty object, or no error and the output. */
  datatype ValidationResult = ValidationResult(error: Option<ValidationError>, validated: Value)

  function Failure(e: ValidationError): ValidationResult
  {
    ValidationResult(Some(e), Obj([]))
  }

  function Success(data: Value): ValidationResult
  {
    ValidationResult(None, data)
  }

  /** The error as a plain object, in the key order the engine writes it. */
  function ErrorValue(e: ValidationError): Value
  {
    Obj([Prop("code", Str(e.code)), Prop("key", Str(e.key)),
         Prop("type", Str(if e.kind.Internal? then "internal" else "validator")),
         Prop("validator", Str(e.validator)), Prop("message", Str(e.message)), Prop("data", e.data)])
  }

  /** `abolish.check(value, rule)` as a nested validator sees it. */
  type CheckFn = (Value, Value) -> Outcome<ValidationResult>
}
