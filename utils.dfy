/**
 * The diagnostics shared by every stage of the assembler: a closed set of
 * error kinds, the constant table that gives each kind its code and its
 * success flag, and the error value (kind plus source line) that stages
 * return. `Error::assert` halts the process on a failure; here it yields
 * an outcome that says whether the caller goes on or stops.
 */
module Utils {

  datatype ErrorType =
    | ER_SUCCESS
    | ER_UNEXPECTED_TOKEN
    | ER_UNRECOGNIZED_TOKEN
    | ER_UNRECOGNIZED_CHAR
    | ER_UNRECOGNIZED_NUM
    | ER_INVALID_TOKEN_ORDER

  datatype ErrorInfo = ErrorInfo(errorCode: nat, errorMessage: string, success: bool)

  /** The constant table of codes, messages and success flags. */
  const ErrorInfoMap: map<ErrorType, ErrorInfo> := map[
    ER_SUCCESS := ErrorInfo(0, "\"successfully compiled\"", true),
    ER_UNEXPECTED_TOKEN := ErrorInfo(100, "\"unexpected token found\"", false),
    ER_UNRECOGNIZED_TOKEN := ErrorInfo(101, "\"unrecognized token found\"", false),
    ER_UNRECOGNIZED_CHAR := ErrorInfo(102, "\"unrecognized character found\"", false),
    ER_UNRECOGNIZED_NUM := ErrorInfo(103, "\"unrecognized numerical found\"", false),
    ER_INVALID_TOKEN_ORDER := ErrorInfo(104, "\"invalid token order\"", false)
  ]

  /** An error kind together with the source line it was detected at. */
  datatype Error = Error(kind: ErrorType, line: int)

  /** The result of a stage that either produces a value or fails with an error. */
  datatype Result<T> = Ok(value: T) | Err(error: Error) {
    predicate IsFailure() {
      Err?
    }

    function PropagateFailure<U>(): Result<U>
      requires Err?
    {
      Err(error)
    }

    function Extract(): T
      requires Ok?
    {
      value
    }
  }

  datatype Option<T> = None | Some(value: T)

  /** What `Error::assert` does: carry on, or halt reporting the error. */
  datatype Outcome = Continue | Halt(error: Error)

  /** The table has an entry for every kind, so a lookup never inserts a default. */
  function Info(k: ErrorType): (info: ErrorInfo)
    ensures k in ErrorInfoMap && info == ErrorInfoMap[k]
  {
    assert k.ER_SUCCESS? || k.ER_UNEXPECTED_TOKEN? || k.ER_UNRECOGNIZED_TOKEN?
        || k.ER_UNRECOGNIZED_CHAR? || k.ER_UNRECOGNIZED_NUM? || k.ER_INVALID_TOKEN_ORDER?;
    ErrorInfoMap[k]
  }

  function Code(k: ErrorType): (code: nat)
    ensures k == ER_SUCCESS <==> code == 0
    ensures k != ER_SUCCESS ==> 100 <= code <= 104
  {
    Info(k).errorCode
  }

  predicate IsSuccess(e: Error)
    ensures IsSuccess(e) <==> e.kind == ER_SUCCESS
  {
    Info(e.kind).success
  }

  /** Success returns normally and changes nothing; any failure halts with that very error. */
  function Assert(e: Error): (o: Outcome)
    ensures o == Continue <==> e.kind == ER_SUCCESS
    ensures o.Halt? ==> o.error == e
  {
    if IsSuccess(e) then Continue else Halt(e)
  }

  /** No two kinds share a code. */
  lemma CodesDistinct(a: ErrorType, b: ErrorType)
    ensures Code(a) == Code(b) ==> a == b
  {
  }
}
