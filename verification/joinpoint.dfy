/** What an aspect sees of an intercepted call: its arguments, and how the
    intercepted method (`point.proceed()`) ended. */
module JoinPoint {
  import opened Results
  import opened Errors

  /** A value a method returns or an aspect hands back: null, an ordinary
      object (identified by its `toString`), or an exception object that was
      serialised and read back as a plain object. */
  datatype Value = Null | Data(text: string) | ThrownObject(thrown: Thrown)

  /** `AbstractIdRequest`, the base class an idempotent call's single
      argument must extend. */
  datatype AbstractIdRequest = AbstractIdRequest(requestId: Option<string>, appCode: Option<string>)

  /** A method argument: null, an object known by its `toString`, or an
      `AbstractIdRequest` (with its `toString`). */
  datatype Arg = NullArg | Obj(text: string) | IdRequest(text: string, request: AbstractIdRequest)

  /** How a call ended: it returned a value or it threw. */
  datatype Outcome = Returned(value: Value) | Raised(thrown: Thrown)
}
