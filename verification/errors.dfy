/** The error model of `common-exception`: error types carrying a code and a
    message (`IErrorType`), the runtime exception built from them
    (`BaseException`), the assertion helpers (`AssertEx`) and the table of
    lock and idempotency error codes (`RedisLockException`). */
module Errors {
  import opened Results

  /** An `IErrorType`: exactly a code and a message. Enum constants and the
      anonymous types built by `definedException` are all values of this. */
  datatype ErrorType = ErrorType(code: int, message: string)

  /** The Java throwables the model tells apart besides `BaseException`. */
  datatype ExcKind =
    | RedisFailure          // org.redisson.client.RedisException
    | Interrupted           // java.lang.InterruptedException
    | IllegalMonitorState   // java.lang.IllegalMonitorStateException
    | IllegalArgument       // java.lang.IllegalArgumentException
    | IndexOutOfBounds      // array or string index out of range
    | NullPointer           // java.lang.NullPointerException
    | IOFailure             // java.io.IOException (serialisation)
    | OtherRuntime          // any other RuntimeException
    | JvmError              // a java.lang.Error: not an Exception at all

  /** Something thrown. */
  datatype Thrown =
    | Base(exc: BaseException)
    | Raw(kind: ExcKind, detail: string)
  {
    /** Whether a `catch (Exception e)` clause sees it. */
    predicate IsException() {
      !(Raw? && kind == JvmError)
    }

    /** The error code carried, when it is a `BaseException`. */
    function Code(): Option<int> {
      if Base? then Some(exc.errorType.code) else None
    }
  }

  /** A `BaseException`: the error type it was built from, its message and
      its optional cause. */
  datatype BaseException = BaseException(errorType: ErrorType, message: string, cause: Option<Thrown>)

  /** `new BaseException(errorType)`: the message is the error type's. */
  function FromErrorType(t: ErrorType): (e: BaseException)
    ensures e.errorType == t
    ensures e.message == t.message
    ensures e.cause == None
  {
    BaseException(t, t.message, None)
  }

  /** `new BaseException(errorType, message)` and, with a cause,
      `new BaseException(errorType, message, cause)`. */
  function WithMessage(t: ErrorType, message: string, cause: Option<Thrown>): (e: BaseException)
    ensures e.errorType == t
    ensures e.message == message
    ensures e.cause == cause
  {
    BaseException(t, message, cause)
  }

  /** `getErrorType()`. */
  function GetErrorType(e: BaseException): ErrorType {
    e.errorType
  }

  /** `BaseException.get()`, the `Supplier` view of an exception. */
  function Get(e: BaseException): (r: BaseException)
    ensures r == e
  {
    e
  }

  /** `BaseException.definedException(code, message)`. */
  function DefinedException(code: int, message: string): (e: BaseException)
    ensures e.errorType.code == code
    ensures e.errorType.message == message
    ensures e.message == message
    ensures e.cause == None
  {
    FromErrorType(ErrorType(code, message))
  }

  /** `BaseException.builder(errorType)`. */
  function Builder(t: ErrorType): (e: BaseException)
    ensures e.errorType.code == t.code && e.errorType.message == t.message
  {
    DefinedException(t.code, t.message)
  }

  /** The default `IErrorType.get()`: a new exception built from this type. */
  function ErrorTypeGet(t: ErrorType): (e: BaseException)
    ensures GetErrorType(e) == t
    ensures e.message == t.message
  {
    FromErrorType(t)
  }

  /** The default `IErrorType.setMessage(message)` does nothing. */
  function SetMessage(t: ErrorType, message: string): (r: ErrorType)
    ensures r.code == t.code && r.message == t.message
  {
    t
  }

  /** The accessors give back what the constructors were given, and a
      builder copy agrees with a direct construction in code and message. */
  lemma ConstructorsKeepErrorType(t: ErrorType, message: string, cause: Option<Thrown>)
    ensures GetErrorType(FromErrorType(t)) == t
    ensures GetErrorType(WithMessage(t, message, cause)) == t
    ensures Get(WithMessage(t, message, cause)).message == message
    ensures Builder(t) == FromErrorType(t)
  {
  }

  /** How an `AssertEx` check ended. */
  datatype Check = Holds | Violated(thrown: Thrown)

  /** `AssertEx.isTrue(expression, errorType)`. */
  function IsTrue(expression: bool, errorType: ErrorType): (r: Check)
    ensures r.Holds? <==> expression
    ensures r.Violated? ==> (r.thrown.Base? && GetErrorType(r.thrown.exc) == errorType
                             && r.thrown.exc.message == errorType.message)
  {
    if expression then Holds else Violated(Base(FromErrorType(errorType)))
  }

  /** `AssertEx.isTrue(expression, exception)`. */
  function IsTrueOr(expression: bool, exception: BaseException): (r: Check)
    ensures r.Holds? <==> expression
    ensures r.Violated? ==> r.thrown == Base(exception)
  {
    if expression then Holds else Violated(Base(exception))
  }

  /** The constants of the `RedisLockException` enum. */
  datatype RedisLockError =
    | ParamLockValueCanNotNull
    | SpringElCanMatchingParam
    | PleaseFillInValidKey
    | RequestIsRepeat
    | RequestIsProcess
  {
    function Code(): int {
      match this
      case ParamLockValueCanNotNull => 6002
      case SpringElCanMatchingParam => 6003
      case PleaseFillInValidKey => 6004
      case RequestIsRepeat => 5015
      case RequestIsProcess => 5016
    }

    function Message(): string {
      match this
      case ParamLockValueCanNotNull => "锁参数值不允许为空，请确认"
      case SpringElCanMatchingParam => "el表达式无法匹配形参"
      case PleaseFillInValidKey => "请填写有效的key"
      case RequestIsRepeat => "请求重复"
      case RequestIsProcess => "请求正在处理中"
    }

    /** The constant seen as an `IErrorType`. */
    function AsErrorType(): (t: ErrorType)
      ensures t.code == Code() && t.message == Message()
    {
      ErrorType(Code(), Message())
    }

    /** `get()` on the constant: a `BaseException` with its code. */
    function Raise(): (t: Thrown)
      ensures t.Base? && t.exc.errorType == AsErrorType()
      ensures t.Code() == Some(Code())
    {
      Base(ErrorTypeGet(AsErrorType()))
    }
  }

  /** The code table, and that no two constants share a code: a caller can
      tell "repeated request" (5015) from "request in progress" (5016). */
  lemma RedisLockCodes()
    ensures ParamLockValueCanNotNull.Code() == 6002
    ensures SpringElCanMatchingParam.Code() == 6003
    ensures PleaseFillInValidKey.Code() == 6004
    ensures RequestIsRepeat.Code() == 5015
    ensures RequestIsProcess.Code() == 5016
    ensures forall a: RedisLockError, b: RedisLockError :: a.Code() == b.Code() ==> a == b
  {
  }
}
