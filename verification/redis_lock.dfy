/** `RedisLockUtil`: acquiring and releasing a named distributed lock, over
    an abstract lock table. The lock provider's answer (Redisson's
    `RLock.tryLock`, which may wait) is an input; the model keeps only the
    decisions the utility takes on it. */
module RedisLock {
  import opened Results
  import opened Errors
  import Text

  /** Names of the locks currently held. */
  type LockTable = set<string>

  /** A lock handle (`RLock`), known by its name. */
  datatype Lock = Lock(name: string)

  /** What the provider answered to `tryLock(waitTime, leaseTime, unit)`:
      acquired within the wait time, not acquired, or it threw. */
  datatype LockResponse = Granted | Denied | Broken(thrown: Thrown)

  /** What `unlock()` did: released the lock, or threw. */
  datatype UnlockResponse = Unlocked | UnlockFails(thrown: Thrown)

  /** The request a caller makes of the provider. */
  datatype LockRequest = LockRequest(name: string, waitTime: int, leaseTime: int, unit: TimeUnit)

  const EmptyKeyCode: int := 7877
  const EmptyKeyMessage: string := "加锁的key不能为空"

  /** The exception `tryLock` throws for a null or empty key. */
  function EmptyKeyError(): Thrown {
    Base(DefinedException(EmptyKeyCode, EmptyKeyMessage))
  }

  datatype Acquire = Acquire(table: LockTable, result: Result<Lock, Thrown>)

  /** `tryLock(lockKey, waitTime, leaseTime, unit, errorType)`. */
  function TryLock(table: LockTable, lockKey: Option<string>, response: LockResponse, errorType: ErrorType): (r: Acquire)
    ensures Text.IsEmpty(lockKey) ==> r == Acquire(table, Err(EmptyKeyError()))
    ensures r.result.Ok? <==> !Text.IsEmpty(lockKey) && response.Granted?
    ensures r.result.Ok? ==> r.result.value == Lock(lockKey.value)
                             && lockKey.value in r.table && r.table == table + {lockKey.value}
    ensures r.result.Err? ==> r.table == table
    ensures !Text.IsEmpty(lockKey) && response.Denied? ==>
              r.result == Err(Base(ErrorTypeGet(errorType)))
    ensures !Text.IsEmpty(lockKey) && response.Broken? ==>
              r.result == Err(if response.thrown.IsException() then Base(ErrorTypeGet(errorType))
                              else response.thrown)
  {
    match IsTrueOr(!Text.IsEmpty(lockKey), DefinedException(EmptyKeyCode, EmptyKeyMessage))
    case Violated(t) => Acquire(table, Err(t))
    case Holds =>
      match response
      case Granted => Acquire(table + {lockKey.value}, Ok(Lock(lockKey.value)))
      // the failed `AssertEx.isTrue(result, errorType.get())` is itself
      // caught by the `catch (Exception e)` and replaced by a new `errorType.get()`
      case Denied => Acquire(table, Err(Base(ErrorTypeGet(errorType))))
      case Broken(t) =>
        if t.IsException() then Acquire(table, Err(Base(ErrorTypeGet(errorType))))
        else Acquire(table, Err(t))
  }

  datatype Release = Release(table: LockTable, escaped: Option<Thrown>)

  /** `tryUnLock(rLock)`: nothing for null; an exception from `unlock()` is
      logged and swallowed (only a `java.lang.Error` gets past the
      `catch (Exception e)`). */
  function TryUnLock(table: LockTable, lock: Option<Lock>, response: UnlockResponse): (r: Release)
    ensures lock.None? ==> r == Release(table, None)
    ensures lock.Some? && response.Unlocked? ==> r == Release(table - {lock.value.name}, None)
    ensures response.UnlockFails? ==> r.table == table
    ensures r.escaped.Some? <==> lock.Some? && response.UnlockFails? && !response.thrown.IsException()
  {
    match lock
    case None => Release(table, None)
    case Some(l) =>
      match response
      case Unlocked => Release(table - {l.name}, None)
      case UnlockFails(t) => Release(table, if t.IsException() then None else Some(t))
  }

  /** Acquiring a free lock and releasing it leaves the table as it was. */
  lemma AcquireThenRelease(table: LockTable, name: string, errorType: ErrorType)
    requires name != "" && name !in table
    ensures var a := TryLock(table, Some(name), Granted, errorType);
            a.result.Ok? && TryUnLock(a.table, Some(a.result.value), Unlocked).table == table
  {
  }
}
