# Idempotent execution and distributed locking, modelled in Dafny

This project models the core of a Java utility library. Its centre is the
`@IdempoentKey` interceptor, `IdempotentAspect.around`. It runs an annotated
handler at most once per (requestId, appCode). Repeats get the recorded result
back without running the handler again.

## How the interceptor works

The interceptor:

- checks the argument shape;
- fails open when it cannot identify the operation;
- takes a distributed lock named `requestId:appCode`;
- answers from a one-hour result cache, or else from the idempotency store.

The store's status decides what happens next:

| status | what happens |
|---|---|
| none or FAIL | the handler runs; its result is cached and recorded as SUCCESS |
| ING | the call is rejected with "request is being processed" (5016) |
| SUCCESS | the latest recorded response is replayed |

When something fails inside the lock, the exception is logged as a body of
the record, inserting a FAIL record when there is none, and is then rethrown.

## Other parts modelled

- the lock utility `RedisLockUtil`;
- the `@Lockable` interceptor `LockableAspect`, with its lock-key grammar;
- the padded counter codes of `RedisGenerateCodeUtil`;
- the error model: `IErrorType`, `BaseException`, `AssertEx` and the `RedisLockException` codes;
- the status enum;
- the logic parts of `DateUtil`.

## Modelling approach

One intercepted call is a pure function from a `State` and an `Env` to a
`Step`:

- `State` holds the result cache, the idempotency store and the lock table.
- `Env` holds what the outside world does during that call:
  - the lock provider's answer;
  - the unlock answer;
  - how the handler ends;
  - which cache or store operations throw.
- `Step` holds the next state, the outcome, whether the handler ran, and the lock request.

Collaborators whose code is outside the model become parameters:

- Hessian serialisation is a `Codec` pair.
  - Where a property needs it, the read-back-what-was-written law is the predicate `IdempotentAspect.Faithful`, taken as a precondition.
- SpEL evaluation and JSON rendering of the arguments are per-call inputs.
- `SimpleDateFormat` parsing and the `Calendar` end-of-day adjustment are functions passed in.

The ISO-8859-1 step between response bytes and the stored response string is
modelled concretely (module `Latin1`). So is the idempotency store: records
are filed under their own (requestId, appCode) and get fresh ids, and bodies
form an append-only log.

## Where the model follows the code rather than its documentation

- The coordinator never writes an ING record. It inserts SUCCESS or FAIL only, and `IdempotentProperties.NoCallWritesIng` proves it. An ING record can only come from outside, and then blocks its operation.
- A failing cache write after the handler succeeded is not best effort. It sends the call through the catch block, which records a failure, and the call raises.
- `keeps` and `timeout` of `@IdempoentKey` are documented in milliseconds. `around` passes them to the lock as SECONDS, and `IdempotentAspect.LockRequestOf` records exactly that.
- `insertBody` catches only `IOException`. A failing JSON rendering throws a `BaseException` (code 1001), which escapes `insertBody`.

## Model

| member | source | states |
|---|---|---|
| Errors.FromErrorType | common-exception/src/main/java/com/wy/exception/BaseException.java:18-21 | the exception carries the given error type, takes its message from it, and has no cause |
| Errors.WithMessage | common-exception/src/main/java/com/wy/exception/BaseException.java:23-31 | the exception carries the given type, message and cause |
| Errors.DefinedException | common-exception/src/main/java/com/wy/exception/BaseException.java:42-55 | an ad-hoc error type with exactly the given code and message; the exception's message is that message |
| Errors.Builder | common-exception/src/main/java/com/wy/exception/BaseException.java:57-59 | the copy has the same code and message as the original error type |
| Errors.ErrorTypeGet | common-exception/src/main/java/com/wy/exception/IErrorType.java:34-36 | `get()` yields an exception whose error type is this one and whose message is its message |
| Errors.SetMessage | common-exception/src/main/java/com/wy/exception/IErrorType.java:26-27 | the default `setMessage` leaves code and message unchanged |
| Errors.ConstructorsKeepErrorType | common-exception/src/main/java/com/wy/exception/BaseException.java:18-59 | `getErrorType` returns what each constructor was given; `builder` agrees with the one-argument constructor |
| Errors.IsTrue | common-exception/src/main/java/com/wy/exception/AssertEx.java:20-24 | passes exactly when the expression holds; otherwise a `BaseException` of that error type and its message |
| Errors.IsTrueOr | common-exception/src/main/java/com/wy/exception/AssertEx.java:33-37 | passes exactly when the expression holds; otherwise the given exception itself |
| Errors.RedisLockCodes | common-exception/src/main/java/com/wy/exception/RedisLockException.java:11-15 | the five codes 6002, 6003, 6004, 5015 and 5016, and no two constants share a code |
| IdempotentStatus.FirstWithCode | common-idempotent/src/main/java/com/wy/enums/IdempotentStatusEnum.java:39-45 | None exactly when no candidate has the code; otherwise the first candidate that has it |
| IdempotentStatus.StatusCodes | common-idempotent/src/main/java/com/wy/enums/IdempotentStatusEnum.java:16-26 | ING is 0, SUCCESS is 1, FAIL is 2 |
| IdempotentStatus.CodeInjective | common-idempotent/src/main/java/com/wy/enums/IdempotentStatusEnum.java:16-37 | two statuses with the same code are the same status |
| IdempotentStatus.GetByCode | common-idempotent/src/main/java/com/wy/enums/IdempotentStatusEnum.java:39-45 | a status found has the code asked for, and null comes back exactly when no status has that code |
| IdempotentStatus.GetByCodeInverse | common-idempotent/src/main/java/com/wy/enums/IdempotentStatusEnum.java:35-45 | `getByCode(s.getCode())` is `s` for every status |
| IdempotentStatus.GetByCodeNull | common-idempotent/src/main/java/com/wy/enums/IdempotentStatusEnum.java:39-45 | `getByCode` is null exactly for codes outside {0, 1, 2} |
| Latin1.Decode | common-idempotent/src/main/java/com/wy/aop/IdempotentAspect.java:232 | one character per byte, the character whose code is the byte |
| Latin1.Encode | common-idempotent/src/main/java/com/wy/aop/IdempotentAspect.java:177 | one byte per character; a character above U+00FF becomes '?' |
| Latin1.RoundTrip | common-idempotent/src/main/java/com/wy/aop/IdempotentAspect.java:177 | bytes stored as an ISO-8859-1 string come back unchanged |
| Latin1.RoundTripString | common-idempotent/src/main/java/com/wy/aop/IdempotentAspect.java:177 | a string of ISO-8859-1 characters survives the trip through bytes |
| Latin1.OutOfRangeIsLost | common-idempotent/src/main/java/com/wy/aop/IdempotentAspect.java:177 | a character outside ISO-8859-1 encodes as '?' does, so the string trip is lossy |
| Text.IndexOf | common-redis/src/main/java/com/wy/redis/lock/LockableAspect.java:171 | the first position holding the element, or None exactly when it does not occur (used both for the `.` in a segment and for the parameter search of `matching`) |
| Text.ReplaceChar | common-base/src/main/java/com/wy/date/DateUtil.java:487-489 | same length; each occurrence replaced, every other character kept |
| RedisLock.TryLock | common-redis/src/main/java/com/wy/redis/lock/RedisLockUtil.java:40-54 | an empty key gives error 7877 and nothing is held; otherwise the lock is held exactly when the provider grants it; a refusal, or an exception from the provider, becomes the caller's error type; only a `java.lang.Error` gets through unchanged |
| RedisLock.TryUnLock | common-redis/src/main/java/com/wy/redis/lock/RedisLockUtil.java:61-70 | null does nothing; a successful unlock frees the name; an unlock exception leaves the table and is swallowed unless it is an Error |
| RedisLock.AcquireThenRelease | common-redis/src/main/java/com/wy/redis/lock/RedisLockUtil.java:40-70 | locking a free name and unlocking it leaves the lock table as it was |
| LockableAspect.BoundArg | common-redis/src/main/java/com/wy/redis/lock/LockableAspect.java:173-181 | an unknown name gives 6003; otherwise the argument at the first parameter of that name decides: null gives 6002, a missing argument an index error, anything else is returned |
| LockableAspect.ResolveSegment | common-redis/src/main/java/com/wy/redis/lock/LockableAspect.java:164-203 | an empty segment gives 6004; a literal segment stands for itself; `#name` is the argument's text or the lookup's error; whatever a segment throws is 6002, 6003, 6004, 5098 or the index error |
| LockableAspect.DottedSegment | common-redis/src/main/java/com/wy/redis/lock/LockableAspect.java:184-203 | in `#name.path` the name runs to the first '.'; a lookup error is thrown as it is; otherwise the evaluated value's text is used, a null value keeps the segment as written, and an evaluation error becomes 5098 with its message |
| LockableAspect.JoinSegments | common-redis/src/main/java/com/wy/redis/lock/LockableAspect.java:204-206 | a non-empty key ends with the separator ':' |
| LockableAspect.ResolveAll | common-redis/src/main/java/com/wy/redis/lock/LockableAspect.java:164-205 | fails exactly when some segment fails, and then with the error of the first failing segment; otherwise each resolved segment is what that segment resolves to |
| LockableAspect.GetLockKey | common-redis/src/main/java/com/wy/redis/lock/LockableAspect.java:154-209 | null without arguments; otherwise the resolved segments in order, each followed by ':', or the error of the first failing segment, which is never a Redis or interruption failure |
| LockableAspect.KeyOfResolvedSegments | common-redis/src/main/java/com/wy/redis/lock/LockableAspect.java:164-206 | whenever every segment resolves, the key is exactly the resolved texts in order, each followed by ':' |
| LockableAspect.FirstFailingSegmentWins | common-redis/src/main/java/com/wy/redis/lock/LockableAspect.java:164-205 | when segment j is the first to throw, building the key throws what it throws, whatever the later segments would do |
| LockableAspect.LiteralKey | common-redis/src/main/java/com/wy/redis/lock/LockableAspect.java:164-206 | with only literal segments, the key is their concatenation, each followed by ':' |
| LockableAspect.Translate | common-redis/src/main/java/com/wy/redis/lock/LockableAspect.java:124-129 | a `RedisException` or `InterruptedException` becomes 5099 with the annotation's message; anything else passes unchanged |
| LockableAspect.Unlock | common-redis/src/main/java/com/wy/redis/lock/LockableAspect.java:137-144 | an `IllegalMonitorStateException` on unlock is ignored; any other throwable replaces the outcome |
| LockableAspect.Around | common-redis/src/main/java/com/wy/redis/lock/LockableAspect.java:108-135 | the method runs exactly when the key resolves and the lock is granted, and unlock is tried exactly then; a refused lock gives 5098; a `tryLock` failure is translated (Redis or interruption to 5099, anything else rethrown); a key error is raised as it is; after the method ran, its translated outcome reaches the caller unless the unlock throws something other than `IllegalMonitorStateException`, which then replaces it |
| LockableAspect.LockFailuresTranslated | common-redis/src/main/java/com/wy/redis/lock/LockableAspect.java:124-135 | a Redis or interruption failure reaches the caller only from the unlock in `finally`; a `BaseException` from the method reaches the caller unchanged when the unlock does not throw over it |
| GenerateCode.CodeCovering | common-redis/src/main/java/com/wy/redis/util/RedisGenerateCodeUtil.java:38-50 | fails exactly for a negative length; otherwise exactly `length` characters: the number left-padded with '0', or its last `length` characters |
| GenerateCode.CodeCoveringExample | common-redis/src/main/java/com/wy/redis/util/RedisGenerateCodeUtil.java:52-55 | covering 5012 to length 3 gives "012" |
| GenerateCode.CodeCoveringValue | common-redis/src/main/java/com/wy/redis/util/RedisGenerateCodeUtil.java:38-50 | for non-negative inputs the code is all digits and reads as value mod 10^length |
| GenerateCode.CounterKey | common-redis/src/main/java/com/wy/redis/util/RedisGenerateCodeUtil.java:67 | the key is the prefix `com:dmall:generate:code:`, the length in decimal, ':', then the business type |
| GenerateCode.CounterKeyInjective | common-redis/src/main/java/com/wy/redis/util/RedisGenerateCodeUtil.java:26-104 | two different (length, business type) pairs never share a counter key, even when the business type contains ':' |
| GenerateCode.Increment | common-redis/src/main/java/com/wy/redis/util/RedisGenerateCodeUtil.java:68 | the counter grows by `change` from 0 when absent; its expiry and every other key are kept |
| GenerateCode.SetExpiry | common-redis/src/main/java/com/wy/redis/util/RedisGenerateCodeUtil.java:85 | only the expiry of that key changes |
| GenerateCode.ShortGenerator | common-redis/src/main/java/com/wy/redis/util/RedisGenerateCodeUtil.java:66-70 | the counter is incremented and covered, other keys are untouched, and no expiry is set |
| GenerateCode.ShortGeneratorCodes | common-redis/src/main/java/com/wy/redis/util/RedisGenerateCodeUtil.java:66-70 | counting up from a non-negative counter, each code is all digits and reads as the counter mod 10^length |
| GenerateCode.FixDateGenerator | common-redis/src/main/java/com/wy/redis/util/RedisGenerateCodeUtil.java:82-87 | as the short generator, and the key then expires at the date |
| GenerateCode.GeneratorByTimeStrategy | common-redis/src/main/java/com/wy/redis/util/RedisGenerateCodeUtil.java:103-124 | ALWAYS resets the expiry on every call; ONLY_INIT sets it only when creating the key; a null strategy throws before anything is written |
| GenerateCode.OnlyInitKeepsFirstExpiry | common-redis/src/main/java/com/wy/redis/util/RedisGenerateCodeUtil.java:111-118 | under ONLY_INIT a second call keeps the first call's expiry and adds both changes |
| DateUtil.IsEffectiveDate | common-base/src/main/java/com/wy/date/DateUtil.java:417-446 | an error exactly when an argument is null, reporting the first null of now, start, end with its own message; otherwise true at either endpoint or strictly between them |
| DateUtil.EffectiveInOrderedInterval | common-base/src/main/java/com/wy/date/DateUtil.java:417-446 | for start <= end the test is membership of the closed interval |
| DateUtil.EffectiveInReversedInterval | common-base/src/main/java/com/wy/date/DateUtil.java:417-446 | for start > end only the two endpoints qualify |
| DateUtil.ParseDate | common-base/src/main/java/com/wy/date/DateUtil.java:321-331 | null for a null string; a null pattern with a string throws; otherwise the parse with the pattern |
| DateUtil.StringToDate | common-base/src/main/java/com/wy/date/DateUtil.java:341-352 | null for an empty string or a null pattern; otherwise the parse with the pattern |
| DateUtil.NormaliseSlashes | common-base/src/main/java/com/wy/date/DateUtil.java:487-489 | no '/' remains; each '/' becomes '-' and every other character is kept |
| DateUtil.NormaliseSlashesFixpoint | common-base/src/main/java/com/wy/date/DateUtil.java:487-489 | a string without '/' is unchanged, and normalising is idempotent |
| DateUtil.ExcelStringToDateBegin | common-base/src/main/java/com/wy/date/DateUtil.java:483-499 | null for an empty string or a null pattern; otherwise the parse of the normalised string |
| DateUtil.ExcelStringToDateEnd | common-base/src/main/java/com/wy/date/DateUtil.java:509-525 | as the begin variant, moved to the end of its day, and null when parsing fails |
| DateUtil.ExcelReadsSlashesAsDashes | common-base/src/main/java/com/wy/date/DateUtil.java:483-499 | the Excel reader is the plain reader on the string with every '/' turned into '-' |
| IdempotentService.QueryByReqId | common-idempotent/src/main/java/com/wy/IdempotentService.java:45 | a record exactly when one is filed under (requestId, appCode), and it is that record |
| IdempotentService.Insert | common-idempotent/src/main/java/com/wy/IdempotentService.java:21 | the record is filed under its key with the next id, the id is returned, and a later query finds it |
| IdempotentService.InsertBody | common-idempotent/src/main/java/com/wy/IdempotentService.java:28 | the body is appended; the records are unchanged |
| IdempotentService.UpdateInfo | common-idempotent/src/main/java/com/wy/IdempotentService.java:35 | the record with the same key and id takes the new status; nothing else changes |
| IdempotentService.LatestBody | common-idempotent/src/main/java/com/wy/IdempotentService.java:54 | None exactly when no body has that id; otherwise the last body with that id |
| IdempotentService.LatestAfterInsert | common-idempotent/src/main/java/com/wy/IdempotentService.java:28-54 | the body just appended is the latest for its id; other ids are unaffected |
| IdempotentService.InsertKeepsIdsFresh | common-idempotent/src/main/java/com/wy/IdempotentService.java:21 | insert keeps every id below the next one, and gives an id that no other record has |
| IdempotentAspect.DefaultKey | common-idempotent/src/main/java/com/wy/aop/IdempoentKey.java:21-69 | the descriptive attributes default to "", `keeps` to 5000 and `timeout` to 15000 |
| IdempotentAspect.GetElValue | common-idempotent/src/main/java/com/wy/aop/IdempotentAspect.java:254-265 | a literal is used as it is; an expression is evaluated when there are arguments, and gives "" otherwise |
| IdempotentAspect.Validate | common-idempotent/src/main/java/com/wy/aop/IdempotentAspect.java:102-103 | passes exactly for a single `AbstractIdRequest` argument; otherwise error 1008, with the many-arguments message when the count is wrong |
| IdempotentAspect.ResolvedKey | common-idempotent/src/main/java/com/wy/aop/IdempotentAspect.java:104-117 | coordinated exactly when the service exists and requestId and appCode resolve to non-blank text, under those two texts |
| IdempotentAspect.LockName | common-idempotent/src/main/java/com/wy/aop/IdempotentAspect.java:120 | the name is the requestId, then ':', then the appCode |
| IdempotentAspect.LockRequestOf | common-idempotent/src/main/java/com/wy/aop/IdempotentAspect.java:122 | the lock is asked with `timeout` as wait time and `keeps` as lease time, in seconds |
| IdempotentAspect.NewRecord | common-idempotent/src/main/java/com/wy/aop/IdempotentAspect.java:241-251 | the inserted record is filed under the operation, has no id yet, and has the given status |
| IdempotentAspect.Decoded | common-idempotent/src/main/java/com/wy/aop/IdempotentAspect.java:130-132 | the value read back, or a serialisation failure |
| IdempotentAspect.AppendBody | common-idempotent/src/main/java/com/wy/aop/IdempotentAspect.java:229-239 | appends exactly one body (id, argument JSON, bytes as ISO-8859-1) when nothing fails; otherwise the store is unchanged, an `IOException` from the JSON rendering or the row insert is swallowed, and any other failure of either is raised |
| IdempotentAspect.Finish | common-idempotent/src/main/java/com/wy/aop/IdempotentAspect.java:155-157 | returns the handler's value after appending its body; the call raises exactly when the append lets a failure out, and then raises that failure; records unchanged |
| IdempotentAspect.Execute | common-idempotent/src/main/java/com/wy/aop/IdempotentAspect.java:137-158 | the handler runs; a handler exception is passed on with nothing written; after a returned value, a serialisation failure, a cache-write fault, an update or insert fault each make the call raise with the store as it was, and otherwise the value is cached, the record is SUCCESS, and the call raises exactly when appending the body fails; any value returned is the handler's; the store only evolves |
| IdempotentAspect.Replay | common-idempotent/src/main/java/com/wy/aop/IdempotentAspect.java:166-179 | the handler does not run and nothing changes; the outcome is null without a non-blank latest body, else that body read back |
| IdempotentAspect.TryBlock | common-idempotent/src/main/java/com/wy/aop/IdempotentAspect.java:123-179 | a cache hit returns the cached value; a record without an id aborts with 1098 and one with a null status with a `NullPointerException`; the handler runs only on a cache miss with no record or a FAIL record; the store only evolves; the cache changes only when the handler ran |
| IdempotentAspect.Escaping | common-idempotent/src/main/java/com/wy/aop/IdempotentAspect.java:207-208 | only a non-`Exception` throwable gets past the logging catch |
| IdempotentAspect.RecordBody | common-idempotent/src/main/java/com/wy/aop/IdempotentAspect.java:201-206 | at most the failure body is appended; records unchanged; only an Error escapes |
| IdempotentAspect.CatchBlock | common-idempotent/src/main/java/com/wy/aop/IdempotentAspect.java:180-216 | existing records are never changed; the only record it may add is a FAIL record for the operation; the only body it may add is the serialised exception under that record's id; it does add it when the record read has an id, or none exists and its insert succeeds; cache and locks untouched; only an Error escapes |
| IdempotentAspect.Locked | common-idempotent/src/main/java/com/wy/aop/IdempotentAspect.java:123-216 | an Exception from the try block is rethrown unchanged after logging; a returned value is the try block's; whether the handler ran is the try block's |
| IdempotentAspect.Around | common-idempotent/src/main/java/com/wy/aop/IdempotentAspect.java:89-227 | bad arguments give 1008 with no effect; without a resolved key the handler simply runs; otherwise the lock is requested, the handler runs only if there is no record or a FAIL record, and the store only evolves |
| IdempotentProperties.LockRefused | common-idempotent/src/main/java/com/wy/aop/IdempotentAspect.java:120-122 | a refused lock changes nothing, does not run the handler and raises 5015 (or the provider's Error) |
| IdempotentProperties.LockReleased | common-idempotent/src/main/java/com/wy/aop/IdempotentAspect.java:217-218 | once granted, the lock is released however the call ended |
| IdempotentProperties.CacheReplay | common-idempotent/src/main/java/com/wy/aop/IdempotentAspect.java:128-133 | a cached result comes back as stored, without running the handler or touching the store |
| IdempotentProperties.ExecuteRecordsSuccess | common-idempotent/src/main/java/com/wy/aop/IdempotentAspect.java:137-158 | the handler's value is returned and cached for 60 minutes; the record becomes SUCCESS with its id, or is inserted with the next id; exactly one body is appended; other records are untouched |
| IdempotentProperties.StoreReplay | common-idempotent/src/main/java/com/wy/aop/IdempotentAspect.java:166-179 | a SUCCESS record is replayed from its latest body as the original value, without running the handler |
| IdempotentProperties.ReplayAfterSuccess | common-idempotent/src/main/java/com/wy/aop/IdempotentAspect.java:128-179 | after a success, a repeat returns the same value without running the handler, both from the cache and after the cache entry expired |
| IdempotentProperties.FailedReadLogsException | common-idempotent/src/main/java/com/wy/aop/IdempotentAspect.java:166-205 | when reading a SUCCESS record's latest body throws, the exception is rethrown without running the handler, the records stay as they were, and the exception's bytes are appended as that record's newest body |
| IdempotentProperties.FailedReplayShadowsResult | common-idempotent/src/main/java/com/wy/aop/IdempotentAspect.java:166-205 | a failed read of a SUCCESS record's body is logged as that record's latest body; later replays return the exception object |
| IdempotentProperties.CacheWriteFailureRecordsFail | common-idempotent/src/main/java/com/wy/aop/IdempotentAspect.java:137-158 | when caching the handler's value fails, the call raises that failure, nothing is cached, and a FAIL record with the failure as its body is written |
| IdempotentProperties.MissingIdAborts | common-idempotent/src/main/java/com/wy/aop/IdempotentAspect.java:134-135 | a record without an id aborts the call with 1098 before the handler runs, and nothing changes, since there is no id to log the failure under |
| IdempotentProperties.NullStatusFails | common-idempotent/src/main/java/com/wy/aop/IdempotentAspect.java:134-137 | a record with an id but a null status fails with a `NullPointerException` before the handler runs; records stay as they were |
| IdempotentProperties.BodyFailureAfterSuccess | common-idempotent/src/main/java/com/wy/aop/IdempotentAspect.java:137-158 | when the arguments cannot be rendered as JSON for the body row, the call raises that failure although the handler ran, its value was cached and the record is SUCCESS; no body is logged |
| IdempotentProperties.SuccessWithoutBodyReplaysNull | common-idempotent/src/main/java/com/wy/aop/IdempotentAspect.java:165-170 | a SUCCESS record with no body is replayed as null without running the handler |
| IdempotentProperties.BodyFailureLosesResult | common-idempotent/src/main/java/com/wy/aop/IdempotentAspect.java:137-170 | after such a call, once the cache entry has expired, a repeat returns null instead of the handler's value |
| IdempotentProperties.InProgressRejected | common-idempotent/src/main/java/com/wy/aop/IdempotentAspect.java:160-164 | an ING record gives 5016 without running the handler, and records stay as they were |
| IdempotentProperties.FailureIsRethrown | common-idempotent/src/main/java/com/wy/aop/IdempotentAspect.java:180-216 | a handler's Exception reaches the caller unchanged, whatever the failure logging runs into (barring Errors) |
| IdempotentProperties.RetryAfterFailure | common-idempotent/src/main/java/com/wy/aop/IdempotentAspect.java:136-216 | a first failure inserts a FAIL record with the next id and the exception as body, and the next call runs the handler again |
| IdempotentProperties.Run | common-idempotent/src/main/java/com/wy/aop/IdempotentAspect.java:89-227 | across any sequence of calls, records only evolve: none removed, new ones SUCCESS or FAIL, FAIL may only become SUCCESS |
| IdempotentProperties.NoCallWritesIng | common-idempotent/src/main/java/com/wy/aop/IdempotentAspect.java:136-196 | after any sequence of calls, every ING record was there at the start, unchanged |
| IdempotentProperties.SuccessIsFinal | common-idempotent/src/main/java/com/wy/aop/IdempotentAspect.java:136-137 | a SUCCESS record never changes, and no later call for that operation runs the handler |
| IdempotentProperties.LockNameAmbiguous | common-idempotent/src/main/java/com/wy/aop/IdempotentAspect.java:120-133 | ("a:b", "c") and ("a", "b:c") share a lock and a cache entry, so one's cached result is returned to the other |

## Left out

- Hessian serialisation: its byte format is not modelled. The codec is a parameter, and the read-back law is an assumption where it is used.
- Jackson/JSON rendering of arguments: it is not modelled. Its result, or its `BaseException` 1001, is a per-call input.
- Logging: left out, with one consequence. On the blank-body replay path, the log line renders the evaluation context (a `StandardEvaluationContext`) as JSON. The JSON mapper keeps Jackson's default of failing on beans without properties, and the resolvers inside that context have none, so that rendering very likely throws `BaseException` 1001 on every blank-body replay. The catch block would then log 1001 as the record's latest body, and later replays would return that exception object. The model returns null on that path instead.
- SpEL evaluation: not modelled. In `IdempotentAspect` it is a per-call function `string -> Option<string>`; in `LockableAspect` it is a function of the expression and the bound argument. Parse exceptions from `parseExpression` and evaluation exceptions in `getElValue` are not modelled.
- Redis and Redisson configuration beans and the cache configuration classes: not modelled. They are wiring, not behaviour.
- Lock waiting, lease expiry and concurrency between calls: not modelled. The provider's answer is an input, and calls are modelled one after another.
- `LockableAspect` holding a lock with a null key (no arguments): not modelled. What `getLock(null)` does belongs to Redisson, so here the provider's answer is simply an input.
- Cache expiry after 60 minutes: not modelled as time. The entry stores its lifetime, and `IdempotentProperties.Expire` removes an entry explicitly.
- Closing of the Hessian streams in `finally`: not modelled. Its failures are logged and swallowed, so the outcome is unchanged.
- Object identity of exceptions: not modelled. Each `get()` creates a new instance, while `BaseException.get` returns `this`. Exceptions are values here, so `BaseException.get` has no row of its own.
- Null `Integer` codes in `IErrorType`, and null annotation attributes: not modelled. Annotations cannot hold null, and the library's enums never do.
- `RedisGenerateCodeUtil`: the overflow error of `INCRBY` beyond 2^63-1 is not modelled; Redis refuses such an increment and keeps the value, and `RedisTemplate` then throws, whereas here counters are unbounded integers. The atomicity between `hasKey` and `INCRBY` under ONLY_INIT is not modelled either. A null expiry date in `fixDateGenerator` is not modelled.
- `DateUtil` calendar arithmetic (`getDatePlus*`, `getDateOfStart`, `getDate`, `format*`, the thread-local formatter cache): not modelled. These are library date arithmetic with no decision logic of the library's own. The end-of-day adjustment is a parameter of `ExcelStringToDateEnd`.
- `IdempotentService` implementation: not part of this model. The store is abstract state with the behaviour the interface documents. Its insert always returns an id.
- SpEL evaluation context in `LockableAspect`: the source shares one evaluation context across the segment loop, so a later dotted segment can see variables bound by earlier ones; the model evaluates each dotted segment with only its own argument.
- Store faults within one call: a listed fault fires on every use of that operation during the call, so a call in which the same operation first fails and then succeeds (a failed SUCCESS insert followed by a successful FAIL insert in the catch block, say) is not modelled. No property above relies on such a call.
- IdempotentAspect.Around: does not model a failure of the initial parameter-binding loop. It also does not model the `IdempotentAspect` null-arguments case, because an intercepted method always has an argument array matching its parameters.
