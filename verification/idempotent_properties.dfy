/** What the coordinator promises across whole calls and sequences of
    calls: refused locks change nothing, a successful execution is recorded
    and later replayed without running the handler again, a failed one is
    recorded and retried, a SUCCESS record is final, and no call ever
    writes an ING record. */
module IdempotentProperties {
  import opened Results
  import opened Errors
  import opened JoinPoint
  import opened IdempotentStatus
  import opened IdempotentService
  import opened IdempotentAspect
  import RedisLock
  import Latin1
  import Text

  /** The call is validated and coordinated under `k`. */
  predicate Coordinated(call: Call, deps: Deps, k: OpKey) {
    Validate(call.args).Holds? && ResolvedKey(call, deps) == Some(k)
  }

  /** The lock is granted and released, and no cache or store operation
      fails. */
  predicate Smooth(env: Env) {
    env.lock == RedisLock.Granted && env.unlock == RedisLock.Unlocked && env.faults == map[]
  }

  /** A coordinated key never yields an empty lock name. */
  lemma LockNameNotEmpty(call: Call, deps: Deps, k: OpKey)
    requires ResolvedKey(call, deps) == Some(k)
    ensures !Text.IsEmpty(Some(LockName(k)))
    ensures k.requestId != "" && k.appCode != ""
  {
  }

  /** When the lock is refused nothing changes and the handler does not run:
      the caller gets "request is repeated" (5015), or the provider's
      `java.lang.Error` itself. */
  lemma LockRefused(s: State, call: Call, deps: Deps, env: Env, k: OpKey)
    requires Coordinated(call, deps, k)
    requires !env.lock.Granted?
    ensures var r := Around(s, call, deps, env);
            && r.state == s && !r.invoked
            && r.outcome == Raised(if env.lock.Broken? && !env.lock.thrown.IsException() then env.lock.thrown
                                   else RequestIsRepeat.Raise())
  {
    LockNameNotEmpty(call, deps, k);
  }

  /** With the lock granted, the lock is released at the end whatever
      happened while it was held: the table is as before, less the name. */
  lemma LockReleased(s: State, call: Call, deps: Deps, env: Env, k: OpKey)
    requires Coordinated(call, deps, k)
    requires env.lock == RedisLock.Granted && env.unlock == RedisLock.Unlocked
    ensures var r := Around(s, call, deps, env);
            r.state.locks == s.locks - {LockName(k)} && r.lockRequest == Some(LockRequestOf(k, call.key))
  {
    LockNameNotEmpty(call, deps, k);
    var acquired := RedisLock.TryLock(s.locks, Some(LockName(k)), env.lock, RequestIsRepeat.AsErrorType());
    assert acquired.table == s.locks + {LockName(k)};
  }

  /** A cached result is returned as it was stored, without running the
      handler and without touching the store. */
  lemma CacheReplay(s: State, call: Call, deps: Deps, env: Env, k: OpKey, v: Value)
    requires Coordinated(call, deps, k) && Smooth(env)
    requires Faithful(deps.codec)
    requires deps.codec.encode(v).Some?
    requires LockName(k) in s.cache && s.cache[LockName(k)].bytes == deps.codec.encode(v).value
    ensures var r := Around(s, call, deps, env);
            && r.outcome == Returned(v) && !r.invoked
            && r.state.store == s.store && r.state.cache == s.cache
  {
    LockNameNotEmpty(call, deps, k);
  }

  /** The state with a cache entry gone (its hour is over). */
  function Expire(s: State, name: string): (r: State)
    ensures name !in r.cache && r.store == s.store && r.locks == s.locks
    ensures forall n :: n in s.cache && n != name ==> n in r.cache && r.cache[n] == s.cache[n]
  {
    s.(cache := s.cache - {name})
  }

  /** No record, or a FAIL record with an id, and no cached result: the
      handler runs; its result is returned, cached for an hour under the
      lock name, the record becomes (or is inserted as) SUCCESS, and exactly
      one body holding the arguments and the result is appended. */
  lemma ExecuteRecordsSuccess(s: State, call: Call, deps: Deps, env: Env, k: OpKey, v: Value, json: string)
    requires Coordinated(call, deps, k) && Smooth(env)
    requires LockName(k) !in s.cache
    requires k in s.store.records ==> s.store.records[k].status == Some(Fail) && s.store.records[k].id.Some?
    requires env.handler == Returned(v) && deps.codec.encode(v).Some?
    requires call.argsJson == Ok(json)
    ensures var r := Around(s, call, deps, env);
            var bytes := deps.codec.encode(v).value;
            && r.outcome == Returned(v) && r.invoked
            && r.state.cache == s.cache[LockName(k) := CacheEntry(bytes, CacheTtlMinutes)]
            && k in r.state.store.records
            && r.state.store.records[k].status == Some(Success)
            && r.state.store.records[k].id ==
                 (if k in s.store.records then s.store.records[k].id else Some(s.store.nextId))
            && r.state.store.bodies ==
                 s.store.bodies + [Body(r.state.store.records[k].id.value, json, Latin1.Decode(bytes))]
            && (forall k' :: k' in s.store.records && k' != k ==>
                  k' in r.state.store.records && r.state.store.records[k'] == s.store.records[k'])
  {
    LockNameNotEmpty(call, deps, k);
  }

  /** A SUCCESS record whose latest body holds the Hessian bytes of `v`,
      read as ISO-8859-1 text, is replayed as `v` when nothing is cached,
      without running the handler and without changing the store. */
  lemma StoreReplay(s: State, call: Call, deps: Deps, env: Env, k: OpKey, v: Value, body: Body)
    requires Coordinated(call, deps, k) && Smooth(env)
    requires Faithful(deps.codec) && deps.codec.encode(v).Some?
    requires LockName(k) !in s.cache
    requires k in s.store.records && s.store.records[k].status == Some(Success) && s.store.records[k].id.Some?
    requires LatestBody(s.store.bodies, s.store.records[k].id.value) == Some(body)
    requires body.responseBody == Latin1.Decode(deps.codec.encode(v).value)
    requires !Text.IsBlank(Some(body.responseBody))
    ensures var r := Around(s, call, deps, env);
            r.outcome == Returned(v) && !r.invoked && r.state.store == s.store
  {
    LockNameNotEmpty(call, deps, k);
    StoredBodyDecodes(s, k, call, deps.codec, env, v, body);
  }

  /** The try block of such a call: the latest body decodes to `v`. */
  lemma StoredBodyDecodes(s: State, k: OpKey, call: Call, codec: Codec, env: Env, v: Value, body: Body)
    requires env.faults == map[]
    requires Faithful(codec) && codec.encode(v).Some?
    requires LockName(k) !in s.cache
    requires k in s.store.records && s.store.records[k].status == Some(Success) && s.store.records[k].id.Some?
    requires LatestBody(s.store.bodies, s.store.records[k].id.value) == Some(body)
    requires body.responseBody == Latin1.Decode(codec.encode(v).value)
    requires !Text.IsBlank(Some(body.responseBody))
    ensures TryBlock(s, k, call, codec, env) == Attempt(s, Returned(v), Some(s.store.records[k]), false)
  {
    Latin1.RoundTrip(codec.encode(v).value);
  }

  /** After a successful execution, a repeat of the operation returns the
      same value without running the handler: from the cache while the
      entry lives, and from the recorded body once it has expired. */
  lemma ReplayAfterSuccess(s: State, call: Call, call': Call, deps: Deps, env: Env, env': Env,
                           k: OpKey, v: Value, json: string)
    requires Coordinated(call, deps, k) && Smooth(env)
    requires Coordinated(call', deps, k) && Smooth(env')
    requires Faithful(deps.codec)
    requires LockName(k) !in s.cache
    requires k in s.store.records ==> s.store.records[k].status == Some(Fail) && s.store.records[k].id.Some?
    requires env.handler == Returned(v) && deps.codec.encode(v).Some?
    requires call.argsJson == Ok(json)
    requires !Text.IsBlank(Some(Latin1.Decode(deps.codec.encode(v).value)))
    ensures var first := Around(s, call, deps, env);
            && Around(first.state, call', deps, env').outcome == Returned(v)
            && !Around(first.state, call', deps, env').invoked
            && Around(Expire(first.state, LockName(k)), call', deps, env').outcome == Returned(v)
            && !Around(Expire(first.state, LockName(k)), call', deps, env').invoked
  {
    var first := Around(s, call, deps, env);
    var bytes := deps.codec.encode(v).value;
    ExecuteRecordsSuccess(s, call, deps, env, k, v, json);
    CacheReplay(first.state, call', deps, env', k, v);
    var s2 := Expire(first.state, LockName(k));
    var id := s2.store.records[k].id.value;
    var body := Body(id, json, Latin1.Decode(bytes));
    LatestAfterInsert(s.store, body, id);
    assert InsertBody(s.store, body).bodies == s2.store.bodies;
    StoreReplay(s2, call', deps, env', k, v, body);
  }

  /** The first call of `FailedReplayShadowsResult`: reading the latest
      body fails, and the catch block appends the exception's bytes as a
      new body of the SUCCESS record. */
  lemma FailedReadLogsException(s: State, call: Call, deps: Deps, env: Env, k: OpKey, t: Thrown, json: string)
    requires Coordinated(call, deps, k)
    requires env.lock == RedisLock.Granted && env.unlock == RedisLock.Unlocked
    requires env.faults == map[LatestBodyQuery := t] && t.IsException()
    requires LockName(k) !in s.cache
    requires k in s.store.records && s.store.records[k].status == Some(Success) && s.store.records[k].id.Some?
    requires call.argsJson == Ok(json)
    requires deps.codec.encode(ThrownObject(t)).Some?
    ensures var first := Around(s, call, deps, env);
            && first.outcome == Raised(t) && !first.invoked
            && LockName(k) !in first.state.cache
            && first.state.store.records == s.store.records
            && first.state.store.bodies ==
                 s.store.bodies + [Body(s.store.records[k].id.value, json,
                                        Latin1.Decode(deps.codec.encode(ThrownObject(t)).value))]
  {
    LockNameNotEmpty(call, deps, k);
  }

  /** The catch block logs a failure under whatever record was read, a
      SUCCESS record included: when reading the latest body of a SUCCESS
      record throws, the exception becomes that record's latest body, and
      from then on the operation is replayed as the exception object. */
  lemma FailedReplayShadowsResult(s: State, call: Call, call': Call, deps: Deps, env: Env, env': Env,
                                  k: OpKey, t: Thrown, json: string)
    requires Coordinated(call, deps, k) && Coordinated(call', deps, k) && Smooth(env')
    requires env.lock == RedisLock.Granted && env.unlock == RedisLock.Unlocked
    requires env.faults == map[LatestBodyQuery := t] && t.IsException()
    requires LockName(k) !in s.cache
    requires k in s.store.records && s.store.records[k].status == Some(Success) && s.store.records[k].id.Some?
    requires call.argsJson == Ok(json)
    requires Faithful(deps.codec) && deps.codec.encode(ThrownObject(t)).Some?
    requires !Text.IsBlank(Some(Latin1.Decode(deps.codec.encode(ThrownObject(t)).value)))
    ensures var first := Around(s, call, deps, env);
            && first.outcome == Raised(t) && !first.invoked
            && first.state.store.records == s.store.records
            && Around(first.state, call', deps, env').outcome == Returned(ThrownObject(t))
  {
    FailedReadLogsException(s, call, deps, env, k, t, json);
    var first := Around(s, call, deps, env);
    var id := s.store.records[k].id.value;
    var body := Body(id, json, Latin1.Decode(deps.codec.encode(ThrownObject(t)).value));
    LatestAfterInsert(s.store, body, id);
    assert InsertBody(s.store, body).bodies == first.state.store.bodies;
    StoreReplay(first.state, call', deps, env', k, ThrownObject(t), body);
  }

  /** A record in progress (ING) is rejected with "request is being
      processed" (5016) without running the handler; the records are left
      as they were. */
  lemma InProgressRejected(s: State, call: Call, deps: Deps, env: Env, k: OpKey)
    requires Coordinated(call, deps, k) && Smooth(env)
    requires call.argsJson.Err? ==> call.argsJson.error.IsException()
    requires LockName(k) !in s.cache
    requires k in s.store.records && s.store.records[k].status == Some(Ing) && s.store.records[k].id.Some?
    ensures var r := Around(s, call, deps, env);
            && r.outcome == Raised(RequestIsProcess.Raise()) && !r.invoked
            && r.state.store.records == s.store.records && r.state.cache == s.cache
  {
    LockNameNotEmpty(call, deps, k);
  }

  /** A handler that throws an `Exception` has it rethrown to the caller
      whatever the logging of the failure runs into, as long as nothing
      during the call throws a `java.lang.Error`. */
  lemma FailureIsRethrown(s: State, call: Call, deps: Deps, env: Env, k: OpKey, t: Thrown)
    requires Coordinated(call, deps, k)
    requires env.lock == RedisLock.Granted && env.unlock == RedisLock.Unlocked
    requires LockName(k) !in s.cache && CacheHasKey !in env.faults && QueryRecord !in env.faults
    requires k in s.store.records ==> s.store.records[k].status == Some(Fail) && s.store.records[k].id.Some?
    requires env.handler == Raised(t) && t.IsException()
    requires forall op :: op in env.faults ==> env.faults[op].IsException()
    requires call.argsJson.Err? ==> call.argsJson.error.IsException()
    ensures var r := Around(s, call, deps, env);
            r.outcome == Raised(t) && r.invoked && r.state.cache == s.cache
  {
    LockNameNotEmpty(call, deps, k);
  }

  /** A first failure is recorded as a FAIL record with its exception as
      the body, and the next call for the operation runs the handler again. */
  lemma RetryAfterFailure(s: State, call: Call, call': Call, deps: Deps, env: Env, env': Env,
                          k: OpKey, t: Thrown, json: string)
    requires Coordinated(call, deps, k) && Smooth(env)
    requires Coordinated(call', deps, k) && Smooth(env')
    requires LockName(k) !in s.cache && k !in s.store.records
    requires env.handler == Raised(t) && t.IsException()
    requires deps.codec.encode(ThrownObject(t)).Some?
    requires call.argsJson == Ok(json)
    ensures var first := Around(s, call, deps, env);
            && first.outcome == Raised(t) && first.invoked
            && k in first.state.store.records
            && first.state.store.records[k].status == Some(Fail)
            && first.state.store.records[k].id == Some(s.store.nextId)
            && first.state.store.bodies ==
                 s.store.bodies + [Body(s.store.nextId, json, Latin1.Decode(deps.codec.encode(ThrownObject(t)).value))]
            && Around(first.state, call', deps, env').invoked
  {
    LockNameNotEmpty(call, deps, k);
    LockNameNotEmpty(call', deps, k);
  }

  /** Caching the result is part of the execution: when the cache write
      fails after the handler returned, the call raises that failure, no
      entry is cached, and the operation is logged as FAIL with the
      failure as its body, so a later call runs the handler again. */
  lemma CacheWriteFailureRecordsFail(s: State, call: Call, deps: Deps, env: Env,
                                     k: OpKey, v: Value, t: Thrown, json: string)
    requires Coordinated(call, deps, k)
    requires env.lock == RedisLock.Granted && env.unlock == RedisLock.Unlocked
    requires env.faults == map[CacheSet := t] && t.IsException()
    requires LockName(k) !in s.cache && k !in s.store.records
    requires env.handler == Returned(v) && deps.codec.encode(v).Some?
    requires deps.codec.encode(ThrownObject(t)).Some?
    requires call.argsJson == Ok(json)
    ensures var r := Around(s, call, deps, env);
            && r.outcome == Raised(t) && r.invoked && r.state.cache == s.cache
            && k in r.state.store.records && r.state.store.records[k].status == Some(Fail)
            && r.state.store.records[k].id == Some(s.store.nextId)
            && r.state.store.bodies ==
                 s.store.bodies + [Body(s.store.nextId, json, Latin1.Decode(deps.codec.encode(ThrownObject(t)).value))]
  {
    LockNameNotEmpty(call, deps, k);
  }

  /** A record the store returns without an id aborts the call with
      "idempotency id missing" (1098) before the handler could run; with no
      id there is nothing to log the failure under, so nothing changes. */
  lemma MissingIdAborts(s: State, call: Call, deps: Deps, env: Env, k: OpKey)
    requires Coordinated(call, deps, k) && Smooth(env)
    requires LockName(k) !in s.cache
    requires k in s.store.records && s.store.records[k].id.None?
    ensures var r := Around(s, call, deps, env);
            && r.outcome == Raised(Base(DefinedException(MissingIdCode, MissingIdMessage))) && !r.invoked
            && r.state.store == s.store && r.state.cache == s.cache
  {
    LockNameNotEmpty(call, deps, k);
  }

  /** A record with an id but a null status fails on reading the status
      (a `NullPointerException`) before the handler could run; the failure
      is logged as a body of that record, and the records stay as they were. */
  lemma NullStatusFails(s: State, call: Call, deps: Deps, env: Env, k: OpKey)
    requires Coordinated(call, deps, k) && Smooth(env)
    requires call.argsJson.Err? ==> call.argsJson.error.IsException()
    requires LockName(k) !in s.cache
    requires k in s.store.records && s.store.records[k].id.Some? && s.store.records[k].status.None?
    ensures var r := Around(s, call, deps, env);
            && r.outcome == Raised(Raw(NullPointer, "status")) && !r.invoked
            && r.state.store.records == s.store.records && r.state.cache == s.cache
  {
    LockNameNotEmpty(call, deps, k);
  }

  /** A failure after the handler returned is not best-effort: when the
      arguments cannot be written as JSON for the body row, the call raises
      that failure although the handler ran, its value was cached and the
      record was marked SUCCESS under the next id, with no body logged. */
  lemma BodyFailureAfterSuccess(s: State, call: Call, deps: Deps, env: Env, k: OpKey, v: Value, t: Thrown)
    requires Coordinated(call, deps, k) && Smooth(env)
    requires LockName(k) !in s.cache && k !in s.store.records
    requires env.handler == Returned(v) && deps.codec.encode(v).Some?
    requires call.argsJson == Err(t) && t.IsException() && !(t.Raw? && t.kind == IOFailure)
    ensures var r := Around(s, call, deps, env);
            && r.outcome == Raised(t) && r.invoked
            && k in r.state.store.records && r.state.store.records[k].status == Some(Success)
            && r.state.store.records[k].id == Some(s.store.nextId)
            && r.state.store.bodies == s.store.bodies
            && LockName(k) in r.state.cache
  {
    LockNameNotEmpty(call, deps, k);
  }

  /** A SUCCESS record without any body is replayed as null, without
      running the handler. */
  lemma SuccessWithoutBodyReplaysNull(s: State, call: Call, deps: Deps, env: Env, k: OpKey)
    requires Coordinated(call, deps, k) && Smooth(env)
    requires LockName(k) !in s.cache
    requires k in s.store.records && s.store.records[k].status == Some(Success) && s.store.records[k].id.Some?
    requires forall i :: 0 <= i < |s.store.bodies| ==> s.store.bodies[i].idempotentId != s.store.records[k].id.value
    ensures var r := Around(s, call, deps, env);
            r.outcome == Returned(Null) && !r.invoked && r.state.store == s.store
  {
    LockNameNotEmpty(call, deps, k);
  }

  /** So once the cached value of such a call has expired, a repeat of the
      operation returns null instead of the handler's value. */
  lemma BodyFailureLosesResult(s: State, call: Call, call': Call, deps: Deps, env: Env, env': Env,
                               k: OpKey, v: Value, t: Thrown)
    requires Coordinated(call, deps, k) && Smooth(env)
    requires Coordinated(call', deps, k) && Smooth(env')
    requires LockName(k) !in s.cache && k !in s.store.records
    requires env.handler == Returned(v) && deps.codec.encode(v).Some?
    requires call.argsJson == Err(t) && t.IsException() && !(t.Raw? && t.kind == IOFailure)
    requires forall i :: 0 <= i < |s.store.bodies| ==> s.store.bodies[i].idempotentId != s.store.nextId
    ensures var later := Expire(Around(s, call, deps, env).state, LockName(k));
            Around(later, call', deps, env').outcome == Returned(Null) && !Around(later, call', deps, env').invoked
  {
    BodyFailureAfterSuccess(s, call, deps, env, k, v, t);
    var later := Expire(Around(s, call, deps, env).state, LockName(k));
    SuccessWithoutBodyReplaysNull(later, call', deps, env', k);
  }

  /** One call after another, each with its own outside world. */
  datatype Request = Request(call: Call, env: Env)

  datatype Trace = Trace(state: State, outcomes: seq<Outcome>, invoked: seq<bool>)

  /** The calls run in order, each on the state the previous one left. */
  function Run(s: State, requests: seq<Request>, deps: Deps): (t: Trace)
    ensures |t.outcomes| == |requests| && |t.invoked| == |requests|
    ensures RecordsEvolve(s.store.records, t.state.store.records)
    decreases |requests|
  {
    if requests == [] then Trace(s, [], [])
    else
      var step := Around(s, requests[0].call, deps, requests[0].env);
      var rest := Run(step.state, requests[1..], deps);
      RecordsEvolveTransitive(s.store.records, step.state.store.records, rest.state.store.records);
      Trace(rest.state, [step.outcome] + rest.outcomes, [step.invoked] + rest.invoked)
  }

  /** No sequence of calls creates an ING record or turns a record into
      one: every ING record at the end was there at the start, unchanged. */
  lemma NoCallWritesIng(s: State, requests: seq<Request>, deps: Deps)
    ensures var t := Run(s, requests, deps);
            forall k :: k in t.state.store.records && t.state.store.records[k].status == Some(Ing) ==>
              k in s.store.records && t.state.store.records[k] == s.store.records[k]
  {
  }

  /** One call keeps a SUCCESS record and does not run the handler for it. */
  lemma SuccessStep(s: State, request: Request, deps: Deps, k: OpKey)
    requires k in s.store.records && s.store.records[k].status == Some(Success)
    ensures var step := Around(s, request.call, deps, request.env);
            && k in step.state.store.records && step.state.store.records[k] == s.store.records[k]
            && (ResolvedKey(request.call, deps) == Some(k) ==> !step.invoked)
  {
  }

  /** The trace of a non-empty run: the first call, then the rest. */
  lemma RunCons(s: State, requests: seq<Request>, deps: Deps)
    requires requests != []
    ensures var step := Around(s, requests[0].call, deps, requests[0].env);
            var rest := Run(step.state, requests[1..], deps);
            && Run(s, requests, deps).state == rest.state
            && Run(s, requests, deps).invoked[0] == step.invoked
            && forall i :: 1 <= i < |requests| ==>
                 Run(s, requests, deps).invoked[i] == rest.invoked[i - 1] && requests[i] == requests[1..][i - 1]
  {
    var step := Around(s, requests[0].call, deps, requests[0].env);
    var rest := Run(step.state, requests[1..], deps);
    var t := Run(s, requests, deps);
    assert t == Trace(rest.state, [step.outcome] + rest.outcomes, [step.invoked] + rest.invoked);
    forall i | 1 <= i < |requests|
      ensures t.invoked[i] == rest.invoked[i - 1] && requests[i] == requests[1..][i - 1]
    {
    }
  }

  /** Once an operation is SUCCESS it stays exactly as it is, and no later
      call coordinated under it runs the handler. */
  lemma {:induction false} SuccessIsFinal(s: State, requests: seq<Request>, deps: Deps, k: OpKey)
    requires k in s.store.records && s.store.records[k].status == Some(Success)
    ensures var t := Run(s, requests, deps);
            && k in t.state.store.records && t.state.store.records[k] == s.store.records[k]
            && forall i :: 0 <= i < |requests| && ResolvedKey(requests[i].call, deps) == Some(k) ==> !t.invoked[i]
    decreases |requests|
  {
    if requests != [] {
      var step := Around(s, requests[0].call, deps, requests[0].env);
      SuccessStep(s, requests[0], deps, k);
      SuccessIsFinal(step.state, requests[1..], deps, k);
      RunCons(s, requests, deps);
    }
  }

  /** Two different operations share one lock and one cache entry when the
      separator ':' occurs in their ids: a result cached for one is
      returned to the other without running its handler. */
  lemma LockNameAmbiguous(s: State, call: Call, deps: Deps, env: Env, v: Value)
    requires Coordinated(call, deps, OpKey("a", "b:c")) && Smooth(env)
    requires Faithful(deps.codec) && deps.codec.encode(v).Some?
    requires s.cache == map[LockName(OpKey("a:b", "c")) := CacheEntry(deps.codec.encode(v).value, CacheTtlMinutes)]
    ensures OpKey("a:b", "c") != OpKey("a", "b:c")
    ensures var r := Around(s, call, deps, env);
            r.outcome == Returned(v) && !r.invoked
  {
    assert LockName(OpKey("a:b", "c")) == LockName(OpKey("a", "b:c"));
    CacheReplay(s, call, deps, env, OpKey("a", "b:c"), v);
  }
}
