/** `IdempotentAspect.around`: the coordinator that runs a handler at most
    once per (requestId, appCode) and replays its recorded result on
    repeats. One intercepted call is a pure function from the shared state
    (result cache, idempotency store, lock table) and the answers of the
    outside world during that call (`Env`) to the next state and the call's
    outcome. */
module IdempotentAspect {
  import opened Results
  import opened Errors
  import opened JoinPoint
  import opened IdempotentStatus
  import opened IdempotentService
  import RedisLock
  import Latin1
  import Text

  const ElStartChar: char := '#'
  const KeySeparator: string := ":"
  /** Lifetime of a cached result. */
  const CacheTtlMinutes: nat := 60

  const TooManyArgsMessage: string := "幂等请求参数为多个，请将参数放进继承AbstractIdRequest的POJO中"
  const NotIdRequestMessage: string := "参数请继承AbstractIdRequest抽象类"
  const MissingIdMessage: string := "幂等主键未返回"
  const ArgumentsCode: int := 1008
  const MissingIdCode: int := 1098

  /** The `@IdempoentKey` annotation. Every text attribute is a literal or a
      SpEL expression starting with '#'. */
  datatype IdempotentKey = IdempotentKey(
    requestId: string,
    appCode: string,
    requestDesc: string,
    businessNo: string,
    businessType: string,
    businessDesc: string,
    keeps: int,
    timeout: int)

  /** The annotation with only the two identifying attributes given. */
  function DefaultKey(requestId: string, appCode: string): (k: IdempotentKey)
    ensures k.requestId == requestId && k.appCode == appCode
    ensures k.requestDesc == "" && k.businessNo == "" && k.businessType == "" && k.businessDesc == ""
    ensures k.keeps == 5000 && k.timeout == 15000
  {
    IdempotentKey(requestId, appCode, "", "", "", "", 5 * 1000, 15 * 1000)
  }

  /** One intercepted call: its arguments, its annotation, SpEL evaluation
      of an expression against the arguments (None for a null value), and
      `JsonUtil.toJson(args)`. */
  datatype Call = Call(
    args: seq<Arg>,
    key: IdempotentKey,
    spel: string -> Option<string>,
    argsJson: Result<string, Thrown>)

  /** Hessian serialisation of a value and deserialisation of bytes; None is
      an `IOException`. */
  datatype Codec = Codec(encode: Value -> Option<Latin1.Bytes>, decode: Latin1.Bytes -> Option<Value>)

  /** Reading back what was written gives the value written. */
  ghost predicate Faithful(codec: Codec) {
    forall v :: codec.encode(v).Some? ==> codec.decode(codec.encode(v).value) == Some(v)
  }

  /** The injected collaborators: whether an `IdempotentService` bean
      exists, and the serialiser. */
  datatype Deps = Deps(serviceConfigured: bool, codec: Codec)

  const SerialisationFailure: Thrown := Raw(IOFailure, "hessian")

  datatype CacheEntry = CacheEntry(bytes: Latin1.Bytes, ttlMinutes: nat)

  datatype State = State(cache: map<string, CacheEntry>, store: Store, locks: RedisLock.LockTable)

  /** The cache and store operations the coordinator performs. */
  datatype StoreOp =
    | CacheHasKey | CacheGet | CacheSet
    | QueryRecord | InsertRecord | UpdateRecord | InsertBodyRow | LatestBodyQuery

  /** What the outside world does during one call: the lock provider's and
      unlock's answers, how the handler ends if it runs, and the operations
      that throw (each listed operation throws its value every time it is
      performed during the call). */
  datatype Env = Env(
    lock: RedisLock.LockResponse,
    unlock: RedisLock.UnlockResponse,
    handler: Outcome,
    faults: map<StoreOp, Thrown>)

  /** The result of one call: the next state, the call's outcome, whether
      the handler ran, and the lock requested (None when no lock was asked for). */
  datatype Step = Step(state: State, outcome: Outcome, invoked: bool, lockRequest: Option<RedisLock.LockRequest>)

  /** `getElValue(point, value, parser, context)`: a literal is used as it
      is; an expression is evaluated when there are arguments, else "". */
  function GetElValue(value: string, args: seq<Arg>, spel: string -> Option<string>): (r: Option<string>)
    ensures !Text.StartsWith(value, ElStartChar) ==> r == Some(value)
    ensures Text.StartsWith(value, ElStartChar) && |args| > 0 ==> r == spel(value)
    ensures Text.StartsWith(value, ElStartChar) && |args| == 0 ==> r == Some("")
  {
    if !Text.StartsWith(value, ElStartChar) then Some(value)
    else if |args| > 0 then spel(value)
    else Some("")
  }

  /** The two argument checks that open `around`. */
  function Validate(args: seq<Arg>): (r: Check)
    ensures r.Holds? <==> |args| == 1 && args[0].IdRequest?
    ensures r.Violated? ==> r.thrown.Code() == Some(ArgumentsCode)
    ensures |args| != 1 ==> r == Violated(Base(DefinedException(ArgumentsCode, TooManyArgsMessage)))
  {
    match IsTrueOr(|args| - 1 == 0, DefinedException(ArgumentsCode, TooManyArgsMessage))
    case Violated(t) => Violated(t)
    case Holds => IsTrueOr(args[0].IdRequest?, DefinedException(ArgumentsCode, NotIdRequestMessage))
  }

  /** The operation a call is coordinated under; None when the coordinator
      fails open (no service, or a blank requestId or appCode). */
  function ResolvedKey(call: Call, deps: Deps): (r: Option<OpKey>)
    ensures r.Some? <==> deps.serviceConfigured
                         && !Text.IsBlank(GetElValue(call.key.requestId, call.args, call.spel))
                         && !Text.IsBlank(GetElValue(call.key.appCode, call.args, call.spel))
    ensures r.Some? ==> Some(r.value.requestId) == GetElValue(call.key.requestId, call.args, call.spel)
                        && Some(r.value.appCode) == GetElValue(call.key.appCode, call.args, call.spel)
  {
    if !deps.serviceConfigured then None
    else
      var requestId := GetElValue(call.key.requestId, call.args, call.spel);
      if Text.IsBlank(requestId) then None
      else
        var appCode := GetElValue(call.key.appCode, call.args, call.spel);
        if Text.IsBlank(appCode) then None
        else Some(OpKey(requestId.value, appCode.value))
  }

  /** The name of both the lock and the cache entry of an operation. */
  function LockName(k: OpKey): (name: string)
    ensures |name| == |k.requestId| + 1 + |k.appCode|
    ensures name[..|k.requestId|] == k.requestId && name[|k.requestId|] == ':'
    ensures name[|k.requestId| + 1..] == k.appCode
  {
    k.requestId + KeySeparator + k.appCode
  }

  /** The lock `around` asks for: `timeout` as the wait time, `keeps` as the
      lease time, both in seconds. */
  function LockRequestOf(k: OpKey, key: IdempotentKey): (r: RedisLock.LockRequest)
    ensures r.name == LockName(k) && r.waitTime == key.timeout && r.leaseTime == key.keeps
    ensures r.unit == Seconds
  {
    RedisLock.LockRequest(LockName(k), key.timeout, key.keeps, Seconds)
  }

  /** `insertIde`: the record built from the annotation, every attribute
      resolved as `getElValue` resolves it. */
  function NewRecord(k: OpKey, call: Call, status: Status): (r: Record)
    ensures r.Key() == k && r.id.None? && r.status == Some(status)
  {
    Record(None, k.requestId, k.appCode,
           GetElValue(call.key.requestDesc, call.args, call.spel),
           GetElValue(call.key.businessNo, call.args, call.spel),
           GetElValue(call.key.businessType, call.args, call.spel),
           GetElValue(call.key.businessDesc, call.args, call.spel),
           Some(status))
  }

  /** How a records map may change in one call: nothing is removed; a new
      record is SUCCESS or FAIL and has an id; an existing record is kept,
      or it was FAIL and becomes SUCCESS with nothing else changed. */
  ghost predicate RecordsEvolve(before: map<OpKey, Record>, after: map<OpKey, Record>) {
    && before.Keys <= after.Keys
    && (forall k :: k in after && k !in before ==>
          after[k].id.Some? && (after[k].status == Some(Success) || after[k].status == Some(Fail)))
    && (forall k :: k in before ==>
          after[k] == before[k]
          || (before[k].status == Some(Fail) && after[k] == before[k].(status := Some(Success))))
  }

  /** How the store may change in one call: records evolve, at most one
      body is appended, ids only grow. */
  ghost predicate StoreEvolves(before: Store, after: Store) {
    && RecordsEvolve(before.records, after.records)
    && before.bodies <= after.bodies && |after.bodies| <= |before.bodies| + 1
    && before.nextId <= after.nextId
  }

  /** Two successive changes of the records compose to one. */
  lemma {:induction false} RecordsEvolveTransitive(a: map<OpKey, Record>, b: map<OpKey, Record>, c: map<OpKey, Record>)
    requires RecordsEvolve(a, b) && RecordsEvolve(b, c)
    ensures RecordsEvolve(a, c)
  {
    forall k | k in c && k !in a
      ensures c[k].id.Some? && (c[k].status == Some(Success) || c[k].status == Some(Fail))
    {
      if k in b {
        assert c[k] == b[k] || (b[k].status == Some(Fail) && c[k] == b[k].(status := Some(Success)));
      }
    }
    forall k | k in a
      ensures c[k] == a[k] || (a[k].status == Some(Fail) && c[k] == a[k].(status := Some(Success)))
    {
      assert k in b;
    }
  }

  /** Two successive changes of the store compose to one, provided the
      second appends nothing when the first already did. */
  lemma StoreEvolvesTransitive(a: Store, b: Store, c: Store)
    requires StoreEvolves(a, b) && StoreEvolves(b, c)
    requires |c.bodies| <= |a.bodies| + 1
    ensures StoreEvolves(a, c)
  {
    RecordsEvolveTransitive(a.records, b.records, c.records);
  }

  /** The operation throws during this call. */
  predicate Faulty(env: Env, op: StoreOp) {
    op in env.faults
  }

  /** Reading bytes back (`Hessian2Input.readObject`). */
  function Decoded(codec: Codec, bytes: Latin1.Bytes): (r: Outcome)
    ensures codec.decode(bytes).Some? ==> r == Returned(codec.decode(bytes).value)
    ensures codec.decode(bytes).None? ==> r == Raised(SerialisationFailure)
  {
    match codec.decode(bytes)
    case Some(v) => Returned(v)
    case None => Raised(SerialisationFailure)
  }

  datatype Appended = Appended(store: Store, thrown: Option<Thrown>)

  /** `insertBody(point, bytes, id)`: one body row holding the arguments as
      JSON and the bytes read as ISO-8859-1 text. An `IOException` on the
      way is logged and swallowed; anything else propagates. */
  function AppendBody(store: Store, id: nat, bytes: Latin1.Bytes, argsJson: Result<string, Thrown>, env: Env): (r: Appended)
    ensures argsJson.Ok? && !Faulty(env, InsertBodyRow) ==>
              r == Appended(InsertBody(store, Body(id, argsJson.value, Latin1.Decode(bytes))), None)
    ensures argsJson.Err? || Faulty(env, InsertBodyRow) ==> r.store == store
    ensures r.thrown.Some? ==> !(r.thrown.value.Raw? && r.thrown.value.kind == IOFailure)
    ensures argsJson.Err? ==> r.thrown == if argsJson.error.Raw? && argsJson.error.kind == IOFailure
                                          then None else Some(argsJson.error)
    ensures argsJson.Ok? && Faulty(env, InsertBodyRow) ==>
              r.thrown == if env.faults[InsertBodyRow].Raw? && env.faults[InsertBodyRow].kind == IOFailure
                          then None else Some(env.faults[InsertBodyRow])
  {
    var raised :=
      match argsJson
      case Err(t) => Some(t)
      case Ok(_) => if Faulty(env, InsertBodyRow) then Some(env.faults[InsertBodyRow]) else None;
    match raised
    case None => Appended(InsertBody(store, Body(id, argsJson.value, Latin1.Decode(bytes))), None)
    case Some(t) => Appended(store, if t.Raw? && t.kind == IOFailure then None else Some(t))
  }

  /** How the `try` block ended: the state, the outcome, the record it read
      (`idempotentContext`, still None when it did not get that far) and
      whether the handler ran. */
  datatype Attempt = Attempt(state: State, outcome: Outcome, context: Option<Record>, invoked: bool)

  /** The end of the execute branch: append the body for `id` and return
      the handler's value. */
  function Finish(s: State, id: nat, bytes: Latin1.Bytes, v: Value, context: Option<Record>, call: Call, env: Env): (a: Attempt)
    ensures a.invoked && a.context == context
    ensures a.state.cache == s.cache && a.state.locks == s.locks
    ensures a.state.store.records == s.store.records && a.state.store.nextId == s.store.nextId
    ensures call.argsJson.Ok? && !Faulty(env, InsertBodyRow) ==>
              a.outcome == Returned(v)
              && a.state.store.bodies == s.store.bodies + [Body(id, call.argsJson.value, Latin1.Decode(bytes))]
    ensures a.state.store.bodies == s.store.bodies
            || (call.argsJson.Ok?
                && a.state.store.bodies == s.store.bodies + [Body(id, call.argsJson.value, Latin1.Decode(bytes))])
    ensures a.outcome.Returned? ==> a.outcome == Returned(v)
    ensures a.outcome.Raised? <==> AppendBody(s.store, id, bytes, call.argsJson, env).thrown.Some?
    ensures a.outcome.Raised? ==> a.outcome.thrown == AppendBody(s.store, id, bytes, call.argsJson, env).thrown.value
  {
    var app := AppendBody(s.store, id, bytes, call.argsJson, env);
    Attempt(s.(store := app.store), if app.thrown.Some? then Raised(app.thrown.value) else Returned(v), context, true)
  }

  /** The execute branch, taken when there is no record or a FAIL record:
      run the handler, cache its serialised result for an hour, mark the
      record SUCCESS (or insert a SUCCESS record) and log the body. */
  function Execute(s: State, k: OpKey, context: Option<Record>, call: Call, codec: Codec, env: Env): (a: Attempt)
    requires context.None? ==> k !in s.store.records
    requires context.Some? ==> k in s.store.records && context.value == s.store.records[k]
                               && context.value.id.Some? && context.value.status == Some(Fail)
    ensures a.invoked && a.context == context
    ensures a.state.locks == s.locks
    ensures StoreEvolves(s.store, a.state.store)
    ensures a.outcome.Returned? ==> a.outcome == env.handler
    ensures env.handler.Raised? ==> a == Attempt(s, env.handler, context, true)
    ensures env.handler.Returned? && codec.encode(env.handler.value).None? ==>
              a == Attempt(s, Raised(SerialisationFailure), context, true)
    ensures env.handler.Returned? && codec.encode(env.handler.value).Some? && Faulty(env, CacheSet) ==>
              a == Attempt(s, Raised(env.faults[CacheSet]), context, true)
    ensures env.handler.Returned? && codec.encode(env.handler.value).Some? && !Faulty(env, CacheSet) ==>
              && a.state.cache == s.cache[LockName(k) := CacheEntry(codec.encode(env.handler.value).value, CacheTtlMinutes)]
              && (context.Some? && Faulty(env, UpdateRecord) ==>
                    a.outcome == Raised(env.faults[UpdateRecord]) && a.state.store == s.store)
              && (context.None? && Faulty(env, InsertRecord) ==>
                    a.outcome == Raised(env.faults[InsertRecord]) && a.state.store == s.store)
              && ((context.Some? && !Faulty(env, UpdateRecord)) || (context.None? && !Faulty(env, InsertRecord)) ==>
                    && k in a.state.store.records && a.state.store.records[k].status == Some(Success)
                    && a.state.store.records[k].id.Some?
                    && (a.outcome.Raised? <==>
                          AppendBody(s.store, a.state.store.records[k].id.value, codec.encode(env.handler.value).value,
                                     call.argsJson, env).thrown.Some?))
  {
    match env.handler
    case Raised(_) => Attempt(s, env.handler, context, true)
    case Returned(v) =>
      match codec.encode(v)
      case None => Attempt(s, Raised(SerialisationFailure), context, true)
      case Some(bytes) =>
        if Faulty(env, CacheSet) then Attempt(s, Raised(env.faults[CacheSet]), context, true)
        else
          var cached := s.(cache := s.cache[LockName(k) := CacheEntry(bytes, CacheTtlMinutes)]);
          match context
          case Some(record) =>
            if Faulty(env, UpdateRecord) then Attempt(cached, Raised(env.faults[UpdateRecord]), context, true)
            else
              var updated := cached.(store := UpdateInfo(cached.store, record.(status := Some(Success))));
              Finish(updated, record.id.value, bytes, v, context, call, env)
          case None =>
            if Faulty(env, InsertRecord) then Attempt(cached, Raised(env.faults[InsertRecord]), context, true)
            else
              var ins := Insert(cached.store, NewRecord(k, call, Success));
              Finish(cached.(store := ins.store), ins.id, bytes, v, context, call, env)
  }

  /** The replay branch, taken for a SUCCESS record: the latest body of the
      record read back, or null when there is none or it is blank. */
  function Replay(s: State, id: nat, context: Option<Record>, codec: Codec, env: Env): (a: Attempt)
    ensures a.state == s && !a.invoked && a.context == context
    ensures !Faulty(env, LatestBodyQuery) ==>
              a.outcome == match LatestBody(s.store.bodies, id)
                           case None => Returned(Null)
                           case Some(body) =>
                             if Text.IsBlank(Some(body.responseBody)) then Returned(Null)
                             else Decoded(codec, Latin1.Encode(body.responseBody))
  {
    if Faulty(env, LatestBodyQuery) then Attempt(s, Raised(env.faults[LatestBodyQuery]), context, false)
    else
      match LatestBody(s.store.bodies, id)
      case None => Attempt(s, Returned(Null), context, false)
      case Some(body) =>
        if Text.IsBlank(Some(body.responseBody)) then Attempt(s, Returned(Null), context, false)
        else Attempt(s, Decoded(codec, Latin1.Encode(body.responseBody)), context, false)
  }

  /** The `try` block of `around`, run while the lock is held. */
  function TryBlock(s: State, k: OpKey, call: Call, codec: Codec, env: Env): (a: Attempt)
    ensures a.state.locks == s.locks
    ensures StoreEvolves(s.store, a.state.store)
    ensures a.context.Some? ==> k in s.store.records && a.context.value == s.store.records[k]
    ensures a.invoked ==> k !in s.store.records || s.store.records[k].status == Some(Fail)
    ensures a.invoked ==> !Faulty(env, CacheHasKey) && LockName(k) !in s.cache
    ensures a.state.store == s.store || a.invoked
    ensures a.state.cache == s.cache || (a.invoked && a.state.cache.Keys == s.cache.Keys + {LockName(k)})
    ensures !Faulty(env, CacheHasKey) && !Faulty(env, CacheGet) && LockName(k) in s.cache ==>
              a == Attempt(s, Decoded(codec, s.cache[LockName(k)].bytes), None, false)
    ensures !Faulty(env, CacheHasKey) && LockName(k) !in s.cache && !Faulty(env, QueryRecord)
            && k in s.store.records && s.store.records[k].id.None? ==>
              a == Attempt(s, Raised(Base(DefinedException(MissingIdCode, MissingIdMessage))), Some(s.store.records[k]), false)
    ensures !Faulty(env, CacheHasKey) && LockName(k) !in s.cache && !Faulty(env, QueryRecord)
            && k in s.store.records && s.store.records[k].id.Some? && s.store.records[k].status.None? ==>
              a == Attempt(s, Raised(Raw(NullPointer, "status")), Some(s.store.records[k]), false)
  {
    var name := LockName(k);
    if Faulty(env, CacheHasKey) then Attempt(s, Raised(env.faults[CacheHasKey]), None, false)
    else if name in s.cache then
      if Faulty(env, CacheGet) then Attempt(s, Raised(env.faults[CacheGet]), None, false)
      else Attempt(s, Decoded(codec, s.cache[name].bytes), None, false)
    else if Faulty(env, QueryRecord) then Attempt(s, Raised(env.faults[QueryRecord]), None, false)
    else
      var context := QueryByReqId(s.store, k.requestId, k.appCode);
      match IsTrueOr(context.None? || context.value.id.Some?, DefinedException(MissingIdCode, MissingIdMessage))
      case Violated(t) => Attempt(s, Raised(t), context, false)
      case Holds =>
        if context.Some? && context.value.status.None? then
          // `getStatus().equals(FAIL)` on a null status
          Attempt(s, Raised(Raw(NullPointer, "status")), context, false)
        else if context.None? || context.value.status == Some(Fail) then
          Execute(s, k, context, call, codec, env)
        else if context.value.status == Some(Ing) then
          Attempt(s, Raised(RequestIsProcess.Raise()), context, false)
        else
          Replay(s, context.value.id.value, context, codec, env)
  }

  datatype Recorded = Recorded(state: State, escaped: Option<Thrown>)

  /** What gets past the `catch (Exception e1)` around the failure logging. */
  function Escaping(t: Thrown): (r: Option<Thrown>)
    ensures r.Some? <==> !t.IsException()
    ensures r.Some? ==> r.value == t
  {
    if t.IsException() then None else Some(t)
  }

  /** Appending the failure body for `id`. */
  function RecordBody(s: State, id: nat, bytes: Latin1.Bytes, call: Call, env: Env): (r: Recorded)
    ensures r.state.cache == s.cache && r.state.locks == s.locks
    ensures r.state.store.records == s.store.records && r.state.store.nextId == s.store.nextId
    ensures r.state.store.bodies == s.store.bodies
            || (call.argsJson.Ok?
                && r.state.store.bodies == s.store.bodies + [Body(id, call.argsJson.value, Latin1.Decode(bytes))])
    ensures r.escaped.Some? ==> !r.escaped.value.IsException()
  {
    var app := AppendBody(s.store, id, bytes, call.argsJson, env);
    Recorded(s.(store := app.store), if app.thrown.Some? then Escaping(app.thrown.value) else None)
  }

  /** The `catch (Exception e)` block: serialise the exception and log it
      as a body of the record, inserting a FAIL record when there is none
      yet. Its own failures are logged, except a `java.lang.Error`. */
  function CatchBlock(s: State, k: OpKey, e: Thrown, context: Option<Record>, call: Call, codec: Codec, env: Env): (r: Recorded)
    requires context.Some? ==> k in s.store.records && s.store.records[k].id == context.value.id
    ensures r.state.cache == s.cache && r.state.locks == s.locks
    ensures StoreEvolves(s.store, r.state.store)
    ensures forall k' :: k' in s.store.records ==>
              k' in r.state.store.records && r.state.store.records[k'] == s.store.records[k']
    ensures forall k' :: k' in r.state.store.records && k' !in s.store.records ==>
              k' == k && r.state.store.records[k'].status == Some(Fail)
    ensures r.state.store.bodies == s.store.bodies
            || (call.argsJson.Ok? && codec.encode(ThrownObject(e)).Some?
                && k in r.state.store.records && r.state.store.records[k].id.Some?
                && r.state.store.bodies == s.store.bodies + [Body(r.state.store.records[k].id.value, call.argsJson.value,
                                                                  Latin1.Decode(codec.encode(ThrownObject(e)).value))])
    ensures codec.encode(ThrownObject(e)).Some? && call.argsJson.Ok? && !Faulty(env, InsertBodyRow)
            && (if context.Some? then context.value.id.Some?
                else k !in s.store.records && !Faulty(env, QueryRecord) && !Faulty(env, InsertRecord)) ==>
              |r.state.store.bodies| == |s.store.bodies| + 1 && r.escaped.None?
    ensures r.escaped.Some? ==> !r.escaped.value.IsException()
  {
    match codec.encode(ThrownObject(e))
    case None => Recorded(s, None)
    case Some(bytes) =>
      match context
      case Some(record) =>
        if record.id.None? then Recorded(s, None)
        else RecordBody(s, record.id.value, bytes, call, env)
      case None =>
        if Faulty(env, QueryRecord) then Recorded(s, Escaping(env.faults[QueryRecord]))
        // found now: its id is not taken, so nothing is logged
        else if QueryByReqId(s.store, k.requestId, k.appCode).Some? then Recorded(s, None)
        else if Faulty(env, InsertRecord) then Recorded(s, Escaping(env.faults[InsertRecord]))
        else
          var ins := Insert(s.store, NewRecord(k, call, Fail));
          RecordBody(s.(store := ins.store), ins.id, bytes, call, env)
  }

  /** The `try`/`catch` of `around`: an `Exception` from the `try` block is
      logged by the catch block and then rethrown, unless logging let a
      `java.lang.Error` out. */
  function Locked(s: State, k: OpKey, call: Call, codec: Codec, env: Env): (a: Attempt)
    ensures a.state.locks == s.locks
    ensures StoreEvolves(s.store, a.state.store)
    ensures a.invoked == TryBlock(s, k, call, codec, env).invoked
    ensures a.invoked ==> k !in s.store.records || s.store.records[k].status == Some(Fail)
    ensures TryBlock(s, k, call, codec, env).outcome.Returned? ==> a == TryBlock(s, k, call, codec, env)
    ensures a.outcome.Returned? ==> a.outcome == TryBlock(s, k, call, codec, env).outcome
    ensures a.outcome.Raised? && a.outcome.thrown.IsException() ==>
              a.outcome == TryBlock(s, k, call, codec, env).outcome
    ensures a.state.cache == TryBlock(s, k, call, codec, env).state.cache
  {
    var a := TryBlock(s, k, call, codec, env);
    if a.outcome.Raised? && a.outcome.thrown.IsException() then
      var rec := CatchBlock(a.state, k, a.outcome.thrown, a.context, call, codec, env);
      StoreEvolvesTransitive(s.store, a.state.store, rec.state.store);
      Attempt(rec.state, if rec.escaped.Some? then Raised(rec.escaped.value) else a.outcome, a.context, a.invoked)
    else a
  }

  /** `around(point)`. */
  function Around(s: State, call: Call, deps: Deps, env: Env): (r: Step)
    ensures Validate(call.args).Violated? ==> r == Step(s, Raised(Validate(call.args).thrown), false, None)
    ensures Validate(call.args).Holds? && ResolvedKey(call, deps).None? ==> r == Step(s, env.handler, true, None)
    ensures Validate(call.args).Holds? && ResolvedKey(call, deps).Some? ==>
              r.lockRequest == Some(LockRequestOf(ResolvedKey(call, deps).value, call.key))
    ensures r.invoked && ResolvedKey(call, deps).Some? ==>
              var k := ResolvedKey(call, deps).value;
              k !in s.store.records || s.store.records[k].status == Some(Fail)
    ensures StoreEvolves(s.store, r.state.store)
  {
    match Validate(call.args)
    case Violated(t) => Step(s, Raised(t), false, None)
    case Holds =>
      match ResolvedKey(call, deps)
      // fail open: `point.proceed()` without any coordination
      case None => Step(s, env.handler, true, None)
      case Some(k) =>
        var request := LockRequestOf(k, call.key);
        var acquired := RedisLock.TryLock(s.locks, Some(request.name), env.lock, RequestIsRepeat.AsErrorType());
        match acquired.result
        case Err(t) => Step(s.(locks := acquired.table), Raised(t), false, Some(request))
        case Ok(lock) =>
          var a := Locked(s.(locks := acquired.table), k, call, deps.codec, env);
          var released := RedisLock.TryUnLock(a.state.locks, Some(lock), env.unlock);
          Step(a.state.(locks := released.table),
               if released.escaped.Some? then Raised(released.escaped.value) else a.outcome,
               a.invoked, Some(request))
  }
}
