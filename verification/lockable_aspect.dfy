/** `LockableAspect`: the `@Lockable` interceptor. It builds a lock key from
    the annotation's segments and the call's arguments, runs the method only
    while holding that lock, and releases the lock afterwards. */
module LockableAspect {
  import opened Results
  import opened Errors
  import opened JoinPoint
  import opened RedisLock
  import Text

  const Separator: char := ':'
  const ElStartChar: char := '#'
  const ElSplitChar: char := '.'
  const CommonLockCode: int := 5098
  const CommonLockTimeOutCode: int := 5099

  /** The `@Lockable` annotation, times in milliseconds. */
  datatype Lockable = Lockable(value: seq<string>, keeps: int, timeout: int, message: string)

  /** `@Lockable(value)` with every other element at its default. */
  function DefaultLockable(value: seq<string>): Lockable {
    Lockable(value, 5 * 1000, 0, "Lock failed.")
  }

  /** What evaluating a dotted `#name.path` expression gave: a value (its
      `toString`), null, or a `SpelEvaluationException` with its message. */
  datatype SpelResult = SpelValue(text: string) | SpelNull | SpelFailure(message: string)

  /** The evaluator of dotted expressions, given the expression and the
      argument bound to its variable. */
  type Spel = (string, Arg) -> SpelResult

  /** The argument bound to parameter `name`, found by `matching` (the
      first parameter so named): 6003 when no parameter has that name, 6002
      when the argument is null. */
  function BoundArg(parameterNames: seq<string>, args: seq<Arg>, name: string): (r: Result<Arg, Thrown>)
    ensures name !in parameterNames ==> r == Err(SpringElCanMatchingParam.Raise())
    ensures forall i :: 0 <= i < |parameterNames| && parameterNames[i] == name && name !in parameterNames[..i] ==>
              r == if i >= |args| then Err(Raw(IndexOutOfBounds, "args"))
                   else if args[i].NullArg? then Err(ParamLockValueCanNotNull.Raise())
                   else Ok(args[i])
    ensures r.Ok? ==> !r.value.NullArg? && (exists i :: 0 <= i < |parameterNames| && i < |args|
                                              && parameterNames[i] == name && args[i] == r.value)
  {
    match Text.IndexOf(parameterNames, name)
    case None => Err(SpringElCanMatchingParam.Raise())
    case Some(i) =>
      if i >= |args| then Err(Raw(IndexOutOfBounds, "args"))
      else if args[i].NullArg? then Err(ParamLockValueCanNotNull.Raise())
      else Ok(args[i])
  }

  /** What building a key can throw: one of the four `BaseException`s of
      the loop (6002, 6003, 6004, 5098), or the out-of-range read of
      `args[ind]`. Never a Redis or interruption failure. */
  predicate KeyError(t: Thrown) {
    || t == Raw(IndexOutOfBounds, "args")
    || (t.Base? && t.exc.errorType.code in {ParamLockValueCanNotNull.Code(), SpringElCanMatchingParam.Code(),
                                             PleaseFillInValidKey.Code(), CommonLockCode})
  }

  /** One segment of the key, as the body of the `for` loop resolves it. */
  function ResolveSegment(segment: string, parameterNames: seq<string>, args: seq<Arg>, spel: Spel): (r: Result<string, Thrown>)
    ensures segment == "" ==> r == Err(PleaseFillInValidKey.Raise())
    ensures segment != "" && !Text.StartsWith(segment, ElStartChar) ==> r == Ok(segment)
    ensures Text.StartsWith(segment, ElStartChar) && ElSplitChar !in segment ==>
              r == match BoundArg(parameterNames, args, segment[1..])
                   case Ok(arg) => Ok(arg.text)
                   case Err(t) => Err(t)
    ensures r.Err? ==> KeyError(r.error)
  {
    if segment == "" then Err(PleaseFillInValidKey.Raise())
    else if !Text.StartsWith(segment, ElStartChar) then Ok(segment)
    else match Text.IndexOf(segment, ElSplitChar)
      case None =>
        (match BoundArg(parameterNames, args, segment[1..])
         case Ok(arg) => Ok(arg.text)
         case Err(t) => Err(t))
      case Some(index) =>
        match BoundArg(parameterNames, args, segment[1..index])
        case Err(t) => Err(t)
        case Ok(arg) =>
          match spel(segment, arg)
          case SpelValue(text) => Ok(text)
          // `Optional.map` turns a null value into an empty Optional, and
          // `orElse(key)` then keeps the segment as written
          case SpelNull => Ok(segment)
          case SpelFailure(message) => Err(Base(DefinedException(CommonLockCode, message)))
  }

  /** A dotted segment `#name.path`: the name runs up to the first '.', its
      argument is looked up as for `#name`, and the whole segment is then
      evaluated with that argument; a null value keeps the segment as
      written, and an evaluation error becomes 5098 with its message. */
  lemma DottedSegment(segment: string, parameterNames: seq<string>, args: seq<Arg>, spel: Spel, index: nat)
    requires Text.StartsWith(segment, ElStartChar)
    requires 0 < index < |segment| && segment[index] == ElSplitChar && ElSplitChar !in segment[..index]
    ensures var r := ResolveSegment(segment, parameterNames, args, spel);
            var bound := BoundArg(parameterNames, args, segment[1..index]);
            && (bound.Err? ==> r == Err(bound.error))
            && (bound.Ok? ==>
                  && (spel(segment, bound.value).SpelValue? ==> r == Ok(spel(segment, bound.value).text))
                  && (spel(segment, bound.value).SpelNull? ==> r == Ok(segment))
                  && (spel(segment, bound.value).SpelFailure? ==>
                        r == Err(Base(DefinedException(CommonLockCode, spel(segment, bound.value).message)))))
  {
    var found := Text.IndexOf(segment, ElSplitChar);
    assert found.Some?;
    assert found.value == index;
  }

  /** The key text for resolved segments: each followed by the separator. */
  function JoinSegments(resolved: seq<string>): (k: string)
    ensures |resolved| > 0 ==> |k| > 0 && k[|k| - 1] == Separator
  {
    if resolved == [] then "" else JoinSegments(resolved[..|resolved| - 1]) + resolved[|resolved| - 1] + [Separator]
  }

  /** Resolves the segments left to right, stopping at the first that throws. */
  function ResolveAll(segments: seq<string>, parameterNames: seq<string>, args: seq<Arg>, spel: Spel): (r: Result<seq<string>, Thrown>)
    ensures r.Ok? ==> |r.value| == |segments|
                      && forall i :: 0 <= i < |segments| ==>
                           ResolveSegment(segments[i], parameterNames, args, spel) == Ok(r.value[i])
    ensures r.Err? <==> exists i :: 0 <= i < |segments| && ResolveSegment(segments[i], parameterNames, args, spel).Err?
    ensures r.Err? ==> FirstFailure(segments, parameterNames, args, spel, r.error)
  {
    if segments == [] then Ok([])
    else match ResolveSegment(segments[0], parameterNames, args, spel)
      case Err(t) =>
        assert FailsFirstAt(segments, parameterNames, args, spel, t, 0);
        Err(t)
      case Ok(first) =>
        match ResolveAll(segments[1..], parameterNames, args, spel)
        case Err(t) =>
          FailureShifts(segments, parameterNames, args, spel, t);
          Err(t)
        case Ok(rest) =>
          SuccessShifts(segments, first, rest, parameterNames, args, spel);
          Ok([first] + rest)
  }

  /** Segment `j` throws `t` and every segment before it resolves: the
      loop stops at `j` with `t`. */
  predicate FailsFirstAt(segments: seq<string>, parameterNames: seq<string>, args: seq<Arg>, spel: Spel, t: Thrown, j: int) {
    && 0 <= j < |segments|
    && ResolveSegment(segments[j], parameterNames, args, spel) == Err(t)
    && forall i :: 0 <= i < j ==> ResolveSegment(segments[i], parameterNames, args, spel).Ok?
  }

  /** `t` is what the first throwing segment throws. */
  ghost predicate FirstFailure(segments: seq<string>, parameterNames: seq<string>, args: seq<Arg>, spel: Spel, t: Thrown) {
    exists j :: FailsFirstAt(segments, parameterNames, args, spel, t, j)
  }

  /** A first failure among the segments after a resolving first segment
      is the first failure of the whole. */
  lemma FailureShifts(segments: seq<string>, parameterNames: seq<string>, args: seq<Arg>, spel: Spel, t: Thrown)
    requires segments != [] && ResolveSegment(segments[0], parameterNames, args, spel).Ok?
    requires FirstFailure(segments[1..], parameterNames, args, spel, t)
    ensures FirstFailure(segments, parameterNames, args, spel, t)
    ensures exists i :: 0 <= i < |segments| && ResolveSegment(segments[i], parameterNames, args, spel).Err?
  {
    var j :| FailsFirstAt(segments[1..], parameterNames, args, spel, t, j);
    assert segments[j + 1] == segments[1..][j];
    forall i | 0 <= i < j + 1
      ensures ResolveSegment(segments[i], parameterNames, args, spel).Ok?
    {
      if i > 0 { assert segments[i] == segments[1..][i - 1]; }
    }
    assert FailsFirstAt(segments, parameterNames, args, spel, t, j + 1);
  }

  /** The first segment's text followed by the rest's is the text of every
      segment in turn. */
  lemma SuccessShifts(segments: seq<string>, first: string, rest: seq<string>,
                      parameterNames: seq<string>, args: seq<Arg>, spel: Spel)
    requires segments != [] && ResolveSegment(segments[0], parameterNames, args, spel) == Ok(first)
    requires |rest| == |segments| - 1
    requires forall i :: 0 <= i < |segments[1..]| ==> ResolveSegment(segments[1..][i], parameterNames, args, spel) == Ok(rest[i])
    ensures forall i :: 0 <= i < |segments| ==> ResolveSegment(segments[i], parameterNames, args, spel) == Ok(([first] + rest)[i])
  {
    forall i | 0 <= i < |segments|
      ensures ResolveSegment(segments[i], parameterNames, args, spel) == Ok(([first] + rest)[i])
    {
      if i > 0 { assert segments[i] == segments[1..][i - 1]; }
    }
  }

  /** Each segment resolves to the text at the same position. */
  predicate Resolves(segments: seq<string>, parameterNames: seq<string>, args: seq<Arg>, spel: Spel, resolved: seq<string>) {
    && |resolved| == |segments|
    && forall i :: 0 <= i < |segments| ==> ResolveSegment(segments[i], parameterNames, args, spel) == Ok(resolved[i])
  }

  /** `getLockKey(point, lockable)`: null when the method has no arguments. */
  function GetLockKey(lockable: Lockable, parameterNames: seq<string>, args: seq<Arg>, spel: Spel): (r: Result<Option<string>, Thrown>)
    ensures |args| == 0 ==> r == Ok(None)
    ensures |args| > 0 && r.Ok? ==> r.value.Some?
    ensures |args| > 0 && |lockable.value| > 0 && r.Ok? ==>
              r.value.Some? && |r.value.value| > 0 && r.value.value[|r.value.value| - 1] == Separator
    ensures |args| > 0 ==>
              (r.Err? <==> exists i :: 0 <= i < |lockable.value| && ResolveSegment(lockable.value[i], parameterNames, args, spel).Err?)
    ensures |args| > 0 && r.Ok? ==>
              exists resolved :: Resolves(lockable.value, parameterNames, args, spel, resolved)
                                 && r.value == Some(JoinSegments(resolved))
    ensures r.Err? ==> FirstFailure(lockable.value, parameterNames, args, spel, r.error)
    ensures r.Err? ==> KeyError(r.error)
  {
    if |args| == 0 then Ok(None)
    else match ResolveAll(lockable.value, parameterNames, args, spel)
      case Err(t) =>
        var j :| FailsFirstAt(lockable.value, parameterNames, args, spel, t, j);
        Err(t)
      case Ok(resolved) =>
        assert Resolves(lockable.value, parameterNames, args, spel, resolved);
        Ok(Some(JoinSegments(resolved)))
  }

  /** When every segment resolves, the key is the resolved texts in order,
      each followed by the separator. */
  lemma KeyOfResolvedSegments(lockable: Lockable, parameterNames: seq<string>, args: seq<Arg>, spel: Spel, resolved: seq<string>)
    requires |args| > 0
    requires Resolves(lockable.value, parameterNames, args, spel, resolved)
    ensures GetLockKey(lockable, parameterNames, args, spel) == Ok(Some(JoinSegments(resolved)))
  {
    var r := ResolveAll(lockable.value, parameterNames, args, spel);
    assert r.Ok?;
    assert r.value == resolved;
  }

  /** When segment `j` is the first to throw, building the key throws what
      it throws: later segments are never looked at. */
  lemma FirstFailingSegmentWins(lockable: Lockable, parameterNames: seq<string>, args: seq<Arg>, spel: Spel, j: nat, t: Thrown)
    requires |args| > 0
    requires FailsFirstAt(lockable.value, parameterNames, args, spel, t, j)
    ensures GetLockKey(lockable, parameterNames, args, spel) == Err(t)
  {
    assert ResolveSegment(lockable.value[j], parameterNames, args, spel).Err?;
    var r := ResolveAll(lockable.value, parameterNames, args, spel);
    assert r.Err?;
    var j' :| FailsFirstAt(lockable.value, parameterNames, args, spel, r.error, j');
  }

  /** A key made of literal segments only is their concatenation, each
      followed by the separator. */
  lemma LiteralKey(segments: seq<string>, parameterNames: seq<string>, args: seq<Arg>, spel: Spel)
    requires |args| > 0
    requires forall i :: 0 <= i < |segments| ==> segments[i] != "" && !Text.StartsWith(segments[i], ElStartChar)
    ensures GetLockKey(DefaultLockable(segments), parameterNames, args, spel) == Ok(Some(JoinSegments(segments)))
  {
    KeyOfResolvedSegments(DefaultLockable(segments), parameterNames, args, spel, segments);
  }

  /** How the interceptor ended, whether the method ran, and whether it
      tried to release the lock. */
  datatype Run = Run(outcome: Outcome, proceeded: bool, unlockAttempted: bool)

  /** The `catch` clauses: a `BaseException` and anything not named is
      rethrown as it is; a `RedisException` or `InterruptedException`
      becomes code 5099 with the annotation's message. */
  function Translate(t: Thrown, lockable: Lockable): (r: Thrown)
    ensures t.Base? ==> r == t
    ensures t.Raw? && (t.kind == RedisFailure || t.kind == Interrupted) ==>
              r == Base(DefinedException(CommonLockTimeOutCode, lockable.message))
    ensures t.Raw? && t.kind != RedisFailure && t.kind != Interrupted ==> r == t
  {
    if t.Raw? && (t.kind == RedisFailure || t.kind == Interrupted)
    then Base(DefinedException(CommonLockTimeOutCode, lockable.message))
    else t
  }

  /** `unlock(lock)` in the `finally` block: an `IllegalMonitorStateException`
      is logged; any other throwable replaces how the interceptor ended. */
  function Unlock(ended: Outcome, response: UnlockResponse): (r: Outcome)
    ensures response.Unlocked? ==> r == ended
    ensures response.UnlockFails? ==>
              r == if response.thrown.Raw? && response.thrown.kind == IllegalMonitorState then ended
                   else Raised(response.thrown)
  {
    match response
    case Unlocked => ended
    case UnlockFails(t) => if t.Raw? && t.kind == IllegalMonitorState then ended else Raised(t)
  }

  /** The unlock in the `finally` block throws something other than an
      `IllegalMonitorStateException`, which then replaces how the
      interceptor ended. */
  predicate UnlockEscapes(unlock: UnlockResponse) {
    unlock.UnlockFails? && !(unlock.thrown.Raw? && unlock.thrown.kind == IllegalMonitorState)
  }

  /** `around(point)`: the provider's answer, the intercepted method's
      outcome `body` and the unlock answer are inputs. */
  function Around(lockable: Lockable, parameterNames: seq<string>, args: seq<Arg>, spel: Spel,
                  response: LockResponse, body: Outcome, unlock: UnlockResponse): (r: Run)
    ensures r.proceeded <==> GetLockKey(lockable, parameterNames, args, spel).Ok? && response.Granted?
    ensures r.unlockAttempted <==> r.proceeded
    ensures r.proceeded && !UnlockEscapes(unlock) ==>
              r.outcome == match body
                           case Returned(v) => Returned(v)
                           case Raised(t) => Raised(Translate(t, lockable))
    ensures r.proceeded && UnlockEscapes(unlock) ==> r.outcome == Raised(unlock.thrown)
    ensures GetLockKey(lockable, parameterNames, args, spel).Ok? && response.Denied? ==>
              r.outcome == Raised(Base(DefinedException(CommonLockCode, lockable.message)))
    ensures GetLockKey(lockable, parameterNames, args, spel).Ok? && response.Broken? ==>
              r.outcome == Raised(Translate(response.thrown, lockable))
    ensures GetLockKey(lockable, parameterNames, args, spel).Err? ==>
              r.outcome == Raised(GetLockKey(lockable, parameterNames, args, spel).error)
  {
    match GetLockKey(lockable, parameterNames, args, spel)
    case Err(t) => Run(Raised(t), false, false)
    case Ok(_) =>
      match response
      case Granted =>
        var ended := match body
                     case Returned(v) => Returned(v)
                     case Raised(t) => Raised(Translate(t, lockable));
        Run(Unlock(ended, unlock), true, true)
      case Denied => Run(Raised(Base(DefinedException(CommonLockCode, lockable.message))), false, false)
      case Broken(t) => Run(Raised(Translate(t, lockable)), false, false)
  }

  /** A `RedisException` or `InterruptedException` from building the key,
      from `tryLock` or from the method never reaches the caller as it is:
      the catch clause turns it into 5099. One reaches the caller only from
      the unlock in the `finally` block, which lies outside the catch
      clauses. A `BaseException` from the method reaches the caller
      unchanged when the unlock does not throw over it. */
  lemma LockFailuresTranslated(lockable: Lockable, parameterNames: seq<string>, args: seq<Arg>, spel: Spel,
                               response: LockResponse, body: Outcome, unlock: UnlockResponse)
    ensures var r := Around(lockable, parameterNames, args, spel, response, body, unlock);
            r.outcome.Raised? && r.outcome.thrown.Raw?
            && (r.outcome.thrown.kind == RedisFailure || r.outcome.thrown.kind == Interrupted) ==>
              r.proceeded && UnlockEscapes(unlock) && r.outcome.thrown == unlock.thrown
    ensures var r := Around(lockable, parameterNames, args, spel, response, body, unlock);
            r.proceeded && body.Raised? && body.thrown.Base? && !UnlockEscapes(unlock) ==> r.outcome == body
  {
  }
}
