/**
 * `DistributedLockAspect`: the around-advice of every `@DistributedLock` method. It validates the
 * declaration, requires a Redisson client, resolves the lock key, acquires the lock, runs the
 * method and, in `finally`, releases the lock.
 *
 * Redisson is seen only through the calls the aspect makes. The client records every call with
 * the answer it got; the answers come from `server`, an arbitrary function of the call and of its
 * position in the log, so every property proved here holds whatever the lock service does.
 */
module Aspect {
  import opened Results
  import opened JavaText
  import opened CallContext
  import opened LockException
  import opened Annotation
  import PreConverters
  import Conv = LockNameCoreConverter

  // ---------------------------------------------------------------- the lock service

  /** The Redisson lock object a call goes to: `getLock`, `getFairLock`, or one side of `getReadWriteLock`. */
  datatype HandleKind = Reentrant | Fair | Read | Write

  /** An `RLock`: its kind and the key it was obtained for. */
  datatype RLock = RLock(kind: HandleKind, key: string)

  /** `lock(leaseTime, unit)`, `tryLock(waitTime, leaseTime, unit)` and `unlock()` on a handle. */
  datatype ProviderCall =
    | LockCall(lock: RLock, leaseTime: Long, unit: TimeUnit)
    | TryLockCall(lock: RLock, waitTime: Long, leaseTime: Long, unit: TimeUnit)
    | UnlockCall(lock: RLock)

  /** How a call ends: it returns (`granted` is what `tryLock` returned) or it throws an exception. */
  datatype Reply = Replied(granted: bool) | ProviderError(description: string)

  datatype Event = Event(call: ProviderCall, reply: Reply)

  /** The answer to a call, given the number of calls made before it. */
  type Server = (ProviderCall, nat) -> Reply

  /** The handle the aspect uses for a declared lock type; acquire and release both go through it. */
  function HandleFor(lockType: LockType, key: string): (h: RLock)
    ensures h.key == key
  {
    match lockType
    case Lock => RLock(Reentrant, key)
    case FairLock => RLock(Fair, key)
    case ReadLock => RLock(Read, key)
    case WriteLock => RLock(Write, key)
  }

  /** Different lock types never share a handle, whatever the keys. */
  lemma HandlesAreDistinct(t1: LockType, k1: string, t2: LockType, k2: string)
    ensures HandleFor(t1, k1) == HandleFor(t2, k2) <==> t1 == t2 && k1 == k2
  {
  }

  /** `RedissonClient` together with the `RLock` objects it hands out. */
  class RedissonClient {
    const server: Server
    /** Every call made so far, in order, with its answer. */
    var log: seq<Event>

    constructor (server: Server)
      ensures this.server == server && log == []
    {
      this.server := server;
      log := [];
    }

    method Lock(lock: RLock, leaseTime: Long, unit: TimeUnit) returns (reply: Reply)
      modifies this
      ensures reply == server(LockCall(lock, leaseTime, unit), |old(log)|)
      ensures log == old(log) + [Event(LockCall(lock, leaseTime, unit), reply)]
    {
      reply := server(LockCall(lock, leaseTime, unit), |log|);
      log := log + [Event(LockCall(lock, leaseTime, unit), reply)];
    }

    method TryLock(lock: RLock, waitTime: Long, leaseTime: Long, unit: TimeUnit) returns (reply: Reply)
      modifies this
      ensures reply == server(TryLockCall(lock, waitTime, leaseTime, unit), |old(log)|)
      ensures log == old(log) + [Event(TryLockCall(lock, waitTime, leaseTime, unit), reply)]
    {
      reply := server(TryLockCall(lock, waitTime, leaseTime, unit), |log|);
      log := log + [Event(TryLockCall(lock, waitTime, leaseTime, unit), reply)];
    }

    method Unlock(lock: RLock) returns (reply: Reply)
      modifies this
      ensures reply == server(UnlockCall(lock), |old(log)|)
      ensures log == old(log) + [Event(UnlockCall(lock), reply)]
    {
      reply := server(UnlockCall(lock), |log|);
      log := log + [Event(UnlockCall(lock), reply)];
    }
  }

  // ---------------------------------------------------------------- the intercepted call

  /** How the intercepted method ends: with a value or with an exception. */
  datatype Completion = Normal(result: Value) | Abrupt(error: Throwable)

  /** `ProceedingJoinPoint`: the declaration found on the method, the arguments, and the method itself. */
  class JoinPoint {
    /** `AnnotationUtils.getAnnotation` on the intercepted method; None when it fails or finds nothing. */
    const annotation: Option<DistributedLock>
    const args: seq<Arg>
    /** What running the method yields. */
    const body: Completion
    /** How many times `proceed()` ran the method. */
    var proceeded: nat

    constructor (annotation: Option<DistributedLock>, args: seq<Arg>, body: Completion)
      ensures this.annotation == annotation && this.args == args && this.body == body && proceeded == 0
    {
      this.annotation := annotation;
      this.args := args;
      this.body := body;
      proceeded := 0;
    }

    method Proceed() returns (c: Completion)
      modifies this
      ensures c == body && proceeded == old(proceeded) + 1
    {
      proceeded := proceeded + 1;
      c := body;
    }
  }

  // ---------------------------------------------------------------- the steps

  const ANNOTATION_MESSAGE := "An exception occurred while get distributed lock annotation."
  const LEASE_TIME_MESSAGE := "The leaseTime value of the distributed lock annotation is invalid."
  const WAIT_TIME_MESSAGE := "The waitTime value of the distributed lock annotation is invalid."
  const MISSING_REDISSON_MESSAGE := "Required Redisson dependency for distributed lock was not found."
  const LOCK_MESSAGE := "An exception occurred while lock."
  const UNLOCK_MESSAGE := "An exception occurred while unlock."

  /**
   * `getAndCheckLockAnnotation`: status 0 when no declaration is found, then when `leaseTime` is
   * below -1, then when `waitTime` is negative; otherwise the declaration.
   */
  function GetAndCheckLockAnnotation(found: Option<DistributedLock>): (r: Result<DistributedLock, DistributedLockException>)
    ensures r.Ok? <==> found.Some? && found.value.leaseTime >= -1 && found.value.waitTime >= 0
    ensures r.Ok? ==> r.value == found.value
    ensures r.Err? ==> r.error.status == INVALID_ANNOTATION
    ensures found.None? ==> r == Err(DistributedLockException(INVALID_ANNOTATION, ANNOTATION_MESSAGE))
    ensures r.Err? && found.Some? && found.value.leaseTime < -1 ==> r.error.message == LEASE_TIME_MESSAGE
    ensures r.Err? && found.Some? && found.value.leaseTime >= -1 ==> r.error.message == WAIT_TIME_MESSAGE
  {
    match found
    case None => Err(DistributedLockException(INVALID_ANNOTATION, ANNOTATION_MESSAGE))
    case Some(a) =>
      if a.leaseTime < -1 then Err(DistributedLockException(INVALID_ANNOTATION, LEASE_TIME_MESSAGE))
      else if a.waitTime < 0 then Err(DistributedLockException(INVALID_ANNOTATION, WAIT_TIME_MESSAGE))
      else Ok(a)
  }

  /** A declaration left at its defaults passes validation: -1 is a valid lease, 0 a valid wait. */
  lemma DefaultsPassValidation(template: string)
    ensures GetAndCheckLockAnnotation(Some(DistributedLock(name := template))) == Ok(DistributedLock(name := template))
  {
    Defaults(template);
  }

  /** The one call `lock` makes: blocking mode passes `(leaseTime, unit)`, try mode `(waitTime, leaseTime, unit)`. */
  function AcquireCall(a: DistributedLock, key: string): (c: ProviderCall)
    ensures c.lock == HandleFor(a.lockType, key)
    ensures c.LockCall? <==> a.mode == Blocking
    ensures c.TryLockCall? <==> a.mode == TryLock
    ensures c.LockCall? ==> c.leaseTime == a.leaseTime && c.unit == a.timeUnit
    ensures c.TryLockCall? ==> c.waitTime == a.waitTime && c.leaseTime == a.leaseTime && c.unit == a.timeUnit
  {
    match a.mode
    case Blocking => LockCall(HandleFor(a.lockType, key), a.leaseTime, a.timeUnit)
    case TryLock => TryLockCall(HandleFor(a.lockType, key), a.waitTime, a.leaseTime, a.timeUnit)
  }

  /**
   * What `lock` throws after its call got `reply`: status 5 with the declared message when a
   * try-lock was refused (re-thrown as it is by the catch block), status 3 when the call threw.
   */
  function AcquireFailure(a: DistributedLock, reply: Reply): (r: Option<DistributedLockException>)
    ensures r.None? <==> reply.Replied? && (a.mode.Blocking? || reply.granted)
    ensures r.Some? && reply.ProviderError? ==> r.value == DistributedLockException(LOCK_FAILED, LOCK_MESSAGE)
    ensures r.Some? && reply.Replied? ==> r.value == DistributedLockException(TRY_LOCK_FAILED, a.tryLockFailMsg)
  {
    match reply
    case ProviderError(_) => Some(DistributedLockException(LOCK_FAILED, LOCK_MESSAGE))
    case Replied(granted) =>
      if a.mode.TryLock? && !granted then Some(DistributedLockException(TRY_LOCK_FAILED, a.tryLockFailMsg))
      else None
  }

  /** What `unlock` throws after its call got `reply`: status 4 when the call threw. */
  function ReleaseFailure(reply: Reply): (r: Option<DistributedLockException>)
    ensures r.Some? <==> reply.ProviderError?
    ensures r.Some? ==> r.value.status == UNLOCK_FAILED && r.value.message == UNLOCK_MESSAGE
  {
    if reply.ProviderError? then Some(DistributedLockException(UNLOCK_FAILED, UNLOCK_MESSAGE)) else None
  }

  // ---------------------------------------------------------------- the whole advice

  /** The end of one advice run: how it completed, the calls made on the client, and whether the method ran. */
  datatype Run = Run(completion: Completion, events: seq<Event>, ran: bool)

  function Fail(e: DistributedLockException): Completion {
    Abrupt(LockError(e))
  }

  /**
   * `lockAspect` as a function of its inputs: `client` is None when no Redisson client is wired,
   * and `n` is the number of calls the client answered before.
   */
  function Advice(conv: Conv.CoreConverter, found: Option<DistributedLock>, client: Option<Server>, n: nat,
                  args: seq<Arg>, ctx: PreConverters.RequestContext, body: Completion): Run
  {
    match GetAndCheckLockAnnotation(found)
    case Err(e) => Run(Fail(e), [], false)
    case Ok(a) =>
      if client.None? then Run(Fail(DistributedLockException(MISSING_DEPENDENCY, MISSING_REDISSON_MESSAGE)), [], false)
      else
        match Conv.ConvertSpec(conv, a.name, args, ctx)
        case Err(e) => Run(Fail(e), [], false)
        case Ok(key) => Guarded(a, key, client.value, n, body)
  }

  /**
   * The part of `lockAspect` that runs once the key is known: acquire, run the method, release in
   * `finally`. A failing release replaces whatever the method produced.
   */
  function Guarded(a: DistributedLock, key: string, client: Server, n: nat, body: Completion): Run {
    var acquire := Event(AcquireCall(a, key), client(AcquireCall(a, key), n));
    match AcquireFailure(a, acquire.reply)
    case Some(e) => Run(Fail(e), [acquire], false)
    case None =>
      if !a.autoUnlock then Run(body, [acquire], true)
      else
        var release := Event(UnlockCall(HandleFor(a.lockType, key)), client(UnlockCall(HandleFor(a.lockType, key)), n + 1));
        match ReleaseFailure(release.reply)
        case Some(e) => Run(Fail(e), [acquire, release], true)
        case None => Run(body, [acquire, release], true)
  }

  /** An acquiring call: `lock` or `tryLock`. */
  predicate IsAcquire(c: ProviderCall) {
    c.LockCall? || c.TryLockCall?
  }

  /**
   * The calls one advice run may make on the client: none, one acquire, or one acquire followed
   * by one release of the very handle that was acquired.
   */
  predicate Bracketed(events: seq<Event>) {
    || events == []
    || (|events| == 1 && IsAcquire(events[0].call))
    || (|events| == 2 && IsAcquire(events[0].call) && events[1].call == UnlockCall(events[0].call.lock))
  }

  /** Once the key is known, the calls keep to the protocol and the method runs exactly when the acquire succeeded. */
  lemma GuardedIsBracketed(a: DistributedLock, key: string, client: Server, n: nat, body: Completion)
    ensures var run := Guarded(a, key, client, n, body);
            && Bracketed(run.events)
            && |run.events| >= 1
            && (run.ran <==> AcquireFailure(a, run.events[0].reply).None?)
            && (!run.ran ==> run.completion.Abrupt? && run.completion.error.LockError?)
  {
  }

  /** Every run keeps to the protocol, and the method runs exactly when an acquire was answered without failure. */
  lemma AdviceIsBracketed(conv: Conv.CoreConverter, found: Option<DistributedLock>, client: Option<Server>, n: nat,
                          args: seq<Arg>, ctx: PreConverters.RequestContext, body: Completion)
    ensures var run := Advice(conv, found, client, n, args, ctx, body);
            && Bracketed(run.events)
            && (run.ran <==> run.events != [] && AcquireFailure(found.value, run.events[0].reply).None?)
            && (!run.ran ==> run.completion.Abrupt? && run.completion.error.LockError?)
  {
    var checked := GetAndCheckLockAnnotation(found);
    if checked.Ok? && client.Some? {
      var converted := Conv.ConvertSpec(conv, checked.value.name, args, ctx);
      if converted.Ok? {
        GuardedIsBracketed(checked.value, converted.value, client.value, n, body);
      }
    }
  }

  /**
   * Nothing reaches the client unless the declaration is valid, a client is wired and the key
   * resolves; the failure is that of the first step that fails, in that order (status 0, 1, 2).
   */
  lemma StepsBeforeLocking(conv: Conv.CoreConverter, found: Option<DistributedLock>, client: Option<Server>, n: nat,
                           args: seq<Arg>, ctx: PreConverters.RequestContext, body: Completion)
    ensures var run := Advice(conv, found, client, n, args, ctx, body);
            var checked := GetAndCheckLockAnnotation(found);
            && (run.events == [] <==>
                  checked.Err? || client.None? || Conv.ConvertSpec(conv, checked.value.name, args, ctx).Err?)
            && (checked.Err? ==> run.completion == Fail(checked.error))
            && (checked.Ok? && client.None? ==>
                  run.completion == Fail(DistributedLockException(MISSING_DEPENDENCY, MISSING_REDISSON_MESSAGE)))
            && (checked.Ok? && client.Some? && Conv.ConvertSpec(conv, checked.value.name, args, ctx).Err? ==>
                  run.completion == Fail(Conv.ConvertSpec(conv, checked.value.name, args, ctx).error))
  {
  }

  /** The key the lock is taken on is the converted name, with the declared type, mode, times and unit. */
  lemma AcquiresConvertedKey(conv: Conv.CoreConverter, a: DistributedLock, client: Server, n: nat,
                             args: seq<Arg>, ctx: PreConverters.RequestContext, body: Completion, key: string)
    requires GetAndCheckLockAnnotation(Some(a)).Ok?
    requires Conv.ConvertSpec(conv, a.name, args, ctx) == Ok(key)
    ensures var run := Advice(conv, Some(a), Some(client), n, args, ctx, body);
            && |run.events| >= 1
            && run.events[0] == Event(AcquireCall(a, key), client(AcquireCall(a, key), n))
  {
  }

  /**
   * Once the lock is held the method runs once, the lock is released iff `autoUnlock`, the
   * method's own completion (value or exception) comes back unchanged, and a release that
   * throws replaces it with status 4.
   */
  lemma LockedRun(conv: Conv.CoreConverter, a: DistributedLock, client: Server, n: nat,
                  args: seq<Arg>, ctx: PreConverters.RequestContext, body: Completion, key: string)
    requires GetAndCheckLockAnnotation(Some(a)).Ok?
    requires Conv.ConvertSpec(conv, a.name, args, ctx) == Ok(key)
    requires AcquireFailure(a, client(AcquireCall(a, key), n)).None?
    ensures var run := Advice(conv, Some(a), Some(client), n, args, ctx, body);
            && run.ran
            && (|run.events| == 2 <==> a.autoUnlock)
            && (a.autoUnlock ==> run.events[1].call == UnlockCall(HandleFor(a.lockType, key)))
            && (a.autoUnlock && run.events[1].reply.ProviderError? ==>
                  run.completion == Fail(DistributedLockException(UNLOCK_FAILED, UNLOCK_MESSAGE)))
            && (!a.autoUnlock || run.events[1].reply.Replied? ==> run.completion == body)
  {
  }

  /** A lock that is not obtained is never released and the method does not run. */
  lemma FailedAcquireSkipsMethod(conv: Conv.CoreConverter, a: DistributedLock, client: Server, n: nat,
                                 args: seq<Arg>, ctx: PreConverters.RequestContext, body: Completion, key: string)
    requires GetAndCheckLockAnnotation(Some(a)).Ok?
    requires Conv.ConvertSpec(conv, a.name, args, ctx) == Ok(key)
    requires AcquireFailure(a, client(AcquireCall(a, key), n)).Some?
    ensures var run := Advice(conv, Some(a), Some(client), n, args, ctx, body);
            && !run.ran
            && |run.events| == 1
            && run.completion == Fail(AcquireFailure(a, client(AcquireCall(a, key), n)).value)
  {
  }

  /** The aspect bean: the converter it was given and the optional Redisson client. */
  class DistributedLockAspect {
    const converter: Conv.CoreConverter
    const redisson: RedissonClient?

    constructor (converter: Conv.CoreConverter, redisson: RedissonClient?)
      ensures this.converter == converter && this.redisson == redisson
    {
      this.converter := converter;
      this.redisson := redisson;
    }

    /** `lock`: dispatch on type and mode, one call on the client, failures translated. */
    method Lock(lockKey: string, annotation: DistributedLock) returns (failure: Option<DistributedLockException>)
      requires redisson != null
      modifies redisson
      ensures var call := AcquireCall(annotation, lockKey);
              var reply := redisson.server(call, |old(redisson.log)|);
              && redisson.log == old(redisson.log) + [Event(call, reply)]
              && failure == AcquireFailure(annotation, reply)
    {
      var lock := HandleFor(annotation.lockType, lockKey);
      var reply: Reply;
      if annotation.mode == Blocking {
        reply := redisson.Lock(lock, annotation.leaseTime, annotation.timeUnit);
      } else {
        reply := redisson.TryLock(lock, annotation.waitTime, annotation.leaseTime, annotation.timeUnit);
      }
      if reply.ProviderError? {
        return Some(DistributedLockException(LOCK_FAILED, LOCK_MESSAGE));
      }
      if annotation.mode == TryLock && !reply.granted {
        return Some(DistributedLockException(TRY_LOCK_FAILED, annotation.tryLockFailMsg));
      }
      return None;
    }

    /** `unlock`: nothing unless `autoUnlock`; otherwise one call on the same handle. */
    method Unlock(lockKey: string, annotation: DistributedLock) returns (failure: Option<DistributedLockException>)
      requires redisson != null
      modifies redisson
      ensures !annotation.autoUnlock ==> redisson.log == old(redisson.log) && failure.None?
      ensures annotation.autoUnlock ==>
                var call := UnlockCall(HandleFor(annotation.lockType, lockKey));
                var reply := redisson.server(call, |old(redisson.log)|);
                && redisson.log == old(redisson.log) + [Event(call, reply)]
                && failure == ReleaseFailure(reply)
    {
      if !annotation.autoUnlock {
        return None;
      }
      var reply := redisson.Unlock(HandleFor(annotation.lockType, lockKey));
      if reply.ProviderError? {
        return Some(DistributedLockException(UNLOCK_FAILED, UNLOCK_MESSAGE));
      }
      return None;
    }

    /**
     * `lockAspect`: the completion, the calls on the client and the runs of the method are those
     * `Advice` describes.
     */
    method LockAspect(jp: JoinPoint, ctx: PreConverters.RequestContext) returns (c: Completion)
      modifies jp, redisson
      ensures var run := Advice(converter, jp.annotation, if redisson == null then None else Some(redisson.server),
                                if redisson == null then 0 else |old(redisson.log)|, jp.args, ctx, jp.body);
              && c == run.completion
              && (redisson != null ==> redisson.log == old(redisson.log) + run.events)
              && jp.proceeded == old(jp.proceeded) + (if run.ran then 1 else 0)
    {
      var checked := GetAndCheckLockAnnotation(jp.annotation);
      if checked.Err? {
        return Fail(checked.error);
      }
      var annotation := checked.value;
      if redisson == null {
        return Fail(DistributedLockException(MISSING_DEPENDENCY, MISSING_REDISSON_MESSAGE));
      }
      var converted := Conv.ConvertLockName(converter, annotation.name, jp.args, ctx);
      if converted.Err? {
        return Fail(converted.error);
      }
      c := LockedCall(jp, converted.value, annotation);
    }

    /** Acquire, proceed, and release in `finally`, for a validated declaration and a resolved key. */
    method LockedCall(jp: JoinPoint, lockKey: string, annotation: DistributedLock) returns (c: Completion)
      requires redisson != null
      modifies jp, redisson
      ensures var run := Guarded(annotation, lockKey, redisson.server, |old(redisson.log)|, jp.body);
              && c == run.completion
              && redisson.log == old(redisson.log) + run.events
              && jp.proceeded == old(jp.proceeded) + (if run.ran then 1 else 0)
    {
      var locked := Lock(lockKey, annotation);
      if locked.Some? {
        return Fail(locked.value);
      }
      var proceed := jp.Proceed();
      var unlocked := Unlock(lockKey, annotation);
      if unlocked.Some? {
        return Fail(unlocked.value);
      }
      return proceed;
    }
  }
}
