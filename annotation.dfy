/**
 * The `@DistributedLock` annotation: an immutable lock declaration with default values, and its
 * `Type` and `Mode` enums.
 */
module Annotation {
  import opened Results
  import opened JavaText

  /** `DistributedLock.Type`: which Redisson lock object is used. */
  datatype LockType = Lock | FairLock | ReadLock | WriteLock

  /** `DistributedLock.Mode`: `LOCK` blocks until granted, `TRY_LOCK` may give up. */
  datatype LockMode = Blocking | TryLock

  /** `java.util.concurrent.TimeUnit`, passed through to Redisson unchanged. */
  datatype TimeUnit = Nanoseconds | Microseconds | Milliseconds | Seconds | Minutes | Hours | Days

  /**
   * One declaration. `name` is the template (`name()` and its alias `value()` read the same
   * text once Spring has synthesised the annotation); every other attribute has the default
   * the annotation declares: `leaseTime` -1 (renewed automatically until released), `waitTime` 0,
   * both in seconds, release after the method, and "try lock failed" as the status-5 message.
   */
  datatype DistributedLock = DistributedLock(
    name: string := "",
    lockType: LockType := Lock,
    mode: LockMode := Blocking,
    leaseTime: Long := -1,
    autoUnlock: bool := true,
    tryLockFailMsg: string := "try lock failed",
    waitTime: Long := 0,
    timeUnit: TimeUnit := Seconds)

  /**
   * `name` and `value` are `@AliasFor` each other: leaving one at its default `""` makes both
   * read the other; two different explicit values are rejected by Spring when it synthesises the
   * annotation (so no declaration is obtained). Spring does this resolution before the advice reads
   * the annotation, so a `DistributedLock` value already holds the resolved template in `name`.
   */
  function AliasedName(name: string, value: string): (r: Option<string>)
    ensures r.None? <==> name != "" && value != "" && name != value
    ensures r.Some? ==> r.value == (if name == "" then value else name)
  {
    if name == value then Some(name)
    else if name == "" then Some(value)
    else if value == "" then Some(name)
    else None
  }

  /** Which of the two attributes is written does not matter. */
  lemma AliasesAreSymmetric(name: string, value: string)
    ensures AliasedName(name, value) == AliasedName(value, name)
  {
  }

  /** A declaration that only gives the template carries the documented defaults. */
  lemma Defaults(template: string)
    ensures var d := DistributedLock(name := template);
      && d.lockType == Lock && d.mode == Blocking && d.timeUnit == Seconds
      && d.leaseTime == -1 && d.waitTime == 0 && d.autoUnlock
      && d.tryLockFailMsg == "try lock failed"
  {
  }
}
