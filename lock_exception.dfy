/**
 * `DistributedLockException`: the one error type of the starter, a status code and a message.
 * Status codes: 0 invalid annotation, 1 missing Redisson dependency, 2 lock-name conversion,
 * 3 lock acquisition, 4 lock release, 5 try-lock not granted.
 */
module LockException {

  const INVALID_ANNOTATION := 0
  const MISSING_DEPENDENCY := 1
  const NAME_CONVERSION := 2
  const LOCK_FAILED := 3
  const UNLOCK_FAILED := 4
  const TRY_LOCK_FAILED := 5

  datatype DistributedLockException = DistributedLockException(status: int, message: string)

  /**
   * What a Java call can throw, as far as the aspect distinguishes it: its own exception type,
   * or anything else (described by text only).
   */
  datatype Throwable = LockError(error: DistributedLockException) | OtherError(description: string)
}
