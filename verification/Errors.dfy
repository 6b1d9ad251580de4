/** The manager's error codes and the three ways a call can end: with a value, with a
    returned error, or with a run-time fault (a slice out of range, a nil dereference).
 */
module Errors {

  datatype ErrorCode =
    | ErrDatabase | ErrKeyChain | ErrCrypto | ErrAlreadyExists | ErrNoExist | ErrUpgrade
    | ErrLocked | ErrWatchingOnly | ErrInvalidAccount | ErrAccountNotFound | ErrAddressNotFound
    | ErrDuplicateAccount | ErrTooManyAddresses | ErrWrongPassphrase | ErrEmptyPassphrase
    | ErrScopeNotFound | ErrCoinTypeTooHigh | ErrAccountNumTooHigh | ErrAddrMismatch | ErrPubKeyMismatch
    | ErrInvalidSignature

  datatype Outcome<+T> = Ok(value: T) | Err(code: ErrorCode) | Fault {
    predicate IsFailure() { !Ok? }

    function PropagateFailure<U>(): Outcome<U>
      requires IsFailure()
    {
      if Err? then Err(code) else Fault
    }

    function Extract(): T
      requires Ok?
    {
      value
    }
  }
}
