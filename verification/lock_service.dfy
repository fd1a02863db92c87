/**
 The lock coordinator: asks the lock provider for the lease on a key and
 turns a refusal into the service's own error. The provider is reduced to
 its answer, granted or refused; how long it waits and how long the lease
 lasts are passed through and play no part in the outcome.
 */
module LockService {
  import opened Domain

  /**
   Example wait and lease times, in seconds, for the bracket to pass on.
   The outcome of `Lock` does not depend on them.
   */
  const WaitSeconds: int := 1
  const LeaseSeconds: int := 5

  /**
   Takes the lease on `key`. `granted` is the provider's answer to the
   request; a refusal raises `ACCOUNT_TRANSACTION_LOCK`.
   */
  function Lock(key: string, granted: bool, waitSeconds: int, leaseSeconds: int): (r: Outcome<()>)
    ensures r.Returned? <==> granted
    ensures r.Threw? ==> r.error == AccountException(AccountTransactionLock)
  {
    if granted then Returned(()) else Fail(AccountTransactionLock)
  }

  /** The outcome depends on the provider's answer alone, not on the key or the timeouts. */
  lemma LockDependsOnlyOnAnswer(key1: string, key2: string, granted: bool,
                                wait1: int, wait2: int, lease1: int, lease2: int)
    ensures Lock(key1, granted, wait1, lease1) == Lock(key2, granted, wait2, lease2)
  {
  }
}
