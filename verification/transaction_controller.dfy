/**
 The use-balance endpoint without its transport: it calls the engine, and
 when the engine throws the service's own exception it records the failed
 attempt and rethrows. The recording is a separate call, made after the
 engine's call has ended.
 */
module TransactionController {
  import opened Domain
  import opened Ledger
  import opened TransactionService

  datatype UseRequest = UseRequest(userId: int, accountNumber: string, amount: int)

  /**
   What the endpoint does with the engine's step `attempt`. A returned value
   and a foreign exception pass through untouched. The service's exception
   causes exactly one failed-use record for the request's account and amount,
   after which the original exception is rethrown; if the record cannot be
   written because the account is missing, the record's `ACCOUNT_NOT_FOUND`
   is what the caller sees instead.
   */
  function HandleUse(attempt: Step<Transaction>, request: UseRequest, auditEnv: Env): (r: Step<Transaction>)
    ensures attempt.out.Returned? ==> r == attempt
    ensures attempt.out.Threw? && attempt.out.error.OtherException? ==> r == attempt
    ensures attempt.out.Threw? && attempt.out.error.AccountException? ==>
              if request.accountNumber in attempt.bank.accounts then
                && r.out == attempt.out
                && FailedUseRecorded(attempt.bank, r.bank, request.accountNumber, request.amount)
              else
                r == Step(attempt.bank, Fail(AccountNotFound))
  {
    match attempt.out
    case Returned(_) => attempt
    case Threw(OtherException(_)) => attempt
    case Threw(AccountException(_)) =>
      var audit := SaveFailedUseTransaction(attempt.bank, request.accountNumber, request.amount, auditEnv);
      match audit.out
      case Threw(e) => Step(audit.bank, Threw(e))
      case Returned(_) => Step(audit.bank, attempt.out)
  }

  /**
   The endpoint: a successful use comes back with no failure record; a
   refused use on an existing account comes back as the engine's error with
   exactly one failed-use record appended; a refused use on a missing account
   comes back as `ACCOUNT_NOT_FOUND` with the store unchanged.
   */
  function UseBalanceEndpoint(bank: Bank, request: UseRequest, env: Env, auditEnv: Env): (r: Step<Transaction>)
    ensures r.out.Returned? ==>
              && r.bank.users == bank.users
              && r.bank.ledger == bank.ledger + [r.out.value]
              && r.out.value.kind == Use && r.out.value.result == S
              && r.out.value.amount == request.amount
    ensures r.out.Threw? ==> r.out.error.AccountException?
    ensures r.out.Threw? && request.accountNumber in bank.accounts ==>
              && FailedUseRecorded(bank, r.bank, request.accountNumber, request.amount)
              && exists i :: 0 <= i < |UseChecks|
                   && r.out == Fail(UseChecks[i])
                   && UseCheckFails(bank, request.userId, request.accountNumber, request.amount, UseChecks[i])
                   && forall j :: 0 <= j < i ==>
                        !UseCheckFails(bank, request.userId, request.accountNumber, request.amount, UseChecks[j])
    ensures request.accountNumber !in bank.accounts ==> r == Step(bank, Fail(AccountNotFound))
  {
    HandleUse(UseBalance(bank, request.userId, request.accountNumber, request.amount, env), request, auditEnv)
  }

  /** The endpoint keeps the store well formed and every account's latest snapshot current. */
  lemma EndpointKeepsInvariant(bank: Bank, request: UseRequest, env: Env, auditEnv: Env)
    requires Wf(bank) && SnapshotsCurrent(bank)
    ensures Wf(UseBalanceEndpoint(bank, request, env, auditEnv).bank)
    ensures SnapshotsCurrent(UseBalanceEndpoint(bank, request, env, auditEnv).bank)
  {
  }

  /**
   When neither the user nor the account exists, the engine throws
   `USER_NOT_FOUND`, but the failed-use record then throws
   `ACCOUNT_NOT_FOUND`, and that is what reaches the caller.
   */
  lemma AuditFailureReplacesError(bank: Bank, request: UseRequest, env: Env, auditEnv: Env)
    requires request.userId !in bank.users && request.accountNumber !in bank.accounts
    ensures UseBalance(bank, request.userId, request.accountNumber, request.amount, env).out == Fail(UserNotFound)
    ensures UseBalanceEndpoint(bank, request, env, auditEnv).out == Fail(AccountNotFound)
  {
  }
}
