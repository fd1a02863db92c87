# Account balance transactions, in Dafny

A model of the balance-transaction core of a small account service (Java,
Spring). The service keeps accounts with a balance, and it keeps an
append-only ledger of transactions. Each ledger entry is a `USE` or a
`CANCEL`, with result `S` (success) or `F` (failure). Each entry records the
account's balance after the attempt as its *snapshot*. The model covers:

- **the use-balance engine** (`TransactionService.useBalance`). It looks up
  the user, then the account. It then checks that the account belongs to
  the user, that the account is `IN_USE`, and that the balance covers the
  amount. The first failing check decides the error code. On success the
  balance drops by the amount and one `USE`/`S` entry is appended.
- **the failed-use record** (`saveFailedUseTransaction`). It appends one
  `USE`/`F` entry that carries the unchanged balance.
- **the entry builder** (`saveAndGetTransaction`). Its ids are the text of a
  random UUID with the dashes removed.
- **the endpoint's failure audit** (`TransactionController.useBalance`): on
  the service's own exception it records a failed use, then rethrows.
- **cancelling a use** (`cancelBalance`). It is modelled from its unit
  tests (`TransactionServiceTest.java:273-493`), so every rule of it here is
  test-derived.
- **the lock bracket** (`LockAopAspect`, `LockService`). They are modelled
  from their unit tests (`LockAopAspectTest.java`, `LockServiceTest.java`).
  The bracket locks the request's account number, runs the operation, and
  unlocks the same number whether the operation returned or threw. A
  refused lock raises `ACCOUNT_TRANSACTION_LOCK`.

Everything is a pure function over immutable values. The repositories
become a `Bank` value: users by id, accounts by account number, and the
ledger as a `seq`. A call returns a `Step`: the store it leaves, plus a
returned value or a thrown exception. The random UUID and the clock are
inputs (`Env`). The lock provider is reduced to its answer, granted or
refused. A bracket is recorded as a trace of `Lock(k)`, `LockRefused(k)`,
`Proceed(k)` (the operation running) and `Unlock(k)` events. A trace is in
order when every lock takes a free key, every operation and unlock is on a
held key, and it is released when, read in order, nothing is held at the end.

Files: `domain.dfy` (entities, error codes, outcomes),
`transaction_ids.dfy` (dash removal, UUID shape), `ledger.dfy` (lookups and
the snapshot invariant), `transaction_service.dfy` (the engine),
`service_scenarios.dfy` (the unit tests' situations),
`transaction_controller.dfy` (the endpoint), `lock_service.dfy` and
`lock_aop_aspect.dfy` (the lock layer).

### Choices the model makes

- When the failed-use record itself throws, its exception escapes from
  `TransactionController.useBalance` and `throw e` is never reached
  (`TransactionController.java:30-34`). The model keeps this.
  `AuditFailureReplacesError` shows the case where it matters: with neither
  user nor account present, the engine throws `USER_NOT_FOUND` but the
  caller sees `ACCOUNT_NOT_FOUND`.
- Account statuses are `IN_USE` and `UNREGISTERED`, and an unset status
  is rejected like `UNREGISTERED` (`status: Option<AccountStatus>`).
- The engine does not check that the amount is positive (see below).
- `TransactionController.useBalance` carries no lock annotation, so the
  program text does not fix where the bracket sits. `LockAopAspectTest`
  hands `aroundMethod` a `UseBalance.Request`, the endpoint's own argument type
  (`LockAopAspectTest.java:35-38`, `TransactionController.java:21-22`).
  `LockedEndpoint` models that reading: the whole endpoint, failure record
  included, runs inside the bracket, and a refused lock is recorded
  nowhere. `LockedUseBalance` and `AuditAroundLockedUse` model the other
  reading, the bracket around the engine alone with the record outside it,
  where a refused lock on an existing account is recorded as a failed use.

## Model

| member | source | states |
|---|---|---|
| TransactionService.UseBalance | src/main/java/com/example/account/service/TransactionService.java:35-45 | It succeeds iff none of the five checks fails. Otherwise the error is the first failing check in the order user, account, owner, status, balance, and the store is unchanged. On success only that account's balance changes, to old − amount, and exactly one `USE`/`S` entry is appended with that amount and snapshot = the new balance. |
| TransactionService.ValidateUserBalance | src/main/java/com/example/account/service/TransactionService.java:47-59 | Passes iff the found user's id equals the account owner's id, the status is exactly `IN_USE` (an unset status fails), and amount ≤ balance. Equality is accepted because the test is strict `<`. |
| TransactionService.SaveFailedUseTransaction | src/main/java/com/example/account/service/TransactionService.java:61-67 | Fails with `ACCOUNT_NOT_FOUND` iff the account is absent, and then changes nothing. Otherwise it appends exactly one `USE`/`F` entry with the amount and snapshot = the unchanged balance. Users and accounts are untouched, and owner, status and balance are not checked. |
| TransactionService.SaveAndGetTransaction | src/main/java/com/example/account/service/TransactionService.java:69-82 | Appends exactly one entry and returns it. It is a `USE` entry whatever the result type, for the account's id and number, with the given amount, and its snapshot is the balance of the account passed in. It is dated at the current time. Its id is the UUID text with every `-` removed; for a canonical UUID, the id is 32 hex digits. |
| TransactionIds.StripDashes | src/main/java/com/example/account/service/TransactionService.java:78 | The id has no `-`, and its characters are exactly the UUID text's non-dash characters. |
| TransactionIds.StripDashesAppend | src/main/java/com/example/account/service/TransactionService.java:78 | Dash removal distributes over concatenation, so the remaining characters keep their order. |
| TransactionIds.StripDashesOfDashFree | src/main/java/com/example/account/service/TransactionService.java:78 | Text without dashes is left as it is. |
| TransactionIds.StripDashesIdempotent | src/main/java/com/example/account/service/TransactionService.java:78 | Removing dashes twice is the same as removing them once. |
| TransactionIds.StripCanonicalUuid | src/main/java/com/example/account/service/TransactionService.java:78 | For an 8-4-4-4-12 UUID, the id is the five hex groups joined in order: 32 hex digits. |
| Ledger.LastEntryFor | src/main/java/com/example/account/service/TransactionService.java:77 | Finds an account's entry: none iff the account has no entry; otherwise an entry of that account taken from the ledger. |
| Ledger.LastEntryIsLatest | src/main/java/com/example/account/service/TransactionService.java:77 | The entry found is the account's latest: no entry after it in the ledger belongs to the account. |
| Ledger.RecordKeepsInvariant | src/main/java/com/example/account/service/TransactionService.java:42-44 | Updating one account's balance while appending one entry whose snapshot is that balance keeps two things true: the store stays well formed, and every account's latest entry records its current balance. |
| TransactionService.UseKeepsInvariant | src/main/java/com/example/account/service/TransactionService.java:40-44 | After any use, every account's latest ledger snapshot is its current balance. |
| TransactionService.SaveFailedKeepsInvariant | src/main/java/com/example/account/service/TransactionService.java:61-67 | After any failed-use record, every account's latest ledger snapshot is its current balance. |
| TransactionService.UseNeverOverdraws | src/main/java/com/example/account/service/TransactionService.java:56-58 | A use never makes a balance negative, whatever the amount. |
| TransactionService.UseWholeBalance | src/main/java/com/example/account/service/TransactionService.java:56-58 | Using exactly the whole balance of a usable account is accepted and leaves balance 0. |
| Ledger.FindTransaction | src/test/java/com/example/account/service/TransactionServiceTest.java:298-299 | The lookup finds nothing iff no entry has the id; otherwise it finds an entry of the ledger with that id. |
| Ledger.FindUniqueEntry | src/test/java/com/example/account/service/TransactionServiceTest.java:298-299 | When ids are unique, looking up an entry's id finds exactly that entry. |
| Ledger.FindAppended | src/test/java/com/example/account/service/TransactionServiceTest.java:298-299 | An entry appended under a fresh id is what a lookup of that id finds. |
| Ledger.AppendKeepsUniqueIds | src/test/java/com/example/account/service/TransactionServiceTest.java:298-299 | Appending under a fresh id keeps ids unique. |
| TransactionService.CancelBalance | src/test/java/com/example/account/service/TransactionServiceTest.java:273-493 | (Test-derived.) It succeeds iff no check fails. Otherwise the error is the first failing check in the order transaction, account, account id, full amount, age, and the store is unchanged. On success the balance rises by the amount, and exactly one `CANCEL`/`S` entry is appended with snapshot = the new balance. The original entry is kept. |
| TransactionService.ValidateCancelBalance | src/test/java/com/example/account/service/TransactionServiceTest.java:373-492 | (Test-derived.) Passes iff three things hold: the transaction's account id equals the account's id (not its owner), the amount equals the transaction's amount, and the transaction is dated no earlier than now − one year. |
| TransactionService.CancelKeepsInvariant | src/test/java/com/example/account/service/TransactionServiceTest.java:318-324 | (Test-derived.) After any cancel, every account's latest ledger snapshot is its current balance. |
| TransactionService.UseThenCancelRestores | src/test/java/com/example/account/service/TransactionServiceTest.java:318-324 | (Test-derived.) A successful use is followed by a cancel with the use's own id and whole amount, within a year. Then the cancel succeeds, all accounts are exactly as before the use, the ledger gains the use entry and then the cancel entry, and the cancel's snapshot is the balance before the use. |
| TransactionServiceScenarios.SuccessUseScenario | src/test/java/com/example/account/service/TransactionServiceTest.java:56-101 | Using 200 of 10000 saves one entry with amount 200 and snapshot 9800, and leaves balance 9800. |
| TransactionServiceScenarios.ExceedBalanceScenario | src/test/java/com/example/account/service/TransactionServiceTest.java:201-229 | Using 1000 of 100 fails with `AMOUNT_EXCEED_BALANCE` and saves nothing. |
| TransactionServiceScenarios.FailedUseScenario | src/test/java/com/example/account/service/TransactionServiceTest.java:231-271 | A failed use of 200 on 10000 saves one `F` entry with amount 200 and snapshot 10000. |
| TransactionServiceScenarios.SuccessCancelScenario | src/test/java/com/example/account/service/TransactionServiceTest.java:273-329 | Cancelling the 200 use on 10000 saves one `CANCEL`/`S` entry with amount 200 and snapshot 10200. |
| TransactionServiceScenarios.CancelLookupOrderScenario | src/test/java/com/example/account/service/TransactionServiceTest.java:331-362 | A missing transaction gives `TRANSACTION_NOT_FOUND` even when the account is missing too. A found transaction with a missing account gives `ACCOUNT_NOT_FOUND`. |
| TransactionServiceScenarios.CancelOtherAccountScenario | src/test/java/com/example/account/service/TransactionServiceTest.java:364-411 | Cancelling against another account of the same owner gives `TRANSACTION_ACCOUNT_UN_MATCH`. |
| TransactionServiceScenarios.PartialCancelScenario | src/test/java/com/example/account/service/TransactionServiceTest.java:413-452 | Cancelling 200 of a 1200 use gives `CANCEL_MUST_FULLY`. |
| TransactionServiceScenarios.TooOldCancelScenario | src/test/java/com/example/account/service/TransactionServiceTest.java:454-493 | A use dated one year plus any positive extra time before now gives `TOO_OLD_ORDER_TO_CANCEL`. |
| TransactionController.HandleUse | src/main/java/com/example/account/controller/TransactionController.java:24-35 | A returned result, or an exception that is not the service's, passes through with no record. On the service's exception with the account present, exactly one failed use is recorded for the request's account and amount, and the same exception is rethrown. With the account absent, the record's `ACCOUNT_NOT_FOUND` propagates instead and nothing is recorded. |
| TransactionController.UseBalanceEndpoint | src/main/java/com/example/account/controller/TransactionController.java:20-36 | A success appends only its own `USE`/`S` entry. Every failure is the service's exception. On an existing account the failure is the engine's first failing check, with exactly one failed-use record. On a missing account the failure is `ACCOUNT_NOT_FOUND` with the store unchanged. |
| TransactionController.EndpointKeepsInvariant | src/main/java/com/example/account/controller/TransactionController.java:24-34 | The endpoint keeps every account's latest ledger snapshot equal to its current balance, on success and on failure. |
| TransactionController.AuditFailureReplacesError | src/main/java/com/example/account/controller/TransactionController.java:30-34 | With neither user nor account present, the engine throws `USER_NOT_FOUND`, but the caller sees the record's `ACCOUNT_NOT_FOUND`. |
| LockService.Lock | src/test/java/com/example/account/service/LockServiceTest.java:31-58 | (Test-derived.) It completes iff the provider grants the lock. A refusal is the service's exception with `ACCOUNT_TRANSACTION_LOCK`. |
| LockService.LockDependsOnlyOnAnswer | src/test/java/com/example/account/service/LockServiceTest.java:34-37 | (Test-derived.) The outcome is the same for any key and any timeouts, given the same provider answer. |
| LockAopAspect.AroundMethod | src/test/java/com/example/account/service/LockAopAspectTest.java:30-67 | (Test-derived.) When the lock is granted, the trace gains a lock, the operation and then an unlock of the request's account number, whether the operation returned or threw, and the operation's result or exception is passed on unchanged. On refusal the operation is not run, nothing is unlocked, and the caller sees `ACCOUNT_TRANSACTION_LOCK`. |
| LockAopAspect.AroundMethodCounts | src/test/java/com/example/account/service/LockAopAspectTest.java:41-45 | (Test-derived.) A granted bracket adds exactly one lock, one run and one unlock of the request's account number and none of any other key. A refused bracket adds one refusal and no lock, run or unlock. |
| LockAopAspect.AroundMethodKeepsHeld | src/test/java/com/example/account/service/LockAopAspectTest.java:41-45 | (Test-derived.) Read in order, a bracket on a key the caller does not hold leaves the set of held keys as it was, and keeps an in-order trace in order. |
| LockAopAspect.AroundMethodReleases | src/test/java/com/example/account/service/LockAopAspectTest.java:41-45 | (Test-derived.) If, read in order, nothing is held before the bracket, then nothing is held after it and every lock came before its unlock. |
| LockAopAspect.ProceedWhileHeld | src/test/java/com/example/account/service/LockAopAspectTest.java:30-46 | (Test-derived.) On a granted lock the operation runs right after the lock, while the request's account number is held. |
| LockAopAspect.LockedEndpoint | src/main/java/com/example/account/controller/TransactionController.java:20-36 | The whole endpoint, failure record included, runs between the lock and the unlock of the request's account number, and its result and store are kept. A failed use on an existing account is recorded while the lock is held. A refused lock leaves the store unchanged and records nothing. |
| LockAopAspect.LockedUseBalance | src/test/java/com/example/account/service/LockAopAspectTest.java:35-45 | (Test-derived.) The use engine runs between a lock and an unlock of the request's account number, and its result and store are kept. If the lock is refused, the store is unchanged. |
| LockAopAspect.AuditAroundLockedUse | src/main/java/com/example/account/controller/TransactionController.java:24-35 | With the bracket around the engine alone and the failure record outside it, a refused lock on an existing account is recorded as one failed use and `ACCOUNT_TRANSACTION_LOCK` reaches the caller. On a missing account the caller sees `ACCOUNT_NOT_FOUND` and the store is unchanged. |
| LockAopAspect.LockAndUnlockScenario | src/test/java/com/example/account/service/LockAopAspectTest.java:30-46 | Request `(123, "1234", 1000)` gives exactly one lock and one unlock of `"1234"`, with the operation between them. |
| LockAopAspect.LockAndUnlockEvenThrowScenario | src/test/java/com/example/account/service/LockAopAspectTest.java:48-67 | When the operation throws `ACCOUNT_NOT_FOUND`, the exception reaches the caller and `"54321"` is still locked once and unlocked once, with the unlock last. |

## Left out

- `cancelBalance`, `LockService` and `LockAopAspect` are modelled from
  their unit tests alone. Where the tests leave a choice, the model makes
  one:
  - The order of the three cancel validations after the lookups
    (account id, then full amount, then age) is chosen. Each test isolates
    one check.
  - The age limit is "dated before now − one year is too old", with
    `oneYear` an abstract input. The tests fix only that one year plus a
    day is too old.
  - Cancel entries are built with type `CANCEL`.
    `TransactionService.saveAndGetTransaction` writes `USE` only.
- CancelBalance: does not check the original entry's type, its result, or
  whether it was cancelled before. A `USE`/`F` entry, a `CANCEL` entry, or
  a use cancelled once already can be cancelled again. The tests only ever
  cancel a successful use once.
- Where the lock bracket is attached is a choice (see "Choices the model
  makes"): `TransactionController.useBalance` has no lock annotation and
  there is no cancel route.
- A refused lock inside the bracket is modelled as "operation not run,
  nothing unlocked", the reading the aspect's tests leave open.
- Redisson lease mechanics are not modelled: waiting, lease expiry,
  mutual exclusion across processes, and whether releasing twice is an
  error. The provider is only its grant/refuse answer. Concurrency is not
  modelled; every call is sequential.
- `Account.useBalance` is not part of this model. Its effect (balance
  minus amount) is taken from the tests (`TransactionServiceTest.java:91-96`).
  `Account.java` declares no balance or owner field; the model adds them.
- Amount sign: the engine does not check that the amount is positive, and
  the request validation is not part of this model. Amounts are plain
  integers, so a negative amount passes validation and raises the balance.
- `Long` arithmetic is unbounded here. The 64-bit overflow of
  `balance - amount` or `balance + amount` is not modelled. Null ids and
  null amounts are not modelled either.
- `UUID.randomUUID()` and `LocalDateTime.now()` are inputs (`Env`). Dates
  are integers.
- `@Transactional` rollback is not modelled separately. A failed call
  changes nothing anyway, because validation comes before any change.
  Repository `save` returns what it was given. `TransactionDto`/response
  conversion, HTTP routing and logging are left out.
- No failed-cancel audit is modelled. `TransactionController` has no
  cancel route.
- `RedisTestService`, `AccountController` and the account CRUD service are
  not part of the balance logic. They are left out.
