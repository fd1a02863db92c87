/**
 The entities of the account service: accounts, their owners, the ledger of
 balance transactions, the error codes the service raises, and the outcome of
 a call (a returned value or a thrown exception) together with the store it
 leaves behind.
 */
module Domain {

  datatype Option<+T> = None | Some(value: T)

  /** The error codes the balance engine and the lock layer raise. */
  datatype ErrorCode =
    | UserNotFound
    | AccountNotFound
    | UserAccountUnMatch
    | AccountAlreadyUnregistered
    | AmountExceedBalance
    | TransactionNotFound
    | TransactionAccountUnMatch
    | CancelMustFully
    | TooOldOrderToCancel
    | AccountTransactionLock

  /** Status of an account; an account whose status is unset carries `None`. */
  datatype AccountStatus = InUse | Unregistered

  datatype TransactionType = Use | Cancel

  /** `S` for a successful attempt, `F` for a failed one. */
  datatype TransactionResultType = S | F

  datatype AccountUser = AccountUser(id: int, name: string)

  /** An account row. `ownerId` is the id of the account's user. */
  datatype Account = Account(
    id: int,
    accountNumber: string,
    ownerId: int,
    status: Option<AccountStatus>,
    balance: int)

  /** One ledger entry. `accountId` is the id of the account it belongs to. */
  datatype Transaction = Transaction(
    kind: TransactionType,
    result: TransactionResultType,
    accountId: int,
    accountNumber: string,
    amount: int,
    balanceSnapshot: int,
    transactionId: string,
    transactedAt: int)

  /**
   The in-memory stand-in for the repositories: users by id, accounts by
   account number, and the append-only ledger.
   */
  datatype Bank = Bank(
    users: map<int, AccountUser>,
    accounts: map<string, Account>,
    ledger: seq<Transaction>)

  /**
   The values the program draws from its environment for one call: the
   random UUID text a new entry's id is made from, and the current time.
   */
  datatype Env = Env(uuid: string, now: int)

  /** A thrown exception: the service's own, or anything else. */
  datatype Exception = AccountException(code: ErrorCode) | OtherException(name: string)

  /** How a call ends: it returns a value or it throws. */
  datatype Outcome<+T> = Returned(value: T) | Threw(error: Exception)

  /** The outcome of a call together with the store it leaves. */
  datatype Step<+T> = Step(bank: Bank, out: Outcome<T>)

  function Fail<T>(code: ErrorCode): Outcome<T>
  {
    Threw(AccountException(code))
  }
}
