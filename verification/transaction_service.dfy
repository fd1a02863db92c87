/**
 The balance-transaction engine: using balance, recording a failed use, and
 cancelling a use. Each operation looks things up and validates in a fixed
 order, and raises the first failing check's error code leaving the store as
 it was. Use and cancel otherwise change exactly one account's balance; every
 operation that succeeds appends exactly one ledger entry whose snapshot is
 the account's balance after the call.
 */
module TransactionService {
  import opened Domain
  import opened Ledger
  import TransactionIds

  // ---------------------------------------------------------------------------
  // Ledger entries
  // ---------------------------------------------------------------------------

  /**
   Builds an entry for `account` and appends it to the ledger. The snapshot
   is the balance `account` carries when the entry is built; the id is the
   environment's UUID text with its dashes removed.
   */
  function SaveEntry(bank: Bank, kind: TransactionType, result: TransactionResultType,
                     account: Account, amount: int, env: Env): (r: Step<Transaction>)
    ensures r.out.Returned?
    ensures r.bank == bank.(ledger := bank.ledger + [r.out.value])
    ensures r.out.value.kind == kind && r.out.value.result == result
    ensures r.out.value.accountId == account.id && r.out.value.accountNumber == account.accountNumber
    ensures r.out.value.amount == amount && r.out.value.balanceSnapshot == account.balance
    ensures r.out.value.transactedAt == env.now
    ensures r.out.value.transactionId == TransactionIds.StripDashes(env.uuid)
    ensures '-' !in r.out.value.transactionId
    ensures TransactionIds.CanonicalUuid(env.uuid) ==>
              |r.out.value.transactionId| == 32 && TransactionIds.AllHex(r.out.value.transactionId)
  {
    var t := Transaction(kind, result, account.id, account.accountNumber, amount, account.balance,
                         TransactionIds.StripDashes(env.uuid), env.now);
    TransactionIds.IdOfUuid(env.uuid);
    Step(bank.(ledger := bank.ledger + [t]), Returned(t))
  }

  /** The entry builder the use path shares: every entry it saves is a `USE` entry, whatever the result. */
  function SaveAndGetTransaction(bank: Bank, result: TransactionResultType, account: Account,
                                 amount: int, env: Env): (r: Step<Transaction>)
    ensures r.out.Returned?
    ensures r.bank == bank.(ledger := bank.ledger + [r.out.value])
    ensures r.out.value.kind == Use && r.out.value.result == result
    ensures r.out.value.amount == amount && r.out.value.balanceSnapshot == account.balance
    ensures r.out.value.accountId == account.id && r.out.value.accountNumber == account.accountNumber
    ensures r.out.value.transactedAt == env.now
    ensures r.out.value.transactionId == TransactionIds.StripDashes(env.uuid)
    ensures '-' !in r.out.value.transactionId
    ensures TransactionIds.CanonicalUuid(env.uuid) ==>
              |r.out.value.transactionId| == 32 && TransactionIds.AllHex(r.out.value.transactionId)
  {
    SaveEntry(bank, Use, result, account, amount, env)
  }

  // ---------------------------------------------------------------------------
  // Using balance
  // ---------------------------------------------------------------------------

  /** The checks of a use request, in the order they are made. */
  const UseChecks: seq<ErrorCode> :=
    [UserNotFound, AccountNotFound, UserAccountUnMatch, AccountAlreadyUnregistered, AmountExceedBalance]

  /**
   Whether the check that raises `code` fails for this request. A check on the
   account is only meaningful once the lookups it depends on have succeeded.
   */
  predicate UseCheckFails(bank: Bank, userId: int, accountNumber: string, amount: int, code: ErrorCode)
  {
    match code
    case UserNotFound => userId !in bank.users
    case AccountNotFound => accountNumber !in bank.accounts
    case UserAccountUnMatch =>
      userId in bank.users && accountNumber in bank.accounts
      && bank.users[userId].id != bank.accounts[accountNumber].ownerId
    case AccountAlreadyUnregistered =>
      accountNumber in bank.accounts && bank.accounts[accountNumber].status != Some(InUse)
    case AmountExceedBalance =>
      accountNumber in bank.accounts && bank.accounts[accountNumber].balance < amount
    case _ => false
  }

  /**
   The validation of a found user and account: the owner must be the user,
   the account must be in use, and the balance must cover the amount.
   */
  function ValidateUserBalance(user: AccountUser, account: Account, amount: int): (r: Option<ErrorCode>)
    ensures r.None? <==> user.id == account.ownerId && account.status == Some(InUse) && amount <= account.balance
    ensures r.Some? ==> r.value in UseChecks[2..]
  {
    if user.id != account.ownerId then Some(UserAccountUnMatch)
    else if account.status != Some(InUse) then Some(AccountAlreadyUnregistered)
    else if account.balance < amount then Some(AmountExceedBalance)
    else None
  }

  /**
   Uses `amount` of the balance of account `accountNumber` on behalf of user
   `userId`. The first failing check decides the error, and a failed call
   leaves the store unchanged; a successful one lowers the balance by
   `amount` and appends one successful `USE` entry whose snapshot is the
   lowered balance.
   */
  function UseBalance(bank: Bank, userId: int, accountNumber: string, amount: int, env: Env): (r: Step<Transaction>)
    ensures r.out.Returned? <==> forall i :: 0 <= i < |UseChecks| ==> !UseCheckFails(bank, userId, accountNumber, amount, UseChecks[i])
    ensures r.out.Threw? ==>
              && r.bank == bank
              && exists i :: 0 <= i < |UseChecks|
                   && r.out == Fail(UseChecks[i])
                   && UseCheckFails(bank, userId, accountNumber, amount, UseChecks[i])
                   && forall j :: 0 <= j < i ==> !UseCheckFails(bank, userId, accountNumber, amount, UseChecks[j])
    ensures r.out.Returned? ==>
              && accountNumber in bank.accounts
              && var before := bank.accounts[accountNumber];
              && r.bank.users == bank.users
              && r.bank.accounts == bank.accounts[accountNumber := before.(balance := before.balance - amount)]
              && r.bank.ledger == bank.ledger + [r.out.value]
              && r.out.value.kind == Use && r.out.value.result == S
              && r.out.value.accountId == before.id && r.out.value.amount == amount
              && r.out.value.balanceSnapshot == before.balance - amount
              && r.out.value.transactedAt == env.now
              && r.out.value.transactionId == TransactionIds.StripDashes(env.uuid)
  {
    if userId !in bank.users then
      assert UseCheckFails(bank, userId, accountNumber, amount, UseChecks[0]);
      Step(bank, Fail(UserNotFound))
    else if accountNumber !in bank.accounts then
      assert !UseCheckFails(bank, userId, accountNumber, amount, UseChecks[0]);
      assert UseCheckFails(bank, userId, accountNumber, amount, UseChecks[1]);
      Step(bank, Fail(AccountNotFound))
    else
      var user := bank.users[userId];
      var account := bank.accounts[accountNumber];
      assert !UseCheckFails(bank, userId, accountNumber, amount, UseChecks[0]);
      assert !UseCheckFails(bank, userId, accountNumber, amount, UseChecks[1]);
      match ValidateUserBalance(user, account, amount)
      case Some(code) =>
        assert code == UseChecks[2] || code == UseChecks[3] || code == UseChecks[4];
        Step(bank, Fail(code))
      case None =>
        var used := account.(balance := account.balance - amount);
        SaveEntry(bank.(accounts := bank.accounts[accountNumber := used]), Use, S, used, amount, env)
  }

  /**
   `after` is `before` with one failed `USE` entry of `amount` appended for
   account `accountNumber`, whose snapshot is that account's balance; the
   users and accounts are untouched.
   */
  predicate FailedUseRecorded(before: Bank, after: Bank, accountNumber: string, amount: int)
  {
    && accountNumber in before.accounts
    && after.users == before.users && after.accounts == before.accounts
    && |after.ledger| == |before.ledger| + 1
    && after.ledger[..|before.ledger|] == before.ledger
    && var t := after.ledger[|before.ledger|];
    && t.kind == Use && t.result == F && t.amount == amount
    && t.accountId == before.accounts[accountNumber].id
    && t.balanceSnapshot == before.accounts[accountNumber].balance
  }

  /**
   Records a failed use of `amount` on account `accountNumber`: one failed
   `USE` entry whose snapshot is the account's unchanged balance. It does not
   look at the owner, the status or the balance; only a missing account
   makes it fail.
   */
  function SaveFailedUseTransaction(bank: Bank, accountNumber: string, amount: int, env: Env): (r: Step<()>)
    ensures r.out.Threw? <==> accountNumber !in bank.accounts
    ensures r.out.Threw? ==> r == Step(bank, Fail(AccountNotFound))
    ensures r.out.Returned? ==> FailedUseRecorded(bank, r.bank, accountNumber, amount)
  {
    if accountNumber !in bank.accounts then
      Step(bank, Fail(AccountNotFound))
    else
      var saved := SaveAndGetTransaction(bank, F, bank.accounts[accountNumber], amount, env);
      assert saved.bank.ledger[..|bank.ledger|] == bank.ledger;
      Step(saved.bank, Returned(()))
  }

  // ---------------------------------------------------------------------------
  // Cancelling a use
  // ---------------------------------------------------------------------------

  /** The checks of a cancel request, in the order they are made. */
  const CancelChecks: seq<ErrorCode> :=
    [TransactionNotFound, AccountNotFound, TransactionAccountUnMatch, CancelMustFully, TooOldOrderToCancel]

  /**
   Whether the check that raises `code` fails for this cancel request; a
   transaction dated before `now - oneYear` is too old.
   */
  predicate CancelCheckFails(bank: Bank, transactionId: string, accountNumber: string, amount: int,
                             now: int, oneYear: nat, code: ErrorCode)
  {
    var original := FindTransaction(bank.ledger, transactionId);
    match code
    case TransactionNotFound => original.None?
    case AccountNotFound => accountNumber !in bank.accounts
    case TransactionAccountUnMatch =>
      original.Some? && accountNumber in bank.accounts
      && original.value.accountId != bank.accounts[accountNumber].id
    case CancelMustFully => original.Some? && original.value.amount != amount
    case TooOldOrderToCancel => original.Some? && original.value.transactedAt < now - oneYear
    case _ => false
  }

  /**
   The validation of a found transaction and account: the transaction must
   belong to the account (compared by account id, not by owner), the amount
   must be the transaction's whole amount, and the transaction must be at
   most a year old.
   */
  function ValidateCancelBalance(original: Transaction, account: Account, amount: int,
                                 now: int, oneYear: nat): (r: Option<ErrorCode>)
    ensures r.None? <==>
              original.accountId == account.id && original.amount == amount
              && now - oneYear <= original.transactedAt
    ensures r.Some? ==> r.value in CancelChecks[2..]
  {
    if original.accountId != account.id then Some(TransactionAccountUnMatch)
    else if original.amount != amount then Some(CancelMustFully)
    else if original.transactedAt < now - oneYear then Some(TooOldOrderToCancel)
    else None
  }

  /**
   Cancels the transaction `transactionId` against account `accountNumber`.
   The first failing check decides the error, and a failed call leaves the
   store unchanged; a successful one raises the balance by `amount` and
   appends one successful `CANCEL` entry whose snapshot is the raised
   balance. The original entry is kept as it is.
   */
  function CancelBalance(bank: Bank, transactionId: string, accountNumber: string, amount: int,
                         env: Env, oneYear: nat): (r: Step<Transaction>)
    ensures r.out.Returned? <==>
              forall i :: 0 <= i < |CancelChecks| ==>
                !CancelCheckFails(bank, transactionId, accountNumber, amount, env.now, oneYear, CancelChecks[i])
    ensures r.out.Threw? ==>
              && r.bank == bank
              && exists i :: 0 <= i < |CancelChecks|
                   && r.out == Fail(CancelChecks[i])
                   && CancelCheckFails(bank, transactionId, accountNumber, amount, env.now, oneYear, CancelChecks[i])
                   && forall j :: 0 <= j < i ==>
                        !CancelCheckFails(bank, transactionId, accountNumber, amount, env.now, oneYear, CancelChecks[j])
    ensures r.out.Returned? ==>
              && accountNumber in bank.accounts
              && var before := bank.accounts[accountNumber];
              && r.bank.users == bank.users
              && r.bank.accounts == bank.accounts[accountNumber := before.(balance := before.balance + amount)]
              && r.bank.ledger == bank.ledger + [r.out.value]
              && r.out.value.kind == Cancel && r.out.value.result == S
              && r.out.value.accountId == before.id && r.out.value.amount == amount
              && r.out.value.balanceSnapshot == before.balance + amount
              && r.out.value.transactedAt == env.now
  {
    match FindTransaction(bank.ledger, transactionId)
    case None =>
      assert CancelCheckFails(bank, transactionId, accountNumber, amount, env.now, oneYear, CancelChecks[0]);
      Step(bank, Fail(TransactionNotFound))
    case Some(original) =>
      assert !CancelCheckFails(bank, transactionId, accountNumber, amount, env.now, oneYear, CancelChecks[0]);
      if accountNumber !in bank.accounts then
        assert CancelCheckFails(bank, transactionId, accountNumber, amount, env.now, oneYear, CancelChecks[1]);
        Step(bank, Fail(AccountNotFound))
      else
        var account := bank.accounts[accountNumber];
        assert !CancelCheckFails(bank, transactionId, accountNumber, amount, env.now, oneYear, CancelChecks[1]);
        match ValidateCancelBalance(original, account, amount, env.now, oneYear)
        case Some(code) =>
          assert code == CancelChecks[2] || code == CancelChecks[3] || code == CancelChecks[4];
          Step(bank, Fail(code))
        case None =>
          var restored := account.(balance := account.balance + amount);
          SaveEntry(bank.(accounts := bank.accounts[accountNumber := restored]), Cancel, S, restored, amount, env)
  }

  // ---------------------------------------------------------------------------
  // Properties across calls
  // ---------------------------------------------------------------------------

  /** Using balance keeps the store well formed and every account's latest snapshot current. */
  lemma UseKeepsInvariant(bank: Bank, userId: int, accountNumber: string, amount: int, env: Env)
    requires Wf(bank) && SnapshotsCurrent(bank)
    ensures Wf(UseBalance(bank, userId, accountNumber, amount, env).bank)
    ensures SnapshotsCurrent(UseBalance(bank, userId, accountNumber, amount, env).bank)
  {
    var r := UseBalance(bank, userId, accountNumber, amount, env);
    if r.out.Returned? {
      RecordKeepsInvariant(bank, r.bank.accounts[accountNumber], r.out.value);
    }
  }

  /** Recording a failed use keeps the store well formed and every account's latest snapshot current. */
  lemma SaveFailedKeepsInvariant(bank: Bank, accountNumber: string, amount: int, env: Env)
    requires Wf(bank) && SnapshotsCurrent(bank)
    ensures Wf(SaveFailedUseTransaction(bank, accountNumber, amount, env).bank)
    ensures SnapshotsCurrent(SaveFailedUseTransaction(bank, accountNumber, amount, env).bank)
  {
  }

  /** Cancelling keeps the store well formed and every account's latest snapshot current. */
  lemma CancelKeepsInvariant(bank: Bank, transactionId: string, accountNumber: string, amount: int,
                             env: Env, oneYear: nat)
    requires Wf(bank) && SnapshotsCurrent(bank)
    ensures Wf(CancelBalance(bank, transactionId, accountNumber, amount, env, oneYear).bank)
    ensures SnapshotsCurrent(CancelBalance(bank, transactionId, accountNumber, amount, env, oneYear).bank)
  {
    var r := CancelBalance(bank, transactionId, accountNumber, amount, env, oneYear);
    if r.out.Returned? {
      RecordKeepsInvariant(bank, r.bank.accounts[accountNumber], r.out.value);
    }
  }

  /** Every balance is at least zero. */
  predicate BalancesNonNegative(bank: Bank)
  {
    forall n :: n in bank.accounts ==> bank.accounts[n].balance >= 0
  }

  /** Using balance never overdraws an account, whatever the amount. */
  lemma UseNeverOverdraws(bank: Bank, userId: int, accountNumber: string, amount: int, env: Env)
    requires BalancesNonNegative(bank)
    ensures BalancesNonNegative(UseBalance(bank, userId, accountNumber, amount, env).bank)
  {
  }

  /** Using the whole balance of a usable account is accepted and empties it. */
  lemma UseWholeBalance(bank: Bank, userId: int, accountNumber: string, env: Env)
    requires userId in bank.users && accountNumber in bank.accounts
    requires bank.users[userId].id == bank.accounts[accountNumber].ownerId
    requires bank.accounts[accountNumber].status == Some(InUse)
    ensures var r := UseBalance(bank, userId, accountNumber, bank.accounts[accountNumber].balance, env);
            && r.out.Returned?
            && r.bank.accounts[accountNumber].balance == 0
            && r.out.value.balanceSnapshot == 0
  {
  }

  /**
   Cancelling a use with its own id and whole amount, within a year of it,
   puts every account back as it was, and leaves both the use and the
   cancel entry in the ledger, the cancel's snapshot being the balance
   before the use.
   */
  lemma UseThenCancelRestores(bank: Bank, userId: int, accountNumber: string, amount: int,
                              useEnv: Env, cancelEnv: Env, oneYear: nat)
    requires UseBalance(bank, userId, accountNumber, amount, useEnv).out.Returned?
    requires FindTransaction(bank.ledger, TransactionIds.StripDashes(useEnv.uuid)).None?
    requires cancelEnv.now - oneYear <= useEnv.now
    ensures var used := UseBalance(bank, userId, accountNumber, amount, useEnv);
            var cancelled := CancelBalance(used.bank, used.out.value.transactionId, accountNumber, amount,
                                           cancelEnv, oneYear);
            && cancelled.out.Returned?
            && cancelled.bank.accounts == bank.accounts
            && cancelled.bank.users == bank.users
            && cancelled.bank.ledger == bank.ledger + [used.out.value, cancelled.out.value]
            && cancelled.out.value.kind == Cancel
            && cancelled.out.value.amount == used.out.value.amount
            && cancelled.out.value.balanceSnapshot == bank.accounts[accountNumber].balance
  {
    var used := UseBalance(bank, userId, accountNumber, amount, useEnv);
    var t := used.out.value;
    FindAppended(bank.ledger, t);
    var before := bank.accounts[accountNumber];
    var cancelled := CancelBalance(used.bank, t.transactionId, accountNumber, amount, cancelEnv, oneYear);
    assert used.bank.accounts[accountNumber].id == before.id;
    assert cancelled.out.Returned?;
    assert used.bank.accounts[accountNumber := before] == bank.accounts;
  }
}
