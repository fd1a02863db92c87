/**
 The concrete situations the service's unit tests set up, stated over the
 model. As in those tests, the user and account are whatever the stores hand
 back for the requested keys: user key 1 holds user 12, and the account found
 under the requested number may carry another number.
 */
module TransactionServiceScenarios {
  import opened Domain
  import opened Ledger
  import opened TransactionService

  const Dooli := AccountUser(12, "Dooli")

  function AccountWith(id: int, number: string, balance: int): Account
  {
    Account(id, number, 12, Some(InUse), balance)
  }

  function UsedEntry(account: Account, amount: int, at: int): Transaction
  {
    Transaction(Use, S, account.id, account.accountNumber, amount, 9000, "transactionId", at)
  }

  /** Using 200 of 10000 saves one entry of 200 whose snapshot is 9800. */
  lemma SuccessUseScenario(env: Env)
    ensures var bank := Bank(map[1 := Dooli], map["1000000000" := AccountWith(1, "1000000012", 10000)], []);
            var r := UseBalance(bank, 1, "1000000000", 200, env);
            && r.out.Returned?
            && r.bank.ledger == [r.out.value]
            && r.out.value.amount == 200 && r.out.value.balanceSnapshot == 9800
            && r.out.value.kind == Use && r.out.value.result == S
            && r.bank.accounts["1000000000"].balance == 9800
  {
  }

  /** Using 1000 of 100 is refused with `AMOUNT_EXCEED_BALANCE` and saves nothing. */
  lemma ExceedBalanceScenario(env: Env)
    ensures var bank := Bank(map[1 := Dooli], map["1000000000" := AccountWith(1, "1000000012", 100)], []);
            var r := UseBalance(bank, 1, "1000000000", 1000, env);
            && r.out == Fail(AmountExceedBalance)
            && r.bank == bank
  {
  }

  /** A failed use of 200 on 10000 saves one `F` entry of 200 whose snapshot is 10000. */
  lemma FailedUseScenario(env: Env)
    ensures var bank := Bank(map[1 := Dooli], map["1000000000" := AccountWith(1, "1000000012", 10000)], []);
            var r := SaveFailedUseTransaction(bank, "1000000000", 200, env);
            && r.out.Returned?
            && |r.bank.ledger| == 1
            && r.bank.ledger[0].amount == 200 && r.bank.ledger[0].balanceSnapshot == 10000
            && r.bank.ledger[0].result == F
  {
  }

  /** Cancelling a use of 200 on an account holding 10000 saves one entry of 200 whose snapshot is 10200. */
  lemma SuccessCancelScenario(env: Env, oneYear: nat)
    ensures var account := AccountWith(1, "1000000012", 10000);
            var bank := Bank(map[1 := Dooli], map["1000000000" := account], [UsedEntry(account, 200, env.now)]);
            var r := CancelBalance(bank, "transactionId", "1000000000", 200, env, oneYear);
            && r.out.Returned?
            && |r.bank.ledger| == 2
            && r.out.value.amount == 200 && r.out.value.balanceSnapshot == 10200
            && r.out.value.kind == Cancel && r.out.value.result == S
  {
  }

  /** The transaction is looked up before the account: a missing transaction wins over a missing account. */
  lemma CancelLookupOrderScenario(env: Env, oneYear: nat, original: Transaction)
    requires original.transactionId == "transactionId"
    ensures CancelBalance(Bank(map[], map[], []), "transactionId", "1234567890", 1000, env, oneYear).out
              == Fail(TransactionNotFound)
    ensures CancelBalance(Bank(map[], map[], [original]), "transactionId", "1234567890", 1000, env, oneYear).out
              == Fail(AccountNotFound)
  {
  }

  /** A transaction of account 1 cannot be cancelled against account 2, although both belong to user 12. */
  lemma CancelOtherAccountScenario(env: Env, oneYear: nat)
    ensures var account := AccountWith(1, "1000000012", 10000);
            var other := AccountWith(2, "1000000013", 10000);
            var bank := Bank(map[1 := Dooli], map["1234567890" := other], [UsedEntry(account, 200, env.now)]);
            CancelBalance(bank, "transactionId", "1234567890", 200, env, oneYear).out
              == Fail(TransactionAccountUnMatch)
  {
  }

  /** Cancelling 200 of a 1200 use is refused with `CANCEL_MUST_FULLY`. */
  lemma PartialCancelScenario(env: Env, oneYear: nat)
    ensures var account := AccountWith(1, "1000000012", 10000);
            var bank := Bank(map[1 := Dooli], map["1234567890" := account], [UsedEntry(account, 1200, env.now)]);
            CancelBalance(bank, "transactionId", "1234567890", 200, env, oneYear).out == Fail(CancelMustFully)
  {
  }

  /** A use dated a year and a day (any positive extra time) before now is too old to cancel. */
  lemma TooOldCancelScenario(env: Env, oneYear: nat, oneDay: nat)
    requires oneDay > 0
    ensures var account := AccountWith(1, "1000000012", 10000);
            var original := UsedEntry(account, 200, env.now - oneYear - oneDay);
            var bank := Bank(map[1 := Dooli], map["1234567890" := account], [original]);
            CancelBalance(bank, "transactionId", "1234567890", 200, env, oneYear).out == Fail(TooOldOrderToCancel)
  {
  }
}
