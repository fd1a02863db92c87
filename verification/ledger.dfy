/**
 Queries over the append-only ledger, and the store invariant the balance
 operations keep: every account's latest ledger entry records the account's
 current balance as its snapshot.
 */
module Ledger {
  import opened Domain

  /** The first ledger entry carrying transaction id `id`, if there is one. */
  function FindTransaction(ledger: seq<Transaction>, id: string): (r: Option<Transaction>)
    ensures r.None? <==> forall i :: 0 <= i < |ledger| ==> ledger[i].transactionId != id
    ensures r.Some? ==> r.value in ledger && r.value.transactionId == id
  {
    if |ledger| == 0 then None
    else if ledger[0].transactionId == id then Some(ledger[0])
    else FindTransaction(ledger[1..], id)
  }

  /** No two ledger entries share a transaction id. */
  predicate UniqueIds(ledger: seq<Transaction>)
  {
    forall i, j :: 0 <= i < j < |ledger| ==> ledger[i].transactionId != ledger[j].transactionId
  }

  /** With unique ids, looking an entry's id up finds exactly that entry. */
  lemma FindUniqueEntry(ledger: seq<Transaction>, i: nat)
    requires UniqueIds(ledger) && i < |ledger|
    ensures FindTransaction(ledger, ledger[i].transactionId) == Some(ledger[i])
  {
  }

  /** An entry appended under an id the ledger does not hold yet is what a lookup of that id finds. */
  lemma {:induction false} FindAppended(ledger: seq<Transaction>, t: Transaction)
    requires FindTransaction(ledger, t.transactionId).None?
    ensures FindTransaction(ledger + [t], t.transactionId) == Some(t)
  {
    if |ledger| > 0 {
      assert ledger[0].transactionId != t.transactionId;
      assert (ledger + [t])[1..] == ledger[1..] + [t];
      FindAppended(ledger[1..], t);
    }
  }

  /** Appending an entry under a fresh id keeps ids unique. */
  lemma AppendKeepsUniqueIds(ledger: seq<Transaction>, t: Transaction)
    requires UniqueIds(ledger)
    requires FindTransaction(ledger, t.transactionId).None?
    ensures UniqueIds(ledger + [t])
  {
  }

  /** The most recent ledger entry of the account with id `accountId`, if there is one. */
  function LastEntryFor(ledger: seq<Transaction>, accountId: int): (r: Option<Transaction>)
    ensures r.None? <==> forall i :: 0 <= i < |ledger| ==> ledger[i].accountId != accountId
    ensures r.Some? ==> r.value in ledger && r.value.accountId == accountId
  {
    if |ledger| == 0 then None
    else if ledger[|ledger| - 1].accountId == accountId then Some(ledger[|ledger| - 1])
    else LastEntryFor(ledger[..|ledger| - 1], accountId)
  }

  /**
   The entry found is the account's latest: it sits at some position of the
   ledger, and no entry after that position belongs to the account.
   */
  lemma {:induction false} LastEntryIsLatest(ledger: seq<Transaction>, accountId: int)
    ensures var r := LastEntryFor(ledger, accountId);
            r.Some? ==> exists i :: 0 <= i < |ledger| && ledger[i] == r.value
                          && forall j :: i < j < |ledger| ==> ledger[j].accountId != accountId
  {
    var r := LastEntryFor(ledger, accountId);
    if r.Some? {
      var n := |ledger| - 1;
      if ledger[n].accountId == accountId {
        assert ledger[n] == r.value;
      } else {
        var prefix := ledger[..n];
        LastEntryIsLatest(prefix, accountId);
        var i :| 0 <= i < |prefix| && prefix[i] == r.value
                 && forall j :: i < j < |prefix| ==> prefix[j].accountId != accountId;
        assert ledger[i] == r.value;
        forall j | i < j < |ledger|
          ensures ledger[j].accountId != accountId
        {
          if j < n {
            assert ledger[j] == prefix[j];
          }
        }
      }
    }
  }

  /** Accounts are stored under their own number and no two share an id. */
  predicate Wf(bank: Bank)
  {
    && (forall n :: n in bank.accounts ==> bank.accounts[n].accountNumber == n)
    && (forall n, m :: n in bank.accounts && m in bank.accounts && bank.accounts[n].id == bank.accounts[m].id ==> n == m)
  }

  /** The account's latest ledger entry, if any, records the account's current balance. */
  predicate SnapshotMatches(ledger: seq<Transaction>, a: Account)
  {
    match LastEntryFor(ledger, a.id)
    case None => true
    case Some(t) => t.balanceSnapshot == a.balance
  }

  /** The balance history in the ledger ends, for every account, at the account's current balance. */
  predicate SnapshotsCurrent(bank: Bank)
  {
    forall n :: n in bank.accounts ==> SnapshotMatches(bank.ledger, bank.accounts[n])
  }

  /**
   Storing account `a` under its number (same id, new balance) while
   appending one entry for it whose snapshot is that balance keeps both
   invariants.
   */
  lemma RecordKeepsInvariant(bank: Bank, a: Account, t: Transaction)
    requires Wf(bank) && SnapshotsCurrent(bank)
    requires a.accountNumber in bank.accounts && bank.accounts[a.accountNumber].id == a.id
    requires t.accountId == a.id && t.balanceSnapshot == a.balance
    ensures Wf(bank.(accounts := bank.accounts[a.accountNumber := a], ledger := bank.ledger + [t]))
    ensures SnapshotsCurrent(bank.(accounts := bank.accounts[a.accountNumber := a], ledger := bank.ledger + [t]))
  {
  }
}
