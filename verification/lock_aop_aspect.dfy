/**
 The lock bracket around a balance operation: lock the request's account
 number, run the operation, unlock the same number whether the operation
 returned or threw. The bracket is recorded as a trace of lock-service calls.
 */
module LockAopAspect {
  import opened Domain
  import LockService
  import TransactionService
  import TransactionController

  /**
   One step of a bracket: a granted lock, a refused lock, the operation
   running under the lock of a key, or an unlock.
   */
  datatype Event = Lock(key: string) | LockRefused(key: string) | Proceed(key: string) | Unlock(key: string)

  /** How often `e` occurs in `trace`. */
  function Count(trace: seq<Event>, e: Event): (n: nat)
    ensures n <= |trace|
    ensures n == 0 <==> e !in trace
  {
    if |trace| == 0 then 0
    else (if trace[|trace| - 1] == e then 1 else 0) + Count(trace[..|trace| - 1], e)
  }

  /**
   The keys held after `held` when `e` happens next, or `None` once the
   order is broken: a lock of a key already held, or an unlock or an
   operation under a key that is not held.
   */
  function Next(held: Option<set<string>>, e: Event): Option<set<string>>
  {
    match held
    case None => None
    case Some(h) =>
      match e
      case Lock(k) => if k in h then None else Some(h + {k})
      case LockRefused(_) => Some(h)
      case Proceed(k) => if k in h then Some(h) else None
      case Unlock(k) => if k in h then Some(h - {k}) else None
  }

  /** The keys held at the end of `trace`, read in order, or `None` if the trace is out of order. */
  function Held(trace: seq<Event>): Option<set<string>>
  {
    if |trace| == 0 then Some({})
    else Next(Held(trace[..|trace| - 1]), trace[|trace| - 1])
  }

  /**
   Every lock in the trace was taken while free and released afterwards,
   every unlock released a held key, every operation ran under its key's
   lock, and nothing is held at the end.
   */
  predicate AllReleased(trace: seq<Event>)
  {
    Held(trace) == Some({})
  }

  lemma HeldSnoc(trace: seq<Event>, e: Event)
    ensures Held(trace + [e]) == Next(Held(trace), e)
  {
    assert (trace + [e])[..|trace|] == trace;
  }

  /** The trace, state and outcome after a bracketed call. */
  datatype Bracketed<S, T> = Bracketed(trace: seq<Event>, state: S, out: Outcome<T>)

  /**
   Runs `proceed` on `state` under the lock of `accountNumber`, the account
   number carried by the request. When the provider grants the lock, the
   trace gains a lock, the operation and an unlock of that number, in that
   order, and the operation's result or exception is passed on unchanged.
   When it refuses, the operation is not run, nothing is unlocked, and the
   caller sees `ACCOUNT_TRANSACTION_LOCK`.
   */
  function AroundMethod<S, T>(trace: seq<Event>, accountNumber: string, granted: bool,
                              state: S, proceed: S -> (S, Outcome<T>)): (r: Bracketed<S, T>)
    ensures granted ==> r.trace == trace + [Lock(accountNumber), Proceed(accountNumber), Unlock(accountNumber)]
    ensures granted ==> r.state == proceed(state).0 && r.out == proceed(state).1
    ensures !granted ==> r == Bracketed(trace + [LockRefused(accountNumber)], state, Fail(AccountTransactionLock))
  {
    match LockService.Lock(accountNumber, granted, LockService.WaitSeconds, LockService.LeaseSeconds)
    case Threw(e) =>
      Bracketed(trace + [LockRefused(accountNumber)], state, Threw(e))
    case Returned(_) =>
      var (state', out) := proceed(state);
      Bracketed(trace + [Lock(accountNumber), Proceed(accountNumber), Unlock(accountNumber)], state', out)
  }

  lemma CountSnoc(trace: seq<Event>, x: Event, e: Event)
    ensures Count(trace + [x], e) == Count(trace, e) + (if x == e then 1 else 0)
  {
    assert (trace + [x])[..|trace|] == trace;
  }

  lemma {:induction false} CountAppend(trace: seq<Event>, xs: seq<Event>, e: Event)
    ensures Count(trace + xs, e) == Count(trace, e) + Count(xs, e)
    decreases |xs|
  {
    if |xs| == 0 {
      assert trace + xs == trace;
    } else {
      var last := xs[|xs| - 1];
      assert trace + xs == (trace + xs[..|xs| - 1]) + [last];
      CountSnoc(trace + xs[..|xs| - 1], last, e);
      CountAppend(trace, xs[..|xs| - 1], e);
    }
  }

  /**
   A bracketed call adds, for the request's account number and no other key,
   exactly one lock, one run of the operation and one unlock when the lock
   is granted, and exactly one refusal and nothing else when it is not.
   */
  lemma AroundMethodCounts<S, T>(trace: seq<Event>, accountNumber: string, granted: bool,
                                 state: S, proceed: S -> (S, Outcome<T>), k: string)
    ensures var r := AroundMethod(trace, accountNumber, granted, state, proceed);
            var once := if granted && k == accountNumber then 1 else 0;
            && Count(r.trace, Lock(k)) == Count(trace, Lock(k)) + once
            && Count(r.trace, Proceed(k)) == Count(trace, Proceed(k)) + once
            && Count(r.trace, Unlock(k)) == Count(trace, Unlock(k)) + once
            && Count(r.trace, LockRefused(k)) == Count(trace, LockRefused(k)) + (if !granted && k == accountNumber then 1 else 0)
  {
    var r := AroundMethod(trace, accountNumber, granted, state, proceed);
    if granted {
      var added := [Lock(accountNumber), Proceed(accountNumber), Unlock(accountNumber)];
      assert r.trace == trace + added;
      forall e | e in [Lock(k), Proceed(k), Unlock(k), LockRefused(k)]
        ensures Count(r.trace, e) == Count(trace, e) + Count(added, e)
      {
        CountAppend(trace, added, e);
      }
      BracketCounts(accountNumber, k);
    } else {
      assert r.trace == trace + [LockRefused(accountNumber)];
      CountSnoc(trace, LockRefused(accountNumber), Lock(k));
      CountSnoc(trace, LockRefused(accountNumber), Proceed(k));
      CountSnoc(trace, LockRefused(accountNumber), Unlock(k));
      CountSnoc(trace, LockRefused(accountNumber), LockRefused(k));
    }
  }

  lemma BracketCounts(accountNumber: string, k: string)
    ensures var added := [Lock(accountNumber), Proceed(accountNumber), Unlock(accountNumber)];
            var once := if k == accountNumber then 1 else 0;
            && Count(added, Lock(k)) == once && Count(added, Proceed(k)) == once
            && Count(added, Unlock(k)) == once && Count(added, LockRefused(k)) == 0
  {
    var added := [Lock(accountNumber), Proceed(accountNumber), Unlock(accountNumber)];
    assert added[..2] == [Lock(accountNumber), Proceed(accountNumber)];
    assert added[..2][..1] == [Lock(accountNumber)];
  }

  /** Locking a free key, running under it and unlocking it leaves the held keys as they were. */
  lemma BracketNext(held: set<string>, k: string)
    requires k !in held
    ensures Next(Next(Next(Some(held), Lock(k)), Proceed(k)), Unlock(k)) == Some(held)
  {
    assert held + {k} - {k} == held;
  }

  /**
   A bracketed call on a key the caller does not hold yet leaves the set of
   held keys as it found it, and keeps an in-order trace in order.
   */
  lemma AroundMethodKeepsHeld<S, T>(trace: seq<Event>, accountNumber: string, granted: bool,
                                    state: S, proceed: S -> (S, Outcome<T>), held: set<string>)
    requires Held(trace) == Some(held) && accountNumber !in held
    ensures Held(AroundMethod(trace, accountNumber, granted, state, proceed).trace) == Some(held)
  {
    if granted {
      var t1 := trace + [Lock(accountNumber)];
      var t2 := t1 + [Proceed(accountNumber)];
      assert t2 + [Unlock(accountNumber)] == trace + [Lock(accountNumber), Proceed(accountNumber), Unlock(accountNumber)];
      HeldSnoc(trace, Lock(accountNumber));
      HeldSnoc(t1, Proceed(accountNumber));
      HeldSnoc(t2, Unlock(accountNumber));
      BracketNext(held, accountNumber);
    } else {
      HeldSnoc(trace, LockRefused(accountNumber));
    }
  }

  /** A bracketed call started with nothing held ends with nothing held, every step in order. */
  lemma AroundMethodReleases<S, T>(trace: seq<Event>, accountNumber: string, granted: bool,
                                   state: S, proceed: S -> (S, Outcome<T>))
    requires AllReleased(trace)
    ensures AllReleased(AroundMethod(trace, accountNumber, granted, state, proceed).trace)
  {
    AroundMethodKeepsHeld(trace, accountNumber, granted, state, proceed, {});
  }

  /**
   The operation runs while the request's account number is held: right
   after the lock, before the unlock.
   */
  lemma ProceedWhileHeld<S, T>(trace: seq<Event>, accountNumber: string,
                               state: S, proceed: S -> (S, Outcome<T>), held: set<string>)
    requires Held(trace) == Some(held) && accountNumber !in held
    ensures var r := AroundMethod(trace, accountNumber, true, state, proceed);
            && r.trace[|trace| + 1] == Proceed(accountNumber)
            && Held(r.trace[..|trace| + 1]) == Some(held + {accountNumber})
            && Held(r.trace[..|trace| + 2]) == Some(held + {accountNumber})
  {
    var r := AroundMethod(trace, accountNumber, true, state, proceed);
    assert r.trace[..|trace| + 1] == trace + [Lock(accountNumber)];
    assert r.trace[..|trace| + 2] == (trace + [Lock(accountNumber)]) + [Proceed(accountNumber)];
    HeldSnoc(trace, Lock(accountNumber));
    HeldSnoc(trace + [Lock(accountNumber)], Proceed(accountNumber));
  }

  /**
   The use endpoint, failure record included, run under the lock of the
   request's account number. This is where a bracket that takes the
   endpoint's request belongs: the audit runs inside the bracket, and a
   refused lock is thrown before the endpoint starts, so nothing is recorded
   for it.
   */
  function LockedEndpoint(bank: Bank, trace: seq<Event>, request: TransactionController.UseRequest,
                          granted: bool, env: Env, auditEnv: Env): (r: Bracketed<Bank, Transaction>)
    ensures granted ==>
              && r.trace == trace + [Lock(request.accountNumber), Proceed(request.accountNumber), Unlock(request.accountNumber)]
              && var s := TransactionController.UseBalanceEndpoint(bank, request, env, auditEnv);
              && r.state == s.bank && r.out == s.out
    ensures granted && r.out.Threw? && request.accountNumber in bank.accounts ==>
              TransactionService.FailedUseRecorded(bank, r.state, request.accountNumber, request.amount)
    ensures !granted ==> r == Bracketed(trace + [LockRefused(request.accountNumber)], bank, Fail(AccountTransactionLock))
  {
    AroundMethod(trace, request.accountNumber, granted, bank, (b: Bank) => EndpointCall(b, request, env, auditEnv))
  }

  /** The endpoint as the operation a bracket runs. */
  function EndpointCall(bank: Bank, request: TransactionController.UseRequest, env: Env, auditEnv: Env): (Bank, Outcome<Transaction>)
  {
    var s := TransactionController.UseBalanceEndpoint(bank, request, env, auditEnv);
    (s.bank, s.out)
  }

  /** The use engine alone run under the lock of the request's account number. */
  function LockedUseBalance(bank: Bank, trace: seq<Event>, request: TransactionController.UseRequest,
                            granted: bool, env: Env): (r: Bracketed<Bank, Transaction>)
    ensures granted ==>
              && r.trace == trace + [Lock(request.accountNumber), Proceed(request.accountNumber), Unlock(request.accountNumber)]
              && var s := TransactionService.UseBalance(bank, request.userId, request.accountNumber, request.amount, env);
              && r.state == s.bank && r.out == s.out
    ensures !granted ==> r.state == bank && r.out == Fail(AccountTransactionLock)
  {
    AroundMethod(trace, request.accountNumber, granted, bank,
      (b: Bank) =>
        var s := TransactionService.UseBalance(b, request.userId, request.accountNumber, request.amount, env);
        (s.bank, s.out))
  }

  /**
   The other placement: the bracket around the engine alone, with the
   endpoint's failure audit outside it. Then a refused lock is itself the
   service's exception, so on an existing account it is recorded as a failed
   use, which the endpoint-wide bracket never does.
   */
  function AuditAroundLockedUse(bank: Bank, trace: seq<Event>, request: TransactionController.UseRequest,
                                granted: bool, env: Env, auditEnv: Env): (r: Bracketed<Bank, Transaction>)
    ensures r.trace == LockedUseBalance(bank, trace, request, granted, env).trace
    ensures !granted && request.accountNumber in bank.accounts ==>
              && r.out == Fail(AccountTransactionLock)
              && TransactionService.FailedUseRecorded(bank, r.state, request.accountNumber, request.amount)
    ensures !granted && request.accountNumber !in bank.accounts ==>
              r.state == bank && r.out == Fail(AccountNotFound)
  {
    var locked := LockedUseBalance(bank, trace, request, granted, env);
    var s := TransactionController.HandleUse(Step(locked.state, locked.out), request, auditEnv);
    Bracketed(locked.trace, s.bank, s.out)
  }

  /** Locking request `(123, "1234", 1000)` locks and then unlocks `"1234"`, once each. */
  lemma LockAndUnlockScenario<S, T>(state: S, proceed: S -> (S, Outcome<T>))
    ensures var r := AroundMethod([], TransactionController.UseRequest(123, "1234", 1000).accountNumber, true, state, proceed);
            && r.trace == [Lock("1234"), Proceed("1234"), Unlock("1234")]
            && Count(r.trace, Lock("1234")) == 1 && Count(r.trace, Unlock("1234")) == 1
  {
  }

  /** When the operation throws `ACCOUNT_NOT_FOUND`, `"54321"` is still unlocked once and the exception reaches the caller. */
  lemma LockAndUnlockEvenThrowScenario<S>(state: S)
    ensures var r := AroundMethod([], TransactionController.UseRequest(123, "54321", 1000).accountNumber, true, state,
                                  (s: S) => (s, Fail<()>(AccountNotFound)));
            && r.out == Fail(AccountNotFound)
            && Count(r.trace, Lock("54321")) == 1 && Count(r.trace, Unlock("54321")) == 1
            && r.trace[|r.trace| - 1] == Unlock("54321")
  {
  }
}
