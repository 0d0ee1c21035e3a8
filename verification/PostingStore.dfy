/** The database posting paths as they run: per-account aggregation, ordered
    locking, a batch that tracks running states and merged totals, and one bulk
    write. Each is proved to do what posting line by line does. */
module PostingStore {
  import opened Domain
  import opened LockOrder
  import opened Posting

  /** The merged debit and credit of one account. */
  datatype Change = Change(debit: int, credit: int)

  type Changes = map<Id, Change>

  function ChangeNet(changes: Changes, a: Id): int
  {
    if a in changes then changes[a].debit - changes[a].credit else 0
  }

  function AddTo(changes: Changes, a: Id, debit: int, credit: int): Changes
  {
    if a in changes then changes[a := Change(changes[a].debit + debit, changes[a].credit + credit)]
    else changes[a := Change(debit, credit)]
  }

  function AccountsIn(es: seq<Entry>): set<Id>
  {
    set e | e in es :: e.account
  }

  /** Changes that stand for `es`: same accounts, same net amounts. */
  ghost predicate StandsFor(changes: Changes, es: seq<Entry>)
  {
    changes.Keys == AccountsIn(es) && forall a :: a in changes ==> ChangeNet(changes, a) == Net(es, a)
  }

  /** Moving each account once by its merged change. */
  ghost predicate Shifted(accounts: Accounts, changes: Changes, accounts': Accounts)
  {
    && accounts'.Keys == accounts.Keys
    && forall a :: a in accounts ==> accounts'[a] == Plus(accounts[a], ChangeNet(changes, a))
  }

  datatype PostingError = InvalidEntries | AccountNotFound | SpansLedgers | InsufficientFunds

  datatype Locked = Locked(ledger: Id, changes: Changes, order: seq<Id>) | Refused(error: PostingError)

  method Aggregate(es: seq<Entry>) returns (changes: Changes)
    ensures StandsFor(changes, es)
  {
    changes := map[];
    for i := 0 to |es|
      invariant StandsFor(changes, es[..i])
    {
      StandsForSnoc(changes, es, i);
      changes := AddTo(changes, es[i].account, es[i].debit, es[i].credit);
    }
    assert es[..|es|] == es;
  }

  /** A locked row passes: it exists, stays affordable and is in `ledger`. */
  predicate RowPasses(accounts: Accounts, changes: Changes, ledger: Id, a: Id)
  {
    && a in accounts
    && Displayed(accounts[a].typ, accounts[a].balance + ChangeNet(changes, a)) >= 0
    && accounts[a].ledger == ledger
  }

  predicate RowsPass(accounts: Accounts, changes: Changes, order: seq<Id>)
    requires order != []
  {
    order[0] in accounts && forall a :: a in order ==> RowPasses(accounts, changes, accounts[order[0]].ledger, a)
  }

  ghost predicate ShortRow(accounts: Accounts, changes: Changes, a: Id)
  {
    a in accounts && Displayed(accounts[a].typ, accounts[a].balance + ChangeNet(changes, a)) < 0
  }

  /** A line's account is not there. */
  ghost predicate Missing(accounts: Accounts, es: seq<Entry>)
  {
    exists e :: e in es && e.account !in accounts
  }

  /** Two lines' accounts are in different ledgers. */
  ghost predicate Spans(accounts: Accounts, es: seq<Entry>)
  {
    exists d, e :: d in es && e in es && d.account in accounts && e.account in accounts
                   && accounts[d.account].ledger != accounts[e.account].ledger
  }

  /** A line's account would end on the wrong side of zero. */
  ghost predicate Short(accounts: Accounts, es: seq<Entry>)
  {
    exists e :: e in es && e.account in accounts && EndsBadly(accounts[e.account], Net(es, e.account))
  }

  ghost predicate EndsBadly(a: Account, move: int)
  {
    || (a.typ in {Asset, Expense} && a.balance + move < 0)
    || (a.typ in {Liability, Equity, Revenue} && a.balance + move > 0)
  }

  /** The error names something that is wrong with the posting. */
  ghost predicate Blames(accounts: Accounts, es: seq<Entry>, error: PostingError)
  {
    match error
    case InvalidEntries => !Balanced(es)
    case AccountNotFound => Missing(accounts, es)
    case SpansLedgers => Spans(accounts, es)
    case InsufficientFunds => Short(accounts, es)
  }

  /** The scan over the locked rows, in lock order; absent rows return nothing and
      show up as a short count. */
  method CheckRows(accounts: Accounts, changes: Changes, order: seq<Id>)
    returns (error: Option<PostingError>, ledger: Id)
    requires order != [] && forall a :: a in order ==> a in changes
    ensures error.None? <==> RowsPass(accounts, changes, order)
    ensures error.None? ==> ledger == accounts[order[0]].ledger
    ensures error != Some(InvalidEntries)
    ensures error == Some(AccountNotFound) ==> exists a :: a in order && a !in accounts
    ensures error == Some(SpansLedgers) ==>
              exists a, b :: a in order && b in order && a in accounts && b in accounts
                             && accounts[a].ledger != accounts[b].ledger
    ensures error == Some(InsufficientFunds) ==> exists a :: a in order && ShortRow(accounts, changes, a)
  {
    ledger := NIL;
    var found := 0;
    for i := 0 to |order|
      invariant 0 <= found <= i
      invariant found == i > 0 ==> order[0] in accounts && ledger == accounts[order[0]].ledger
      invariant found == i ==> forall j :: 0 <= j < i ==> RowPasses(accounts, changes, ledger, order[j])
      invariant found < i ==> exists b :: b in order && b !in accounts
      invariant found > 0 ==> exists b :: b in order && b in accounts && accounts[b].ledger == ledger
    {
      var a := order[i];
      assert a in order;
      if a in accounts {
        if DisplayedBalanceAfter(accounts[a].typ, accounts[a].balance, changes[a].debit, changes[a].credit) < 0 {
          assert ShortRow(accounts, changes, a);
          return Some(InsufficientFunds), ledger;
        }
        if found == 0 {
          ledger := accounts[a].ledger;
        } else if accounts[a].ledger != ledger {
          assert found == i ==> !RowPasses(accounts, changes, accounts[order[0]].ledger, a);
          return Some(SpansLedgers), ledger;
        }
        found := found + 1;
      }
    }
    if found != |order| {
      return Some(AccountNotFound), ledger;
    }
    return None, ledger;
  }

  /** Aggregate, sort, lock and check. */
  method LockPostingAccounts(accounts: Accounts, es: seq<Entry>) returns (r: Locked)
    requires es != []
    ensures r.Locked? <==> Known(accounts, es) && OneLedger(accounts, es) && Affordable(accounts, es)
    ensures r.Locked? ==>
              && r.ledger == accounts[es[0].account].ledger
              && StandsFor(r.changes, es)
              && Ascending(r.order) && forall a :: a in r.order <==> a in AccountsIn(es)
    ensures r.Refused? ==> r.error != InvalidEntries && Blames(accounts, es, r.error)
  {
    hide RowsPass, Ascending, Affordable, ShortRow, Blames;
    var changes := Aggregate(es);
    var order := SortedKeys(changes.Keys);
    assert es[0].account in order;
    var error, ledger := CheckRows(accounts, changes, order);
    RowsMean(accounts, changes, order, es);
    if error.Some? {
      Blamed(accounts, changes, order, es, error.value);
      return Refused(error.value);
    }
    return Locked(ledger, changes, order);
  }

  /** What the scan found wrong with a row is wrong with the line that names it. */
  lemma Blamed(accounts: Accounts, changes: Changes, order: seq<Id>, es: seq<Entry>, error: PostingError)
    requires StandsFor(changes, es) && (forall a :: a in order <==> a in changes) && error != InvalidEntries
    requires error == AccountNotFound ==> exists a :: a in order && a !in accounts
    requires error == SpansLedgers ==>
               exists a, b :: a in order && b in order && a in accounts && b in accounts
                              && accounts[a].ledger != accounts[b].ledger
    requires error == InsufficientFunds ==> exists a :: a in order && ShortRow(accounts, changes, a)
    ensures Blames(accounts, es, error)
  {
    forall a | a in order ensures exists e :: e in es && e.account == a {
    }
  }

  lemma RowsMean(accounts: Accounts, changes: Changes, order: seq<Id>, es: seq<Entry>)
    requires es != [] && order != [] && StandsFor(changes, es) && forall a :: a in order <==> a in changes
    ensures RowsPass(accounts, changes, order) <==>
            Known(accounts, es) && OneLedger(accounts, es) && Affordable(accounts, es)
    ensures RowsPass(accounts, changes, order) ==> accounts[order[0]].ledger == accounts[es[0].account].ledger
  {
    forall e | e in es ensures e.account in order && ChangeNet(changes, e.account) == Net(es, e.account) {
    }
    assert es[0] in es && order[0] in order;
    if Known(accounts, es) && OneLedger(accounts, es) && Affordable(accounts, es) {
      var d :| d in es && d.account == order[0];
      forall a | a in order ensures RowPasses(accounts, changes, accounts[order[0]].ledger, a) {
        var e :| e in es && e.account == a;
      }
    }
    if RowsPass(accounts, changes, order) {
      forall e | e in es ensures RowPasses(accounts, changes, accounts[order[0]].ledger, e.account) {
      }
    }
  }

  /** One UPDATE over the merged changes, row by row in any order. */
  method ShiftAccounts(accounts: Accounts, changes: Changes) returns (r: Accounts)
    requires changes.Keys <= accounts.Keys
    ensures Shifted(accounts, changes, r)
  {
    r := accounts;
    var left := changes.Keys;
    while left != {}
      invariant left <= changes.Keys && r.Keys == accounts.Keys
      invariant forall a :: a in accounts ==>
                  r[a] == if a in left then accounts[a] else Plus(accounts[a], ChangeNet(changes, a))
      decreases |left|
    {
      HasElement(left);
      var a :| a in left;
      r := r[a := r[a].(balance := r[a].balance + changes[a].debit - changes[a].credit)];
      left := left - {a};
    }
  }

  /** Merged movement is line-by-line movement. */
  lemma ShiftIsApply(accounts: Accounts, changes: Changes, es: seq<Entry>, accounts': Accounts)
    requires Known(accounts, es) && StandsFor(changes, es) && Shifted(accounts, changes, accounts')
    ensures accounts' == ApplyEntries(accounts, es)
  {
    forall a | a in accounts ensures ChangeNet(changes, a) == Net(es, a) {
      if a !in changes {
        NetUntouched(es, a);
      }
    }
    forall a | a in accounts ensures accounts'[a] == ApplyEntries(accounts, es)[a] {
    }
    assert accounts' == ApplyEntries(accounts, es);
  }

  lemma ShiftedUnique(accounts: Accounts, changes: Changes, x: Accounts, y: Accounts)
    requires Shifted(accounts, changes, x) && Shifted(accounts, changes, y)
    ensures x == y
  {
    forall a | a in accounts ensures x[a] == y[a] {
    }
  }

  lemma AddToNet(changes: Changes, a: Id, debit: int, credit: int, b: Id)
    ensures ChangeNet(AddTo(changes, a, debit, credit), b) ==
            ChangeNet(changes, b) + if a == b then debit - credit else 0
  {
  }

  /** Two account tables that look alike to a list of entries. */
  ghost predicate Alike(states: Accounts, accounts: Accounts, es: seq<Entry>)
  {
    forall e :: e in es ==>
      && (e.account in states <==> e.account in accounts)
      && (e.account in states ==> states[e.account] == accounts[e.account])
  }

  lemma {:induction false} AlikeSentinel(states: Accounts, accounts: Accounts, es: seq<Entry>)
    requires Alike(states, accounts, es) && Known(accounts, es) && Known(states, es)
    ensures Sentinel(states, es) == Sentinel(accounts, es)
    decreases |es|
  {
    if es != [] {
      assert es[|es| - 1] in es;
      AlikeSentinel(states, accounts, es[..|es| - 1]);
    }
  }

  lemma AlikeAccepts(states: Accounts, accounts: Accounts, es: seq<Entry>)
    requires Alike(states, accounts, es)
    ensures BatchAccepts(states, es) <==> BatchAccepts(accounts, es)
    ensures BatchAccepts(states, es) ==> Sentinel(states, es) == Sentinel(accounts, es)
  {
    hide Balanced, Sentinel;
    if Known(states, es) {
      AlikeSentinel(states, accounts, es);
    }
  }

  datatype Trial = Fits(ledger: Id, changes: Changes) | Unfit(error: PostingError)

  ghost predicate SomeIn(states: Accounts, es: seq<Entry>, ledger: Id)
  {
    exists e :: e in es && e.account in states && states[e.account].ledger == ledger
  }

  lemma ShortIff(accounts: Accounts, es: seq<Entry>)
    requires Known(accounts, es)
    ensures Short(accounts, es) <==> !Affordable(accounts, es)
  {
    hide Net;
  }

  /** An index of a batch is answered by its rule: accepted, or blamed for what is wrong
      with it in the accounts as its predecessors left them. */
  ghost predicate Judged(accounts: Accounts, es: seq<Entry>, error: Option<PostingError>)
  {
    && (error.None? <==> BatchAccepts(accounts, es))
    && (error == Some(InvalidEntries) <==> !Balanced(es))
    && (error.Some? ==> Blames(accounts, es, error.value))
  }

  lemma BlamesInvalid(accounts: Accounts, es: seq<Entry>)
    ensures Blames(accounts, es, InvalidEntries) <==> !Balanced(es)
  {
  }

  lemma AlikeBlames(states: Accounts, accounts: Accounts, es: seq<Entry>)
    requires Alike(states, accounts, es)
    ensures forall error :: Blames(states, es, error) <==> Blames(accounts, es, error)
  {
    hide Net, EndsBadly, Balanced;
  }

  /** The batch's check of one posting against the running states. */
  method TryPosting(states: Accounts, es: seq<Entry>) returns (r: Trial)
    requires Balanced(es)
    ensures r.Fits? <==> BatchAccepts(states, es)
    ensures r.Fits? ==> r.ledger == Sentinel(states, es).value && StandsFor(r.changes, es)
    ensures r.Unfit? ==> r.error != InvalidEntries && Blames(states, es, r.error)
  {
    hide Balanced, EndsBadly;
    var changes: Changes := map[];
    var ledger := NIL;
    for i := 0 to |es|
      invariant Known(states, es[..i])
      invariant Sentinel(states, es[..i]) == Some(ledger)
      invariant StandsFor(changes, es[..i])
      invariant ledger != NIL ==> SomeIn(states, es, ledger)
    {
      assert es[..i + 1][..i] == es[..i];
      assert es[i] in es;
      if es[i].account !in states {
        return Unfit(AccountNotFound);
      }
      assert Known(states, es[..i + 1]) by {
        assert forall e :: e in es[..i + 1] <==> e in es[..i] || e == es[i];
      }
      if ledger == NIL {
        ledger := states[es[i].account].ledger;
      } else if states[es[i].account].ledger != ledger {
        RefusedStays(states, es, i + 1);
        return Unfit(SpansLedgers);
      }
      StandsForSnoc(changes, es, i);
      changes := AddTo(changes, es[i].account, es[i].debit, es[i].credit);
    }
    assert es[..|es|] == es;
    var funded := FundsSuffice(states, changes, es);
    if !funded {
      ShortIff(states, es);
    }
    return if funded then Fits(ledger, changes) else Unfit(InsufficientFunds);
  }

  /** The overdraft check over the merged changes, in any order. */
  method FundsSuffice(states: Accounts, changes: Changes, es: seq<Entry>) returns (ok: bool)
    requires Known(states, es) && StandsFor(changes, es)
    ensures ok <==> Affordable(states, es)
  {
    var left := changes.Keys;
    while left != {}
      invariant left <= changes.Keys
      invariant forall a :: a in changes && a !in left ==> Displayed(states[a].typ, states[a].balance + Net(es, a)) >= 0
      decreases |left|
    {
      HasElement(left);
      var a :| a in left;
      var newBalance := states[a].balance + changes[a].debit - changes[a].credit;
      if (if states[a].typ.Asset? || states[a].typ.Expense? then newBalance else -newBalance) < 0 {
        ghost var e :| e in es && e.account == a;
        return false;
      }
      left := left - {a};
    }
    forall e | e in es ensures e.account in changes {
    }
    return true;
  }

  lemma {:induction false} RefusedStays(states: Accounts, es: seq<Entry>, n: nat)
    requires n <= |es| && Known(states, es[..n]) && Sentinel(states, es[..n]).None?
    ensures Known(states, es) ==> Sentinel(states, es).None?
    decreases |es|
  {
    if n == |es| {
      assert es[..n] == es;
    } else if Known(states, es) {
      assert es[..|es| - 1][..n] == es[..n];
      RefusedStays(states, es[..|es| - 1], n);
    }
  }

  lemma StandsForSnoc(changes: Changes, es: seq<Entry>, i: nat)
    requires i < |es| && StandsFor(changes, es[..i])
    ensures StandsFor(AddTo(changes, es[i].account, es[i].debit, es[i].credit), es[..i + 1])
  {
    assert es[..i + 1][..i] == es[..i];
    assert AccountsIn(es[..i + 1]) == AccountsIn(es[..i]) + {es[i].account} by {
      assert forall e :: e in es[..i + 1] <==> e in es[..i] || e == es[i];
    }
    if es[i].account !in changes {
      NetUntouched(es[..i], es[i].account);
    }
  }

  /** `r` is `totals` plus the changes of the accounts in `done`. */
  ghost predicate Merged(totals: Changes, changes: Changes, done: set<Id>, r: Changes)
  {
    && r.Keys == totals.Keys + done
    && forall a :: ChangeNet(r, a) == ChangeNet(totals, a) + if a in done then ChangeNet(changes, a) else 0
  }

  lemma NothingMerged(totals: Changes, changes: Changes)
    ensures Merged(totals, changes, {}, totals)
  {
  }

  lemma MergedStep(totals: Changes, changes: Changes, done: set<Id>, r: Changes, a: Id)
    requires Merged(totals, changes, done, r) && a in changes && a !in done
    ensures Merged(totals, changes, done + {a}, AddTo(r, a, changes[a].debit, changes[a].credit))
  {
    var r' := AddTo(r, a, changes[a].debit, changes[a].credit);
    forall b ensures ChangeNet(r', b) == ChangeNet(totals, b) + if b in done + {a} then ChangeNet(changes, b) else 0 {
      AddToNet(r, a, changes[a].debit, changes[a].credit, b);
    }
  }

  /** Adding one posting's changes to the batch totals. */
  method MergeTotals(totals: Changes, changes: Changes) returns (r: Changes)
    ensures Merged(totals, changes, changes.Keys, r)
  {
    hide Merged, AddTo;
    r := totals;
    NothingMerged(totals, changes);
    var left := changes.Keys;
    assert changes.Keys - left == {};
    while left != {}
      invariant left <= changes.Keys && Merged(totals, changes, changes.Keys - left, r)
      decreases |left|
    {
      HasElement(left);
      var a :| a in left;
      MergedStep(totals, changes, changes.Keys - left, r, a);
      r := AddTo(r, a, changes[a].debit, changes[a].credit);
      assert changes.Keys - (left - {a}) == changes.Keys - left + {a};
      left := left - {a};
    }
    assert changes.Keys - left == changes.Keys;
  }

  /** The batch half-way: running states, merged totals and accepted postings all
      describe the same database, the one reached line by line. */
  ghost predicate InStep(start: Db, spec: Db, states: Accounts, totals: Changes, posted: seq<Transaction>,
                         rows: set<Id>)
  {
    && totals.Keys <= states.Keys && states.Keys == start.accounts.Keys * rows
    && Shifted(start.accounts, totals, spec.accounts)
    && (forall a :: a in states ==> states[a] == spec.accounts[a])
    && spec.journal == start.journal + posted
    && spec.queued == start.queued + (set t | t in posted :: t.id)
    && spec.sagas == start.sagas && spec.commands == start.commands
  }

  lemma InStepAlike(start: Db, spec: Db, states: Accounts, totals: Changes, posted: seq<Transaction>, rows: set<Id>,
                    es: seq<Entry>)
    requires InStep(start, spec, states, totals, posted, rows) && AccountsIn(es) <= rows
    ensures Alike(states, spec.accounts, es)
  {
  }

  lemma InStepNext(start: Db, spec: Db, states: Accounts, totals: Changes, posted: seq<Transaction>, rows: set<Id>,
                   es: seq<Entry>, changes: Changes, states': Accounts, totals': Changes, ledger: Id, id: Id, now: int)
    requires InStep(start, spec, states, totals, posted, rows)
    requires Known(states, es) && StandsFor(changes, es) && Shifted(states, changes, states')
    requires Merged(totals, changes, changes.Keys, totals')
    ensures Known(spec.accounts, es)
    ensures InStep(start, Enter(spec, es, ledger, id, now), states', totals',
                   posted + [Transaction(id, ledger, es, now)], rows)
  {
    BalancesInStep(start.accounts, spec.accounts, states, totals, es, changes, states', totals');
    var t := Transaction(id, ledger, es, now);
    assert spec.journal + [t] == start.journal + (posted + [t]);
    assert (set u | u in posted + [t] :: u.id) == (set u | u in posted :: u.id) + {id} by {
      assert forall u :: u in posted + [t] <==> u in posted || u == t;
    }
  }

  lemma BalancesInStep(start: Accounts, accounts: Accounts, states: Accounts, totals: Changes, es: seq<Entry>,
                       changes: Changes, states': Accounts, totals': Changes)
    requires Shifted(start, totals, accounts) && states.Keys <= start.Keys
    requires forall a :: a in states ==> states[a] == accounts[a]
    requires Known(states, es) && StandsFor(changes, es) && Shifted(states, changes, states')
    requires Merged(totals, changes, changes.Keys, totals')
    ensures Known(accounts, es)
    ensures Shifted(start, totals', ApplyEntries(accounts, es))
    ensures forall a :: a in states' ==> states'[a] == ApplyEntries(accounts, es)[a]
    ensures totals'.Keys == totals.Keys + changes.Keys && changes.Keys <= states.Keys
  {
    forall a ensures ChangeNet(changes, a) == Net(es, a) {
      if a !in changes {
        NetUntouched(es, a);
      }
    }
    hide StandsFor;
    assert forall a :: a in accounts ==>
             ApplyEntries(accounts, es)[a] == Plus(Plus(start[a], ChangeNet(totals, a)), ChangeNet(changes, a));
    MergedNet(totals, changes, totals');
  }

  lemma MergedNet(totals: Changes, changes: Changes, totals': Changes)
    requires Merged(totals, changes, changes.Keys, totals')
    ensures forall a :: ChangeNet(totals', a) == ChangeNet(totals, a) + ChangeNet(changes, a)
  {
  }

  const MAX_BATCH := 64

  /** Every account a valid posting of the batch names. */
  ghost function RowsToLock(sets: seq<seq<Entry>>): set<Id>
  {
    if sets == [] then {} else
      var last := sets[|sets| - 1];
      RowsToLock(sets[..|sets| - 1]) + if Balanced(last) then AccountsIn(last) else {}
  }

  class PostgresStore {
    var accounts: Accounts
    var journal: seq<Transaction>
    var queued: set<Id>
    ghost const sagas: map<Id, SagaRow>
    ghost const commands: map<Id, Command>

    ghost function Abs(): Db
      reads this
    {
      Db(accounts, journal, queued, sagas, commands)
    }

    /** One posting through lock, check and write. */
    method CreateTransaction(es: seq<Entry>, id: Id, now: int) returns (error: Option<PostingError>)
      modifies this
      ensures Abs() == PostOne(old(Abs()), es, id, now)
      ensures error.None? <==> Accepts(old(accounts), es)
      ensures error.None? <==> Allowed(old(accounts), es)
      ensures error.None? ==> Enters(old(Abs()), Abs(), es, id, now)
      ensures error == Some(InvalidEntries) <==> !Balanced(es)
      ensures error.Some? ==> Blames(old(accounts), es, error.value)
    {
      Entered(Abs(), es, id, now);
      BlamesInvalid(accounts, es);
      hide Enters, Blames, Shifted, Ascending;
      AcceptsMeans(accounts, es);
      hide Balanced, OneLedger, Affordable, Allowed;
      var fault := ValidateTransaction(es);
      if fault.Some? {
        return Some(InvalidEntries);
      }
      NotEmpty(es);
      var locked := LockPostingAccounts(accounts, es);
      if locked.Refused? {
        return Some(locked.error);
      }
      var shifted := ShiftAccounts(accounts, locked.changes);
      ShiftIsApply(accounts, locked.changes, es, shifted);
      journal := journal + [Transaction(id, locked.ledger, es, now)];
      accounts := shifted;
      queued := queued + {id};
      return None;
    }

    /** Many postings in one database transaction, their rows locked in ascending
        order. Refused ones leave no trace; the accepted ones are written together
        from the merged totals. */
    method CreateTransactionsBatch(sets: seq<seq<Entry>>, ids: seq<Id>, now: int)
      returns (errors: seq<Option<PostingError>>, refused: bool, order: seq<Id>)
      requires |ids| == |sets|
      modifies this
      ensures refused <==> !(1 <= |sets| <= 64)
      ensures refused ==> Abs() == old(Abs())
      ensures InLockOrder(order, if refused then {} else RowsToLock(sets))
      ensures !refused ==>
                && Abs() == BatchAll(old(Abs()), sets, ids, now)
                && |errors| == |sets|
                && forall i :: 0 <= i < |sets| ==>
                     Judged(BatchAll(old(Abs()), sets[..i], ids[..i], now).accounts, sets[i], errors[i])
    {
      hide Balanced, BatchAccepts, Known, InStep, Alike, BatchAll, Sentinel, Enter, StandsFor, Shifted, AccountsIn;
      hide Merged, RowsToLock, Blames;
      if |sets| == 0 || |sets| > MAX_BATCH {
        return [], true, [];
      }
      var valid, rows := Prepare(sets);
      order := SortedKeys(rows);
      hide InLockOrder;
      var states := map a | a in rows && a in accounts :: accounts[a];
      var totals: Changes := map[];
      var posted: seq<Transaction> := [];
      errors, refused := [], false;
      ghost var start := Abs();
      ghost var spec := start;
      StartsInStep(start, states, rows);
      EmptyBatch(start, sets, ids, now);
      for i := 0 to |sets|
        invariant Abs() == start
        invariant spec == BatchAll(start, sets[..i], ids[..i], now)
        invariant InStep(start, spec, states, totals, posted, rows)
        invariant |errors| == i
        invariant forall j :: 0 <= j < i ==>
                    Judged(BatchAll(start, sets[..j], ids[..j], now).accounts, sets[j], errors[j])
      {
        BatchSnoc(start, sets, ids, now, i);
        if !valid[i] {
          errors := errors + [Some(InvalidEntries)];
          BlamesInvalid(spec.accounts, sets[i]);
          InvalidSkips(spec, sets[i], ids[i], now);
          continue;
        }
        InStepAlike(start, spec, states, totals, posted, rows, sets[i]);
        AlikeAccepts(states, spec.accounts, sets[i]);
        AlikeBlames(states, spec.accounts, sets[i]);
        var trial := TryPosting(states, sets[i]);
        if trial.Unfit? {
          errors := errors + [Some(trial.error)];
          continue;
        }
        errors := errors + [None];
        AcceptedIsKnown(states, sets[i], trial.changes);
        var states' := ShiftAccounts(states, trial.changes);
        var totals' := MergeTotals(totals, trial.changes);
        InStepNext(start, spec, states, totals, posted, rows, sets[i], trial.changes, states', totals',
                   trial.ledger, ids[i], now);
        spec := Enter(spec, sets[i], trial.ledger, ids[i], now);
        states, totals := states', totals';
        posted := posted + [Transaction(ids[i], trial.ledger, sets[i], now)];
      }
      assert sets[..|sets|] == sets && ids[..|ids|] == ids;
      WritePostingBatch(posted, totals, spec, states, rows);
    }

    /** The bulk write: rows, entries, merged balances and outbox events at once. */
    method WritePostingBatch(posted: seq<Transaction>, totals: Changes, ghost spec: Db, ghost states: Accounts,
                             ghost rows: set<Id>)
      requires InStep(Abs(), spec, states, totals, posted, rows)
      modifies this
      ensures Abs() == spec
    {
      var shifted := ShiftAccounts(accounts, totals);
      ShiftedUnique(accounts, totals, shifted, spec.accounts);
      accounts := shifted;
      journal := journal + posted;
      queued := queued + (set t | t in posted :: t.id);
    }

    /** Validate every posting and collect the rows to lock. */
    static method Prepare(sets: seq<seq<Entry>>) returns (valid: seq<bool>, rows: set<Id>)
      ensures |valid| == |sets|
      ensures forall i :: 0 <= i < |sets| ==> (valid[i] <==> Balanced(sets[i]))
      ensures rows == RowsToLock(sets)
      ensures forall i :: 0 <= i < |sets| && valid[i] ==> AccountsIn(sets[i]) <= rows
    {
      valid, rows := [], {};
      for i := 0 to |sets|
        invariant |valid| == i
        invariant forall j :: 0 <= j < i ==> (valid[j] <==> Balanced(sets[j]))
        invariant rows == RowsToLock(sets[..i])
        invariant forall j :: 0 <= j < i && valid[j] ==> AccountsIn(sets[j]) <= rows
      {
        assert sets[..i + 1][..i] == sets[..i];
        var fault := ValidateTransaction(sets[i]);
        valid := valid + [fault.None?];
        if fault.None? {
          rows := rows + AccountsIn(sets[i]);
        }
      }
      assert sets[..|sets|] == sets;
    }
  }

  /** What an accepted posting leaves: its transaction, dated now and in its accounts' own
      ledger, its event, and each balance moved by its net. */
  ghost predicate Enters(db: Db, r: Db, es: seq<Entry>, id: Id, now: int)
  {
    && |r.journal| == |db.journal| + 1 && r.journal[..|db.journal|] == db.journal
    && r.queued == db.queued + {id} && r.accounts.Keys == db.accounts.Keys
    && (forall a :: a in r.accounts ==>
          r.accounts[a] == db.accounts[a].(balance := db.accounts[a].balance + Net(es, a)))
    && var t := r.journal[|db.journal|];
       && t.id == id && t.entries == es && t.time == now
       && forall e :: e in es ==> e.account in db.accounts && db.accounts[e.account].ledger == t.ledger
  }

  lemma Entered(db: Db, es: seq<Entry>, id: Id, now: int)
    ensures Accepts(db.accounts, es) ==> Enters(db, PostOne(db, es, id, now), es, id, now)
  {
    hide Net, Affordable;
    if Accepts(db.accounts, es) {
      NotEmpty(es);
      assert es[0] in es;
    }
  }

  lemma {:induction false} RowsAre(sets: seq<seq<Entry>>, a: Id)
    ensures a in RowsToLock(sets) <==>
              exists i :: 0 <= i < |sets| && Balanced(sets[i]) && exists e :: e in sets[i] && e.account == a
    decreases |sets|
  {
    hide Balanced;
    if sets != [] {
      var n := |sets| - 1;
      RowsAre(sets[..n], a);
      assert forall i :: 0 <= i < n ==> sets[..n][i] == sets[i];
      assert a in AccountsIn(sets[n]) <==> exists e :: e in sets[n] && e.account == a;
    }
  }

  lemma EmptyBatch(db: Db, sets: seq<seq<Entry>>, ids: seq<Id>, now: int)
    requires |ids| == |sets|
    ensures BatchAll(db, sets[..0], ids[..0], now) == db
  {
  }

  lemma BatchSnoc(db: Db, sets: seq<seq<Entry>>, ids: seq<Id>, now: int, i: nat)
    requires |ids| == |sets| && i < |sets|
    ensures BatchAll(db, sets[..i + 1], ids[..i + 1], now) ==
            BatchOne(BatchAll(db, sets[..i], ids[..i], now), sets[i], ids[i], now)
  {
    assert sets[..i + 1][..i] == sets[..i] && ids[..i + 1][..i] == ids[..i];
  }

  lemma StartsInStep(start: Db, states: Accounts, rows: set<Id>)
    requires states == map a | a in rows && a in start.accounts :: start.accounts[a]
    ensures InStep(start, start, states, map[], [], rows)
  {
  }

  lemma InvalidSkips(db: Db, es: seq<Entry>, id: Id, now: int)
    requires !Balanced(es)
    ensures !BatchAccepts(db.accounts, es) && BatchOne(db, es, id, now) == db
  {
  }

  lemma AcceptedIsKnown(states: Accounts, es: seq<Entry>, changes: Changes)
    requires BatchAccepts(states, es) && StandsFor(changes, es)
    ensures Known(states, es) && changes.Keys <= states.Keys
  {
  }
}
