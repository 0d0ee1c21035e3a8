/** No run of any database path takes an asset or expense account below zero,
    clearing accounts excepted. */
module Overdraft {
  import opened Domain
  import opened Posting
  import opened Transfers
  import TransferStore

  /** An account that must never go negative. */
  predicate Guarded(a: Account)
  {
    (a.typ.Asset? || a.typ.Expense?) && a.name != CLEARING_NAME
  }

  ghost predicate Solvent(accounts: Accounts)
  {
    forall a :: a in accounts && Guarded(accounts[a]) ==> accounts[a].balance >= 0
  }

  datatype Action =
    | OpenAccount(id: Id, row: Account)
    | Single(es: seq<Entry>, tx: Id, now: int)
    | Batch(sets: seq<seq<Entry>>, txs: seq<Id>, now: int)
    | SourceDebit(req: Request, clearing: Id, ids: SourceIds, now: int)
    | DestinationCredits(items: seq<Item>, now: int)
    | Refund(ledger: Id, account: Id, clearing: Id, amount: int, tx: Id, now: int)

  ghost predicate Enabled(db: Db, a: Action)
  {
    match a
    case OpenAccount(id, account) => id !in db.accounts && account.balance == 0
    case Single(_, _, _) => true
    case Batch(sets, txs, _) => |txs| == |sets|
    case SourceDebit(req, clearing, _, _) =>
      && req.amount > 0 && SourceRefusal(db, req).None? && IsClearing(db.accounts, req.sourceLedger, clearing)
    case DestinationCredits(items, _) =>
      forall it :: it in items ==> it.amount > 0 && IsClearing(db.accounts, it.ledger, it.clearing)
    case Refund(ledger, _, clearing, amount, _, _) => amount > 0 && IsClearing(db.accounts, ledger, clearing)
  }

  ghost function Step(db: Db, a: Action): Db
    requires Enabled(db, a)
  {
    match a
    case OpenAccount(id, account) => db.(accounts := db.accounts[id := account])
    case Single(es, tx, now) => PostOne(db, es, tx, now)
    case Batch(sets, txs, now) => BatchAll(db, sets, txs, now)
    case SourceDebit(req, clearing, ids, now) => WriteSource(db, req, clearing, ids, now)
    case DestinationCredits(items, now) => BulkCredit(db, items, now)
    case Refund(ledger, account, clearing, amount, tx, now) => PostLeg(db, ledger, account, clearing, amount, tx, now)
  }

  ghost predicate IsRun(db: Db, run: seq<Action>)
    decreases |run|, 0
  {
    run == [] || (IsRun(db, run[..|run| - 1]) && Enabled(After(db, run[..|run| - 1]), run[|run| - 1]))
  }

  ghost function After(db: Db, run: seq<Action>): Db
    requires IsRun(db, run)
    decreases |run|, 1
  {
    if run == [] then db else Step(After(db, run[..|run| - 1]), run[|run| - 1])
  }

  /** Every source debit the program writes is a step here, whatever its ledgers. */
  lemma CreatedIsEnabled(db: Db, more: Db, t: TransferText, found: Option<Id>, clearing: Id, ids: SourceIds, now: int)
    requires (found.Some? ==> found.value in db.sagas) && Reply(db, t, found) == Created
    requires TransferStore.AddsClearing(db, more) && IsClearing(more.accounts, Parsed(t).value.sourceLedger, clearing)
    ensures Enabled(more, SourceDebit(Parsed(t).value, clearing, ids, now))
  {
    var req := Parsed(t).value;
    assert more.accounts[req.source] == db.accounts[req.source] && more.accounts[req.dest] == db.accounts[req.dest];
  }

  /** A posting moves only accounts it names, and those pass the funds check. */
  lemma EnterSolvent(db: Db, es: seq<Entry>, ledger: Id, tx: Id, now: int)
    requires Solvent(db.accounts) && Known(db.accounts, es) && Affordable(db.accounts, es)
    ensures Solvent(Enter(db, es, ledger, tx, now).accounts)
  {
    forall a | a in db.accounts && Guarded(db.accounts[a])
      ensures db.accounts[a].balance + Net(es, a) >= 0
    {
      if e :| e in es && e.account == a {
      } else {
        NetUntouched(es, a);
      }
    }
  }

  lemma {:induction false} BatchSolvent(db: Db, sets: seq<seq<Entry>>, txs: seq<Id>, now: int)
    requires Solvent(db.accounts) && |txs| == |sets|
    ensures Solvent(BatchAll(db, sets, txs, now).accounts)
    decreases |sets|
  {
    hide Solvent, Balanced, Sentinel, Enter, Affordable;
    if sets != [] {
      var n := |sets| - 1;
      BatchSolvent(db, sets[..n], txs[..n], now);
      var m := BatchAll(db, sets[..n], txs[..n], now);
      if BatchAccepts(m.accounts, sets[n]) {
        EnterSolvent(m, sets[n], Sentinel(m.accounts, sets[n]).value, txs[n], now);
      }
    }
  }

  /** Destination credits only ever take from clearing accounts. */
  lemma {:induction false} DeltaFloor(accounts: Accounts, items: seq<Item>, a: Id)
    requires a in accounts && accounts[a].name != CLEARING_NAME
    requires forall it :: it in items ==> it.amount > 0 && IsClearing(accounts, it.ledger, it.clearing)
    ensures Delta(items, a) >= 0
    decreases |items|
  {
    if items != [] {
      assert items[|items| - 1] in items;
      DeltaFloor(accounts, items[..|items| - 1], a);
    }
  }

  lemma StepSolvent(db: Db, a: Action)
    requires Solvent(db.accounts) && Enabled(db, a)
    ensures Solvent(Step(db, a).accounts)
  {
    hide Balanced, OneLedger, BatchAll;
    match a
    case OpenAccount(_, _) =>
    case Single(es, tx, now) =>
      if Accepts(db.accounts, es) {
        NotEmpty(es);
        EnterSolvent(db, es, db.accounts[es[0].account].ledger, tx, now);
      }
    case Batch(sets, txs, now) => BatchSolvent(db, sets, txs, now);
    case SourceDebit(_, _, _, _) =>
    case DestinationCredits(items, now) =>
      forall x | x in db.accounts && Guarded(db.accounts[x]) ensures Delta(items, x) >= 0 {
        DeltaFloor(db.accounts, items, x);
      }
    case Refund(_, _, _, _, _, _) =>
  }

  /** Overdraft safety over every interleaving of posts, batches, source debits,
      destination batches and refunds. */
  lemma {:induction false} NeverOverdrawn(db: Db, run: seq<Action>)
    requires Solvent(db.accounts) && IsRun(db, run)
    ensures Solvent(After(db, run).accounts)
    decreases |run|
  {
    hide Solvent;
    if run != [] {
      NeverOverdrawn(db, run[..|run| - 1]);
      StepSolvent(After(db, run[..|run| - 1]), run[|run| - 1]);
    }
  }
}
