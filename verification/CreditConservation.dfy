/** In-transit conservation in the database: whatever the interleaving of source debits,
    destination workers and other postings, clearing accounts hold exactly what has left
    its source and not reached its destination. */
module CreditConservation {
  import opened Domain
  import opened Sums
  import opened Posting
  import opened Transfers
  import opened CreditWorkers
  import TransferStore

  /** One ledger, or all of them. */
  datatype Scope = All | Only(ledger: Id)

  predicate Covers(scope: Scope, ledger: Id)
  {
    scope.All? || scope.ledger == ledger
  }

  function ClearingIn(accounts: Accounts, scope: Scope): set<Id>
  {
    set a | a in accounts && accounts[a].name == CLEARING_NAME && Covers(scope, accounts[a].ledger)
  }

  function BalanceAt(accounts: Accounts, a: Id): int
  {
    if a in accounts then accounts[a].balance else 0
  }

  /** What the clearing accounts hold. */
  ghost function Held(accounts: Accounts, scope: Scope): int
  {
    Sum(ClearingIn(accounts, scope), a => BalanceAt(accounts, a))
  }

  function Leaving(g: SagaRow, scope: Scope): int
  {
    if Covers(scope, g.sourceLedger) then g.amount else 0
  }

  function Arriving(g: SagaRow, scope: Scope): int
  {
    if Covers(scope, g.destLedger) then g.amount else 0
  }

  /** A transfer's outgoing amount, less its incoming amount once completed. */
  function Flow(sagas: Sagas, g: Id, scope: Scope): int
  {
    if g !in sagas then 0
    else Leaving(sagas[g], scope) - if sagas[g].status == Completed then Arriving(sagas[g], scope) else 0
  }

  ghost function InTransit(sagas: Sagas, scope: Scope): int
  {
    Sum(sagas.Keys, g => Flow(sagas, g, scope))
  }

  ghost predicate Conserved(s: Sys, scope: Scope)
  {
    Held(s.db.accounts, scope) == InTransit(s.db.sagas, scope)
  }

  // ---------------------------------------------------------- keeping away from clearing

  /** Accounts keep their name and ledger, clearing accounts their balance, and new
      clearing accounts start at zero. */
  ghost predicate LeavesClearing(was: Accounts, now: Accounts)
  {
    && (forall a :: a in was ==>
          && a in now && now[a].name == was[a].name && now[a].ledger == was[a].ledger
          && (was[a].name == CLEARING_NAME ==> now[a].balance == was[a].balance))
    && (forall a :: a in now && a !in was && now[a].name == CLEARING_NAME ==> now[a].balance == 0)
  }

  ghost predicate Ordinary(accounts: Accounts, a: Id)
  {
    a in accounts && accounts[a].name != CLEARING_NAME
  }

  /** Other postings and transfer endpoints are not clearing accounts; the program's own
      legs use their ledger's. */
  ghost predicate KeepsAway(s: Sys, a: Action)
  {
    match a
    case Debit(more, req, clearing, _) =>
      && LeavesClearing(s.db.accounts, more)
      && IsClearing(more, req.sourceLedger, clearing) && Ordinary(more, req.source)
    case Posted(accounts, _, _) => LeavesClearing(s.db.accounts, accounts)
    case Commit(_, more, resolved) =>
      && LeavesClearing(s.db.accounts, more)
      && forall it :: it in resolved ==> IsClearing(more, it.ledger, it.clearing) && Ordinary(more, it.dest)
    case _ => true
  }

  ghost predicate RunKeepsAway(s: Sys, run: seq<Action>)
    requires IsRun(s, run)
    decreases |run|
  {
    run == [] || (RunKeepsAway(s, run[..|run| - 1]) && KeepsAway(After(s, run[..|run| - 1]), run[|run| - 1]))
  }

  /** Adding clearing accounts on demand leaves clearing alone. */
  lemma AddingLeaves(db: Db, more: Db)
    requires TransferStore.AddsClearing(db, more)
    ensures LeavesClearing(db.accounts, more.accounts)
  {
  }

  lemma HeldStays(was: Accounts, now: Accounts, scope: Scope)
    requires LeavesClearing(was, now)
    ensures Held(now, scope) == Held(was, scope)
  {
    var kept, all := ClearingIn(was, scope), ClearingIn(now, scope);
    var added := all - kept;
    forall a | a in kept ensures a in all {
      assert a in was;
    }
    assert all == kept + added;
    forall a | a in added ensures BalanceAt(now, a) == 0 {
      assert a !in was;
    }
    SumUnion(kept, added, a => BalanceAt(now, a));
    SumZero(added, a => BalanceAt(now, a));
    SumCong(kept, a => BalanceAt(was, a), a => BalanceAt(now, a));
  }

  // ------------------------------------------------------------------- a source debit

  lemma DebitHeld(more: Accounts, source: Id, ledger: Id, clearing: Id, amount: int, scope: Scope)
    requires IsClearing(more, ledger, clearing) && Ordinary(more, source)
    ensures Held(CaseMove(more, source, clearing, -amount), scope) ==
            Held(more, scope) + if Covers(scope, ledger) then amount else 0
  {
    var now := CaseMove(more, source, clearing, -amount);
    var c := ClearingIn(more, scope);
    assert ClearingIn(now, scope) == c;
    forall a | a in c && a != clearing ensures BalanceAt(now, a) == BalanceAt(more, a) {
      assert a != source;
    }
    if clearing in c {
      SumUpdate(c, a => BalanceAt(more, a), a => BalanceAt(now, a), clearing);
    } else {
      SumCong(c, a => BalanceAt(more, a), a => BalanceAt(now, a));
    }
  }

  lemma DebitFlow(sagas: Sagas, id: Id, g: SagaRow, scope: Scope)
    requires id !in sagas && g.status == Pending
    ensures InTransit(sagas[id := g], scope) == InTransit(sagas, scope) + Leaving(g, scope)
  {
    var now := sagas[id := g];
    assert now.Keys == sagas.Keys + {id};
    SumInsert(sagas.Keys, x => Flow(sagas, x, scope), x => Flow(now, x, scope), id);
  }

  // ------------------------------------------------------------------ a bulk credit

  /** What a batch takes out of the clearing accounts in scope. */
  function Taken(items: seq<Item>, scope: Scope): int
  {
    if items == [] then 0 else
      var last := items[|items| - 1];
      Taken(items[..|items| - 1], scope) + if Covers(scope, last.ledger) then last.amount else 0
  }

  lemma {:induction false} DeltaSum(accounts: Accounts, items: seq<Item>, scope: Scope)
    requires forall it :: it in items ==> IsClearing(accounts, it.ledger, it.clearing) && Ordinary(accounts, it.dest)
    ensures Sum(ClearingIn(accounts, scope), a => Delta(items, a)) == -Taken(items, scope)
    decreases |items|
  {
    var c := ClearingIn(accounts, scope);
    if items == [] {
      SumZero(c, a => Delta(items, a));
    } else {
      var head, last := items[..|items| - 1], items[|items| - 1];
      assert last in items;
      DeltaSum(accounts, head, scope);
      DeltaStep(accounts, c, items, scope);
    }
  }

  lemma DeltaStep(accounts: Accounts, c: set<Id>, items: seq<Item>, scope: Scope)
    requires items != [] && c == ClearingIn(accounts, scope)
    requires var last := items[|items| - 1];
             IsClearing(accounts, last.ledger, last.clearing) && Ordinary(accounts, last.dest)
    ensures var last := items[|items| - 1];
            Sum(c, a => Delta(items, a)) ==
            Sum(c, a => Delta(items[..|items| - 1], a)) - if Covers(scope, last.ledger) then last.amount else 0
  {
    var head, last := items[..|items| - 1], items[|items| - 1];
    forall a | a in c ensures Delta(items, a) == Delta(head, a) - if a == last.clearing then last.amount else 0 {
      assert a != last.dest;
    }
    if last.clearing in c {
      SumUpdate(c, a => Delta(head, a), a => Delta(items, a), last.clearing);
    } else {
      SumCong(c, a => Delta(head, a), a => Delta(items, a));
    }
  }

  lemma CreditHeld(db: Db, items: seq<Item>, now: int, scope: Scope)
    requires forall it :: it in items ==>
               IsClearing(db.accounts, it.ledger, it.clearing) && Ordinary(db.accounts, it.dest)
    ensures Held(BulkCredit(db, items, now).accounts, scope) == Held(db.accounts, scope) - Taken(items, scope)
  {
    hide Delta, Taken;
    var after, c := BulkCredit(db, items, now).accounts, ClearingIn(db.accounts, scope);
    assert ClearingIn(after, scope) == c;
    DeltaSum(db.accounts, items, scope);
    SumPlus(c, a => BalanceAt(db.accounts, a), a => Delta(items, a), a => BalanceAt(after, a));
  }

  /** The items are open transfers, each once. */
  ghost predicate OpenOnce(sagas: Sagas, items: seq<Item>)
  {
    && (forall i :: 0 <= i < |items| ==>
          && items[i].saga in sagas && sagas[items[i].saga].status != Completed
          && items[i].ledger == sagas[items[i].saga].destLedger && items[i].amount == sagas[items[i].saga].amount)
    && (forall i, j :: 0 <= i < j < |items| ==> items[i].saga != items[j].saga)
  }

  function ArrivingAt(sagas: Sagas, g: Id, scope: Scope): int
  {
    if g in sagas then Arriving(sagas[g], scope) else 0
  }

  lemma {:induction false} TakenIsArriving(sagas: Sagas, items: seq<Item>, scope: Scope)
    requires OpenOnce(sagas, items)
    ensures Sum(SagaIds(items), g => ArrivingAt(sagas, g, scope)) == Taken(items, scope)
    decreases |items|
  {
    if items == [] {
      SumZero(SagaIds(items), g => ArrivingAt(sagas, g, scope));
    } else {
      var n, head, last := |items| - 1, items[..|items| - 1], items[|items| - 1];
      TakenIsArriving(sagas, head, scope);
      SetsGrow(items);
      forall it | it in head ensures it.saga != last.saga {
        var i :| 0 <= i < n && items[i] == it;
      }
      SumAdd(SagaIds(head), g => ArrivingAt(sagas, g, scope), last.saga);
    }
  }

  lemma CreditFlow(sagas: Sagas, items: seq<Item>, scope: Scope)
    requires OpenOnce(sagas, items)
    ensures InTransit(BulkSagas(sagas, items), scope) == InTransit(sagas, scope) - Taken(items, scope)
  {
    var now, ids := BulkSagas(sagas, items), SagaIds(items);
    TakenIsArriving(sagas, items, scope);
    forall g | g in ids ensures g in sagas && sagas[g].status != Completed {
      var it :| it in items && it.saga == g;
      var i :| 0 <= i < |items| && items[i] == it;
    }
    hide OpenOnce, Taken, SagaIds;
    assert now.Keys == sagas.Keys;
    forall g
      ensures Flow(sagas, g, scope) == Flow(now, g, scope) + if g in ids then ArrivingAt(sagas, g, scope) else 0
    {
    }
    hide BulkSagas;
    FlowSplits(sagas, now, ids, scope);
  }

  lemma FlowSplits(sagas: Sagas, now: Sagas, ids: set<Id>, scope: Scope)
    requires now.Keys == sagas.Keys && ids <= sagas.Keys
    requires forall g ::
               Flow(sagas, g, scope) == Flow(now, g, scope) + if g in ids then ArrivingAt(sagas, g, scope) else 0
    ensures InTransit(sagas, scope) == InTransit(now, scope) + Sum(ids, g => ArrivingAt(sagas, g, scope))
  {
    hide Flow, ArrivingAt;
    var rest := sagas.Keys - ids;
    assert sagas.Keys == ids + rest;
    SumUnion(ids, rest, g => Flow(sagas, g, scope));
    SumUnion(ids, rest, g => Flow(now, g, scope));
    SumCong(rest, g => Flow(sagas, g, scope), g => Flow(now, g, scope));
    SumPlus(ids, g => Flow(now, g, scope), g => ArrivingAt(sagas, g, scope), g => Flow(sagas, g, scope));
  }

  // --------------------------------------------------------------------------- runs

  lemma CommitOpen(s: Sys, a: Action)
    requires Inv(s) && Enabled(s, a) && a.Commit?
    ensures OpenOnce(s.db.sagas, a.resolved)
  {
    hide Inv;
    forall i | 0 <= i < |a.resolved|
      ensures var it := a.resolved[i];
              && it.saga in s.db.sagas && s.db.sagas[it.saga].status != Completed
              && it.ledger == s.db.sagas[it.saga].destLedger && it.amount == s.db.sagas[it.saga].amount
    {
      CommitNew(s, a.w, i);
      HeldReadOff(s, a.w, i);
    }
    forall i, j | 0 <= i < j < |a.resolved| ensures a.resolved[i].saga != a.resolved[j].saga {
      CommitDistinct(s, a.w, i, j);
    }
  }

  lemma HeldReadOff(s: Sys, w: int, i: int)
    requires Inv(s) && w in s.workers && 0 <= i < |s.workers[w]|
    ensures ReadOff(s.db.sagas, s.db.commands, s.workers[w][i])
  {
  }

  lemma StepConserves(s: Sys, a: Action, scope: Scope)
    requires Inv(s) && Conserved(s, scope) && Enabled(s, a) && KeepsAway(s, a)
    ensures Conserved(Step(s, a), scope)
  {
    hide Inv, Held, InTransit, LeavesClearing, Ordinary, CaseMove, BulkCredit, Resolves, Picks;
    match a
    case Tick(_) =>
    case Debit(more, req, clearing, ids) =>
      HeldStays(s.db.accounts, more, scope);
      DebitHeld(more, req.source, req.sourceLedger, clearing, req.amount, scope);
      DebitFlow(s.db.sagas, ids.saga, Step(s, a).db.sagas[ids.saga], scope);
    case Posted(accounts, _, _) => HeldStays(s.db.accounts, accounts, scope);
    case Pick(_, _) =>
    case Commit(_, more, resolved) =>
      HeldStays(s.db.accounts, more, scope);
      CommitOpen(s, a);
      CreditHeld(s.db.(accounts := more), resolved, s.now, scope);
      CreditFlow(s.db.sagas, resolved, scope);
      BulkIs(s.db.(accounts := more), resolved, s.now);
    case GiveUp(_) =>
  }

  lemma BulkIs(db: Db, items: seq<Item>, now: int)
    ensures BulkCredit(db, items, now).sagas == BulkSagas(db.sagas, items)
  {
  }

  lemma {:induction false} RunConserves(s: Sys, run: seq<Action>, scope: Scope)
    requires Inv(s) && Conserved(s, scope) && IsRun(s, run) && RunKeepsAway(s, run)
    ensures Conserved(After(s, run), scope)
    decreases |run|
  {
    hide Inv, Conserved, Enabled, Step, KeepsAway;
    if run != [] {
      var n := |run| - 1;
      RunConserves(s, run[..n], scope);
      RunKeeps(s, run[..n]);
      StepConserves(After(s, run[..n]), run[n], scope);
    }
  }

  function PendingAmount(sagas: Sagas, g: Id): int
  {
    if g in sagas && sagas[g].status != Completed then sagas[g].amount else 0
  }

  /** From clearing accounts at zero, over every run that keeps away from them: each
      ledger's clearing balance is its outgoing transfers minus its completed incoming
      ones, and over all ledgers together clearing holds exactly the pending transfers. */
  lemma ClearingHoldsWhatIsPending(accounts: Accounts, journal: seq<Transaction>, queued: set<Id>, now: int,
                                   run: seq<Action>, ledger: Id)
    requires forall a :: a in accounts && accounts[a].name == CLEARING_NAME ==> accounts[a].balance == 0
    requires IsRun(Start(accounts, journal, queued, now), run)
    requires RunKeepsAway(Start(accounts, journal, queued, now), run)
    ensures var s := After(Start(accounts, journal, queued, now), run);
            && Held(s.db.accounts, Only(ledger)) == InTransit(s.db.sagas, Only(ledger))
            && Held(s.db.accounts, All) == Sum(s.db.sagas.Keys, g => PendingAmount(s.db.sagas, g))
  {
    var start := Start(accounts, journal, queued, now);
    SumZero(ClearingIn(accounts, Only(ledger)), a => BalanceAt(accounts, a));
    SumZero(ClearingIn(accounts, All), a => BalanceAt(accounts, a));
    assert Inv(start) && Conserved(start, Only(ledger)) && Conserved(start, All);
    hide Inv;
    RunConserves(start, run, Only(ledger));
    RunConserves(start, run, All);
    var s := After(start, run);
    SumCong(s.db.sagas.Keys, g => Flow(s.db.sagas, g, All), g => PendingAmount(s.db.sagas, g));
  }
}
