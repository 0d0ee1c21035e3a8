/** Ledger boundaries in the database: over every run of the posting paths, which
    transactions and transfers stay inside the ledgers they name. */
module Boundaries {
  import opened Domain
  import opened Posting
  import opened Transfers
  import opened Overdraft

  /** Accounts stay, each in its ledger, and the journal only grows. */
  ghost predicate Extends(was: Db, now: Db)
  {
    && was.journal <= now.journal
    && forall a :: a in was.accounts ==> a in now.accounts && now.accounts[a].ledger == was.accounts[a].ledger
  }

  ghost predicate SameLedgers(was: Accounts, now: Accounts)
  {
    was.Keys == now.Keys && forall a :: a in was ==> now[a].ledger == was[a].ledger
  }

  lemma {:induction false} BatchExtends(db: Db, sets: seq<seq<Entry>>, txs: seq<Id>, now: int)
    requires |txs| == |sets|
    ensures Extends(db, BatchAll(db, sets, txs, now)) && SameLedgers(db.accounts, BatchAll(db, sets, txs, now).accounts)
    ensures BatchAll(db, sets, txs, now).sagas == db.sagas
    decreases |sets|
  {
    hide BatchAccepts, Sentinel;
    if sets != [] {
      var n := |sets| - 1;
      BatchExtends(db, sets[..n], txs[..n], now);
    }
  }

  lemma StepExtends(db: Db, a: Action)
    requires Enabled(db, a)
    ensures Extends(db, Step(db, a))
  {
    hide BatchAll, Accepts, Delta, Legs;
    if a.Batch? {
      BatchExtends(db, a.sets, a.txs, a.now);
    }
  }

  lemma ExtendsTrans(a: Db, b: Db, c: Db)
    requires Extends(a, b) && Extends(b, c)
    ensures Extends(a, c)
  {
  }

  lemma {:induction false} RunExtends(db: Db, run: seq<Action>, k: nat)
    requires IsRun(db, run) && k <= |run| && IsRun(db, run[..k])
    ensures Extends(After(db, run[..k]), After(db, run))
    decreases |run| - k
  {
    hide Extends, Enabled, Step;
    if k == |run| {
      assert run[..k] == run;
      SelfExtends(After(db, run));
    } else {
      Prefix(db, run, k + 1);
      assert run[..k + 1][..k] == run[..k];
      StepExtends(After(db, run[..k]), run[k]);
      RunExtends(db, run, k + 1);
      ExtendsTrans(After(db, run[..k]), After(db, run[..k + 1]), After(db, run));
    }
  }

  lemma SelfExtends(db: Db)
    ensures Extends(db, db)
  {
  }

  lemma {:induction false} Prefix(db: Db, run: seq<Action>, k: nat)
    requires IsRun(db, run) && k <= |run|
    ensures IsRun(db, run[..k])
    decreases |run| - k
  {
    hide Enabled, Step;
    if k == |run| {
      assert run[..k] == run;
    } else {
      Prefix(db, run, k + 1);
      assert run[..k + 1][..k] == run[..k];
    }
  }

  // ---------------------------------------------------------------- source debits

  /** The journal has the transaction, and every line of it names an account of its own
      ledger. */
  ghost predicate DebitIn(db: Db, req: Request, clearing: Id, tx: Id)
  {
    exists t :: && t in db.journal && t.id == tx && t.ledger == req.sourceLedger
                && t.entries == [Entry(req.source, req.amount, 0), Entry(clearing, 0, req.amount)]
                && forall e :: e in t.entries ==> e.account in db.accounts && db.accounts[e.account].ledger == t.ledger
  }

  lemma DebitWritten(db: Db, req: Request, clearing: Id, ids: SourceIds, now: int)
    requires SourceRefusal(db, req).None? && IsClearing(db.accounts, req.sourceLedger, clearing)
    ensures DebitIn(WriteSource(db, req, clearing, ids, now), req, clearing, ids.tx)
  {
    var r := WriteSource(db, req, clearing, ids, now);
    var t := Transaction(ids.tx, req.sourceLedger, DebitEntries(req.source, clearing, req.amount), now);
    assert r.journal[|db.journal|] == t && t in r.journal;
    assert r.accounts.Keys == db.accounts.Keys;
    assert forall a :: a in db.accounts ==> r.accounts[a].ledger == db.accounts[a].ledger;
    assert db.accounts[req.source].ledger == req.sourceLedger == db.accounts[clearing].ledger;
  }

  lemma DebitStays(was: Db, now: Db, req: Request, clearing: Id, tx: Id)
    requires DebitIn(was, req, clearing, tx) && Extends(was, now)
    ensures DebitIn(now, req, clearing, tx)
  {
    var t :| && t in was.journal && t.id == tx && t.ledger == req.sourceLedger
             && t.entries == [Entry(req.source, req.amount, 0), Entry(clearing, 0, req.amount)]
             && forall e :: e in t.entries ==> e.account in was.accounts && was.accounts[e.account].ledger == t.ledger;
    assert t in now.journal;
    forall e | e in t.entries ensures e.account in now.accounts && now.accounts[e.account].ledger == t.ledger {
      assert e.account in was.accounts;
    }
  }

  /** Every source debit of every run is in the journal to stay, in the ledger it was
      asked for, and names accounts of that ledger only. */
  lemma DebitsStayInTheirLedger(db: Db, run: seq<Action>, k: nat)
    requires IsRun(db, run) && k < |run| && run[k].SourceDebit?
    ensures DebitIn(After(db, run), run[k].req, run[k].clearing, run[k].ids.tx)
  {
    Prefix(db, run, k + 1);
    assert run[..k + 1][..k] == run[..k];
    var a := run[k];
    DebitWritten(After(db, run[..k]), a.req, a.clearing, a.ids, a.now);
    RunExtends(db, run, k + 1);
    DebitStays(After(db, run[..k + 1]), After(db, run), a.req, a.clearing, a.ids.tx);
  }

  // --------------------------------------------------------------- transfer endpoints

  /** Both endpoints of every transfer lie in the ledgers it names. */
  ghost predicate EndpointsIn(accounts: Accounts, sagas: map<Id, SagaRow>)
  {
    forall g :: g in sagas ==>
      && sagas[g].source in accounts && accounts[sagas[g].source].ledger == sagas[g].sourceLedger
      && sagas[g].dest in accounts && accounts[sagas[g].dest].ledger == sagas[g].destLedger
  }

  lemma StepEndpoints(db: Db, a: Action)
    requires EndpointsIn(db.accounts, db.sagas) && Enabled(db, a)
    ensures EndpointsIn(Step(db, a).accounts, Step(db, a).sagas)
  {
    StepExtends(db, a);
    if a.Batch? {
      BatchExtends(db, a.sets, a.txs, a.now);
    }
    hide BatchAll, Accepts, Delta, Legs, SagaIds, EventIds;
    var r := Step(db, a);
    forall g | g in r.sagas
      ensures && r.sagas[g].source in r.accounts && r.accounts[r.sagas[g].source].ledger == r.sagas[g].sourceLedger
              && r.sagas[g].dest in r.accounts && r.accounts[r.sagas[g].dest].ledger == r.sagas[g].destLedger
    {
      if a.SourceDebit? && g == a.ids.saga {
        assert a.req.source in db.accounts && a.req.dest in db.accounts;
      } else {
        assert g in db.sagas && r.sagas[g].(status := Pending) == db.sagas[g].(status := Pending);
      }
    }
  }

  lemma {:induction false} TransfersStayInTheirLedgers(db: Db, run: seq<Action>)
    requires EndpointsIn(db.accounts, db.sagas) && IsRun(db, run)
    ensures EndpointsIn(After(db, run).accounts, After(db, run).sagas)
    decreases |run|
  {
    hide EndpointsIn, Enabled, Step;
    if run != [] {
      TransfersStayInTheirLedgers(db, run[..|run| - 1]);
      StepEndpoints(After(db, run[..|run| - 1]), run[|run| - 1]);
    }
  }

  // ------------------------------------------------------------------ all transactions

  ghost predicate LiesIn(accounts: Accounts, t: Transaction)
  {
    forall e :: e in t.entries ==> e.account in accounts && accounts[e.account].ledger == t.ledger
  }

  /** Every transaction lies in the ledger it is recorded under. */
  ghost predicate AllLieIn(db: Db)
  {
    forall t :: t in db.journal ==> LiesIn(db.accounts, t)
  }

  /** No posting of a batch straddles the nil ledger, and legs are read off their
      transfers. */
  ghost predicate Proper(db: Db, a: Action)
  {
    match a
    case Batch(sets, _, _) =>
      forall i :: 0 <= i < |sets| ==> !(Known(db.accounts, sets[i]) && Straddles(db.accounts, sets[i]))
    case DestinationCredits(items, _) =>
      forall it :: it in items ==>
        && it.saga in db.sagas
        && it.ledger == db.sagas[it.saga].destLedger && it.dest == db.sagas[it.saga].dest
    case Refund(ledger, account, _, _, _, _) => account in db.accounts && db.accounts[account].ledger == ledger
    case _ => true
  }

  ghost predicate ProperRun(db: Db, run: seq<Action>)
    requires IsRun(db, run)
    decreases |run|
  {
    run == [] || (ProperRun(db, run[..|run| - 1]) && Proper(After(db, run[..|run| - 1]), run[|run| - 1]))
  }

  /** What is recorded stays recorded where it was, so only new transactions matter. */
  lemma NewLieIn(was: Db, now: Db, more: seq<Transaction>)
    requires AllLieIn(was) && Extends(was, now) && now.journal == was.journal + more
    requires forall t :: t in more ==> LiesIn(now.accounts, t)
    ensures AllLieIn(now)
  {
    forall t | t in now.journal ensures LiesIn(now.accounts, t) {
      if t in was.journal {
        assert LiesIn(was.accounts, t);
      }
    }
  }

  lemma EnterLiesIn(db: Db, es: seq<Entry>, ledger: Id, tx: Id, now: int)
    requires AllLieIn(db) && Known(db.accounts, es)
    requires forall e :: e in es ==> db.accounts[e.account].ledger == ledger
    ensures AllLieIn(Enter(db, es, ledger, tx, now))
  {
    hide AllLieIn;
    NewLieIn(db, Enter(db, es, ledger, tx, now), [Transaction(tx, ledger, es, now)]);
  }

  lemma {:induction false} BatchLiesIn(db: Db, sets: seq<seq<Entry>>, txs: seq<Id>, now: int)
    requires AllLieIn(db) && |txs| == |sets|
    requires forall i :: 0 <= i < |sets| ==> !(Known(db.accounts, sets[i]) && Straddles(db.accounts, sets[i]))
    ensures AllLieIn(BatchAll(db, sets, txs, now))
    decreases |sets|
  {
    hide AllLieIn, Balanced, Enter, Affordable, Straddles, Sentinel;
    if sets != [] {
      var n := |sets| - 1;
      var m, es := BatchAll(db, sets[..n], txs[..n], now), sets[n];
      BatchLiesIn(db, sets[..n], txs[..n], now);
      BatchExtends(db, sets[..n], txs[..n], now);
      if BatchAccepts(m.accounts, es) {
        NotEmpty(es);
        SentinelExact(m.accounts, es);
        if Straddles(m.accounts, es) {
          StraddlesSame(m.accounts, db.accounts, es);
        }
        EnterLiesIn(m, es, Sentinel(m.accounts, es).value, txs[n], now);
      }
    }
  }

  lemma {:induction false} LegsLieIn(accounts: Accounts, items: seq<Item>, now: int)
    requires forall it :: it in items ==>
               && it.dest in accounts && accounts[it.dest].ledger == it.ledger
               && IsClearing(accounts, it.ledger, it.clearing)
    ensures forall t :: t in Legs(items, now) ==> LiesIn(accounts, t)
    decreases |items|
  {
    if items != [] {
      assert items[|items| - 1] in items;
      LegsLieIn(accounts, items[..|items| - 1], now);
    }
  }

  lemma StepLiesIn(db: Db, a: Action)
    requires AllLieIn(db) && EndpointsIn(db.accounts, db.sagas) && Enabled(db, a) && Proper(db, a)
    ensures AllLieIn(Step(db, a))
  {
    hide AllLieIn, BatchAll, Balanced, Affordable, Legs, Delta;
    StepExtends(db, a);
    var r := Step(db, a);
    match a
    case OpenAccount(_, _) =>
      assert r.journal == db.journal + [];
      NewLieIn(db, r, []);
    case Single(es, tx, now) =>
      if Accepts(db.accounts, es) {
        NotEmpty(es);
        assert es[0] in es;
        EnterLiesIn(db, es, db.accounts[es[0].account].ledger, tx, now);
      }
    case Batch(sets, txs, now) => BatchLiesIn(db, sets, txs, now);
    case SourceDebit(req, clearing, ids, now) =>
      NewLieIn(db, r, [Transaction(ids.tx, req.sourceLedger, DebitEntries(req.source, clearing, req.amount), now)]);
    case DestinationCredits(items, now) =>
      forall it | it in items
        ensures it.dest in r.accounts && r.accounts[it.dest].ledger == it.ledger
        ensures IsClearing(r.accounts, it.ledger, it.clearing)
      {
        assert it.dest in db.accounts && db.accounts[it.dest].ledger == it.ledger;
      }
      LegsLieIn(r.accounts, items, now);
      NewLieIn(db, r, Legs(items, now));
    case Refund(ledger, account, clearing, amount, tx, now) =>
      NewLieIn(db, r, [Transaction(tx, ledger, CreditEntries(account, clearing, amount), now)]);
  }

  /** Over every proper run no transaction spans ledgers. */
  lemma {:induction false} TransactionsStayInTheirLedger(db: Db, run: seq<Action>)
    requires AllLieIn(db) && EndpointsIn(db.accounts, db.sagas) && IsRun(db, run) && ProperRun(db, run)
    ensures AllLieIn(After(db, run))
    decreases |run|
  {
    hide AllLieIn, EndpointsIn, Enabled, Step, Proper;
    if run != [] {
      var n := |run| - 1;
      TransactionsStayInTheirLedger(db, run[..n]);
      TransfersStayInTheirLedgers(db, run[..n]);
      StepLiesIn(After(db, run[..n]), run[n]);
    }
  }
}
