/** The database ledger as values: what one posting does, what a batch of
    postings does, and when the two agree. */
module Posting {
  import opened Domain

  datatype SagaStatus = Pending | Completed | Failed | Compensated

  datatype SagaRow = SagaRow(
    key: string, sourceLedger: Id, source: Id, destLedger: Id, dest: Id, amount: int, status: SagaStatus)

  datatype CommandKind = CreditDestination | RefundSource

  /** A saga command in the outbox. */
  datatype Command = Command(saga: Id, kind: CommandKind, processed: bool, attempts: nat, available: int, created: int)

  /** The committed tables. `queued` holds the transactions whose
      `transaction_posted` event has been put in the outbox. */
  datatype Db = Db(
    accounts: Accounts,
    journal: seq<Transaction>,
    queued: set<Id>,
    sagas: map<Id, SagaRow>,
    commands: map<Id, Command>)

  // ------------------------------------------------------------ single postings

  predicate OneLedger(accounts: Accounts, es: seq<Entry>)
    requires Known(accounts, es)
  {
    forall d, e :: d in es && e in es ==> accounts[d.account].ledger == accounts[e.account].ledger
  }

  /** No touched account ends below zero as its holder sees it. */
  predicate Affordable(accounts: Accounts, es: seq<Entry>)
    requires Known(accounts, es)
  {
    forall e :: e in es ==>
      Displayed(accounts[e.account].typ, accounts[e.account].balance + Net(es, e.account)) >= 0
  }

  predicate Accepts(accounts: Accounts, es: seq<Entry>)
  {
    Balanced(es) && Known(accounts, es) && OneLedger(accounts, es) && Affordable(accounts, es)
  }

  /** The rule a posting must meet, account by account: no asset or expense account it
      names ends below zero, and no liability, equity or revenue account above. */
  ghost predicate EndsWell(accounts: Accounts, es: seq<Entry>)
    requires Known(accounts, es)
  {
    forall e :: e in es ==>
      var a, end := accounts[e.account], accounts[e.account].balance + Net(es, e.account);
      && (a.typ in {Asset, Expense} ==> end >= 0)
      && (a.typ in {Liability, Equity, Revenue} ==> end <= 0)
  }

  /** Two lines or more, each a positive debit or a positive credit, equal totals, known
      accounts of one ledger, and a good end. */
  ghost predicate Allowed(accounts: Accounts, es: seq<Entry>)
  {
    && |es| >= 2 && Debits(es) == Credits(es)
    && (forall e :: e in es ==> (e.debit > 0 && e.credit == 0) || (e.credit > 0 && e.debit == 0))
    && (forall e :: e in es ==> e.account in accounts)
    && (forall d, e :: d in es && e in es ==> accounts[d.account].ledger == accounts[e.account].ledger)
    && EndsWell(accounts, es)
  }

  /** What is accepted is exactly what is allowed. */
  lemma AcceptsMeans(accounts: Accounts, es: seq<Entry>)
    ensures Accepts(accounts, es) <==> Allowed(accounts, es)
  {
    hide Debits, Credits, Net;
    assert (forall e :: e in es ==> OneSided(e)) <==>
           forall e :: e in es ==> (e.debit > 0 && e.credit == 0) || (e.credit > 0 && e.debit == 0);
    if Known(accounts, es) {
      forall e | e in es
        ensures Displayed(accounts[e.account].typ, accounts[e.account].balance + Net(es, e.account)) >= 0 <==>
                var a, end := accounts[e.account], accounts[e.account].balance + Net(es, e.account);
                (a.typ in {Asset, Expense} ==> end >= 0) && (a.typ in {Liability, Equity, Revenue} ==> end <= 0)
      {
      }
    }
  }

  /** Journal, balances and outbox event of one posting, line by line. */
  function Enter(db: Db, es: seq<Entry>, ledger: Id, id: Id, now: int): Db
    requires Known(db.accounts, es)
  {
    db.(accounts := ApplyEntries(db.accounts, es),
        journal := db.journal + [Transaction(id, ledger, es, now)],
        queued := db.queued + {id})
  }

  function PostOne(db: Db, es: seq<Entry>, id: Id, now: int): Db
  {
    if Accepts(db.accounts, es) then Enter(db, es, db.accounts[es[0].account].ledger, id, now) else db
  }

  /** Posting a list in index order through the single path. */
  function PostAll(db: Db, sets: seq<seq<Entry>>, ids: seq<Id>, now: int): Db
    requires |ids| == |sets|
  {
    if sets == [] then db else
      var n := |sets| - 1;
      PostOne(PostAll(db, sets[..n], ids[..n], now), sets[n], ids[n], now)
  }

  // -------------------------------------------------------------- batch postings

  /** The batch path's ledger check. The nil ledger doubles as "none seen yet". */
  function Sentinel(accounts: Accounts, es: seq<Entry>): Option<Id>
    requires Known(accounts, es)
  {
    if es == [] then Some(NIL) else
      var last := es[|es| - 1];
      assert last in es;
      var seen := Sentinel(accounts, es[..|es| - 1]);
      if seen.None? then None
      else if seen.value == NIL then Some(accounts[last.account].ledger)
      else if accounts[last.account].ledger == seen.value then seen
      else None
  }

  predicate BatchAccepts(accounts: Accounts, es: seq<Entry>)
  {
    Balanced(es) && Known(accounts, es) && Sentinel(accounts, es).Some? && Affordable(accounts, es)
  }

  function BatchOne(db: Db, es: seq<Entry>, id: Id, now: int): Db
  {
    if BatchAccepts(db.accounts, es) then Enter(db, es, Sentinel(db.accounts, es).value, id, now) else db
  }

  function BatchAll(db: Db, sets: seq<seq<Entry>>, ids: seq<Id>, now: int): Db
    requires |ids| == |sets|
  {
    if sets == [] then db else
      var n := |sets| - 1;
      BatchOne(BatchAll(db, sets[..n], ids[..n], now), sets[n], ids[n], now)
  }

  // ------------------------------------------------------- where the paths differ

  function LedgerAt(accounts: Accounts, es: seq<Entry>, i: nat): Id
    requires Known(accounts, es) && i < |es|
  {
    assert es[i] in es;
    accounts[es[i].account].ledger
  }

  /** Leading lines in the nil ledger, the rest in one other ledger. */
  ghost predicate Straddles(accounts: Accounts, es: seq<Entry>)
    requires Known(accounts, es)
  {
    exists k :: 0 < k < |es| && StraddlesAt(accounts, es, k)
  }

  ghost predicate StraddlesAt(accounts: Accounts, es: seq<Entry>, k: nat)
    requires Known(accounts, es) && k < |es|
  {
    && LedgerAt(accounts, es, k) != NIL
    && (forall i :: 0 <= i < k ==> LedgerAt(accounts, es, i) == NIL)
    && (forall i :: k <= i < |es| ==> LedgerAt(accounts, es, i) == LedgerAt(accounts, es, k))
  }

  /** What the sentinel scan has seen: nothing but nil, or nil and then one ledger. */
  lemma {:induction false} SentinelMeans(accounts: Accounts, es: seq<Entry>)
    requires Known(accounts, es)
    ensures Sentinel(accounts, es) == Some(NIL) <==> forall i :: 0 <= i < |es| ==> LedgerAt(accounts, es, i) == NIL
    ensures forall l :: l != NIL ==>
              (Sentinel(accounts, es) == Some(l) <==>
               exists k :: 0 <= k < |es| && StraddlesAt(accounts, es, k) && LedgerAt(accounts, es, k) == l)
    decreases |es|
  {
    if es != [] {
      var n := |es| - 1;
      var head := es[..n];
      SentinelMeans(accounts, head);
      assert forall i :: 0 <= i < n ==> LedgerAt(accounts, head, i) == LedgerAt(accounts, es, i);
      forall l | l != NIL && Sentinel(accounts, es) == Some(l)
        ensures exists k :: 0 <= k < |es| && StraddlesAt(accounts, es, k) && LedgerAt(accounts, es, k) == l
      {
        if Sentinel(accounts, head) == Some(NIL) {
          assert StraddlesAt(accounts, es, n);
        } else {
          var k :| 0 <= k < n && StraddlesAt(accounts, head, k) && LedgerAt(accounts, head, k) == l;
          assert StraddlesAt(accounts, es, k);
        }
      }
      forall k | 0 <= k < |es| && StraddlesAt(accounts, es, k)
        ensures Sentinel(accounts, es) == Some(LedgerAt(accounts, es, k))
      {
        if k < n {
          assert StraddlesAt(accounts, head, k);
          var l := LedgerAt(accounts, head, k);
          assert Sentinel(accounts, head) == Some(l);
          assert LedgerAt(accounts, es, n) == l;
        } else {
          assert Sentinel(accounts, head) == Some(NIL);
        }
      }
    }
  }

  /** The batch check passes exactly the one-ledger postings and the straddling
      ones; on the former it finds the posting's own ledger. */
  lemma SentinelExact(accounts: Accounts, es: seq<Entry>)
    requires Known(accounts, es) && es != []
    ensures Sentinel(accounts, es).Some? <==> OneLedger(accounts, es) || Straddles(accounts, es)
    ensures OneLedger(accounts, es) ==> Sentinel(accounts, es) == Some(accounts[es[0].account].ledger)
    ensures !(OneLedger(accounts, es) && Straddles(accounts, es))
  {
    SentinelMeans(accounts, es);
    var first := LedgerAt(accounts, es, 0);
    assert OneLedger(accounts, es) <==> forall i :: 0 <= i < |es| ==> LedgerAt(accounts, es, i) == first by {
      if forall i :: 0 <= i < |es| ==> LedgerAt(accounts, es, i) == first {
        forall d | d in es ensures accounts[d.account].ledger == first {
          var i :| 0 <= i < |es| && es[i] == d;
          assert LedgerAt(accounts, es, i) == first;
        }
      }
    }
    if OneLedger(accounts, es) && first != NIL {
      assert StraddlesAt(accounts, es, 0);
    }
    if Sentinel(accounts, es).Some? && Sentinel(accounts, es).value != NIL {
      var k :| 0 <= k < |es| && StraddlesAt(accounts, es, k);
      assert k == 0 ==> OneLedger(accounts, es);
    }
    if Straddles(accounts, es) {
      var k :| 0 < k < |es| && StraddlesAt(accounts, es, k);
      assert Sentinel(accounts, es) == Some(LedgerAt(accounts, es, k));
    }
  }

  /** The posting that tells the two paths apart, given what came before it. */
  ghost predicate SlipsThrough(accounts: Accounts, es: seq<Entry>)
  {
    Balanced(es) && Known(accounts, es) && Affordable(accounts, es) && Straddles(accounts, es)
  }

  lemma OneStep(db: Db, es: seq<Entry>, id: Id, now: int)
    ensures !SlipsThrough(db.accounts, es) ==>
              && (BatchAccepts(db.accounts, es) <==> Accepts(db.accounts, es))
              && BatchOne(db, es, id, now) == PostOne(db, es, id, now)
    ensures SlipsThrough(db.accounts, es) ==> BatchAccepts(db.accounts, es) && !Accepts(db.accounts, es)
  {
    hide Balanced, Affordable, Straddles, OneLedger, Sentinel, Enter;
    if Known(db.accounts, es) && es != [] {
      SentinelExact(db.accounts, es);
    } else if es == [] {
      EmptyUnbalanced();
    }
  }

  lemma EmptyUnbalanced()
    ensures !Balanced([])
  {
  }

  /** Some posting slips through at its turn in the sequential run. */
  ghost predicate SomeSlips(db: Db, sets: seq<seq<Entry>>, ids: seq<Id>, now: int)
    requires |ids| == |sets|
  {
    exists i :: 0 <= i < |sets| && SlipsThrough(PostAll(db, sets[..i], ids[..i], now).accounts, sets[i])
  }

  lemma PrefixOfPrefix<T>(s: seq<T>, n: nat, i: nat)
    requires i <= n <= |s|
    ensures s[..n][..i] == s[..i]
  {
  }

  lemma {:induction false} QueuedGrows(db: Db, sets: seq<seq<Entry>>, ids: seq<Id>, now: int)
    requires |ids| == |sets|
    ensures db.queued <= BatchAll(db, sets, ids, now).queued <= db.queued + (set x | x in ids)
    ensures db.queued <= PostAll(db, sets, ids, now).queued <= db.queued + (set x | x in ids)
    decreases |sets|
  {
    hide BatchAccepts, Accepts;
    if sets != [] {
      var n := |sets| - 1;
      QueuedGrows(db, sets[..n], ids[..n], now);
      assert ids == ids[..n] + [ids[n]];
    }
  }

  /** The multi-posting batch does exactly what posting one by one in index order
      does - same indices accepted, same balances, same journal, same events - if
      and only if no posting slips through the nil-ledger sentinel. */
  lemma {:induction false} BatchRefinesSequential(db: Db, sets: seq<seq<Entry>>, ids: seq<Id>, now: int)
    requires |ids| == |sets|
    requires forall i :: 0 <= i < |ids| ==> ids[i] !in db.queued
    requires forall i, j :: 0 <= i < j < |ids| ==> ids[i] != ids[j]
    ensures BatchAll(db, sets, ids, now) == PostAll(db, sets, ids, now) <==> !SomeSlips(db, sets, ids, now)
    decreases |sets|
  {
    hide SlipsThrough, BatchOne, PostOne;
    if sets != [] {
      var n := |sets| - 1;
      BatchRefinesSequential(db, sets[..n], ids[..n], now);
      var b, p := BatchAll(db, sets[..n], ids[..n], now), PostAll(db, sets[..n], ids[..n], now);
      SlipsPrefix(db, sets, ids, now);
      if SomeSlips(db, sets[..n], ids[..n], now) {
        SlipShows(db, sets[..n], ids[..n], now);
        var x :| x in b.queued && x !in p.queued && x in ids[..n];
        LastLeaves(b, p, sets[n], ids[n], now, x);
      } else if SlipsThrough(p.accounts, sets[n]) {
        QueuedGrows(db, sets[..n], ids[..n], now);
        SlipAdds(p, sets[n], ids[n], now);
      } else {
        OneStep(p, sets[n], ids[n], now);
      }
    }
  }

  lemma SlipsPrefix(db: Db, sets: seq<seq<Entry>>, ids: seq<Id>, now: int)
    requires |ids| == |sets| > 0
    ensures var n := |sets| - 1;
            SomeSlips(db, sets, ids, now) <==>
            || SomeSlips(db, sets[..n], ids[..n], now)
            || SlipsThrough(PostAll(db, sets[..n], ids[..n], now).accounts, sets[n])
  {
    hide SlipsThrough, PostAll;
    var n := |sets| - 1;
    forall i | 0 <= i < n
      ensures sets[..n][..i] == sets[..i] && ids[..n][..i] == ids[..i] && sets[..n][i] == sets[i]
    {
      PrefixOfPrefix(sets, n, i);
      PrefixOfPrefix(ids, n, i);
    }
  }

  /** A posting that slips through leaves an event only the batch has. */
  lemma {:induction false} SlipShows(db: Db, sets: seq<seq<Entry>>, ids: seq<Id>, now: int)
    requires |ids| == |sets| && SomeSlips(db, sets, ids, now)
    requires forall i :: 0 <= i < |ids| ==> ids[i] !in db.queued
    requires forall i, j :: 0 <= i < j < |ids| ==> ids[i] != ids[j]
    ensures exists x :: x in ids && x in BatchAll(db, sets, ids, now).queued && x !in PostAll(db, sets, ids, now).queued
    decreases |sets|
  {
    hide SlipsThrough, BatchOne, PostOne;
    var n := |sets| - 1;
    var b, p := BatchAll(db, sets[..n], ids[..n], now), PostAll(db, sets[..n], ids[..n], now);
    SlipsPrefix(db, sets, ids, now);
    if SomeSlips(db, sets[..n], ids[..n], now) {
      SlipShows(db, sets[..n], ids[..n], now);
      var x :| x in ids[..n] && x in b.queued && x !in p.queued;
      LastLeaves(b, p, sets[n], ids[n], now, x);
      assert x in ids;
    } else {
      BatchRefinesSequential(db, sets[..n], ids[..n], now);
      QueuedGrows(db, sets[..n], ids[..n], now);
      SlipAdds(p, sets[n], ids[n], now);
      assert ids[n] in ids;
    }
  }

  lemma SlipAdds(p: Db, es: seq<Entry>, id: Id, now: int)
    requires SlipsThrough(p.accounts, es) && id !in p.queued
    ensures id in BatchOne(p, es, id, now).queued && id !in PostOne(p, es, id, now).queued
  {
    hide SlipsThrough, BatchAccepts, Accepts;
    OneStep(p, es, id, now);
  }

  lemma LastLeaves(b: Db, p: Db, es: seq<Entry>, id: Id, now: int, x: Id)
    requires x in b.queued && x !in p.queued && x != id
    ensures x in BatchOne(b, es, id, now).queued && x !in PostOne(p, es, id, now).queued
  {
    hide BatchAccepts, Accepts;
  }

  /** Ledgers never change, so it is enough that no posting straddles the nil
      ledger in the accounts the batch starts from. */
  lemma NoStraddleNoSlip(db: Db, sets: seq<seq<Entry>>, ids: seq<Id>, now: int)
    requires |ids| == |sets|
    requires forall i :: 0 <= i < |sets| ==> !(Known(db.accounts, sets[i]) && Straddles(db.accounts, sets[i]))
    ensures !SomeSlips(db, sets, ids, now)
  {
    forall i | 0 <= i < |sets| ensures !SlipsThrough(PostAll(db, sets[..i], ids[..i], now).accounts, sets[i]) {
      LedgersFixed(db, sets[..i], ids[..i], now);
      var accounts := PostAll(db, sets[..i], ids[..i], now).accounts;
      if Known(accounts, sets[i]) && Straddles(accounts, sets[i]) {
        StraddlesSame(accounts, db.accounts, sets[i]);
        assert false;
      }
    }
  }

  lemma StraddlesSame(accounts: Accounts, accounts': Accounts, es: seq<Entry>)
    requires Known(accounts, es) && Straddles(accounts, es)
    requires accounts.Keys == accounts'.Keys && forall a :: a in accounts ==> accounts'[a].ledger == accounts[a].ledger
    ensures Known(accounts', es) && Straddles(accounts', es)
  {
    var k :| 0 < k < |es| && StraddlesAt(accounts, es, k);
    forall i | 0 <= i < |es| ensures LedgerAt(accounts', es, i) == LedgerAt(accounts, es, i) {
    }
    assert StraddlesAt(accounts', es, k);
  }

  lemma {:induction false} LedgersFixed(db: Db, sets: seq<seq<Entry>>, ids: seq<Id>, now: int)
    requires |ids| == |sets|
    ensures var r := PostAll(db, sets, ids, now).accounts;
            r.Keys == db.accounts.Keys && forall a :: a in r ==> r[a].ledger == db.accounts[a].ledger
    decreases |sets|
  {
    hide Accepts;
    if sets != [] {
      var n := |sets| - 1;
      LedgersFixed(db, sets[..n], ids[..n], now);
      OneKeepsLedgers(PostAll(db, sets[..n], ids[..n], now), sets[n], ids[n], now);
    }
  }

  lemma OneKeepsLedgers(db: Db, es: seq<Entry>, id: Id, now: int)
    ensures var r := PostOne(db, es, id, now).accounts;
            r.Keys == db.accounts.Keys && forall a :: a in r ==> r[a].ledger == db.accounts[a].ledger
  {
  }

  /** A posting from the nil ledger into ledger 7 that only the batch accepts. */
  lemma SlipExample()
    ensures var accounts := map[1 := Account(NIL, "cash", Asset, 0), 2 := Account(7, "sales", Revenue, 0)];
            var es := [Entry(1, 0, 100), Entry(2, 100, 0)];
            && SlipsThrough(accounts, es)
            && BatchAccepts(accounts, es) && !Accepts(accounts, es)
  {
    var accounts := map[1 := Account(NIL, "cash", Asset, 0), 2 := Account(7, "sales", Revenue, 0)];
    var es := [Entry(1, 0, 100), Entry(2, 100, 0)];
    NetPair(es[0], es[1], 1);
    NetPair(es[0], es[1], 2);
    assert forall e :: e in es ==> e == es[0] || e == es[1];
    assert Known(accounts, es);
    assert LedgerAt(accounts, es, 0) == NIL && LedgerAt(accounts, es, 1) == 7;
    assert StraddlesAt(accounts, es, 1);
    OneStep(Db(accounts, [], {}, map[], map[]), es, 3, 0);
  }
}
