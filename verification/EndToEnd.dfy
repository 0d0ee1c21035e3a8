/** The two halves of the database ledger joined: whatever the posting paths write is
    what the pipeline publishes, so an account's balance can be read off its daily
    totals. */
module EndToEnd {
  import opened Domain
  import opened Sums
  import opened Posting
  import opened Transfers
  import opened Projection
  import Overdraft
  import Pipeline
  import PipelineTheorems

  // --------------------------------------------------------- every posting is queued

  /** Each transaction has put its event in the outbox, nothing else has, and every
      transaction balances. */
  ghost predicate Recorded(journal: seq<Transaction>, queued: set<Id>)
  {
    queued == TxIds(journal) && forall t :: t in journal ==> Balanced(t.entries)
  }

  lemma RecordedMore(journal: seq<Transaction>, queued: set<Id>, more: seq<Transaction>, ids: set<Id>)
    requires Recorded(journal, queued) && ids == TxIds(more) && forall t :: t in more ==> Balanced(t.entries)
    ensures Recorded(journal + more, queued + ids)
  {
    hide Balanced;
  }

  lemma LegsBalance(x: Id, y: Id, amount: int)
    requires amount > 0
    ensures Balanced(CreditEntries(x, y, amount)) && Balanced(DebitEntries(x, y, amount))
  {
    NetPair(Entry(x, 0, amount), Entry(y, amount, 0), x);
    NetPair(Entry(x, amount, 0), Entry(y, 0, amount), x);
  }

  lemma {:induction false} BatchRecorded(db: Db, sets: seq<seq<Entry>>, txs: seq<Id>, now: int)
    requires Recorded(db.journal, db.queued) && |txs| == |sets|
    ensures var r := BatchAll(db, sets, txs, now); Recorded(r.journal, r.queued)
    decreases |sets|
  {
    hide Recorded, Balanced;
    if sets != [] {
      var n := |sets| - 1;
      var m := BatchAll(db, sets[..n], txs[..n], now);
      BatchRecorded(db, sets[..n], txs[..n], now);
      if BatchAccepts(m.accounts, sets[n]) {
        var t := Transaction(txs[n], Sentinel(m.accounts, sets[n]).value, sets[n], now);
        OneId(t);
        RecordedMore(m.journal, m.queued, [t], {t.id});
      }
    }
  }

  lemma OneId(t: Transaction)
    ensures TxIds([t]) == {t.id}
  {
  }

  lemma {:induction false} LegsRecorded(items: seq<Item>, now: int)
    requires forall it :: it in items ==> it.amount > 0
    ensures TxIds(Legs(items, now)) == TxsOf(items) && forall t :: t in Legs(items, now) ==> Balanced(t.entries)
    decreases |items|
  {
    hide Balanced;
    if items != [] {
      var n, last := |items| - 1, items[|items| - 1];
      LegsRecorded(items[..n], now);
      LegsBalance(last.dest, last.clearing, last.amount);
      SetsGrow(items);
      LegIds(Legs(items[..n], now), Legs(items, now)[n]);
    }
  }

  lemma LegIds(legs: seq<Transaction>, t: Transaction)
    ensures TxIds(legs + [t]) == TxIds(legs) + {t.id}
  {
  }

  lemma StepRecorded(db: Db, a: Overdraft.Action)
    requires Recorded(db.journal, db.queued) && Overdraft.Enabled(db, a)
    ensures var r := Overdraft.Step(db, a); Recorded(r.journal, r.queued)
  {
    hide Recorded, Balanced, BatchAll, OneLedger, Affordable, Legs, TxsOf;
    match a
    case OpenAccount(_, _) =>
    case Single(es, tx, now) =>
      if Accepts(db.accounts, es) {
        NotEmpty(es);
        OneMore(db, Transaction(tx, db.accounts[es[0].account].ledger, es, now));
      }
    case Batch(sets, txs, now) => BatchRecorded(db, sets, txs, now);
    case SourceDebit(req, clearing, ids, now) =>
      LegsBalance(req.source, clearing, req.amount);
      OneMore(db, Transaction(ids.tx, req.sourceLedger, DebitEntries(req.source, clearing, req.amount), now));
    case DestinationCredits(items, now) =>
      LegsRecorded(items, now);
      RecordedMore(db.journal, db.queued, Legs(items, now), TxsOf(items));
    case Refund(ledger, account, clearing, amount, tx, now) =>
      LegsBalance(account, clearing, amount);
      OneMore(db, Transaction(tx, ledger, CreditEntries(account, clearing, amount), now));
  }

  lemma OneMore(db: Db, t: Transaction)
    requires Recorded(db.journal, db.queued) && Balanced(t.entries)
    ensures Recorded(db.journal + [t], db.queued + {t.id})
  {
    hide Balanced;
    OneId(t);
    RecordedMore(db.journal, db.queued, [t], {t.id});
  }

  lemma {:induction false} RunRecorded(db: Db, run: seq<Overdraft.Action>)
    requires Recorded(db.journal, db.queued) && Overdraft.IsRun(db, run)
    ensures var r := Overdraft.After(db, run); Recorded(r.journal, r.queued)
    decreases |run|
  {
    hide Recorded, Overdraft.Enabled, Overdraft.Step;
    if run != [] {
      RunRecorded(db, run[..|run| - 1]);
      StepRecorded(Overdraft.After(db, run[..|run| - 1]), run[|run| - 1]);
    }
  }

  // -------------------------------------------------- balances stay the journal's

  /** The journal names known accounts only. */
  ghost predicate Named(db: Db)
  {
    forall t, e :: t in db.journal && e in t.entries ==> e.account in db.accounts
  }

  /** No single leg moves a clearing account against itself, and every account credited
      exists. */
  ghost predicate Sound(db: Db, a: Overdraft.Action)
  {
    match a
    case SourceDebit(req, clearing, _, _) => req.source != clearing
    case DestinationCredits(items, _) => forall it :: it in items ==> it.dest in db.accounts
    case Refund(_, account, clearing, _, _, _) => account != clearing && account in db.accounts
    case _ => true
  }

  ghost predicate SoundRun(db: Db, run: seq<Overdraft.Action>)
    requires Overdraft.IsRun(db, run)
    decreases |run|
  {
    run == [] ||
    (SoundRun(db, run[..|run| - 1]) && Sound(Overdraft.After(db, run[..|run| - 1]), run[|run| - 1]))
  }

  lemma NamedMore(db: Db, more: Db, legs: seq<Transaction>)
    requires Named(db) && db.accounts.Keys <= more.accounts.Keys && more.journal == db.journal + legs
    requires forall t, e :: t in legs && e in t.entries ==> e.account in db.accounts
    ensures Named(more)
  {
  }

  lemma EnterAgrees(db: Db, es: seq<Entry>, ledger: Id, tx: Id, now: int)
    requires Agrees(db) && Named(db) && Known(db.accounts, es)
    ensures Agrees(Enter(db, es, ledger, tx, now)) && Named(Enter(db, es, ledger, tx, now))
  {
    var t, r := Transaction(tx, ledger, es, now), Enter(db, es, ledger, tx, now);
    NamedMore(db, r, [t]);
    forall a | a in r.accounts ensures r.accounts[a].balance == JournalNet(r.journal, a) {
      JournalNetSnoc(db.journal, t, a);
    }
  }

  lemma {:induction false} BatchAgrees(db: Db, sets: seq<seq<Entry>>, txs: seq<Id>, now: int)
    requires Agrees(db) && Named(db) && |txs| == |sets|
    ensures Agrees(BatchAll(db, sets, txs, now)) && Named(BatchAll(db, sets, txs, now))
    decreases |sets|
  {
    hide Agrees, Named, Balanced, Enter, Affordable;
    if sets != [] {
      var n := |sets| - 1;
      var m := BatchAll(db, sets[..n], txs[..n], now);
      BatchAgrees(db, sets[..n], txs[..n], now);
      if BatchAccepts(m.accounts, sets[n]) {
        EnterAgrees(m, sets[n], Sentinel(m.accounts, sets[n]).value, txs[n], now);
      }
    }
  }

  lemma OpenAgrees(db: Db, id: Id, row: Account)
    requires Agrees(db) && Named(db) && id !in db.accounts && row.balance == 0
    ensures var r := db.(accounts := db.accounts[id := row]); Agrees(r) && Named(r)
  {
    var r := db.(accounts := db.accounts[id := row]);
    JournalNetUntouched(db.journal, id);
    assert r.journal == db.journal + [];
    NamedMore(db, r, []);
  }

  lemma {:induction false} LegsNamed(accounts: Accounts, items: seq<Item>, now: int)
    requires forall it :: it in items ==> it.dest in accounts && it.clearing in accounts
    ensures forall t, e :: t in Legs(items, now) && e in t.entries ==> e.account in accounts
    decreases |items|
  {
    if items != [] {
      LegsNamed(accounts, items[..|items| - 1], now);
      assert items[|items| - 1] in items;
    }
  }

  lemma StepAgrees(db: Db, a: Overdraft.Action)
    requires Agrees(db) && Named(db) && Overdraft.Enabled(db, a) && Sound(db, a)
    ensures Agrees(Overdraft.Step(db, a)) && Named(Overdraft.Step(db, a))
  {
    hide Agrees, Named, Balanced, BatchAll, OneLedger, Affordable, Enter, Legs, Delta, TxsOf;
    match a
    case OpenAccount(id, row) => OpenAgrees(db, id, row);
    case Single(es, tx, now) =>
      if Accepts(db.accounts, es) {
        NotEmpty(es);
        EnterAgrees(db, es, db.accounts[es[0].account].ledger, tx, now);
      }
    case Batch(sets, txs, now) => BatchAgrees(db, sets, txs, now);
    case SourceDebit(req, clearing, ids, now) =>
      SourceAgreesIff(db, req, clearing, ids, now);
      NamedMore(db, Overdraft.Step(db, a),
                [Transaction(ids.tx, req.sourceLedger, DebitEntries(req.source, clearing, req.amount), now)]);
    case DestinationCredits(items, now) =>
      BulkAgrees(db, items, now);
      LegsNamed(db.accounts, items, now);
      NamedMore(db, Overdraft.Step(db, a), Legs(items, now));
    case Refund(ledger, account, clearing, amount, tx, now) =>
      LegAgreesIff(db, ledger, account, clearing, amount, tx, now);
      NamedMore(db, Overdraft.Step(db, a), [Transaction(tx, ledger, CreditEntries(account, clearing, amount), now)]);
  }

  /** Over every run that keeps single legs off clearing accounts, every stored balance is
      the journal's. */
  lemma {:induction false} BalancesAreTheJournal(db: Db, run: seq<Overdraft.Action>)
    requires Agrees(db) && Named(db) && Overdraft.IsRun(db, run) && SoundRun(db, run)
    ensures Agrees(Overdraft.After(db, run)) && Named(Overdraft.After(db, run))
    decreases |run|
  {
    hide Agrees, Named, Overdraft.Enabled, Overdraft.Step, Sound;
    if run != [] {
      BalancesAreTheJournal(db, run[..|run| - 1]);
      StepAgrees(Overdraft.After(db, run[..|run| - 1]), run[|run| - 1]);
    }
  }

  // ---------------------------------------------------------- the pipeline's journal

  /** The journal by transaction id, as the pipeline holds it. */
  function Keyed(journal: seq<Transaction>): Pipeline.Journal
  {
    if journal == [] then map[] else
      var last := journal[|journal| - 1];
      Keyed(journal[..|journal| - 1])[last.id := last]
  }

  lemma {:induction false} KeyedIs(journal: seq<Transaction>)
    requires UniqueIds(journal)
    ensures Keyed(journal).Keys == TxIds(journal)
    ensures forall t :: t in journal ==> t.id in Keyed(journal) && Keyed(journal)[t.id] == t
    decreases |journal|
  {
    if journal != [] {
      var n, front := |journal| - 1, journal[..|journal| - 1];
      KeyedIs(front);
      NewId(journal, n);
      assert journal == front + [journal[n]];
      LegIds(front, journal[n]);
      assert Keyed(journal) == Keyed(front)[journal[n].id := journal[n]];
      hide Keyed, UniqueIds;
      forall t | t in journal ensures t.id in Keyed(journal) && Keyed(journal)[t.id] == t {
        if t != journal[n] {
          assert t in front && t.id in TxIds(front);
        }
      }
    }
  }

  /** Every transaction the posting paths write is a commit the pipeline accepts. */
  lemma {:induction false} Feed(journal: seq<Transaction>, now: int) returns (run: seq<Pipeline.Action>)
    requires UniqueIds(journal) && forall t :: t in journal ==> Balanced(t.entries)
    ensures Pipeline.IsRun(Pipeline.Start(now), run)
    ensures var s := PipelineTheorems.Reach(now, run);
            s.journal == Keyed(journal) && forall id :: id in s.outbox ==> id < |journal|
    decreases |journal|
  {
    hide Balanced, Pipeline.Enabled, Pipeline.Step;
    if journal == [] {
      run := [];
    } else {
      var n := |journal| - 1;
      run := Feed(journal[..n], now);
      KeyedIs(journal[..n]);
      assert journal[n] in journal;
      NewId(journal, n);
      CommitStep(PipelineTheorems.Reach(now, run), journal[n], n);
      run := PipelineTheorems.Act(Pipeline.Start(now), run, Pipeline.Commit(journal[n], n));
    }
  }

  lemma NewId(journal: seq<Transaction>, n: int)
    requires UniqueIds(journal) && n == |journal| - 1 >= 0
    ensures journal[n].id !in TxIds(journal[..n])
  {
    forall t | t in journal[..n] ensures t.id != journal[n].id {
      var i :| 0 <= i < n && journal[i] == t;
    }
  }

  lemma CommitStep(s: Pipeline.Sys, t: Transaction, event: Id)
    requires t.id !in s.journal && event !in s.outbox && Balanced(t.entries)
    ensures Pipeline.Enabled(s, Pipeline.Commit(t, event))
    ensures var s' := Pipeline.Step(s, Pipeline.Commit(t, event));
            s'.journal == s.journal[t.id := t] && s'.outbox.Keys == s.outbox.Keys + {event}
  {
  }

  lemma {:induction false} Join(s: Pipeline.Sys, xs: seq<Pipeline.Action>, ys: seq<Pipeline.Action>)
    requires Pipeline.IsRun(s, xs) && Pipeline.IsRun(Pipeline.After(s, xs), ys)
    ensures Pipeline.IsRun(s, xs + ys) && Pipeline.After(s, xs + ys) == Pipeline.After(Pipeline.After(s, xs), ys)
    decreases |ys|
  {
    hide Pipeline.Enabled, Pipeline.Step;
    if ys == [] {
      assert xs + ys == xs;
    } else {
      var n := |ys| - 1;
      Join(s, xs, ys[..n]);
      assert (xs + ys)[..|xs + ys| - 1] == xs + ys[..n];
    }
  }

  /** The pipeline holds this journal and its consumer has applied all of it. */
  ghost predicate Drains(now: int, pipe: seq<Pipeline.Action>, journal: seq<Transaction>)
  {
    && Pipeline.IsRun(Pipeline.Start(now), pipe)
    && PipelineTheorems.Reach(now, pipe).journal == Keyed(journal)
    && PipelineTheorems.Reach(now, pipe).proj.inbox == PipelineTheorems.Reach(now, pipe).outbox.Keys
  }

  /** Whatever the posting paths have written can be published and applied in full. */
  lemma EverythingCanBeProjected(db: Db, run: seq<Overdraft.Action>, now: int) returns (pipe: seq<Pipeline.Action>)
    requires Recorded(db.journal, db.queued) && Overdraft.IsRun(db, run) && UniqueIds(Overdraft.After(db, run).journal)
    ensures Drains(now, pipe, Overdraft.After(db, run).journal)
    ensures PipelineTheorems.Reach(now, pipe).journal.Keys == Overdraft.After(db, run).queued
  {
    hide Balanced, Pipeline.Enabled, Pipeline.Step, Overdraft.Enabled, Overdraft.Step;
    RunRecorded(db, run);
    var journal := Overdraft.After(db, run).journal;
    KeyedIs(journal);
    var feed := Feed(journal, now);
    var more := PipelineTheorems.NothingIsLost(now, feed);
    Join(Pipeline.Start(now), feed, more);
    pipe := feed + more;
  }

  // -------------------------------------------------------------- balances by the day

  lemma {:induction false} NetIsSides(es: seq<Entry>, a: Id)
    ensures Net(es, a) == DebitsOn(es, a) - CreditsOn(es, a)
    decreases |es|
  {
    if es != [] {
      NetIsSides(es[..|es| - 1], a);
    }
  }

  function NetOf(journal: Pipeline.Journal, t: Id, a: Id): int
  {
    if t in journal then Net(journal[t].entries, a) else 0
  }

  /** What transaction `t` does to account `a` on day `d`. */
  function DayNet(journal: Pipeline.Journal, t: Id, a: Id, d: int): int
  {
    var part := PipelineTheorems.DayPart(journal, t, Key(a, d), false);
    part.debit - part.credit
  }

  /** What the aggregate table says account `a` moved by on day `d`. */
  function DayBalance(table: Table, a: Id, d: int): int
  {
    Get(table, Key(a, d)).debit - Get(table, Key(a, d)).credit
  }

  lemma {:induction false} JournalNetIsSum(journal: seq<Transaction>, a: Id)
    requires UniqueIds(journal)
    ensures JournalNet(journal, a) == Sum(TxIds(journal), t => NetOf(Keyed(journal), t, a))
    decreases |journal|
  {
    if journal == [] {
      SumZero(TxIds(journal), t => NetOf(Keyed(journal), t, a));
    } else {
      var n, front := |journal| - 1, journal[..|journal| - 1];
      JournalNetIsSum(front, a);
      NewId(journal, n);
      assert journal == front + [journal[n]];
      LegIds(front, journal[n]);
      assert Keyed(journal) == Keyed(front)[journal[n].id := journal[n]];
      hide Keyed, TxIds, UniqueIds, JournalNet, Net;
      SumGrows(Keyed(front), TxIds(front), journal[n], a);
      NetSplits(journal, a);
    }
  }

  lemma NetSplits(journal: seq<Transaction>, a: Id)
    requires journal != []
    ensures JournalNet(journal, a) ==
            JournalNet(journal[..|journal| - 1], a) + Net(journal[|journal| - 1].entries, a)
  {
  }

  lemma SumGrows(journal: Pipeline.Journal, txs: set<Id>, t: Transaction, a: Id)
    requires t.id !in txs
    ensures Sum(txs + {t.id}, x => NetOf(journal[t.id := t], x, a)) ==
            Sum(txs, x => NetOf(journal, x, a)) + Net(t.entries, a)
  {
    SumInsert(txs, x => NetOf(journal, x, a), x => NetOf(journal[t.id := t], x, a), t.id);
  }

  /** A transaction moves an account on its own day only. */
  /** Some day of `days` holds the moment. */
  ghost predicate Covers(days: set<int>, time: int)
  {
    exists d :: d in days && Pipeline.OnDay(time, d)
  }

  lemma OneDay(journal: Pipeline.Journal, t: Id, a: Id, days: set<int>)
    requires t in journal && Covers(days, journal[t].time)
    ensures NetOf(journal, t, a) == Sum(days, d => DayNet(journal, t, a, d))
  {
    NetIsSides(journal[t].entries, a);
    var day :| day in days && Pipeline.OnDay(journal[t].time, day);
    SumSingle(days, d => DayNet(journal, t, a, d), day);
  }

  lemma DayTotals(journal: Pipeline.Journal, txs: set<Id>, a: Id, d: int)
    ensures var totals := PipelineTheorems.JournalTotals(journal, txs, Key(a, d), false);
            totals.debit - totals.credit == Sum(txs, t => DayNet(journal, t, a, d))
  {
    SumPlus(txs, t => DayNet(journal, t, a, d),
            t => PipelineTheorems.DayPart(journal, t, Key(a, d), false).credit,
            t => PipelineTheorems.DayPart(journal, t, Key(a, d), false).debit);
  }

  /** Summing by transaction and summing by day come to the same. */
  lemma ByDay(journal: Pipeline.Journal, table: Table, a: Id, days: set<int>)
    requires forall t :: t in journal ==> Covers(days, journal[t].time)
    requires forall k :: Get(table, k) == PipelineTheorems.JournalTotals(journal, journal.Keys, k, false)
    ensures Sum(journal.Keys, t => NetOf(journal, t, a)) == Sum(days, d => DayBalance(table, a, d))
  {
    hide PipelineTheorems.JournalTotals, DayNet, NetOf;
    forall t | t in journal.Keys ensures NetOf(journal, t, a) == Sum(days, d => DayNet(journal, t, a, d)) {
      OneDay(journal, t, a, days);
    }
    forall d | d in days ensures DayBalance(table, a, d) == Sum(journal.Keys, t => DayNet(journal, t, a, d)) {
      DayTotals(journal, journal.Keys, a, d);
    }
    SumExchange(journal.Keys, days, t => d => DayNet(journal, t, a, d), d => t => DayNet(journal, t, a, d),
                t => NetOf(journal, t, a), d => DayBalance(table, a, d));
  }

  /** End to end: after any run of the posting paths that keeps single legs off clearing
      accounts, and any run of the pipeline that has drained what they wrote, an account's
      stored balance is the sum of its daily totals. */
  lemma BalanceIsItsDays(db: Db, run: seq<Overdraft.Action>, now: int, pipe: seq<Pipeline.Action>, a: Id,
                         days: set<int>)
    requires Agrees(db) && Named(db) && Overdraft.IsRun(db, run) && SoundRun(db, run)
    requires UniqueIds(Overdraft.After(db, run).journal) && Drains(now, pipe, Overdraft.After(db, run).journal)
    requires a in Overdraft.After(db, run).accounts
    requires forall t :: t in Overdraft.After(db, run).journal ==> Covers(days, t.time)
    ensures Overdraft.After(db, run).accounts[a].balance ==
            Sum(days, d => DayBalance(PipelineTheorems.Reach(now, pipe).proj.accounts, a, d))
  {
    BalancesAreTheJournal(db, run);
    var journal := Overdraft.After(db, run).journal;
    assert Overdraft.After(db, run).accounts[a].balance == JournalNet(journal, a);
    hide Agrees, Named, Overdraft.IsRun, Overdraft.After, SoundRun, PipelineTheorems.JournalTotals;
    var s := PipelineTheorems.Reach(now, pipe);
    hide Pipeline.IsRun, Pipeline.After;
    JournalNetIsSum(journal, a);
    KeyedIs(journal);
    KeyedDays(journal, days);
    forall k ensures Get(s.proj.accounts, k) == PipelineTheorems.JournalTotals(s.journal, s.journal.Keys, k, false) {
      PipelineTheorems.DrainedTotalsAreTheJournal(now, pipe, k);
    }
    ByDay(s.journal, s.proj.accounts, a, days);
  }

  lemma KeyedDays(journal: seq<Transaction>, days: set<int>)
    requires UniqueIds(journal) && forall t :: t in journal ==> Covers(days, t.time)
    ensures forall id :: id in Keyed(journal) ==> Covers(days, Keyed(journal)[id].time)
  {
    KeyedIs(journal);
    forall id | id in Keyed(journal) ensures Covers(days, Keyed(journal)[id].time) {
      assert id in TxIds(journal);
      var t :| t in journal && t.id == id;
    }
  }
}
