/** Any number of destination-credit workers at once. Each picks due commands with
    their rows locked, skipping rows others hold, and later commits or gives up;
    transfers keep arriving meanwhile. No transfer is credited twice. */
module CreditWorkers {
  import opened Domain
  import opened Posting
  import opened Transfers
  import TransferStore

  /** The committed database, what each worker has picked, and what has been
      credited so far in commit order. */
  datatype Sys = Sys(db: Db, workers: map<int, seq<Item>>, credited: seq<Item>, now: int)

  datatype Action =
    | Tick(time: int)
    | Debit(more: Accounts, req: Request, clearing: Id, ids: SourceIds)
    | Posted(accounts: Accounts, journal: seq<Transaction>, queued: set<Id>)
    | Pick(w: int, items: seq<Item>)
    | Commit(w: int, more: Accounts, resolved: seq<Item>)
    | GiveUp(w: int)

  type Sagas = map<Id, SagaRow>
  type Commands = map<Id, Command>
  type Workers = map<int, seq<Item>>

  /** The item is what the picking query reads off the command and its saga. */
  ghost predicate ReadOff(sagas: Sagas, commands: Commands, it: Item)
  {
    && it.event in commands && commands[it.event].saga == it.saga && it.saga in sagas
    && it.ledger == sagas[it.saga].destLedger && it.dest == sagas[it.saga].dest && it.amount == sagas[it.saga].amount
  }

  ghost predicate Locked(workers: Workers, event: Id)
  {
    exists w, i :: w in workers && 0 <= i < |workers[w]| && workers[w][i].event == event
  }

  ghost predicate Picks(s: Sys, items: seq<Item>)
  {
    && (forall i :: 0 <= i < |items| ==>
          && ReadOff(s.db.sagas, s.db.commands, items[i])
          && Pickable(s.db, items[i].event, s.now) && !Locked(s.workers, items[i].event))
    && (forall i, j :: 0 <= i < j < |items| ==> items[i].event != items[j].event)
  }

  /** Only the clearing accounts were filled in. */
  ghost predicate Resolves(items: seq<Item>, resolved: seq<Item>)
  {
    && |resolved| == |items|
    && forall i :: 0 <= i < |items| ==> resolved[i] == items[i].(clearing := resolved[i].clearing)
  }

  ghost predicate Enabled(s: Sys, a: Action)
  {
    match a
    case Tick(time) => s.now <= time
    case Debit(more, req, clearing, ids) => ids.saga !in s.db.sagas && ids.command !in s.db.commands
    case Posted(_, journal, _) => s.db.journal <= journal
    case Pick(w, items) => w !in s.workers && Picks(s, items)
    case Commit(w, more, resolved) => w in s.workers && Resolves(s.workers[w], resolved)
    case GiveUp(w) => w in s.workers
  }

  ghost function Step(s: Sys, a: Action): Sys
    requires Enabled(s, a)
  {
    match a
    case Tick(time) => s.(now := time)
    case Debit(more, req, clearing, ids) => s.(db := WriteSource(s.db.(accounts := more), req, clearing, ids, s.now))
    case Posted(accounts, journal, queued) =>
      s.(db := s.db.(accounts := accounts, journal := journal, queued := queued))
    case Pick(w, items) => s.(workers := s.workers[w := items])
    case Commit(w, more, resolved) =>
      s.(db := BulkCredit(s.db.(accounts := more), resolved, s.now), workers := s.workers - {w},
         credited := s.credited + resolved)
    case GiveUp(w) => s.(workers := s.workers - {w})
  }

  ghost predicate IsRun(s: Sys, run: seq<Action>)
    decreases |run|, 0
  {
    run == [] || (IsRun(s, run[..|run| - 1]) && Enabled(After(s, run[..|run| - 1]), run[|run| - 1]))
  }

  ghost function After(s: Sys, run: seq<Action>): Sys
    requires IsRun(s, run)
    decreases |run|, 1
  {
    if run == [] then s else Step(After(s, run[..|run| - 1]), run[|run| - 1])
  }

  /** The picking query, skipping what others hold, is such a step. */
  lemma QueryPicks(s: Sys, limit: nat, locked: set<Id>, picked: seq<Item>)
    requires TransferStore.Picked(s.db, limit, locked, s.now, picked)
    requires forall e :: Locked(s.workers, e) ==> e in locked
    ensures Picks(s, picked)
  {
  }

  // ------------------------------------------------------------------- invariants

  /** One command per saga, processed exactly when the saga is completed. */
  ghost predicate TablesOk(sagas: Sagas, commands: Commands)
  {
    && (forall e :: e in commands ==>
          && commands[e].saga in sagas
          && (commands[e].processed <==> sagas[commands[e].saga].status == Completed))
    && (forall e, f :: e in commands && f in commands && commands[e].saga == commands[f].saga ==> e == f)
    && (forall g :: g in sagas ==> sagas[g].status in {Pending, Completed})
  }

  ghost predicate HeldOk(sagas: Sagas, commands: Commands, workers: Workers)
  {
    && (forall w, i :: w in workers && 0 <= i < |workers[w]| ==>
          ReadOff(sagas, commands, workers[w][i]) && !commands[workers[w][i].event].processed)
    && (forall v, w, i, j ::
          (&& v in workers && w in workers && 0 <= i < |workers[v]| && 0 <= j < |workers[w]|
           && (v != w || i != j)) ==>
            workers[v][i].event != workers[w][j].event)
  }

  ghost predicate LegIn(journal: seq<Transaction>, it: Item)
  {
    exists t :: t in journal && t.id == it.tx && t.entries == CreditEntries(it.dest, it.clearing, it.amount)
  }

  /** Each completed saga was credited once, from its own row, and the journal has
      the leg. */
  ghost predicate CreditedOk(sagas: Sagas, journal: seq<Transaction>, credited: seq<Item>)
  {
    && (forall i :: 0 <= i < |credited| ==>
          && credited[i].saga in sagas && sagas[credited[i].saga].status == Completed
          && credited[i].dest == sagas[credited[i].saga].dest && credited[i].amount == sagas[credited[i].saga].amount
          && LegIn(journal, credited[i]))
    && (forall i, j :: 0 <= i < j < |credited| ==> credited[i].saga != credited[j].saga)
    && (forall g :: g in sagas && sagas[g].status == Completed ==> g in SagaIds(credited))
  }

  ghost predicate Inv(s: Sys)
  {
    && TablesOk(s.db.sagas, s.db.commands)
    && HeldOk(s.db.sagas, s.db.commands, s.workers)
    && CreditedOk(s.db.sagas, s.db.journal, s.credited)
  }

  lemma LegStays(was: seq<Transaction>, now: seq<Transaction>, it: Item)
    requires was <= now && LegIn(was, it)
    ensures LegIn(now, it)
  {
    var t :| t in was && t.id == it.tx && t.entries == CreditEntries(it.dest, it.clearing, it.amount);
    assert t in now;
  }

  lemma DebitKeeps(s: Sys, a: Action)
    requires Inv(s) && Enabled(s, a) && a.Debit?
    ensures Inv(Step(s, a))
  {
    hide CaseMove, SagaIds, LegIn;
    var s' := Step(s, a);
    assert s.db.journal <= s'.db.journal;
    assert TablesOk(s'.db.sagas, s'.db.commands);
    assert HeldOk(s'.db.sagas, s'.db.commands, s'.workers);
    forall i | 0 <= i < |s.credited| ensures LegIn(s'.db.journal, s.credited[i]) {
      LegStays(s.db.journal, s'.db.journal, s.credited[i]);
    }
  }

  lemma PostedKeeps(s: Sys, a: Action)
    requires Inv(s) && Enabled(s, a) && a.Posted?
    ensures Inv(Step(s, a))
  {
    hide SagaIds, LegIn;
    forall i | 0 <= i < |s.credited| ensures LegIn(Step(s, a).db.journal, s.credited[i]) {
      LegStays(s.db.journal, a.journal, s.credited[i]);
    }
  }

  lemma NotLocked(workers: Workers, event: Id, w: int, i: int)
    requires !Locked(workers, event) && w in workers && 0 <= i < |workers[w]|
    ensures workers[w][i].event != event
  {
  }

  lemma PickKeeps(s: Sys, w: int, items: seq<Item>)
    requires Inv(s) && Enabled(s, Pick(w, items))
    ensures Inv(Step(s, Pick(w, items)))
  {
    hide CreditedOk, TablesOk;
    var workers: Workers := s.workers[w := items];
    forall v, u, i, j | v in workers && u in workers && 0 <= i < |workers[v]| && 0 <= j < |workers[u]|
      && (v != u || i != j)
      ensures workers[v][i].event != workers[u][j].event
    {
      if v == w && u != w {
        NotLocked(s.workers, items[i].event, u, j);
      } else if u == w && v != w {
        NotLocked(s.workers, items[j].event, v, i);
      }
    }
  }

  // ------------------------------------------------------------------ a commit

  lemma ResolvedSame(items: seq<Item>, resolved: seq<Item>)
    requires Resolves(items, resolved)
    ensures SagaIds(resolved) == SagaIds(items) && EventIds(resolved) == EventIds(items)
  {
    forall it | it in items ensures it.saga in SagaIds(resolved) && it.event in EventIds(resolved) {
      var i :| 0 <= i < |items| && items[i] == it;
      assert resolved[i] in resolved;
    }
    forall it | it in resolved ensures it.saga in SagaIds(items) && it.event in EventIds(items) {
      var i :| 0 <= i < |resolved| && resolved[i] == it;
      assert items[i] in items;
    }
  }

  /** A worker's sagas are exactly those of its commands, and none is completed. */
  lemma CommitTables(sagas: Sagas, commands: Commands, workers: Workers, w: int)
    requires TablesOk(sagas, commands) && HeldOk(sagas, commands, workers) && w in workers
    ensures TablesOk(BulkSagas(sagas, workers[w]), BulkCommands(commands, workers[w]))
  {
    var items := workers[w];
    forall e | e in commands ensures e in EventIds(items) <==> commands[e].saga in SagaIds(items) {
      if e in EventIds(items) {
        var it :| it in items && it.event == e;
        var i :| 0 <= i < |items| && items[i] == it;
        assert ReadOff(sagas, commands, workers[w][i]);
      }
      if commands[e].saga in SagaIds(items) {
        var it :| it in items && it.saga == commands[e].saga;
        var i :| 0 <= i < |items| && items[i] == it;
        assert ReadOff(sagas, commands, workers[w][i]);
      }
    }
    hide SagaIds, EventIds;
  }

  lemma CommitHeld(sagas: Sagas, commands: Commands, workers: Workers, w: int)
    requires HeldOk(sagas, commands, workers) && w in workers
    ensures HeldOk(BulkSagas(sagas, workers[w]), BulkCommands(commands, workers[w]), workers - {w})
  {
    var rest: Workers := workers - {w};
    forall v, i | v in rest && 0 <= i < |rest[v]| ensures rest[v][i].event !in EventIds(workers[w]) {
      forall it | it in workers[w] ensures it.event != rest[v][i].event {
        var j :| 0 <= j < |workers[w]| && workers[w][j] == it;
        assert rest[v][i] == workers[v][i];
      }
    }
    hide EventIds, SagaIds;
  }

  /** What the commit credits was credited by nobody before. */
  lemma CommitNew(s: Sys, w: int, i: int)
    requires Inv(s) && w in s.workers && 0 <= i < |s.workers[w]|
    ensures s.workers[w][i].saga !in SagaIds(s.credited)
    ensures s.workers[w][i].saga in s.db.sagas && s.db.sagas[s.workers[w][i].saga].status != Completed
  {
    var it := s.workers[w][i];
    assert ReadOff(s.db.sagas, s.db.commands, it);
    forall c | c in s.credited ensures c.saga != it.saga {
      var k :| 0 <= k < |s.credited| && s.credited[k] == c;
    }
  }

  lemma CommitDistinct(s: Sys, w: int, i: int, j: int)
    requires Inv(s) && w in s.workers && 0 <= i < j < |s.workers[w]|
    ensures s.workers[w][i].saga != s.workers[w][j].saga
  {
    assert ReadOff(s.db.sagas, s.db.commands, s.workers[w][i]) && ReadOff(s.db.sagas, s.db.commands, s.workers[w][j]);
  }

  lemma {:induction false} LegsHold(items: seq<Item>, now: int, i: int)
    requires 0 <= i < |items|
    ensures LegIn(Legs(items, now), items[i])
    decreases |items|
  {
    var n := |items| - 1;
    if i < n {
      LegsHold(items[..n], now, i);
      LegStays(Legs(items[..n], now), Legs(items, now), items[i]);
    } else {
      assert Legs(items, now)[n].id == items[n].tx;
    }
  }

  lemma CommitCredited(s: Sys, a: Action)
    requires Inv(s) && Enabled(s, a) && a.Commit?
    ensures CreditedOk(BulkSagas(s.db.sagas, a.resolved), s.db.journal + Legs(a.resolved, s.now),
                       s.credited + a.resolved)
  {
    var all, journal, n := s.credited + a.resolved, s.db.journal + Legs(a.resolved, s.now), |s.credited|;
    ResolvedSame(s.workers[a.w], a.resolved);
    assert SagaIds(all) == SagaIds(s.credited) + SagaIds(a.resolved);
    forall i | 0 <= i < |all| ensures LegIn(journal, all[i]) {
      if i < n {
        LegStays(s.db.journal, journal, all[i]);
      } else {
        LegsHold(a.resolved, s.now, i - n);
        LegAfter(s.db.journal, Legs(a.resolved, s.now), all[i]);
      }
    }
    forall i | n <= i < |all| ensures all[i].saga in SagaIds(a.resolved) && all[i].saga !in SagaIds(s.credited)
    {
      assert a.resolved[i - n] in a.resolved;
      CommitNew(s, a.w, i - n);
    }
    forall i | 0 <= i < n ensures all[i].saga in SagaIds(s.credited) {
      assert s.credited[i] in s.credited;
    }
    forall i, j | 0 <= i < j < |all| ensures all[i].saga != all[j].saga {
      if n <= i {
        CommitDistinct(s, a.w, i - n, j - n);
      }
    }
    CommitRows(s, a, all);
  }

  lemma LegAfter(was: seq<Transaction>, more: seq<Transaction>, it: Item)
    requires LegIn(more, it)
    ensures LegIn(was + more, it)
  {
    var t :| t in more && t.id == it.tx && t.entries == CreditEntries(it.dest, it.clearing, it.amount);
    assert t in was + more;
  }

  lemma CommitRows(s: Sys, a: Action, all: seq<Item>)
    requires Inv(s) && Enabled(s, a) && a.Commit? && all == s.credited + a.resolved
    ensures forall i :: 0 <= i < |all| ==>
              var sagas := BulkSagas(s.db.sagas, a.resolved);
              && all[i].saga in sagas && sagas[all[i].saga].status == Completed
              && all[i].dest == sagas[all[i].saga].dest && all[i].amount == sagas[all[i].saga].amount
  {
    var n := |s.credited|;
    forall i | n <= i < |all|
      ensures all[i].saga in SagaIds(a.resolved) && ReadOff(s.db.sagas, s.db.commands, s.workers[a.w][i - n])
    {
      assert a.resolved[i - n] in a.resolved;
    }
  }

  lemma CommitKeeps(s: Sys, a: Action)
    requires Inv(s) && Enabled(s, a) && a.Commit?
    ensures Inv(Step(s, a))
  {
    hide TablesOk, HeldOk, CreditedOk, Legs, Delta;
    ResolvedSame(s.workers[a.w], a.resolved);
    SameBulk(s.db.sagas, s.db.commands, s.workers[a.w], a.resolved);
    CommitTables(s.db.sagas, s.db.commands, s.workers, a.w);
    CommitHeld(s.db.sagas, s.db.commands, s.workers, a.w);
    CommitCredited(s, a);
  }

  lemma SameBulk(sagas: Sagas, commands: Commands, items: seq<Item>, resolved: seq<Item>)
    requires SagaIds(resolved) == SagaIds(items) && EventIds(resolved) == EventIds(items)
    ensures BulkSagas(sagas, resolved) == BulkSagas(sagas, items)
    ensures BulkCommands(commands, resolved) == BulkCommands(commands, items)
  {
    hide SagaIds, EventIds;
  }

  lemma StepKeeps(s: Sys, a: Action)
    requires Inv(s) && Enabled(s, a)
    ensures Inv(Step(s, a))
  {
    match a
    case Tick(_) =>
    case Debit(_, _, _, _) => DebitKeeps(s, a);
    case Posted(_, _, _) => PostedKeeps(s, a);
    case Pick(w, items) => PickKeeps(s, w, items);
    case Commit(_, _, _) => CommitKeeps(s, a);
    case GiveUp(w) =>
      assert HeldOk(s.db.sagas, s.db.commands, s.workers - {w});
  }

  lemma {:induction false} RunKeeps(s: Sys, run: seq<Action>)
    requires Inv(s) && IsRun(s, run)
    ensures Inv(After(s, run))
    decreases |run|
  {
    hide Inv, Enabled, Step;
    if run != [] {
      RunKeeps(s, run[..|run| - 1]);
      StepKeeps(After(s, run[..|run| - 1]), run[|run| - 1]);
    }
  }

  /** Any accounts and journal, no transfers yet. */
  function Start(accounts: Accounts, journal: seq<Transaction>, queued: set<Id>, now: int): Sys
  {
    Sys(Db(accounts, journal, queued, map[], map[]), map[], [], now)
  }

  /** Whatever the interleaving of workers and new transfers, a transfer is completed
      exactly when it was credited, nobody credits it twice, and the credit is its own
      amount to its own destination, in the journal. */
  lemma NoTransferCreditedTwice(accounts: Accounts, journal: seq<Transaction>, queued: set<Id>, now: int,
                                run: seq<Action>)
    requires IsRun(Start(accounts, journal, queued, now), run)
    ensures var s := After(Start(accounts, journal, queued, now), run);
            && (forall i, j :: 0 <= i < j < |s.credited| ==> s.credited[i].saga != s.credited[j].saga)
            && (forall g :: g in s.db.sagas ==> (s.db.sagas[g].status == Completed <==> g in SagaIds(s.credited)))
            && CreditedOk(s.db.sagas, s.db.journal, s.credited)
  {
    RunKeeps(Start(accounts, journal, queued, now), run);
    var s := After(Start(accounts, journal, queued, now), run);
    forall g | g in s.db.sagas && g in SagaIds(s.credited) ensures s.db.sagas[g].status == Completed {
      var it :| it in s.credited && it.saga == g;
      var i :| 0 <= i < |s.credited| && s.credited[i] == it;
    }
  }
}
