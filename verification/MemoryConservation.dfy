/** Money in transit: what the clearing accounts hold is exactly what transfers
    have debited and not yet delivered or refunded. */
module MemoryConservation {
  import opened Domain
  import opened Memory
  import opened MemoryInvariant
  import opened MemoryTheorems
  import opened Sums

  // --------------------------------------------------------------- definitions

  /** What a transfer has put into clearing of its source ledger for good. */
  function Outgoing(sagas: map<Id, Saga>, id: Id, ledger: Id): int
  {
    if id in sagas && sagas[id].sourceLedger == ledger && sagas[id].status != Compensated then sagas[id].amount else 0
  }

  /** What a transfer has taken out of clearing of its destination ledger. */
  function Incoming(sagas: map<Id, Saga>, id: Id, ledger: Id): int
  {
    if id in sagas && sagas[id].destLedger == ledger && sagas[id].status == Completed then sagas[id].amount else 0
  }

  function Flow(sagas: map<Id, Saga>, id: Id, ledger: Id): int
  {
    Outgoing(sagas, id, ledger) - Incoming(sagas, id, ledger)
  }

  ghost function Transit(sagas: map<Id, Saga>, ledger: Id): int
  {
    Sum(sagas.Keys, id => Flow(sagas, id, ledger))
  }

  /** The amount of a transfer that is neither delivered nor refunded. */
  function Undelivered(sagas: map<Id, Saga>, id: Id): int
  {
    if id in sagas && sagas[id].status in {Pending, Failed} then sagas[id].amount else 0
  }

  /** The balance of a ledger's clearing account. */
  function HeldFor(accounts: Accounts, clearing: map<Id, Id>, ledger: Id): int
  {
    if ledger in clearing then BalanceOf(accounts, clearing[ledger]) else 0
  }

  ghost predicate NamesClearing(clearing: map<Id, Id>, account: Id)
  {
    exists l :: l in clearing && clearing[l] == account
  }

  /** Callers keep away from clearing accounts. */
  ghost predicate KeepsAway(s: State, a: Action)
  {
    match a
    case OpenAccount(_, _, _, _) => true
    case PostRequest(_, es, _, _) => forall e :: e in es ==> !NamesClearing(s.clearing, e.account)
    case TransferStep(req, _, _) =>
      !NamesClearing(s.clearing, req.sourceAccount) && !NamesClearing(s.clearing, req.destAccount)
    case WorkerTurn(_, _, _) => true
  }

  ghost predicate RunKeepsAway(run: seq<Action>)
    requires IsRun(EMPTY, run)
  {
    run == [] || (RunKeepsAway(run[..|run| - 1]) && KeepsAway(After(EMPTY, run[..|run| - 1]), run[|run| - 1]))
  }

  ghost predicate ClearingHoldsTransit(accounts: Accounts, clearing: map<Id, Id>, sagas: map<Id, Saga>)
  {
    forall l :: l in clearing ==> BalanceOf(accounts, clearing[l]) == Transit(sagas, l)
  }

  ghost predicate EndpointsAway(clearing: map<Id, Id>, sagas: map<Id, Saga>)
  {
    forall id :: id in sagas ==>
      !NamesClearing(clearing, sagas[id].sourceAccount) && !NamesClearing(clearing, sagas[id].destAccount)
  }

  ghost predicate Conserved(s: State)
  {
    ClearingHoldsTransit(s.accounts, s.clearing, s.sagas) && EndpointsAway(s.clearing, s.sagas)
  }

  // ------------------------------------------------------------------ sagas move

  lemma TransitUpdate(sagas: map<Id, Saga>, id: Id, g: Saga, ledger: Id)
    ensures Transit(sagas[id := g], ledger) ==
            Transit(sagas, ledger) - Flow(sagas, id, ledger) + Flow(sagas[id := g], id, ledger)
  {
    var sagas' := sagas[id := g];
    if id in sagas {
      assert sagas'.Keys == sagas.Keys;
      SumUpdate(sagas.Keys, i => Flow(sagas, i, ledger), i => Flow(sagas', i, ledger), id);
    } else {
      assert sagas'.Keys == sagas.Keys + {id};
      SumInsert(sagas.Keys, i => Flow(sagas, i, ledger), i => Flow(sagas', i, ledger), id);
    }
  }

  /** A ledger without a clearing account has nothing in transit. */
  lemma NoClearingNoTransit(s: State, ledger: Id)
    requires SagasOk(s.accounts, s.transactions, s.clearing, s.sagas) && ledger !in s.clearing
    ensures Transit(s.sagas, ledger) == 0
  {
    forall id | id in s.sagas ensures Flow(s.sagas, id, ledger) == 0 {
      assert SagaOk(s.accounts, s.transactions, s.clearing, s.sagas[id]);
    }
    SumZero(s.sagas.Keys, id => Flow(s.sagas, id, ledger));
  }

  // ------------------------------------------------------------------ books move

  /** A leg moves the clearing account of its own ledger and no other. */
  lemma LegShifts(s: State, ledger: Id, ids: Fresh, x: Entry, y: Entry, now: int, l: Id)
    requires Inv(s) && Unused(s, ids)
    requires InBoundary(s.accounts, x.account, ledger) && !NamesClearing(s.clearing, x.account)
    requires y.account == EnsureClearing(s, ledger, ids.clearing).clearing[ledger]
    requires OneSided(x) && OneSided(y) && x.debit == y.credit && x.credit == y.debit
    requires l in s.clearing || l == ledger
    ensures var s' := Post(EnsureClearing(s, ledger, ids.clearing), [x, y], ids.tx, now);
            BalanceOf(s'.accounts, s'.clearing[l]) ==
            (if l in s.clearing then BalanceOf(s.accounts, s.clearing[l]) else 0)
            + (if l == ledger then y.debit - y.credit else 0)
  {
    hide SagasOk, LegsPartition, TransferKeysOk, PostKeysOk, OutboxOk, Journaled, UniqueIds, InOneLedger;
    var c := EnsureClearing(s, ledger, ids.clearing);
    LegPosts(s, ledger, ids, x, y, now);
    NetPair(x, y, c.clearing[l]);
    assert l in s.clearing ==> s.clearing[l] in s.accounts && s.accounts[s.clearing[l]].ledger == l;
  }

  lemma AwayStays(s: State, ledger: Id, newId: Id, account: Id)
    requires account in s.accounts && newId !in s.accounts && !NamesClearing(s.clearing, account)
    ensures !NamesClearing(EnsureClearing(s, ledger, newId).clearing, account)
  {
  }

  lemma EndpointsStay(s: State, ledger: Id, newId: Id)
    requires SagasOk(s.accounts, s.transactions, s.clearing, s.sagas) && newId !in s.accounts
    requires EndpointsAway(s.clearing, s.sagas)
    ensures EndpointsAway(EnsureClearing(s, ledger, newId).clearing, s.sagas)
  {
    forall id | id in s.sagas
      ensures !NamesClearing(EnsureClearing(s, ledger, newId).clearing, s.sagas[id].sourceAccount)
      ensures !NamesClearing(EnsureClearing(s, ledger, newId).clearing, s.sagas[id].destAccount)
    {
      assert SagaOk(s.accounts, s.transactions, s.clearing, s.sagas[id]);
      AwayStays(s, ledger, newId, s.sagas[id].sourceAccount);
      AwayStays(s, ledger, newId, s.sagas[id].destAccount);
    }
  }

  /** A leg and the matching move of its transfer keep clearing equal to transit. */
  lemma LegConserves(s: State, s': State, ledger: Id, ids: Fresh, x: Entry, y: Entry, now: int, id: Id, g: Saga)
    requires Inv(s) && Conserved(s) && Unused(s, ids)
    requires InBoundary(s.accounts, x.account, ledger) && !NamesClearing(s.clearing, x.account)
    requires y.account == EnsureClearing(s, ledger, ids.clearing).clearing[ledger]
    requires OneSided(x) && OneSided(y) && x.debit == y.credit && x.credit == y.debit
    requires var p := Post(EnsureClearing(s, ledger, ids.clearing), [x, y], ids.tx, now);
             s'.accounts == p.accounts && s'.clearing == p.clearing
    requires s'.sagas == s.sagas[id := g]
    requires forall l :: l in s.clearing || l == ledger ==>
               Flow(s'.sagas, id, l) - Flow(s.sagas, id, l) == if l == ledger then y.debit - y.credit else 0
    requires g.sourceAccount in s.accounts && g.destAccount in s.accounts
    requires !NamesClearing(s.clearing, g.sourceAccount) && !NamesClearing(s.clearing, g.destAccount)
    ensures Conserved(s')
  {
    hide Inv, Books, SagasOk, Core, Flow, NamesClearing, PostingRefusal, Post, Transit;
    BooksOf(s);
    LegPosts(s, ledger, ids, x, y, now);
    forall l | l in s'.clearing ensures BalanceOf(s'.accounts, s'.clearing[l]) == Transit(s'.sagas, l) {
      LegShifts(s, ledger, ids, x, y, now, l);
      TransitUpdate(s.sagas, id, g, l);
      if l !in s.clearing {
        NoClearingNoTransit(s, l);
      }
    }
    EndpointsStay(s, ledger, ids.clearing);
    AwayStays(s, ledger, ids.clearing, g.sourceAccount);
    AwayStays(s, ledger, ids.clearing, g.destAccount);
  }

  // -------------------------------------------------------------------- steps

  lemma TransferConserves(s: State, req: TransferRequest, ids: Fresh, now: int)
    requires Inv(s) && Conserved(s) && Unused(s, ids)
    requires !NamesClearing(s.clearing, req.sourceAccount) && !NamesClearing(s.clearing, req.destAccount)
    ensures Conserved(CreateTransfer(s, req, ids, now))
  {
    hide Inv, Conserved, Post, PostingRefusal, NamesClearing;
    if ValidRequest(req) && req.key !in s.transferKeys && TransferRefusal(s, req).None? {
      var c := EnsureClearing(s, req.sourceLedger, ids.clearing);
      var g := NewSaga(req, ids.tx);
      var leg := SourceLeg(g, c.clearing[req.sourceLedger]);
      BooksOf(s);
      LegPosts(s, req.sourceLedger, ids, leg[0], leg[1], now);
      LegConserves(s, CreateTransfer(s, req, ids, now), req.sourceLedger, ids, leg[0], leg[1], now, ids.saga, g);
    }
  }

  lemma BooksOf(s: State)
    requires Inv(s)
    ensures Books(s.accounts, s.transactions, s.clearing)
    ensures SagasOk(s.accounts, s.transactions, s.clearing, s.sagas)
    ensures forall id :: id in s.sagas ==> SagaOk(s.accounts, s.transactions, s.clearing, s.sagas[id])
  {
  }

  lemma DestinationConserves(s: State, id: Id, ids: Fresh, now: int)
    requires Inv(s) && Conserved(s) && Unused(s, ids) && id in s.sagas && s.sagas[id].status == Pending
    ensures Conserved(HandleDestination(s, id, Accept, ids, now).state)
  {
    hide Inv, ClearingHoldsTransit, Post, PostingRefusal, NamesClearing, Books, Journaled, Core;
    BooksOf(s);
    var g := s.sagas[id];
    var c := EnsureClearing(s, g.destLedger, ids.clearing);
    var leg := DestinationLeg(g, c.clearing[g.destLedger]);
    LegPosts(s, g.destLedger, ids, leg[0], leg[1], now);
    var s' := HandleDestination(s, id, Accept, ids, now).state;
    LegConserves(s, s', g.destLedger, ids, leg[0], leg[1], now, id, WithLeg(g, DestinationSide, ids.tx));
  }

  lemma CompensationConserves(s: State, id: Id, ids: Fresh, now: int)
    requires Inv(s) && Conserved(s) && Unused(s, ids) && id in s.sagas && s.sagas[id].status == Failed
    ensures Conserved(HandleCompensation(s, id, ids, now).state)
  {
    hide Inv, ClearingHoldsTransit, Post, PostingRefusal, NamesClearing, Books, Journaled, Core;
    BooksOf(s);
    var g := s.sagas[id];
    var c := EnsureClearing(s, g.sourceLedger, ids.clearing);
    var leg := CompensationLeg(g, c.clearing[g.sourceLedger]);
    LegPosts(s, g.sourceLedger, ids, leg[0], leg[1], now);
    var s' := HandleCompensation(s, id, ids, now).state;
    LegConserves(s, s', g.sourceLedger, ids, leg[0], leg[1], now, id, WithLeg(g, CompensationSide, ids.tx));
  }

  lemma FailureConserves(s: State, id: Id)
    requires Conserved(s) && id in s.sagas && s.sagas[id].status == Pending
    ensures Conserved(s.(sagas := s.sagas[id := s.sagas[id].(status := Failed)]))
  {
    forall l | l in s.clearing
      ensures Transit(s.sagas[id := s.sagas[id].(status := Failed)], l) == Transit(s.sagas, l)
    {
      TransitUpdate(s.sagas, id, s.sagas[id].(status := Failed), l);
    }
  }

  lemma TurnConserves(s: State, verdict: Verdict, ids: Fresh, now: int)
    requires Inv(s) && Conserved(s) && Unused(s, ids) && EventsNamed(s)
    ensures Conserved(Turn(s, verdict, ids, now).state)
  {
    hide Core, HandleDestination, HandleCompensation, HasEvent, ClearingHoldsTransit, EndpointsAway;
    var i := FirstDue(s.outbox, now);
    if i < |s.outbox| {
      var e := s.outbox[i];
      assert EventFits(e, s.sagas[e.saga].status);
      if e.step == CompensateSource {
        CompensationPosts(s, e.saga, ids, now);
        CompensationConserves(s, e.saga, ids, now);
      } else if verdict == Accept {
        DestinationPosts(s, e.saga, ids, now);
        DestinationConserves(s, e.saga, ids, now);
      } else {
        DestinationRefuses(s, e.saga, verdict, ids, now);
        FailureConserves(s, e.saga);
      }
    }
  }

  lemma PostConserves(s: State, key: string, es: seq<Entry>, tx: Id, now: int)
    requires Inv(s) && Conserved(s)
    requires forall e :: e in es ==> !NamesClearing(s.clearing, e.account)
    ensures Conserved(CreateTransaction(s, key, es, tx, now))
  {
    hide SagasOk, LegsPartition, TransferKeysOk, PostKeysOk, OutboxOk, UniqueIds, InOneLedger, Balanced, InLedger;
    forall l | l in s.clearing ensures Net(es, s.clearing[l]) == 0 {
      NetUntouched(es, s.clearing[l]);
    }
  }

  lemma OpenConserves(s: State, id: Id, account: Account)
    requires Inv(s) && Conserved(s) && id !in s.accounts
    ensures Conserved(s.(accounts := s.accounts[id := account]))
  {
    hide SagasOk, LegsPartition, TransferKeysOk, PostKeysOk, OutboxOk, UniqueIds, InOneLedger;
    assert forall l :: l in s.clearing ==> s.clearing[l] != id;
  }

  lemma {:induction false} RunConserves(run: seq<Action>)
    requires IsRun(EMPTY, run) && RunKeepsAway(run)
    ensures Conserved(After(EMPTY, run))
    decreases |run|
  {
    hide Inv, Conserved, NamesClearing;
    if run == [] {
      NothingInTransit();
    } else {
      var before, a := run[..|run| - 1], run[|run| - 1];
      var s := After(EMPTY, before);
      RunConserves(before);
      RunKeeps(before);
      match a
      case OpenAccount(id, ledger, name, typ) => OpenConserves(s, id, Account(ledger, name, typ, 0));
      case PostRequest(key, es, tx, now) => PostConserves(s, key, es, tx, now);
      case TransferStep(req, ids, now) => TransferConserves(s, req, ids, now);
      case WorkerTurn(verdict, ids, now) => TurnConserves(s, verdict, ids, now);
    }
  }

  lemma NothingInTransit()
    ensures Conserved(EMPTY)
  {
  }

  // ------------------------------------------------------------------ theorems

  /** While callers keep away from clearing accounts, each ledger's clearing
      balance is its outgoing transfers not refunded minus its incoming ones
      completed. */
  lemma ClearingBalance(run: seq<Action>, ledger: Id)
    requires IsRun(EMPTY, run) && RunKeepsAway(run)
    ensures var s := After(EMPTY, run);
            ledger in s.clearing ==>
              BalanceOf(s.accounts, s.clearing[ledger]) ==
              Sum(s.sagas.Keys, id => Outgoing(s.sagas, id, ledger))
              - Sum(s.sagas.Keys, id => Incoming(s.sagas, id, ledger))
  {
    RunConserves(run);
    var s := After(EMPTY, run);
    SumPlus(s.sagas.Keys, id => Flow(s.sagas, id, ledger), id => Incoming(s.sagas, id, ledger),
            id => Outgoing(s.sagas, id, ledger));
  }

  /** Summed over all ledgers, clearing holds exactly the pending and failed
      transfers. */
  lemma InTransitConservation(run: seq<Action>)
    requires IsRun(EMPTY, run) && RunKeepsAway(run)
    ensures var s := After(EMPTY, run);
            Sum(s.clearing.Keys, l => HeldFor(s.accounts, s.clearing, l)) ==
            Sum(s.sagas.Keys, id => Undelivered(s.sagas, id))
  {
    RunConserves(run);
    RunKeeps(run);
    TotalFlow(After(EMPTY, run));
  }

  lemma TotalFlow(s: State)
    requires Inv(s) && Conserved(s)
    ensures Sum(s.clearing.Keys, l => HeldFor(s.accounts, s.clearing, l)) ==
            Sum(s.sagas.Keys, id => Undelivered(s.sagas, id))
  {
    hide Inv, Flow, Undelivered, BalanceOf, EndpointsAway;
    forall id | id in s.sagas ensures Sum(s.clearing.Keys, l => Flow(s.sagas, id, l)) == Undelivered(s.sagas, id) {
      FlowOverLedgers(s, id);
    }
    FlowBothWays(s.sagas, s.clearing.Keys, l => HeldFor(s.accounts, s.clearing, l));
  }

  lemma FlowBothWays(sagas: map<Id, Saga>, ledgers: set<Id>, held: Id -> int)
    requires forall l :: l in ledgers ==> held(l) == Transit(sagas, l)
    requires forall id :: id in sagas ==> Sum(ledgers, l => Flow(sagas, id, l)) == Undelivered(sagas, id)
    ensures Sum(ledgers, held) == Sum(sagas.Keys, id => Undelivered(sagas, id))
  {
    hide Flow, Undelivered;
    var row := (l: Id) => ((id: Id) => Flow(sagas, id, l));
    var col := (id: Id) => ((l: Id) => Flow(sagas, id, l));
    var left := (id: Id) => Undelivered(sagas, id);
    forall l | l in ledgers ensures held(l) == Sum(sagas.Keys, row(l)) {
      SumCong(sagas.Keys, id => Flow(sagas, id, l), row(l));
    }
    forall id | id in sagas.Keys ensures left(id) == Sum(ledgers, col(id)) {
      SumCong(ledgers, l => Flow(sagas, id, l), col(id));
    }
    SumExchange(ledgers, sagas.Keys, row, col, held, left);
  }

  lemma FlowOverLedgers(s: State, id: Id)
    requires Inv(s) && id in s.sagas
    ensures Sum(s.clearing.Keys, l => Flow(s.sagas, id, l)) == Undelivered(s.sagas, id)
  {
    var ledgers, g := s.clearing.Keys, s.sagas[id];
    assert SagaOk(s.accounts, s.transactions, s.clearing, g);
    SumSingle(ledgers, l => Outgoing(s.sagas, id, l), g.sourceLedger);
    if g.status == Completed {
      SumSingle(ledgers, l => Incoming(s.sagas, id, l), g.destLedger);
    } else {
      SumZero(ledgers, l => Incoming(s.sagas, id, l));
    }
    SumPlus(ledgers, l => Flow(s.sagas, id, l), l => Incoming(s.sagas, id, l), l => Outgoing(s.sagas, id, l));
  }
}
