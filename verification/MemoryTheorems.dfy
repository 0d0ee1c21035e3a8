/** The promises of the in-memory ledger, stated for every run. */
module MemoryTheorems {
  import opened Domain
  import opened Memory
  import opened MemoryInvariant
  import opened Sums

  ghost predicate Reachable(s: State)
  {
    exists run :: IsRun(EMPTY, run) && After(EMPTY, run) == s
  }

  lemma ReachableInv(s: State)
    requires Reachable(s)
    ensures Inv(s)
  {
    hide Inv;
    var run :| IsRun(EMPTY, run) && After(EMPTY, run) == s;
    RunKeeps(run);
  }

  // ------------------------------------------------------------- saga safety

  /** `id` has exactly one open event, of the given step. */
  ghost predicate OneOpen(outbox: seq<Event>, id: Id, step: StepKind)
  {
    exists i :: 0 <= i < |outbox| && IsOpen(outbox, i, id) && outbox[i].step == step
                && forall j :: IsOpen(outbox, j, id) ==> j == i
  }

  ghost predicate IsOpen(outbox: seq<Event>, i: int, id: Id)
  {
    0 <= i < |outbox| && outbox[i].saga == id && !outbox[i].processed
  }

  ghost predicate NoneOpen(outbox: seq<Event>, id: Id)
  {
    forall i :: !IsOpen(outbox, i, id)
  }

  /** The four shapes: which legs are in the journal and what is still to do. */
  ghost predicate Shape(s: State, id: Id)
    requires id in s.sagas
  {
    var g := s.sagas[id];
    match g.status
    case Pending => g.destTx.None? && g.compTx.None? && OneOpen(s.outbox, id, DestinationCredit)
    case Completed => g.destTx.Some? && g.compTx.None? && NoneOpen(s.outbox, id)
    case Failed => g.destTx.None? && g.compTx.None? && OneOpen(s.outbox, id, CompensateSource)
    case Compensated => g.destTx.None? && g.compTx.Some? && NoneOpen(s.outbox, id)
  }

  /** The journal holds `es` under `tx` exactly once. */
  ghost predicate PostedOnce(txs: seq<Transaction>, tx: Id, es: seq<Entry>)
  {
    exists i :: 0 <= i < |txs| && txs[i].id == tx && txs[i].entries == es
                && forall j :: 0 <= j < |txs| && txs[j].id == tx ==> j == i
  }

  /** In every reachable state every transfer is in one of the four shapes; its
      source was debited once, it was credited once or refunded once or neither,
      and never both. */
  lemma SagaSafety(s: State, id: Id)
    requires Reachable(s) && id in s.sagas
    ensures Shape(s, id)
    ensures !(s.sagas[id].destTx.Some? && s.sagas[id].compTx.Some?)
    ensures var g := s.sagas[id];
            && g.sourceLedger in s.clearing
            && PostedOnce(s.transactions, g.sourceTx, SourceLeg(g, s.clearing[g.sourceLedger]))
            && (g.destTx.Some? ==>
                  && g.destLedger in s.clearing
                  && PostedOnce(s.transactions, g.destTx.value, DestinationLeg(g, s.clearing[g.destLedger])))
            && (g.compTx.Some? ==>
                  PostedOnce(s.transactions, g.compTx.value, CompensationLeg(g, s.clearing[g.sourceLedger])))
  {
    ReachableInv(s);
    hide Inv, Shape, PostedOnce;
    InvSafety(s, id);
  }

  lemma InvSafety(s: State, id: Id)
    requires Inv(s) && id in s.sagas
    ensures Shape(s, id)
    ensures !(s.sagas[id].destTx.Some? && s.sagas[id].compTx.Some?)
    ensures var g := s.sagas[id];
            && g.sourceLedger in s.clearing
            && PostedOnce(s.transactions, g.sourceTx, SourceLeg(g, s.clearing[g.sourceLedger]))
            && (g.destTx.Some? ==>
                  && g.destLedger in s.clearing
                  && PostedOnce(s.transactions, g.destTx.value, DestinationLeg(g, s.clearing[g.destLedger])))
            && (g.compTx.Some? ==>
                  PostedOnce(s.transactions, g.compTx.value, CompensationLeg(g, s.clearing[g.sourceLedger])))
  {
    assert SagaOk(s.accounts, s.transactions, s.clearing, s.sagas[id]);
    ShapeFits(s, id);
    JournaledOnce(s.transactions);
  }

  lemma ShapeFits(s: State, id: Id)
    requires OutboxOk(s.outbox, s.sagas) && id in s.sagas
    requires SagaOk(s.accounts, s.transactions, s.clearing, s.sagas[id])
    ensures Shape(s, id)
  {
    hide Journaled;
    assert HasEvent(s.outbox, id, DestinationCredit);
    var d :| 0 <= d < |s.outbox| && s.outbox[d].saga == id && s.outbox[d].step == DestinationCredit;
    if s.sagas[id].status in {Failed, Compensated} {
      assert HasEvent(s.outbox, id, CompensateSource);
      var c :| 0 <= c < |s.outbox| && s.outbox[c].saga == id && s.outbox[c].step == CompensateSource;
      assert forall j :: IsOpen(s.outbox, j, id) ==> j == c;
      assert s.sagas[id].status == Failed ==> IsOpen(s.outbox, c, id);
    } else {
      assert forall j :: IsOpen(s.outbox, j, id) ==> j == d;
      assert s.sagas[id].status == Pending ==> IsOpen(s.outbox, d, id);
    }
  }

  lemma JournaledOnce(txs: seq<Transaction>)
    requires UniqueIds(txs)
    ensures forall tx, ledger, es :: Journaled(txs, tx, ledger, es) ==> PostedOnce(txs, tx, es)
  {
    forall tx, ledger, es | Journaled(txs, tx, ledger, es) ensures PostedOnce(txs, tx, es) {
      var t :| t in txs && t.id == tx && t.ledger == ledger && t.entries == es;
      var i :| 0 <= i < |txs| && txs[i] == t;
    }
  }

  /** No leg is posted twice: every journal transaction that no caller posted is
      one leg of one transfer, and different legs are different transactions. */
  lemma LegsAreDistinct(s: State)
    requires Reachable(s)
    ensures forall t :: t in s.transactions && t.id !in s.ordinary ==>
              exists id, leg :: IsLegOf(s.sagas, t.id, id, leg)
    ensures forall tx, id, leg, id', leg' ::
              IsLegOf(s.sagas, tx, id, leg) && IsLegOf(s.sagas, tx, id', leg') ==> id == id' && leg == leg'
  {
    ReachableInv(s);
    assert LegsPartition(TxIds(s.transactions), s.sagas, s.ordinary);
    forall t | t in s.transactions ensures t.id in TxIds(s.transactions) {
    }
  }

  /** A key stands for one transfer: two keys never share one, and asking again
      under a used key changes nothing. */
  lemma KeyMakesOneTransfer(s: State, key: string, req: TransferRequest, ids: Fresh, now: int)
    requires Reachable(s) && key in s.transferKeys
    ensures s.transferKeys[key] in s.sagas
    ensures forall k :: k in s.transferKeys && s.transferKeys[k] == s.transferKeys[key] ==> k == key
    ensures req.key == key ==> CreateTransfer(s, req, ids, now) == s
  {
    ReachableInv(s);
    assert TransferKeysOk(s.transferKeys, s.sagas.Keys);
  }

  /** In any run, the step that makes a transfer leaves a debit-normal source with a
      balance that is not negative, and short of exactly the amount unless it is its own
      ledger's clearing account. */
  lemma NewTransferIsFunded(run: seq<Action>, req: TransferRequest, ids: Fresh, now: int)
    requires IsRun(EMPTY, run) && Enabled(After(EMPTY, run), TransferStep(req, ids, now))
    requires ids.saga in Step(After(EMPTY, run), TransferStep(req, ids, now)).sagas
    ensures var s := After(EMPTY, run);
            var s' := Step(s, TransferStep(req, ids, now));
            && req.sourceAccount in s.accounts && req.sourceAccount in s'.accounts && req.sourceLedger in s'.clearing
            && var was, left := s.accounts[req.sourceAccount], s'.accounts[req.sourceAccount];
               && (was.typ in {Asset, Expense} ==> was.balance >= req.amount && left.balance >= 0)
               && (s'.clearing[req.sourceLedger] != req.sourceAccount ==> left.balance == was.balance - req.amount)
  {
    var s := After(EMPTY, run);
    hide IsRun, After;
    RefusalMeans(s, req);
    SourceMoves(s, req, ids, now);
  }

  /** What that step leaves behind: one more transaction, dated now, in the source's
      ledger, crediting the source and debiting clearing; the transfer under its key; and
      its credit, due at once. */
  lemma NewTransferIsRecorded(run: seq<Action>, req: TransferRequest, ids: Fresh, now: int)
    requires IsRun(EMPTY, run) && Enabled(After(EMPTY, run), TransferStep(req, ids, now))
    requires ids.saga in Step(After(EMPTY, run), TransferStep(req, ids, now)).sagas
    ensures var s := After(EMPTY, run);
            var s' := Step(s, TransferStep(req, ids, now));
            && req.sourceLedger in s'.clearing
            && s'.transactions == s.transactions + [Transaction(ids.tx, req.sourceLedger,
                 [Entry(req.sourceAccount, req.amount, 0), Entry(s'.clearing[req.sourceLedger], 0, req.amount)], now)]
            && s'.outbox == s.outbox + [Event(ids.saga, DestinationCredit, 0, now, false)]
            && s'.transferKeys == s.transferKeys[req.key := ids.saga] && req.key !in s.transferKeys
            && s'.sagas == s.sagas[ids.saga := Saga(req.sourceLedger, req.sourceAccount, req.destLedger,
                                                    req.destAccount, req.amount, Pending, ids.tx, None, None)]
            && s'.keys == s.keys
  {
    var s := After(EMPTY, run);
    hide IsRun, After;
    SourceRecords(s, req, ids, now);
  }

  lemma SourceRecords(s: State, req: TransferRequest, ids: Fresh, now: int)
    requires Unused(s, ids) && ids.saga in CreateTransfer(s, req, ids, now).sagas
    ensures var s' := CreateTransfer(s, req, ids, now);
            && req.sourceLedger in s'.clearing && req.key !in s.transferKeys
            && s'.transactions == s.transactions + [Transaction(ids.tx, req.sourceLedger,
                 [Entry(req.sourceAccount, req.amount, 0), Entry(s'.clearing[req.sourceLedger], 0, req.amount)], now)]
            && s'.outbox == s.outbox + [Event(ids.saga, DestinationCredit, 0, now, false)]
            && s'.transferKeys == s.transferKeys[req.key := ids.saga] && s'.keys == s.keys
            && s'.sagas == s.sagas[ids.saga := Saga(req.sourceLedger, req.sourceAccount, req.destLedger,
                                                    req.destAccount, req.amount, Pending, ids.tx, None, None)]
  {
  }

  lemma SourceMoves(s: State, req: TransferRequest, ids: Fresh, now: int)
    requires Unused(s, ids) && ids.saga in CreateTransfer(s, req, ids, now).sagas
    ensures var s' := CreateTransfer(s, req, ids, now);
            && req.amount > 0 && TransferRefusal(s, req).None?
            && req.sourceAccount in s.accounts && req.sourceAccount in s'.accounts && req.sourceLedger in s'.clearing
            && s'.accounts[req.sourceAccount].balance == s.accounts[req.sourceAccount].balance
               - if s'.clearing[req.sourceLedger] == req.sourceAccount then 0 else req.amount
  {
    var c := EnsureClearing(s, req.sourceLedger, ids.clearing);
    var account := c.clearing[req.sourceLedger];
    NetPair(Entry(req.sourceAccount, req.amount, 0), Entry(account, 0, req.amount), req.sourceAccount);
  }

  /** A transfer, once made, keeps its boundaries, amount and posted legs for
      ever; completed and compensated are final. */
  ghost predicate Continues(g: Saga, g': Saga)
  {
    && g'.sourceLedger == g.sourceLedger && g'.sourceAccount == g.sourceAccount
    && g'.destLedger == g.destLedger && g'.destAccount == g.destAccount && g'.amount == g.amount
    && g'.sourceTx == g.sourceTx
    && (g.destTx.Some? ==> g'.destTx == g.destTx)
    && (g.compTx.Some? ==> g'.compTx == g.compTx)
    && (g.status in {Completed, Compensated} ==> g'.status == g.status)
    && (g.status == Failed ==> g'.status in {Failed, Compensated})
  }

  /** Outside worker turns, the only change to transfers is a new pending one. */
  lemma QuietEffect(s: State, a: Action)
    requires Enabled(s, a) && !a.WorkerTurn?
    ensures var s' := Step(s, a);
            || (s'.sagas == s.sagas && s'.outbox == s.outbox && s'.transferKeys == s.transferKeys)
            || (&& a.TransferStep? && a.req.key !in s.transferKeys
                && s'.sagas == s.sagas[a.ids.saga := NewSaga(a.req, a.ids.tx)]
                && s'.outbox == s.outbox + [Event(a.ids.saga, DestinationCredit, 0, a.now, false)]
                && s'.transferKeys == s.transferKeys[a.req.key := a.ids.saga])
  {
    hide Post, PostingRefusal, TransferRefusal, ValidRequest, EventsNamed, NewSaga;
    if a.PostRequest? {
      PostFrame(s, a.entries, a.tx, a.now);
    }
  }

  lemma PostFrame(s: State, es: seq<Entry>, tx: Id, now: int)
    ensures Post(s, es, tx, now).sagas == s.sagas && Post(s, es, tx, now).outbox == s.outbox
    ensures Post(s, es, tx, now).transferKeys == s.transferKeys
  {
  }

  lemma StepContinues(s: State, a: Action, id: Id)
    requires Inv(s) && Enabled(s, a) && id in s.sagas
    ensures id in Step(s, a).sagas && Continues(s.sagas[id], Step(s, a).sagas[id])
  {
    hide Inv, Turn, CreateTransfer, CreateTransaction;
    if a.WorkerTurn? {
      TurnEffect(s, a.verdict, a.ids, a.now);
      LegsByStatus(s, id);
    } else {
      QuietEffect(s, a);
    }
  }

  lemma LegsByStatus(s: State, id: Id)
    requires Inv(s) && id in s.sagas
    ensures s.sagas[id].destTx.Some? <==> s.sagas[id].status == Completed
    ensures s.sagas[id].compTx.Some? <==> s.sagas[id].status == Compensated
  {
    assert SagaOk(s.accounts, s.transactions, s.clearing, s.sagas[id]);
  }

  lemma {:induction false} RunKeepsFrom(s: State, run: seq<Action>)
    requires Inv(s) && IsRun(s, run)
    ensures Inv(After(s, run))
    decreases |run|
  {
    hide Inv, Enabled, Step;
    if run != [] {
      RunKeepsFrom(s, run[..|run| - 1]);
      StepKeeps(After(s, run[..|run| - 1]), run[|run| - 1]);
    }
  }

  lemma {:induction false} ContinuesFrom(s: State, more: seq<Action>, id: Id)
    requires Inv(s) && IsRun(s, more) && id in s.sagas
    ensures id in After(s, more).sagas && Continues(s.sagas[id], After(s, more).sagas[id])
    decreases |more|
  {
    hide Inv, Enabled, Step;
    if more != [] {
      var before := more[..|more| - 1];
      ContinuesFrom(s, before, id);
      RunKeepsFrom(s, before);
      StepContinues(After(s, before), more[|more| - 1], id);
    }
  }

  /** From any moment of any run to any later one. */
  lemma SagaForever(run: seq<Action>, more: seq<Action>, id: Id)
    requires IsRun(EMPTY, run) && IsRun(After(EMPTY, run), more) && id in After(EMPTY, run).sagas
    ensures var s, s' := After(EMPTY, run), After(After(EMPTY, run), more);
            id in s'.sagas && Continues(s.sagas[id], s'.sagas[id])
  {
    hide Inv;
    RunKeeps(run);
    ContinuesFrom(After(EMPTY, run), more, id);
  }

  lemma StepKeepsKeys(s: State, a: Action)
    requires Inv(s) && Enabled(s, a)
    ensures forall k :: k in s.transferKeys ==>
              k in Step(s, a).transferKeys && Step(s, a).transferKeys[k] == s.transferKeys[k]
  {
    hide Inv, Turn, CreateTransfer, CreateTransaction;
    if a.WorkerTurn? {
      TurnEffect(s, a.verdict, a.ids, a.now);
    } else {
      QuietEffect(s, a);
    }
  }

  lemma {:induction false} KeysFrom(s: State, more: seq<Action>, key: string)
    requires Inv(s) && IsRun(s, more) && key in s.transferKeys
    ensures key in After(s, more).transferKeys && After(s, more).transferKeys[key] == s.transferKeys[key]
    decreases |more|
  {
    hide Inv, Enabled, Step;
    if more != [] {
      var before := more[..|more| - 1];
      KeysFrom(s, before, key);
      RunKeepsFrom(s, before);
      StepKeepsKeys(After(s, before), more[|more| - 1]);
    }
  }

  /** A key debits its source at most once: from the moment it is used it names the same
      transfer in every later state, that transfer keeps the same source transaction,
      and the journal holds that debit exactly once. */
  lemma KeyDebitsOnce(run: seq<Action>, more: seq<Action>, key: string)
    requires IsRun(EMPTY, run) && IsRun(After(EMPTY, run), more) && key in After(EMPTY, run).transferKeys
    ensures var s, s' := After(EMPTY, run), After(After(EMPTY, run), more);
            && key in s'.transferKeys && s'.transferKeys[key] == s.transferKeys[key]
            && s.transferKeys[key] in s.sagas && s.transferKeys[key] in s'.sagas
            && var g, g' := s.sagas[s.transferKeys[key]], s'.sagas[s.transferKeys[key]];
               && g'.sourceTx == g.sourceTx && g'.amount == g.amount && g'.sourceLedger in s'.clearing
               && PostedOnce(s'.transactions, g.sourceTx, SourceLeg(g', s'.clearing[g'.sourceLedger]))
  {
    RunKeeps(run);
    hide PostedOnce, Shape, CreateTransfer, SourceLeg, IsRun, After, Inv;
    var s := After(EMPTY, run);
    var s' := After(s, more);
    KeysFrom(s, more, key);
    KeyNamesTransfer(s, key);
    ContinuesFrom(s, more, s.transferKeys[key]);
    RunKeepsFrom(s, more);
    InvSafety(s', s.transferKeys[key]);
  }

  lemma KeyNamesTransfer(s: State, key: string)
    requires Inv(s) && key in s.transferKeys
    ensures s.transferKeys[key] in s.sagas
  {
    assert TransferKeysOk(s.transferKeys, s.sagas.Keys);
  }

  // --------------------------------------------------------------- work bound

  /** Turns an event may still take, counting the refund a failure leads to. */
  function EventFuel(e: Event): int
  {
    if e.processed then 0 else if e.step == CompensateSource then 1 else MAX_ATTEMPTS + 1 - e.attempts
  }

  function Fuel(outbox: seq<Event>, id: Id): int
  {
    if outbox == [] then 0 else
      var last := outbox[|outbox| - 1];
      Fuel(outbox[..|outbox| - 1], id) + if last.saga == id then EventFuel(last) else 0
  }

  lemma {:induction false} FuelUpdate(outbox: seq<Event>, i: nat, e: Event, id: Id)
    requires i < |outbox| && e.saga == outbox[i].saga
    ensures Fuel(outbox[i := e], id) ==
            Fuel(outbox, id) + if e.saga == id then EventFuel(e) - EventFuel(outbox[i]) else 0
    decreases |outbox|
  {
    var n := |outbox| - 1;
    if i < n {
      assert outbox[i := e][..n] == outbox[..n][i := e];
      FuelUpdate(outbox[..n], i, e, id);
    } else {
      assert outbox[i := e][..n] == outbox[..n];
    }
  }

  lemma FuelSnoc(outbox: seq<Event>, e: Event, id: Id)
    ensures Fuel(outbox + [e], id) == Fuel(outbox, id) + if e.saga == id then EventFuel(e) else 0
  {
    assert (outbox + [e])[..|outbox|] == outbox;
  }

  lemma {:induction false} FuelZero(outbox: seq<Event>, id: Id)
    requires forall i :: 0 <= i < |outbox| ==> outbox[i].saga != id
    ensures Fuel(outbox, id) == 0
  {
    if outbox != [] {
      FuelZero(outbox[..|outbox| - 1], id);
    }
  }

  ghost predicate WorksOn(s: State, a: Action, id: Id)
    requires Enabled(s, a)
  {
    a.WorkerTurn? && Turn(s, a.verdict, a.ids, a.now).kind == Worked(id)
  }

  /** How many worker turns of `run` went into transfer `id`. */
  ghost function Turns(run: seq<Action>, id: Id): nat
    requires IsRun(EMPTY, run)
  {
    if run == [] then 0 else
      var before := run[..|run| - 1];
      Turns(before, id) + if WorksOn(After(EMPTY, before), run[|run| - 1], id) then 1 else 0
  }

  /** Every turn spent on a transfer burns some of its fuel. */
  lemma TurnBurns(s: State, verdict: Verdict, ids: Fresh, now: int, id: Id)
    requires Inv(s) && EventsNamed(s) && Unused(s, ids)
    ensures var r := Turn(s, verdict, ids, now);
            Fuel(r.state.outbox, id) + (if r.kind == Worked(id) then 1 else 0) <= Fuel(s.outbox, id)
  {
    TurnEffect(s, verdict, ids, now);
    DueEvent(s, now);
    hide Core, Turn, OutboxOk, EventsNamed, Uses, TurnMoves, Fuel, Unused;
    var i := FirstDue(s.outbox, now);
    hide FirstDue;
    if i < |s.outbox| {
      MoveBurns(s, Turn(s, verdict, ids, now).state, i, verdict, ids, now, id);
    }
  }

  lemma MoveBurns(s: State, s': State, i: nat, verdict: Verdict, ids: Fresh, now: int, id: Id)
    requires i < |s.outbox| && !s.outbox[i].processed && s.outbox[i].saga in s.sagas
    requires EventFits(s.outbox[i], s.sagas[s.outbox[i].saga].status) && TurnMoves(s, s', i, verdict, ids, now)
    ensures Fuel(s'.outbox, id) + (if s.outbox[i].saga == id then 1 else 0) <= Fuel(s.outbox, id)
  {
    hide Fuel, RetryAt;
    var e := s.outbox[i];
    assert i < |s'.outbox| && s'.outbox[i].saga == e.saga;
    FuelUpdate(s.outbox, i, s'.outbox[i], id);
    FuelSnoc(s.outbox[i := s'.outbox[i]], Event(e.saga, CompensateSource, 0, now, false), id);
    assert EventFuel(s'.outbox[i]) < EventFuel(e);
  }

  /** At most six turns go into one transfer, in every run: five attempts at the
      destination and one refund. */
  lemma {:induction false} WorkBound(run: seq<Action>, id: Id)
    requires IsRun(EMPTY, run)
    ensures Turns(run, id) + Fuel(After(EMPTY, run).outbox, id) <= 6
    ensures id !in After(EMPTY, run).sagas ==> Turns(run, id) == 0
    ensures Turns(run, id) <= 6
    decreases |run|
  {
    hide Core, Turn, CreateTransfer, CreateTransaction, HasEvent;
    RunKeeps(run);
    var s' := After(EMPTY, run);
    assert forall i :: 0 <= i < |s'.outbox| && !s'.outbox[i].processed ==> s'.outbox[i].attempts < MAX_ATTEMPTS;
    FuelFloor(s'.outbox, id);
    if run != [] {
      var before := run[..|run| - 1];
      var s, a := After(EMPTY, before), run[|run| - 1];
      WorkBound(before, id);
      RunKeeps(before);
      if a.WorkerTurn? {
        TurnBurns(s, a.verdict, a.ids, a.now, id);
        TurnEffect(s, a.verdict, a.ids, a.now);
      } else {
        assert forall i :: 0 <= i < |s.outbox| ==> s.outbox[i].saga in s.sagas;
        QuietStep(s, a, id);
      }
    }
  }

  lemma {:induction false} FuelFloor(outbox: seq<Event>, id: Id)
    requires forall i :: 0 <= i < |outbox| && !outbox[i].processed ==> outbox[i].attempts < MAX_ATTEMPTS
    ensures Fuel(outbox, id) >= 0
  {
    if outbox != [] {
      FuelFloor(outbox[..|outbox| - 1], id);
    }
  }

  /** Steps other than worker turns add at most one fresh transfer. */
  lemma QuietStep(s: State, a: Action, id: Id)
    requires Enabled(s, a) && !a.WorkerTurn?
    requires forall i :: 0 <= i < |s.outbox| ==> s.outbox[i].saga in s.sagas
    ensures s.sagas.Keys <= Step(s, a).sagas.Keys
    ensures id in s.sagas ==> Fuel(Step(s, a).outbox, id) == Fuel(s.outbox, id)
    ensures id !in s.sagas ==> Fuel(Step(s, a).outbox, id) <= 6
  {
    hide Step;
    QuietEffect(s, a);
    if a.TransferStep? {
      FuelSnoc(s.outbox, Event(a.ids.saga, DestinationCredit, 0, a.now, false), id);
    }
    if id !in s.sagas {
      FuelZero(s.outbox, id);
    }
  }

  /** When nothing is open, every transfer has ended well or been refunded; and
      no turn in any reachable state reports an error. */
  lemma Quiescence(s: State)
    requires Reachable(s)
    ensures (forall i :: 0 <= i < |s.outbox| ==> s.outbox[i].processed) ==>
              forall id :: id in s.sagas ==> s.sagas[id].status in {Completed, Compensated}
    ensures EventsNamed(s)
    ensures forall verdict, ids, now :: Unused(s, ids) ==> Turn(s, verdict, ids, now).kind != Stuck
  {
    ReachableInv(s);
    hide Core;
    if forall i :: 0 <= i < |s.outbox| ==> s.outbox[i].processed {
      forall id | id in s.sagas ensures s.sagas[id].status in {Completed, Compensated} {
        assert HasEvent(s.outbox, id, DestinationCredit);
        if s.sagas[id].status == Failed {
          assert HasEvent(s.outbox, id, CompensateSource);
        }
      }
    }
    forall verdict, ids, now | Unused(s, ids)
      ensures Turn(s, verdict, ids, now).kind != Stuck
    {
      TurnKeeps(s, verdict, ids, now);
    }
  }

  // ------------------------------------------------------- journal and ledgers

  /** Sum of the stored balances of one ledger's accounts. */
  ghost function LedgerBalance(accounts: Accounts, ledger: Id): int
  {
    Sum(AccountsOf(accounts, ledger), a => BalanceOf(accounts, a))
  }

  ghost function AccountsOf(accounts: Accounts, ledger: Id): set<Id>
  {
    set a | a in accounts && accounts[a].ledger == ledger
  }

  function BalanceOf(accounts: Accounts, a: Id): int
  {
    if a in accounts then accounts[a].balance else 0
  }

  /** Over a set holding every account they name, entries sum to debits minus credits. */
  lemma {:induction false} NetOverAll(es: seq<Entry>, accounts: set<Id>)
    requires forall e :: e in es ==> e.account in accounts
    ensures Sum(accounts, a => Net(es, a)) == Debits(es) - Credits(es)
  {
    if es == [] {
      SumZero(accounts, a => Net(es, a));
    } else {
      var rest, last := es[..|es| - 1], es[|es| - 1];
      assert last in es;
      NetOverAll(rest, accounts);
      var here := (a: Id) => if a == last.account then last.debit - last.credit else 0;
      SumSingle(accounts, here, last.account);
      SumPlus(accounts, a => Net(rest, a), here, a => Net(es, a));
    }
  }

  lemma NetOverNone(es: seq<Entry>, accounts: set<Id>)
    requires forall e :: e in es ==> e.account !in accounts
    ensures Sum(accounts, a => Net(es, a)) == 0
  {
    forall a | a in accounts ensures Net(es, a) == 0 {
      NetUntouched(es, a);
    }
    SumZero(accounts, a => Net(es, a));
  }

  lemma {:induction false} JournalOverLedger(accounts: Accounts, txs: seq<Transaction>, ledger: Id)
    requires forall t :: t in txs ==> InOneLedger(accounts, t)
    ensures Sum(AccountsOf(accounts, ledger), a => JournalNet(txs, a)) == 0
    decreases |txs|
  {
    var mine := AccountsOf(accounts, ledger);
    if txs == [] {
      SumZero(mine, a => JournalNet(txs, a));
    } else {
      var rest, last := txs[..|txs| - 1], txs[|txs| - 1];
      assert last in txs;
      JournalOverLedger(accounts, rest, ledger);
      if last.ledger == ledger {
        NetOverAll(last.entries, mine);
      } else {
        NetOverNone(last.entries, mine);
      }
      SumPlus(mine, a => JournalNet(rest, a), a => Net(last.entries, a), a => JournalNet(txs, a));
    }
  }

  /** In every reachable state every transaction balances within one ledger, each stored
      balance is what the journal says, and every ledger as a whole is at zero. */
  lemma BooksBalance(s: State, ledger: Id)
    requires Reachable(s)
    ensures forall t :: t in s.transactions ==> InOneLedger(s.accounts, t)
    ensures forall a :: a in s.accounts ==> s.accounts[a].balance == JournalNet(s.transactions, a)
    ensures LedgerBalance(s.accounts, ledger) == 0
  {
    ReachableInv(s);
    JournalOverLedger(s.accounts, s.transactions, ledger);
    SumCong(AccountsOf(s.accounts, ledger), a => JournalNet(s.transactions, a), a => BalanceOf(s.accounts, a));
  }
}
