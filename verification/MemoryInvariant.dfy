/** What every run of the in-memory ledger keeps: the books balance, and each
    transfer is in one of four shapes with exactly the legs and the open event
    that shape allows. */
module MemoryInvariant {
  import opened Domain
  import opened Memory

  // ------------------------------------------------------------ the invariant

  /** Journal, balances and clearing accounts agree with one another. */
  ghost predicate Books(accounts: Accounts, txs: seq<Transaction>, clearing: map<Id, Id>)
  {
    && UniqueIds(txs)
    && (forall t :: t in txs ==> InOneLedger(accounts, t))
    && (forall a :: a in accounts ==> accounts[a].balance == JournalNet(txs, a))
    && (forall l :: l in clearing ==> clearing[l] in accounts && accounts[clearing[l]].ledger == l)
  }

  ghost predicate InOneLedger(accounts: Accounts, t: Transaction)
  {
    Balanced(t.entries) && Known(accounts, t.entries) && InLedger(accounts, t.entries, t.ledger)
  }

  datatype Leg = SourceSide | DestinationSide | CompensationSide

  function LegTx(g: Saga, leg: Leg): Option<Id>
  {
    match leg
    case SourceSide => Some(g.sourceTx)
    case DestinationSide => g.destTx
    case CompensationSide => g.compTx
  }

  ghost predicate Journaled(txs: seq<Transaction>, tx: Id, ledger: Id, es: seq<Entry>)
  {
    exists t :: t in txs && t.id == tx && t.ledger == ledger && t.entries == es
  }

  ghost predicate InBoundary(accounts: Accounts, account: Id, ledger: Id)
  {
    account in accounts && accounts[account].ledger == ledger
  }

  /** A transfer's boundaries are real, its legs are in the journal with exactly
      its amount, and which legs exist is decided by its status. */
  ghost predicate SagaOk(accounts: Accounts, txs: seq<Transaction>, clearing: map<Id, Id>, g: Saga)
  {
    && g.amount > 0
    && g.sourceLedger != g.destLedger
    && InBoundary(accounts, g.sourceAccount, g.sourceLedger)
    && InBoundary(accounts, g.destAccount, g.destLedger)
    && g.sourceLedger in clearing
    && Journaled(txs, g.sourceTx, g.sourceLedger, SourceLeg(g, clearing[g.sourceLedger]))
    && (g.destTx.Some? <==> g.status == Completed)
    && (g.destTx.Some? ==>
          && g.destLedger in clearing
          && Journaled(txs, g.destTx.value, g.destLedger, DestinationLeg(g, clearing[g.destLedger])))
    && (g.compTx.Some? <==> g.status == Compensated)
    && (g.compTx.Some? ==>
          Journaled(txs, g.compTx.value, g.sourceLedger, CompensationLeg(g, clearing[g.sourceLedger])))
  }

  ghost predicate SagasOk(accounts: Accounts, txs: seq<Transaction>, clearing: map<Id, Id>, sagas: map<Id, Saga>)
  {
    forall id :: id in sagas ==> SagaOk(accounts, txs, clearing, sagas[id])
  }

  ghost predicate IsLegOf(sagas: map<Id, Saga>, tx: Id, id: Id, leg: Leg)
  {
    id in sagas && LegTx(sagas[id], leg) == Some(tx)
  }

  /** Every journal transaction is either an ordinary posting or one leg of one
      transfer, never both and never two legs. */
  ghost predicate LegsPartition(txIds: set<Id>, sagas: map<Id, Saga>, ordinary: set<Id>)
  {
    && ordinary <= txIds
    && (forall tx :: tx in txIds ==> tx in ordinary || exists id, leg :: IsLegOf(sagas, tx, id, leg))
    && (forall tx, id, leg :: IsLegOf(sagas, tx, id, leg) ==> tx in txIds && tx !in ordinary)
    && (forall tx, id, leg, id', leg' ::
          IsLegOf(sagas, tx, id, leg) && IsLegOf(sagas, tx, id', leg') ==> id == id' && leg == leg')
  }

  /** Every transfer was made under exactly one key. */
  ghost predicate TransferKeysOk(transferKeys: map<string, Id>, sagaIds: set<Id>)
  {
    && (forall k :: k in transferKeys ==> transferKeys[k] in sagaIds)
    && (forall k, k' :: k in transferKeys && k' in transferKeys && transferKeys[k] == transferKeys[k'] ==> k == k')
    && (forall id :: id in sagaIds ==> exists k :: k in transferKeys && transferKeys[k] == id)
  }

  ghost predicate KeyRowOk(row: KeyRow, txs: seq<Transaction>, ordinary: set<Id>)
  {
    row.tx in ordinary && exists t :: t in txs && t.id == row.tx && multiset(t.entries) == row.checksum
  }

  /** A posting key names one ordinary transaction with the request's digest. */
  ghost predicate PostKeysOk(keys: map<string, KeyRow>, txs: seq<Transaction>, ordinary: set<Id>)
  {
    && (forall k :: k in keys ==> KeyRowOk(keys[k], txs, ordinary))
    && (forall k, k' :: k in keys && k' in keys && keys[k].tx == keys[k'].tx ==> k == k')
  }

  ghost predicate HasEvent(outbox: seq<Event>, id: Id, step: StepKind)
  {
    exists i :: 0 <= i < |outbox| && outbox[i].saga == id && outbox[i].step == step
  }

  /** The status an event demands of its transfer. */
  predicate EventFits(e: Event, status: Status)
  {
    match e.step
    case DestinationCredit => if e.processed then status != Pending else status == Pending && e.attempts < MAX_ATTEMPTS
    case CompensateSource => e.attempts == 0 && if e.processed then status == Compensated else status == Failed
  }

  ghost predicate OutboxOk(outbox: seq<Event>, sagas: map<Id, Saga>)
  {
    && (forall i :: 0 <= i < |outbox| ==> outbox[i].saga in sagas && EventFits(outbox[i], sagas[outbox[i].saga].status))
    && (forall i, j :: 0 <= i < j < |outbox| && outbox[i].saga == outbox[j].saga ==>
          outbox[i].step == DestinationCredit && outbox[j].step == CompensateSource)
    && (forall id :: id in sagas ==> HasEvent(outbox, id, DestinationCredit))
    && (forall id :: id in sagas && sagas[id].status in {Failed, Compensated} ==>
          HasEvent(outbox, id, CompensateSource))
  }

  /** The invariant without its outbox part, which holds between an event's
      handler and the moment its outcome is booked. */
  ghost predicate Core(s: State)
  {
    && Books(s.accounts, s.transactions, s.clearing)
    && SagasOk(s.accounts, s.transactions, s.clearing, s.sagas)
    && LegsPartition(TxIds(s.transactions), s.sagas, s.ordinary)
    && TransferKeysOk(s.transferKeys, s.sagas.Keys)
    && PostKeysOk(s.keys, s.transactions, s.ordinary)
  }

  ghost predicate Inv(s: State)
  {
    Core(s) && OutboxOk(s.outbox, s.sagas)
  }

  // -------------------------------------------------------------- small steps

  /** The books may grow, but nothing recorded in them changes. */
  ghost predicate Grows(s: State, s': State)
  {
    && (forall a :: a in s.accounts ==> a in s'.accounts && s'.accounts[a].ledger == s.accounts[a].ledger)
    && s.transactions <= s'.transactions
    && (forall l :: l in s.clearing ==> l in s'.clearing && s'.clearing[l] == s.clearing[l])
  }

  lemma SagaOkGrows(s: State, s': State, g: Saga)
    requires SagaOk(s.accounts, s.transactions, s.clearing, g) && Grows(s, s')
    ensures SagaOk(s'.accounts, s'.transactions, s'.clearing, g)
  {
    forall tx, ledger, es | Journaled(s.transactions, tx, ledger, es)
      ensures Journaled(s'.transactions, tx, ledger, es)
    {
      var t :| t in s.transactions && t.id == tx && t.ledger == ledger && t.entries == es;
      assert t in s'.transactions;
    }
  }

  /** Transfers stay in order while the books grow; at most one, itself in
      order, is new or changed. */
  lemma SagasOkGrows(s: State, s': State, id: Id)
    requires SagasOk(s.accounts, s.transactions, s.clearing, s.sagas) && Grows(s, s')
    requires forall i :: i in s'.sagas && i != id ==> i in s.sagas && s'.sagas[i] == s.sagas[i]
    requires id in s'.sagas ==> SagaOk(s'.accounts, s'.transactions, s'.clearing, s'.sagas[id])
    ensures SagasOk(s'.accounts, s'.transactions, s'.clearing, s'.sagas)
  {
    forall i | i in s'.sagas && i != id
      ensures SagaOk(s'.accounts, s'.transactions, s'.clearing, s'.sagas[i])
    {
      SagaOkGrows(s, s', s.sagas[i]);
    }
  }

  lemma SnocIds(txs: seq<Transaction>, t: Transaction)
    requires UniqueIds(txs) && t.id !in TxIds(txs)
    ensures UniqueIds(txs + [t])
    ensures TxIds(txs + [t]) == TxIds(txs) + {t.id}
  {
    forall i, j | 0 <= i < j < |txs + [t]|
      ensures (txs + [t])[i].id != (txs + [t])[j].id
    {
      assert txs[i] in txs && txs[i].id in TxIds(txs);
    }
    assert (txs + [t])[|txs|] == t;
    assert forall u :: u in txs + [t] <==> u in txs || u == t;
  }

  /** One more accepted posting leaves the books in order. */
  lemma PostBooks(s: State, es: seq<Entry>, tx: Id, now: int)
    requires Books(s.accounts, s.transactions, s.clearing)
    requires PostingRefusal(s, es).None? && tx !in TxIds(s.transactions)
    ensures var s' := Post(s, es, tx, now);
            && Books(s'.accounts, s'.transactions, s'.clearing) && Grows(s, s')
            && Journaled(s'.transactions, tx, s.accounts[es[0].account].ledger, es)
            && TxIds(s'.transactions) == TxIds(s.transactions) + {tx}
  {
    var s' := Post(s, es, tx, now);
    var t := Transaction(tx, s.accounts[es[0].account].ledger, es, now);
    SnocIds(s.transactions, t);
    assert s'.transactions[|s.transactions|] == t;
    forall a | a in s'.accounts
      ensures s'.accounts[a].balance == JournalNet(s'.transactions, a)
    {
      JournalNetSnoc(s.transactions, t, a);
    }
    forall u | u in s'.transactions ensures InOneLedger(s'.accounts, u) {
      assert u in s.transactions || u == t;
      SameLedgers(s.accounts, s'.accounts, u);
    }
    forall l | l in s'.clearing ensures s'.clearing[l] in s'.accounts && s'.accounts[s'.clearing[l]].ledger == l {
      assert s'.accounts[s.clearing[l]] == Plus(s.accounts[s.clearing[l]], Net(es, s.clearing[l]));
    }
  }

  lemma SameLedgers(accounts: Accounts, accounts': Accounts, t: Transaction)
    requires InOneLedger(accounts, t)
    requires forall a :: a in accounts ==> a in accounts' && accounts'[a].ledger == accounts[a].ledger
    ensures InOneLedger(accounts', t)
  {
  }

  lemma NewAccountBooks(s: State, id: Id, account: Account)
    requires Books(s.accounts, s.transactions, s.clearing) && id !in s.accounts && account.balance == 0
    ensures Books(s.accounts[id := account], s.transactions, s.clearing)
    ensures Grows(s, s.(accounts := s.accounts[id := account]))
  {
    forall t | t in s.transactions ensures InOneLedger(s.accounts[id := account], t) {
      SameLedgers(s.accounts, s.accounts[id := account], t);
    }
    forall t, e | t in s.transactions && e in t.entries
      ensures e.account != id
    {
      assert InOneLedger(s.accounts, t);
    }
    JournalNetUntouched(s.transactions, id);
  }

  lemma ClearingBooks(s: State, ledger: Id, id: Id)
    requires Books(s.accounts, s.transactions, s.clearing) && id !in s.accounts
    ensures var c := EnsureClearing(s, ledger, id);
            Books(c.accounts, c.transactions, c.clearing) && Grows(s, c)
  {
    if ledger !in s.clearing {
      NewAccountBooks(s, id, Account(ledger, CLEARING_NAME, Asset, 0));
    }
  }

  /** Two opposite lines in one ledger are always accepted. */
  lemma LegAccepted(s: State, x: Entry, y: Entry)
    requires x.account in s.accounts && y.account in s.accounts
    requires s.accounts[x.account].ledger == s.accounts[y.account].ledger
    requires OneSided(x) && OneSided(y) && x.debit == y.credit && x.credit == y.debit
    ensures PostingRefusal(s, [x, y]).None?
  {
    NetPair(x, y, x.account);
  }

  /** A new leg, and nothing else, joins the journal. */
  lemma LegJoins(txIds: set<Id>, ordinary: set<Id>, sagas: map<Id, Saga>, id: Id, g: Saga, tx: Id, leg: Leg)
    requires LegsPartition(txIds, sagas, ordinary) && tx !in txIds
    requires LegTx(g, leg) == Some(tx)
    requires forall l :: l != leg ==> LegTx(g, l) == if id in sagas then LegTx(sagas[id], l) else None
    requires id in sagas ==> LegTx(sagas[id], leg).None?
    ensures LegsPartition(txIds + {tx}, sagas[id := g], ordinary)
  {
    var sagas' := sagas[id := g];
    forall x, i, l ensures IsLegOf(sagas', x, i, l) <==> (x == tx && i == id && l == leg) || IsLegOf(sagas, x, i, l) {
    }
    assert IsLegOf(sagas', tx, id, leg);
    forall x | x in txIds && x !in ordinary
      ensures exists i, l :: IsLegOf(sagas', x, i, l)
    {
      var i, l :| IsLegOf(sagas, x, i, l);
      assert IsLegOf(sagas', x, i, l);
    }
  }

  /** Posting keys keep naming what they named while the journal only grows. */
  lemma PostKeysGrow(keys: map<string, KeyRow>, txs: seq<Transaction>, txs': seq<Transaction>, ordinary: set<Id>)
    requires PostKeysOk(keys, txs, ordinary) && txs <= txs'
    ensures PostKeysOk(keys, txs', ordinary)
  {
    forall k | k in keys ensures KeyRowOk(keys[k], txs', ordinary) {
      var t :| t in txs && t.id == keys[k].tx && multiset(t.entries) == keys[k].checksum;
      assert t in txs';
    }
  }

  // -------------------------------------------------------------- whole steps

  lemma OpenAccountKeeps(s: State, id: Id, account: Account)
    requires Inv(s) && id !in s.accounts && account.balance == 0
    ensures Inv(s.(accounts := s.accounts[id := account]))
  {
    hide Books, SagaOk, LegsPartition, TransferKeysOk, PostKeysOk, OutboxOk, Grows;
    NewAccountBooks(s, id, account);
    forall i | i in s.sagas
      ensures SagaOk(s.accounts[id := account], s.transactions, s.clearing, s.sagas[i])
    {
      SagaOkGrows(s, s.(accounts := s.accounts[id := account]), s.sagas[i]);
    }
  }

  lemma OrdinaryJoins(txIds: set<Id>, ordinary: set<Id>, sagas: map<Id, Saga>, tx: Id)
    requires LegsPartition(txIds, sagas, ordinary) && tx !in txIds
    ensures LegsPartition(txIds + {tx}, sagas, ordinary + {tx})
  {
  }

  lemma NewPostKey(keys: map<string, KeyRow>, txs: seq<Transaction>, ordinary: set<Id>, key: string, t: Transaction)
    requires PostKeysOk(keys, txs, ordinary) && t.id !in ordinary
    ensures PostKeysOk(keys, txs + [t], ordinary + {t.id})
    ensures PostKeysOk(keys[key := KeyRow(t.id, multiset(t.entries))], txs + [t], ordinary + {t.id})
  {
    forall k | k in keys ensures KeyRowOk(keys[k], txs + [t], ordinary + {t.id}) {
      var u :| u in txs && u.id == keys[k].tx && multiset(u.entries) == keys[k].checksum;
      assert u in txs + [t];
    }
    assert t in txs + [t];
    assert KeyRowOk(KeyRow(t.id, multiset(t.entries)), txs + [t], ordinary + {t.id});
  }

  lemma CreateTransactionKeeps(s: State, key: string, es: seq<Entry>, tx: Id, now: int)
    requires Inv(s) && tx !in TxIds(s.transactions)
    ensures Inv(CreateTransaction(s, key, es, tx, now))
  {
    hide Books, SagaOk, SagasOk, PostKeysOk, OutboxOk, TransferKeysOk, Grows, Journaled, InLedger;
    if (key == "" || key !in s.keys) && PostingRefusal(s, es).None? {
      var t := Transaction(tx, s.accounts[es[0].account].ledger, es, now);
      PostBooks(s, es, tx, now);
      SagasKept(s, Post(s, es, tx, now));
      OrdinaryJoins(TxIds(s.transactions), s.ordinary, s.sagas, tx);
      NewPostKey(s.keys, s.transactions, s.ordinary, key, t);
    }
  }

  lemma SagasKept(s: State, s': State)
    requires SagasOk(s.accounts, s.transactions, s.clearing, s.sagas) && Grows(s, s') && s'.sagas == s.sagas
    ensures SagasOk(s'.accounts, s'.transactions, s'.clearing, s'.sagas)
  {
    forall i | i in s'.sagas
      ensures SagaOk(s'.accounts, s'.transactions, s'.clearing, s'.sagas[i])
    {
      SagaOkGrows(s, s', s.sagas[i]);
    }
  }

  lemma NewTransferKey(transferKeys: map<string, Id>, ids: set<Id>, key: string, id: Id)
    requires TransferKeysOk(transferKeys, ids) && key !in transferKeys && id !in ids
    ensures TransferKeysOk(transferKeys[key := id], ids + {id})
  {
    var keys' := transferKeys[key := id];
    forall i | i in ids + {id} ensures exists k :: k in keys' && keys'[k] == i {
      if i == id {
        assert keys'[key] == i;
      } else {
        var k :| k in transferKeys && transferKeys[k] == i;
        assert keys'[k] == i;
      }
    }
  }

  lemma NewSagaOutbox(outbox: seq<Event>, sagas: map<Id, Saga>, id: Id, g: Saga, now: int)
    requires OutboxOk(outbox, sagas) && id !in sagas && g.status == Pending
    ensures OutboxOk(outbox + [Event(id, DestinationCredit, 0, now, false)], sagas[id := g])
  {
    var outbox' := outbox + [Event(id, DestinationCredit, 0, now, false)];
    assert outbox'[|outbox|].saga == id;
    forall i, step | HasEvent(outbox, i, step) ensures HasEvent(outbox', i, step) {
      var k :| 0 <= k < |outbox| && outbox[k].saga == i && outbox[k].step == step;
      assert outbox'[k] == outbox[k];
    }
    assert HasEvent(outbox', id, DestinationCredit);
  }

  /** No identifiers were taken beyond the ones supplied. */
  ghost predicate Uses(s: State, s': State, ids: Fresh)
  {
    s'.accounts.Keys <= s.accounts.Keys + {ids.clearing} && TxIds(s'.transactions) <= TxIds(s.transactions) + {ids.tx}
  }

  /** Posting one leg into a ledger whose clearing account is made if missing. */
  lemma LegPosts(s: State, ledger: Id, ids: Fresh, x: Entry, y: Entry, now: int)
    requires Books(s.accounts, s.transactions, s.clearing) && Unused(s, ids)
    requires InBoundary(s.accounts, x.account, ledger)
    requires y.account == EnsureClearing(s, ledger, ids.clearing).clearing[ledger]
    requires OneSided(x) && OneSided(y) && x.debit == y.credit && x.credit == y.debit
    ensures var c := EnsureClearing(s, ledger, ids.clearing);
            var s' := Post(c, [x, y], ids.tx, now);
            && PostingRefusal(c, [x, y]).None?
            && Books(s'.accounts, s'.transactions, s'.clearing)
            && Grows(s, s')
            && Journaled(s'.transactions, ids.tx, ledger, [x, y])
            && TxIds(s'.transactions) == TxIds(s.transactions) + {ids.tx}
            && s'.clearing == c.clearing && ledger in c.clearing
            && Uses(s, s', ids)
            && s' == s.(accounts := s'.accounts, transactions := s'.transactions, clearing := s'.clearing)
  {
    hide JournalNet, Balanced, UniqueIds, InOneLedger;
    var c := EnsureClearing(s, ledger, ids.clearing);
    ClearingBooks(s, ledger, ids.clearing);
    LegAccepted(c, x, y);
    PostBooks(c, [x, y], ids.tx, now);
    GrowsTrans(s, c, Post(c, [x, y], ids.tx, now));
  }

  lemma GrowsTrans(s: State, c: State, s': State)
    requires Grows(s, c) && Grows(c, s')
    ensures Grows(s, s')
  {
  }

  lemma NewSagaOk(s: State, s': State, req: TransferRequest, tx: Id)
    requires TransferRefusal(s, req).None? && Grows(s, s') && req.amount > 0 && req.sourceLedger in s'.clearing
    requires Journaled(s'.transactions, tx, req.sourceLedger,
                       SourceLeg(NewSaga(req, tx), s'.clearing[req.sourceLedger]))
    ensures SagaOk(s'.accounts, s'.transactions, s'.clearing, NewSaga(req, tx))
  {
  }

  lemma CreateTransferKeeps(s: State, req: TransferRequest, ids: Fresh, now: int)
    requires Inv(s) && Unused(s, ids)
    ensures Inv(CreateTransfer(s, req, ids, now))
  {
    hide Books, SagasOk, LegsPartition, TransferKeysOk, PostKeysOk, OutboxOk, Journaled, Post, PostingRefusal;
    if ValidRequest(req) && req.key !in s.transferKeys && TransferRefusal(s, req).None? {
      var c := EnsureClearing(s, req.sourceLedger, ids.clearing);
      var g := NewSaga(req, ids.tx);
      var leg := SourceLeg(g, c.clearing[req.sourceLedger]);
      LegPosts(s, req.sourceLedger, ids, leg[0], leg[1], now);
      var p := Post(c, leg, ids.tx, now);
      var s' := CreateTransfer(s, req, ids, now);
      NewSagaOk(s, s', req, ids.tx);
      SagasOkGrows(s, s', ids.saga);
      LegJoins(TxIds(s.transactions), s.ordinary, s.sagas, ids.saga, g, ids.tx, SourceSide);
      NewTransferKey(s.transferKeys, s.sagas.Keys, req.key, ids.saga);
      PostKeysGrow(s.keys, s.transactions, s'.transactions, s.ordinary);
      NewSagaOutbox(s.outbox, s.sagas, ids.saga, g, now);
      assert s'.sagas.Keys == s.sagas.Keys + {ids.saga};
    }
  }

  /** Replacing an event by one of the same transfer and step, with the
      transfer's status moved along. */
  lemma EventMoves(outbox: seq<Event>, sagas: map<Id, Saga>, i: nat, e: Event, g: Saga)
    requires OutboxOk(outbox, sagas) && i < |outbox| && !outbox[i].processed
    requires e.saga == outbox[i].saga && e.step == outbox[i].step
    requires EventFits(e, g.status)
    requires e.step == DestinationCredit ==> g.status in {Pending, Completed}
    ensures OutboxOk(outbox[i := e], sagas[e.saga := g])
  {
    var outbox' := outbox[i := e];
    EventsStay(outbox, outbox');
    OthersFit(outbox, sagas, i, e, g);
    hide HasEvent;
    forall j | 0 <= j < |outbox'| ensures outbox'[j].saga in sagas[e.saga := g] {
      assert outbox[j].saga in sagas;
    }
  }

  lemma EventsStay(outbox: seq<Event>, outbox': seq<Event>)
    requires |outbox| <= |outbox'|
    requires forall k :: 0 <= k < |outbox| ==> outbox'[k].saga == outbox[k].saga && outbox'[k].step == outbox[k].step
    ensures forall x, step :: HasEvent(outbox, x, step) ==> HasEvent(outbox', x, step)
  {
    forall x, step | HasEvent(outbox, x, step) ensures HasEvent(outbox', x, step) {
      var k :| 0 <= k < |outbox| && outbox[k].saga == x && outbox[k].step == step;
      assert outbox'[k].saga == x && outbox'[k].step == step;
    }
  }

  lemma OthersFit(outbox: seq<Event>, sagas: map<Id, Saga>, i: nat, e: Event, g: Saga)
    requires OutboxOk(outbox, sagas) && i < |outbox| && !outbox[i].processed
    requires e.saga == outbox[i].saga && e.step == outbox[i].step
    requires EventFits(e, g.status)
    requires e.step == DestinationCredit ==> g.status in {Pending, Completed}
    ensures forall j :: 0 <= j < |outbox| && j != i && outbox[j].saga == e.saga ==> EventFits(outbox[j], g.status)
  {
    hide HasEvent;
    forall j | 0 <= j < |outbox| && j != i && outbox[j].saga == e.saga
      ensures EventFits(outbox[j], g.status)
    {
      if j < i {
        assert outbox[j].step == DestinationCredit && outbox[i].step == CompensateSource;
      } else {
        assert outbox[i].step == DestinationCredit && outbox[j].step == CompensateSource;
        assert sagas[e.saga].status == Pending;
      }
    }
  }

  /** A destination event that gives up hands over to a compensation event. */
  lemma EventFails(outbox: seq<Event>, sagas: map<Id, Saga>, i: nat, e: Event, g: Saga, now: int)
    requires OutboxOk(outbox, sagas) && i < |outbox| && !outbox[i].processed
    requires outbox[i].step == DestinationCredit
    requires e.saga == outbox[i].saga && e.step == DestinationCredit && e.processed
    requires g.status == Failed
    ensures OutboxOk(outbox[i := e] + [Event(e.saga, CompensateSource, 0, now, false)], sagas[e.saga := g])
  {
    var outbox' := outbox[i := e] + [Event(e.saga, CompensateSource, 0, now, false)];
    forall x, step | HasEvent(outbox, x, step) ensures HasEvent(outbox', x, step) {
      var k :| 0 <= k < |outbox| && outbox[k].saga == x && outbox[k].step == step;
      assert outbox'[k].saga == x && outbox'[k].step == step;
    }
    assert outbox'[|outbox|].saga == e.saga && outbox'[|outbox|].step == CompensateSource;
    assert HasEvent(outbox', e.saga, CompensateSource);
    forall j | 0 <= j < |outbox| && outbox[j].saga == e.saga
      ensures j == i
    {
      assert sagas[e.saga].status == Pending;
    }
  }

  function WithLeg(g: Saga, leg: Leg, tx: Id): Saga
  {
    match leg
    case SourceSide => g
    case DestinationSide => g.(status := Completed, destTx := Some(tx))
    case CompensationSide => g.(status := Compensated, compTx := Some(tx))
  }

  /** A later leg is posted: the transfer gains it and its final status. */
  lemma LegPosted(s: State, s': State, id: Id, tx: Id, leg: Leg)
    requires Core(s) && id in s.sagas && leg != SourceSide && LegTx(s.sagas[id], leg).None?
    requires tx !in TxIds(s.transactions)
    requires Books(s'.accounts, s'.transactions, s'.clearing) && Grows(s, s')
    requires TxIds(s'.transactions) == TxIds(s.transactions) + {tx}
    requires s'.sagas == s.sagas[id := WithLeg(s.sagas[id], leg, tx)]
    requires SagaOk(s'.accounts, s'.transactions, s'.clearing, s'.sagas[id])
    requires s'.keys == s.keys && s'.ordinary == s.ordinary && s'.transferKeys == s.transferKeys
    ensures Core(s')
  {
    hide Books, SagasOk, SagaOk, LegsPartition, TransferKeysOk, PostKeysOk;
    SagasOkGrows(s, s', id);
    LegJoins(TxIds(s.transactions), s.ordinary, s.sagas, id, s'.sagas[id], tx, leg);
    assert s'.sagas.Keys == s.sagas.Keys;
    PostKeysGrow(s.keys, s.transactions, s'.transactions, s.ordinary);
  }

  /** Posting the destination leg of a pending transfer cannot be refused. */
  lemma DestinationPosts(s: State, id: Id, ids: Fresh, now: int)
    requires Core(s) && Unused(s, ids) && id in s.sagas && s.sagas[id].status == Pending
    ensures var h := HandleDestination(s, id, Accept, ids, now);
            && h.error.None? && Core(h.state) && h.state.outbox == s.outbox && h.state.transferKeys == s.transferKeys
            && Uses(s, h.state, ids)
            && h.state.sagas == s.sagas[id := WithLeg(s.sagas[id], DestinationSide, ids.tx)]
  {
    hide Books, LegsPartition, TransferKeysOk, PostKeysOk, Post, PostingRefusal, Journaled;
    var g := s.sagas[id];
    var c := EnsureClearing(s, g.destLedger, ids.clearing);
    var leg := DestinationLeg(g, c.clearing[g.destLedger]);
    LegPosts(s, g.destLedger, ids, leg[0], leg[1], now);
    var s' := HandleDestination(s, id, Accept, ids, now).state;
    SagaOkGrows(s, s', g);
    LegPosted(s, s', id, ids.tx, DestinationSide);
  }

  /** Refunding a failed transfer cannot be refused. */
  lemma CompensationPosts(s: State, id: Id, ids: Fresh, now: int)
    requires Core(s) && Unused(s, ids) && id in s.sagas && s.sagas[id].status == Failed
    ensures var h := HandleCompensation(s, id, ids, now);
            && h.error.None? && Core(h.state) && h.state.outbox == s.outbox && h.state.transferKeys == s.transferKeys
            && Uses(s, h.state, ids)
            && h.state.sagas == s.sagas[id := WithLeg(s.sagas[id], CompensationSide, ids.tx)]
  {
    hide Books, LegsPartition, TransferKeysOk, PostKeysOk, Post, PostingRefusal, Journaled;
    var g := s.sagas[id];
    var c := EnsureClearing(s, g.sourceLedger, ids.clearing);
    var leg := CompensationLeg(g, c.clearing[g.sourceLedger]);
    LegPosts(s, g.sourceLedger, ids, leg[0], leg[1], now);
    var s' := HandleCompensation(s, id, ids, now).state;
    SagaOkGrows(s, s', g);
    LegPosted(s, s', id, ids.tx, CompensationSide);
  }

  /** Marking a transfer failed touches no leg. */
  lemma FailedKeeps(s: State, id: Id)
    requires Core(s) && id in s.sagas && s.sagas[id].status == Pending
    ensures Core(s.(sagas := s.sagas[id := s.sagas[id].(status := Failed)]))
  {
    hide Books, TransferKeysOk, PostKeysOk, Journaled;
    var s' := s.(sagas := s.sagas[id := s.sagas[id].(status := Failed)]);
    forall tx, i, l ensures IsLegOf(s'.sagas, tx, i, l) <==> IsLegOf(s.sagas, tx, i, l) {
    }
    forall tx | tx in TxIds(s.transactions) && tx !in s.ordinary
      ensures exists i, l :: IsLegOf(s'.sagas, tx, i, l)
    {
      var i, l :| IsLegOf(s.sagas, tx, i, l);
      assert IsLegOf(s'.sagas, tx, i, l);
    }
    assert s'.sagas.Keys == s.sagas.Keys;
  }

  lemma CoreWithoutOutbox(s: State, outbox: seq<Event>)
    requires Core(s)
    ensures Core(s.(outbox := outbox))
  {
    hide Books, SagasOk, LegsPartition, TransferKeysOk, PostKeysOk;
  }

  /** The event a turn picks is open and fits its transfer. */
  lemma DueEvent(s: State, now: int)
    requires OutboxOk(s.outbox, s.sagas)
    ensures EventsNamed(s)
    ensures var i := FirstDue(s.outbox, now);
            i < |s.outbox| ==>
              var e := s.outbox[i];
              !e.processed && e.saga in s.sagas && EventFits(e, s.sagas[e.saga].status)
  {
    hide HasEvent;
  }

  lemma DestinationRefuses(s: State, id: Id, verdict: Verdict, ids: Fresh, now: int)
    requires Core(s) && id in s.sagas && s.sagas[id].status == Pending && verdict != Accept
    ensures HandleDestination(s, id, verdict, ids, now) == Handled(s, Some(verdict))
  {
    assert SagaOk(s.accounts, s.transactions, s.clearing, s.sagas[id]);
  }

  /** What one turn does to the transfer and the event it picks. */
  ghost predicate TurnMoves(s: State, s': State, i: nat, verdict: Verdict, ids: Fresh, now: int)
    requires i < |s.outbox| && s.outbox[i].saga in s.sagas
  {
    var e := s.outbox[i];
    var g := s.sagas[e.saga];
    if e.step == CompensateSource then
      && g.status == Failed
      && s'.sagas == s.sagas[e.saga := WithLeg(g, CompensationSide, ids.tx)]
      && s'.outbox == s.outbox[i := e.(processed := true)]
    else if verdict == Accept then
      && g.status == Pending
      && s'.sagas == s.sagas[e.saga := WithLeg(g, DestinationSide, ids.tx)]
      && s'.outbox == s.outbox[i := e.(processed := true)]
    else if verdict == TransientFailure && e.attempts + 1 < MAX_ATTEMPTS then
      && g.status == Pending
      && s'.sagas == s.sagas
      && s'.outbox == s.outbox[i := e.(attempts := e.attempts + 1, nextAttempt := RetryAt(now, e.attempts + 1))]
    else
      && g.status == Pending
      && s'.sagas == s.sagas[e.saga := g.(status := Failed)]
      && s'.outbox == s.outbox[i := e.(attempts := e.attempts + 1, processed := true)]
                      + [Event(e.saga, CompensateSource, 0, now, false)]
  }

  lemma TurnEffect(s: State, verdict: Verdict, ids: Fresh, now: int)
    requires Inv(s) && Unused(s, ids)
    ensures EventsNamed(s)
    ensures var i, r := FirstDue(s.outbox, now), Turn(s, verdict, ids, now);
            && r.state.transferKeys == s.transferKeys && Uses(s, r.state, ids) && r.state.sagas.Keys == s.sagas.Keys
            && if i == |s.outbox| then r == TurnResult(s, Idle)
               else r.kind == Worked(s.outbox[i].saga) && TurnMoves(s, r.state, i, verdict, ids, now)
  {
    hide Core, OutboxOk, HandleDestination, HandleCompensation, TxIds, RetryAt;
    DueEvent(s, now);
    var i := FirstDue(s.outbox, now);
    hide FirstDue, EventsNamed;
    if i < |s.outbox| {
      var e := s.outbox[i];
      if e.step == CompensateSource {
        CompensationPosts(s, e.saga, ids, now);
      } else if verdict == Accept {
        DestinationPosts(s, e.saga, ids, now);
      } else {
        DestinationRefuses(s, e.saga, verdict, ids, now);
      }
    }
  }

  /** A turn keeps everything but the outbox in order. */
  lemma TurnCore(s: State, verdict: Verdict, ids: Fresh, now: int)
    requires Inv(s) && EventsNamed(s) && Unused(s, ids)
    ensures Core(Turn(s, verdict, ids, now).state)
  {
    hide Core, OutboxOk, HandleDestination, HandleCompensation, TxIds, RetryAt;
    DueEvent(s, now);
    var i, s' := FirstDue(s.outbox, now), Turn(s, verdict, ids, now).state;
    hide FirstDue, EventsNamed;
    if i < |s.outbox| {
      var e := s.outbox[i];
      if e.step == CompensateSource {
        CompensationPosts(s, e.saga, ids, now);
        CoreWithoutOutbox(HandleCompensation(s, e.saga, ids, now).state, s'.outbox);
      } else if verdict == Accept {
        DestinationPosts(s, e.saga, ids, now);
        CoreWithoutOutbox(HandleDestination(s, e.saga, verdict, ids, now).state, s'.outbox);
      } else {
        DestinationRefuses(s, e.saga, verdict, ids, now);
        FailedKeeps(s, e.saga);
        CoreWithoutOutbox(s.(sagas := s'.sagas), s'.outbox);
      }
    }
  }

  lemma OutboxMoves(s: State, s': State, i: nat, verdict: Verdict, ids: Fresh, now: int)
    requires OutboxOk(s.outbox, s.sagas) && i < |s.outbox| && !s.outbox[i].processed && s.outbox[i].saga in s.sagas
    requires EventFits(s.outbox[i], s.sagas[s.outbox[i].saga].status)
    requires TurnMoves(s, s', i, verdict, ids, now)
    ensures OutboxOk(s'.outbox, s'.sagas)
  {
    hide OutboxOk, RetryAt;
    var e := s.outbox[i];
    if e.step == CompensateSource || verdict == Accept {
      EventMoves(s.outbox, s.sagas, i, e.(processed := true), s'.sagas[e.saga]);
    } else if verdict == TransientFailure && e.attempts + 1 < MAX_ATTEMPTS {
      EventMoves(s.outbox, s.sagas, i, s'.outbox[i], s.sagas[e.saga]);
      assert s.sagas[e.saga := s.sagas[e.saga]] == s.sagas;
    } else {
      EventFails(s.outbox, s.sagas, i, e.(attempts := e.attempts + 1, processed := true), s'.sagas[e.saga], now);
    }
  }

  /** A turn keeps the invariant, and no compensation is ever refused. */
  lemma TurnKeeps(s: State, verdict: Verdict, ids: Fresh, now: int)
    requires Inv(s) && Unused(s, ids)
    ensures EventsNamed(s)
    ensures Inv(Turn(s, verdict, ids, now).state)
    ensures Turn(s, verdict, ids, now).kind != Stuck
  {
    TurnEffect(s, verdict, ids, now);
    TurnCore(s, verdict, ids, now);
    DueEvent(s, now);
    hide Core, OutboxOk, TurnMoves, Turn, Uses, EventsNamed;
    var i := FirstDue(s.outbox, now);
    hide FirstDue;
    if i < |s.outbox| {
      OutboxMoves(s, Turn(s, verdict, ids, now).state, i, verdict, ids, now);
    }
  }

  lemma StepKeeps(s: State, a: Action)
    requires Inv(s) && Enabled(s, a)
    ensures Inv(Step(s, a))
  {
    match a
    case OpenAccount(id, ledger, name, typ) => OpenAccountKeeps(s, id, Account(ledger, name, typ, 0));
    case PostRequest(key, es, tx, now) => CreateTransactionKeeps(s, key, es, tx, now);
    case TransferStep(req, ids, now) => CreateTransferKeeps(s, req, ids, now);
    case WorkerTurn(verdict, ids, now) => TurnKeeps(s, verdict, ids, now);
  }

  lemma EmptyInv()
    ensures Inv(EMPTY)
  {
  }

  /** The invariant holds after every run from the empty store. */
  lemma {:induction false} RunKeeps(run: seq<Action>)
    requires IsRun(EMPTY, run)
    ensures Inv(After(EMPTY, run))
    decreases |run|
  {
    hide Inv;
    if run == [] {
      EmptyInv();
    } else {
      RunKeeps(run[..|run| - 1]);
      StepKeeps(After(EMPTY, run[..|run| - 1]), run[|run| - 1]);
    }
  }
}
