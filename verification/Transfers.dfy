/** Cross-ledger transfers in the database: the source debit, the one-at-a-time
    leg, the multi-saga destination batch, and when they agree with each other
    and with the journal. */
module Transfers {
  import opened Domain
  import opened Posting

  ghost predicate IsClearing(accounts: Accounts, ledger: Id, a: Id)
  {
    a in accounts && accounts[a].name == CLEARING_NAME && accounts[a].ledger == ledger
  }

  // --------------------------------------------------------------------- one leg

  /** `UPDATE ... CASE WHEN id=account THEN amount ELSE -amount END WHERE id IN
      (account, other)`: an account that is both is moved once, by `amount`. */
  function CaseMove(accounts: Accounts, account: Id, other: Id, amount: int): Accounts
  {
    map a | a in accounts :: Plus(accounts[a], CaseDelta(account, other, amount, a))
  }

  function CaseDelta(account: Id, other: Id, amount: int, a: Id): int
  {
    if a == account then amount else if a == other then -amount else 0
  }

  function CreditEntries(account: Id, clearing: Id, amount: int): seq<Entry>
  {
    [Entry(account, 0, amount), Entry(clearing, amount, 0)]
  }

  function DebitEntries(account: Id, clearing: Id, amount: int): seq<Entry>
  {
    [Entry(account, amount, 0), Entry(clearing, 0, amount)]
  }

  /** A credit leg posted on its own (`postLeg`). */
  function PostLeg(db: Db, ledger: Id, account: Id, clearing: Id, amount: int, tx: Id, now: int): Db
  {
    db.(accounts := CaseMove(db.accounts, account, clearing, amount),
        journal := db.journal + [Transaction(tx, ledger, CreditEntries(account, clearing, amount), now)],
        queued := db.queued + {tx})
  }

  // ---------------------------------------------------------- destination credits

  datatype Item = Item(event: Id, saga: Id, ledger: Id, dest: Id, amount: int, clearing: Id, tx: Id)

  /** What the due-event query selects: an open credit command whose time has come, of
      a transfer still pending. */
  predicate Pickable(db: Db, e: Id, now: int)
  {
    && e in db.commands && db.commands[e].kind == CreditDestination && !db.commands[e].processed
    && db.commands[e].available <= now
    && db.commands[e].saga in db.sagas && db.sagas[db.commands[e].saga].status == Pending
  }

  function CreditOne(db: Db, it: Item, now: int): Db
    requires it.saga in db.sagas && it.event in db.commands
  {
    PostLeg(db, it.ledger, it.dest, it.clearing, it.amount, it.tx, now).(
      sagas := db.sagas[it.saga := db.sagas[it.saga].(status := Completed)],
      commands := db.commands[it.event := Done(db.commands[it.event])])
  }

  function Done(c: Command): Command
  {
    c.(processed := true, attempts := c.attempts + 1)
  }

  predicate Present(db: Db, items: seq<Item>)
  {
    forall it :: it in items ==> it.saga in db.sagas && it.event in db.commands
  }

  /** Crediting transfers one after another. */
  function CreditAll(db: Db, items: seq<Item>, now: int): (r: Db)
    requires Present(db, items)
    ensures r.sagas.Keys == db.sagas.Keys && r.commands.Keys == db.commands.Keys && r.accounts.Keys == db.accounts.Keys
  {
    if items == [] then db else
      var n := |items| - 1;
      assert items[n] in items;
      CreditOne(CreditAll(db, items[..n], now), items[n], now)
  }

  /** What a batch does to one account once the changes are merged. */
  function Delta(items: seq<Item>, a: Id): int
  {
    if items == [] then 0 else
      var last := items[|items| - 1];
      Delta(items[..|items| - 1], a)
      + (if last.dest == a then last.amount else 0) - (if last.clearing == a then last.amount else 0)
  }

  function Legs(items: seq<Item>, now: int): (r: seq<Transaction>)
    ensures |r| == |items|
  {
    if items == [] then [] else
      var last := items[|items| - 1];
      Legs(items[..|items| - 1], now)
      + [Transaction(last.tx, last.ledger, CreditEntries(last.dest, last.clearing, last.amount), now)]
  }

  function SagaIds(items: seq<Item>): set<Id> { set it | it in items :: it.saga }

  function EventIds(items: seq<Item>): set<Id> { set it | it in items :: it.event }

  function TxsOf(items: seq<Item>): set<Id> { set it | it in items :: it.tx }

  /** The bulk statement: merged deltas, all legs, all sagas, all commands. */
  function BulkCredit(db: Db, items: seq<Item>, now: int): Db
  {
    Db(map a | a in db.accounts :: Plus(db.accounts[a], Delta(items, a)),
       db.journal + Legs(items, now),
       db.queued + TxsOf(items),
       BulkSagas(db.sagas, items),
       BulkCommands(db.commands, items))
  }

  function BulkSagas(sagas: map<Id, SagaRow>, items: seq<Item>): map<Id, SagaRow>
  {
    map g | g in sagas :: if g in SagaIds(items) then sagas[g].(status := Completed) else sagas[g]
  }

  function BulkCommands(commands: map<Id, Command>, items: seq<Item>): map<Id, Command>
  {
    map e | e in commands :: if e in EventIds(items) then Done(commands[e]) else commands[e]
  }

  /** What the bulk statement writes, row by row: each item's transfer is completed and
      its command done, the others stay as they are, and the journal gets the items' legs
      in order, each debiting its destination and crediting clearing by the amount. */
  lemma {:induction false} BulkWrites(db: Db, items: seq<Item>, now: int)
    ensures var r := BulkCredit(db, items, now);
            && r.sagas.Keys == db.sagas.Keys && r.commands.Keys == db.commands.Keys
            && |r.journal| == |db.journal| + |items| && r.journal[..|db.journal|] == db.journal
            && (forall i :: 0 <= i < |items| ==> LegFor(r.journal[|db.journal| + i], items[i], now))
            && (forall i :: 0 <= i < |items| ==> items[i].tx in r.queued)
            && (forall it :: it in items && it.saga in db.sagas ==>
                  r.sagas[it.saga] == db.sagas[it.saga].(status := Completed))
            && (forall it :: it in items && it.event in db.commands ==>
                  r.commands[it.event] == db.commands[it.event].(processed := true,
                                                                 attempts := db.commands[it.event].attempts + 1))
    ensures var r := BulkCredit(db, items, now);
            && (forall g :: g in db.sagas && (forall it :: it in items ==> it.saga != g) ==> r.sagas[g] == db.sagas[g])
            && (forall e :: e in db.commands && (forall it :: it in items ==> it.event != e) ==>
                  r.commands[e] == db.commands[e])
  {
    hide Delta;
    LegsAre(items, now);
    hide Legs;
    assert forall i :: 0 <= i < |items| ==> items[i] in items;
  }

  ghost predicate LegFor(t: Transaction, it: Item, now: int)
  {
    && (t.id, t.ledger, t.time) == (it.tx, it.ledger, now) && |t.entries| == 2
    && (t.entries[0].account, t.entries[0].debit, t.entries[0].credit) == (it.dest, it.amount, 0)
    && (t.entries[1].account, t.entries[1].debit, t.entries[1].credit) == (it.clearing, 0, it.amount)
  }

  lemma {:induction false} LegsAre(items: seq<Item>, now: int)
    ensures forall i :: 0 <= i < |items| ==> LegFor(Legs(items, now)[i], items[i], now)
    decreases |items|
  {
    if items != [] {
      LegsAre(items[..|items| - 1], now);
    }
  }

  function CaseDeltas(items: seq<Item>, a: Id): int
  {
    if items == [] then 0 else
      var last := items[|items| - 1];
      CaseDeltas(items[..|items| - 1], a) + CaseDelta(last.dest, last.clearing, last.amount, a)
  }

  /** One destination credit per saga and per event (the tables' unique keys). */
  ghost predicate Separate(items: seq<Item>)
  {
    forall i, j :: 0 <= i < j < |items| ==> items[i].saga != items[j].saga && items[i].event != items[j].event
  }

  lemma {:induction false} CreditAllBalances(db: Db, items: seq<Item>, now: int, a: Id)
    requires Present(db, items) && a in db.accounts
    ensures CreditAll(db, items, now).accounts[a] == Plus(db.accounts[a], CaseDeltas(items, a))
    decreases |items|
  {
    hide CaseDelta;
    if items != [] {
      CreditAllBalances(db, items[..|items| - 1], now, a);
    }
  }

  /** Everything but the balances is the same in bulk and one by one. */
  lemma {:induction false} CreditAllRest(db: Db, items: seq<Item>, now: int)
    requires Present(db, items) && Separate(items)
    ensures var r := CreditAll(db, items, now); r == BulkCredit(db, items, now).(accounts := r.accounts)
    decreases |items|
  {
    hide BulkSagas, BulkCommands, Separate, SagaIds, EventIds, CaseMove, Delta, Done;
    if items == [] {
      assert db.journal + [] == db.journal;
      NoneDone(db);
    } else {
      SeparateHead(items);
      CreditAllRest(db, items[..|items| - 1], now);
      SetsGrow(items);
      OneMoreDone(db, items);
      LegsSnoc(db.journal, items, now);
      hide Legs, TxsOf;
      assert CreditAll(db, items, now).journal == BulkCredit(db, items, now).journal;
    }
  }

  lemma LegsSnoc(journal: seq<Transaction>, items: seq<Item>, now: int)
    requires items != []
    ensures var head, last := items[..|items| - 1], items[|items| - 1];
            journal + Legs(items, now) ==
            journal + Legs(head, now)
            + [Transaction(last.tx, last.ledger, CreditEntries(last.dest, last.clearing, last.amount), now)]
  {
  }

  lemma NoneDone(db: Db)
    ensures BulkSagas(db.sagas, []) == db.sagas && BulkCommands(db.commands, []) == db.commands
  {
    assert SagaIds([]) == {} && EventIds([]) == {};
    assert BulkSagas(db.sagas, []).Keys == db.sagas.Keys && BulkCommands(db.commands, []).Keys == db.commands.Keys;
  }

  lemma SeparateHead(items: seq<Item>)
    requires items != [] && Separate(items)
    ensures Separate(items[..|items| - 1])
  {
  }

  lemma OneMoreDone(db: Db, items: seq<Item>)
    requires items != [] && Separate(items) && Present(db, items)
    ensures var head, last := items[..|items| - 1], items[|items| - 1];
            var sagas, commands := BulkSagas(db.sagas, head), BulkCommands(db.commands, head);
            && last.saga in sagas && last.event in commands
            && BulkSagas(db.sagas, items) == sagas[last.saga := sagas[last.saga].(status := Completed)]
            && BulkCommands(db.commands, items) == commands[last.event := Done(commands[last.event])]
  {
    var head, last := items[..|items| - 1], items[|items| - 1];
    assert last in items;
    SetsGrow(items);
    LastSaga(items);
    hide SagaIds, EventIds, TxsOf, Separate, BulkSagas, BulkCommands;
    OneMoreSaga(db.sagas, head, items, last.saga);
    OneMoreCommand(db.commands, head, items, last.event);
  }

  lemma OneMoreSaga(sagas: map<Id, SagaRow>, head: seq<Item>, items: seq<Item>, x: Id)
    requires x in sagas && x !in SagaIds(head) && SagaIds(items) == SagaIds(head) + {x}
    ensures x in BulkSagas(sagas, head)
    ensures BulkSagas(sagas, items) == BulkSagas(sagas, head)[x := sagas[x].(status := Completed)]
    ensures BulkSagas(sagas, head)[x] == sagas[x]
  {
    hide SagaIds;
    var now, r := BulkSagas(sagas, items), BulkSagas(sagas, head)[x := sagas[x].(status := Completed)];
    assert now.Keys == sagas.Keys == r.Keys;
    forall g | g in sagas ensures now[g] == r[g] {
    }
  }

  lemma OneMoreCommand(commands: map<Id, Command>, head: seq<Item>, items: seq<Item>, x: Id)
    requires x in commands && x !in EventIds(head) && EventIds(items) == EventIds(head) + {x}
    ensures x in BulkCommands(commands, head)
    ensures BulkCommands(commands, items) == BulkCommands(commands, head)[x := Done(commands[x])]
    ensures BulkCommands(commands, head)[x] == commands[x]
  {
    hide EventIds, Done;
    var now, r := BulkCommands(commands, items), BulkCommands(commands, head)[x := Done(commands[x])];
    assert now.Keys == commands.Keys == r.Keys;
    forall e | e in commands ensures now[e] == r[e] {
    }
  }

  lemma SetsGrow(items: seq<Item>)
    requires items != []
    ensures var n := |items| - 1;
            && SagaIds(items) == SagaIds(items[..n]) + {items[n].saga}
            && EventIds(items) == EventIds(items[..n]) + {items[n].event}
            && TxsOf(items) == TxsOf(items[..n]) + {items[n].tx}
  {
    var n := |items| - 1;
    assert forall it :: it in items <==> it in items[..n] || it == items[n];
  }

  lemma LastSaga(items: seq<Item>)
    requires items != [] && Separate(items)
    ensures items[|items| - 1].saga !in SagaIds(items[..|items| - 1])
    ensures items[|items| - 1].event !in EventIds(items[..|items| - 1])
  {
  }

  /** Merging loses exactly the amounts whose destination is its own clearing account. */
  function SelfCredits(items: seq<Item>, a: Id): int
  {
    if items == [] then 0 else
      var last := items[|items| - 1];
      SelfCredits(items[..|items| - 1], a) + if last.dest == a && last.clearing == a then last.amount else 0
  }

  lemma {:induction false} MergeGap(items: seq<Item>, a: Id)
    ensures CaseDeltas(items, a) == Delta(items, a) + SelfCredits(items, a)
  {
    if items != [] {
      MergeGap(items[..|items| - 1], a);
    }
  }

  lemma {:induction false} NoSelfNoGap(items: seq<Item>, a: Id)
    requires forall it :: it in items ==> it.dest != it.clearing
    ensures SelfCredits(items, a) == 0
  {
    if items != [] {
      assert items[|items| - 1] in items;
      NoSelfNoGap(items[..|items| - 1], a);
    }
  }

  lemma {:induction false} SelfGap(items: seq<Item>, it: Item)
    requires it in items && it.dest == it.clearing
    requires forall x :: x in items ==> x.amount > 0
    ensures SelfCredits(items, it.dest) > 0
    decreases |items|
  {
    var n := |items| - 1;
    var head := items[..n];
    assert items[n] in items;
    if it in head {
      SelfGap(head, it);
    } else {
      assert items[n] == it;
      SelfNonNegative(head, it.dest);
    }
  }

  lemma {:induction false} SelfNonNegative(items: seq<Item>, a: Id)
    requires forall x :: x in items ==> x.amount > 0
    ensures SelfCredits(items, a) >= 0
  {
    if items != [] {
      assert items[|items| - 1] in items;
      SelfNonNegative(items[..|items| - 1], a);
    }
  }

  /** The multi-saga batch does exactly what crediting one transfer at a time
      does - balances, journal, events, sagas and commands - if and only if no
      destination is its own ledger's clearing account. */
  lemma BulkRefinesOneByOne(db: Db, items: seq<Item>, now: int)
    requires Present(db, items) && Separate(items)
    requires forall it :: it in items ==> it.amount > 0 && it.dest in db.accounts
    ensures BulkCredit(db, items, now) == CreditAll(db, items, now) <==>
            forall it :: it in items ==> it.dest != it.clearing
  {
    hide CreditAll, Delta, CaseDeltas, SelfCredits, Legs, BulkSagas, BulkCommands, Separate, TxsOf;
    CreditAllRest(db, items, now);
    var r, b := CreditAll(db, items, now), BulkCredit(db, items, now);
    forall a | a in db.accounts ensures r.accounts[a].balance == b.accounts[a].balance + SelfCredits(items, a) {
      CreditAllBalances(db, items, now, a);
      MergeGap(items, a);
    }
    if it :| it in items && it.dest == it.clearing {
      SelfGap(items, it);
      assert r.accounts[it.dest] != b.accounts[it.dest];
    } else {
      forall a | a in db.accounts ensures r.accounts[a] == b.accounts[a] {
        CreditAllBalances(db, items, now, a);
        NoSelfNoGap(items, a);
      }
      assert r.accounts == b.accounts;
    }
  }

  // ------------------------------------------------------------- journal agreement

  /** Every stored balance is the journal's. */
  ghost predicate Agrees(db: Db)
  {
    forall a :: a in db.accounts ==> db.accounts[a].balance == JournalNet(db.journal, a)
  }

  /** A single leg keeps balance and journal together unless its account is the
      clearing account, in which case it always drives them apart. */
  lemma LegAgreesIff(db: Db, ledger: Id, account: Id, clearing: Id, amount: int, tx: Id, now: int)
    requires Agrees(db) && amount != 0 && account in db.accounts
    ensures Agrees(PostLeg(db, ledger, account, clearing, amount, tx, now)) <==> account != clearing
  {
    var t := Transaction(tx, ledger, CreditEntries(account, clearing, amount), now);
    var db' := PostLeg(db, ledger, account, clearing, amount, tx, now);
    forall a | a in db.accounts
      ensures db'.accounts[a].balance - JournalNet(db'.journal, a) ==
              CaseDelta(account, clearing, amount, a) - Net(t.entries, a)
    {
      JournalNetSnoc(db.journal, t, a);
    }
    forall a ensures Net(t.entries, a) == (if a == account then amount else 0) - (if a == clearing then amount else 0) {
      NetPair(t.entries[0], t.entries[1], a);
    }
  }

  /** The destination batch always keeps them together. */
  lemma {:induction false} BulkAgrees(db: Db, items: seq<Item>, now: int)
    requires Agrees(db)
    ensures Agrees(BulkCredit(db, items, now))
  {
    forall a | a in db.accounts
      ensures BulkCredit(db, items, now).accounts[a].balance == JournalNet(BulkCredit(db, items, now).journal, a)
    {
      JournalNetAppend(db.journal, Legs(items, now), a);
      LegsNet(items, now, a);
    }
  }

  lemma {:induction false} LegsNet(items: seq<Item>, now: int, a: Id)
    ensures JournalNet(Legs(items, now), a) == Delta(items, a)
    decreases |items|
  {
    if items != [] {
      var last := items[|items| - 1];
      var es := CreditEntries(last.dest, last.clearing, last.amount);
      LegsNet(items[..|items| - 1], now, a);
      JournalNetSnoc(Legs(items[..|items| - 1], now), Transaction(last.tx, last.ledger, es, now), a);
      NetPair(es[0], es[1], a);
    }
  }

  // --------------------------------------------------------------- transfer requests

  /** An identifier as a caller wrote it. */
  datatype Text = Blank | NotUuid | Uuid(spelling: Spelling)

  /** A transfer as asked for. */
  datatype TransferText = TransferText(sourceLedger: Text, source: Text, destLedger: Text, dest: Text, amount: int,
                                       key: string)

  /** A transfer once its identifiers have been read. */
  datatype Request = Request(sourceLedger: Id, source: Id, destLedger: Id, dest: Id, amount: int, key: string)

  function Parsed(t: TransferText): Option<Request>
  {
    if t.sourceLedger.Uuid? && t.source.Uuid? && t.destLedger.Uuid? && t.dest.Uuid? then
      Some(Request(t.sourceLedger.spelling.id, t.source.spelling.id, t.destLedger.spelling.id, t.dest.spelling.id,
                   t.amount, t.key))
    else None
  }

  /** The saga was made for this very transfer. */
  predicate SameRequest(g: SagaRow, req: Request)
  {
    && g.sourceLedger == req.sourceLedger && g.source == req.source
    && g.destLedger == req.destLedger && g.dest == req.dest && g.amount == req.amount
  }

  /** The program's comparison: text read back from the columns, which is canonical,
      against the caller's text. */
  predicate SameText(g: SagaRow, t: TransferText)
  {
    && Uuid(Standard(g.sourceLedger)) == t.sourceLedger && Uuid(Standard(g.source)) == t.source
    && Uuid(Standard(g.destLedger)) == t.destLedger && Uuid(Standard(g.dest)) == t.dest && g.amount == t.amount
  }

  predicate SpelledCanonically(t: TransferText)
  {
    forall x :: x in {t.sourceLedger, t.source, t.destLedger, t.dest} ==> x.Uuid? && x.spelling.form == 0
  }

  datatype Answer =
    | Created | Replayed(saga: Id) | Conflict | BadRequest | InvalidId | SameLedger | MissingAccount | WrongLedger
    | InsufficientFunds | DuplicateKey

  /** The UNIQUE constraint on `idempotency_key`. */
  ghost predicate KeysUnique(sagas: map<Id, SagaRow>)
  {
    forall g, h :: g in sagas && h in sagas && sagas[g].key == sagas[h].key ==> g == h
  }

  ghost predicate KeyUsed(sagas: map<Id, SagaRow>, key: string)
  {
    exists g :: g in sagas && sagas[g].key == key
  }

  /** How a saga is looked up: a key that parses as a UUID is taken for a saga id. */
  ghost predicate Finds(sagas: map<Id, SagaRow>, key: string, asUuid: Option<Id>, g: Id)
  {
    g in sagas && if asUuid.Some? then g == asUuid.value else sagas[g].key == key
  }

  datatype SourceIds = SourceIds(saga: Id, tx: Id, command: Id)

  /** The source debit of an accepted request, with its saga and its command. */
  function WriteSource(db: Db, req: Request, clearing: Id, ids: SourceIds, now: int): Db
  {
    Db(CaseMove(db.accounts, req.source, clearing, -req.amount),
       db.journal + [Transaction(ids.tx, req.sourceLedger, DebitEntries(req.source, clearing, req.amount), now)],
       db.queued + {ids.tx},
       db.sagas[ids.saga :=
         SagaRow(req.key, req.sourceLedger, req.source, req.destLedger, req.dest, req.amount, Pending)],
       db.commands[ids.command := Command(ids.saga, CreditDestination, false, 0, now, now)])
  }

  /** What the source debit leaves behind: the saga as asked for, pending; its command, due
      at once; and one transaction in the source's ledger, queued for publication, that
      credits the source and debits clearing by the amount. */
  lemma SourceWrites(db: Db, req: Request, clearing: Id, ids: SourceIds, now: int)
    ensures var r := WriteSource(db, req, clearing, ids, now);
            && ids.saga in r.sagas && ids.command in r.commands && ids.tx in r.queued && |r.journal| == |db.journal| + 1
            && var g, c, t := r.sagas[ids.saga], r.commands[ids.command], r.journal[|db.journal|];
               && (g.key, g.sourceLedger, g.source) == (req.key, req.sourceLedger, req.source)
               && (g.destLedger, g.dest, g.amount, g.status) == (req.destLedger, req.dest, req.amount, Pending)
               && (c.saga, c.kind, c.processed, c.attempts) == (ids.saga, CreditDestination, false, 0)
               && c.available == c.created == now
               && (t.id, t.ledger, t.time) == (ids.tx, req.sourceLedger, now) && |t.entries| == 2
               && (t.entries[0].account, t.entries[0].credit, t.entries[0].debit) == (req.source, req.amount, 0)
               && (t.entries[1].account, t.entries[1].credit, t.entries[1].debit) == (clearing, 0, req.amount)
  {
  }

  lemma SourceAgreesIff(db: Db, req: Request, clearing: Id, ids: SourceIds, now: int)
    requires Agrees(db) && req.amount > 0 && req.source in db.accounts
    ensures Agrees(WriteSource(db, req, clearing, ids, now)) <==> req.source != clearing
  {
    var t := Transaction(ids.tx, req.sourceLedger, DebitEntries(req.source, clearing, req.amount), now);
    var db' := WriteSource(db, req, clearing, ids, now);
    forall a | a in db.accounts
      ensures db'.accounts[a].balance - JournalNet(db'.journal, a) ==
              CaseDelta(req.source, clearing, -req.amount, a) - Net(t.entries, a)
    {
      JournalNetSnoc(db.journal, t, a);
    }
    forall a ensures Net(t.entries, a) ==
                     (if a == req.source then -req.amount else 0) + (if a == clearing then req.amount else 0)
    {
      NetPair(t.entries[0], t.entries[1], a);
    }
  }

  /** What is refused unread: blank text, not the nil UUID, which is the default
      ledger. */
  predicate ValidText(t: TransferText)
  {
    && !t.sourceLedger.Blank? && !t.source.Blank? && !t.destLedger.Blank? && !t.dest.Blank?
    && t.key != "" && t.amount > 0
  }

  /** Why a request that found no saga is turned away, before the write. */
  ghost function SourceRefusal(db: Db, req: Request): Option<Answer>
  {
    if req.source !in db.accounts || req.dest !in db.accounts then Some(MissingAccount)
    else if db.accounts[req.source].ledger != req.sourceLedger || db.accounts[req.dest].ledger != req.destLedger then
      Some(WrongLedger)
    else if DisplayedBalanceAfter(db.accounts[req.source].typ, db.accounts[req.source].balance, 0, req.amount) < 0 then
      Some(InsufficientFunds)
    else if KeyUsed(db.sagas, req.key) then Some(DuplicateKey)
    else None
  }

  /** What a transfer request is answered, `found` being what the lookup returned. */
  ghost function Reply(db: Db, t: TransferText, found: Option<Id>): Answer
    requires found.Some? ==> found.value in db.sagas
  {
    if !ValidText(t) then BadRequest
    else if Parsed(t).None? then InvalidId
    else
      var req := Parsed(t).value;
      if req.sourceLedger == req.destLedger then SameLedger
      else if found.Some? then (if SameText(db.sagas[found.value], t) then Replayed(found.value) else Conflict)
      else if SourceRefusal(db, req).Some? then SourceRefusal(db, req).value
      else Created
  }

  /** The request can be read: nothing blank, a positive amount, four UUIDs in whatever
      spelling, and two different ledgers. */
  predicate Legible(t: TransferText)
  {
    && t.key != "" && t.amount > 0
    && t.sourceLedger.Uuid? && t.source.Uuid? && t.destLedger.Uuid? && t.dest.Uuid?
    && t.sourceLedger.spelling.id != t.destLedger.spelling.id
  }

  /** A legible request finds no saga: what it is answered, said of the two accounts, the
      funds and the key alone. */
  ghost predicate NewRequest(db: Db, t: TransferText, answer: Answer)
    requires Legible(t)
  {
    var source, dest := t.source.spelling.id, t.dest.spelling.id;
    if source !in db.accounts || dest !in db.accounts then answer == MissingAccount
    else if || db.accounts[source].ledger != t.sourceLedger.spelling.id
            || db.accounts[dest].ledger != t.destLedger.spelling.id then answer == WrongLedger
    else if || (db.accounts[source].typ in {Asset, Expense} && db.accounts[source].balance < t.amount)
            || (db.accounts[source].typ in {Liability, Equity, Revenue} && db.accounts[source].balance > t.amount) then
      answer == InsufficientFunds
    else if exists g :: g in db.sagas && db.sagas[g].key == t.key then answer == DuplicateKey
    else answer == Created
  }

  /** Which request gets which answer. */
  lemma ReplyMeans(db: Db, t: TransferText, found: Option<Id>)
    requires found.Some? ==> found.value in db.sagas
    ensures var texts := {t.sourceLedger, t.source, t.destLedger, t.dest};
            && (Reply(db, t, found) == BadRequest <==> Blank in texts || t.key == "" || t.amount <= 0)
            && (Reply(db, t, found) == InvalidId <==>
                  Blank !in texts && t.key != "" && t.amount > 0 && NotUuid in texts)
            && (Reply(db, t, found) in {BadRequest, InvalidId, SameLedger} <==> !Legible(t))
    ensures Legible(t) && found.None? ==> NewRequest(db, t, Reply(db, t, found))
    ensures Legible(t) && found.Some? ==>
              var g := db.sagas[found.value];
              Reply(db, t, found) ==
              if && (g.sourceLedger, g.source, g.destLedger, g.dest, g.amount) ==
                    (t.sourceLedger.spelling.id, t.source.spelling.id, t.destLedger.spelling.id, t.dest.spelling.id,
                     t.amount)
                 && t.sourceLedger.spelling.form == t.source.spelling.form == 0
                 && t.destLedger.spelling.form == t.dest.spelling.form == 0
              then Replayed(found.value) else Conflict
  {
  }

  /** The request has been accepted before: `own` is its transfer. */
  ghost predicate Repeats(db: Db, t: TransferText, own: Id)
  {
    && ValidText(t) && Parsed(t).Some? && Parsed(t).value.sourceLedger != Parsed(t).value.destLedger
    && own in db.sagas && db.sagas[own].key == t.key && SameRequest(db.sagas[own], Parsed(t).value)
  }

  /** A repeated request is answered with its own transfer if and only if its key does
      not read as some other UUID and it spells its four identifiers canonically. With
      the right saga found and another spelling it is called a conflict. In no case is
      the source debited again. */
  lemma RepeatReplaysIff(db: Db, t: TransferText, own: Id, asUuid: Option<Id>, found: Option<Id>)
    requires KeysUnique(db.sagas) && Repeats(db, t, own)
    requires found.Some? ==> Finds(db.sagas, t.key, asUuid, found.value)
    requires found.None? ==> forall g :: !Finds(db.sagas, t.key, asUuid, g)
    ensures Reply(db, t, found) == Replayed(own) <==> (asUuid.None? || asUuid.value == own) && SpelledCanonically(t)
    ensures (asUuid.None? || asUuid.value == own) && !SpelledCanonically(t) ==> Reply(db, t, found) == Conflict
    ensures Reply(db, t, found) != Created
  {
    if asUuid.None? || asUuid.value == own {
      assert Finds(db.sagas, t.key, asUuid, own);
    }
    TextMatches(db.sagas[own], t);
  }

  lemma TextMatches(g: SagaRow, t: TransferText)
    requires Parsed(t).Some? && SameRequest(g, Parsed(t).value)
    ensures SameText(g, t) <==> SpelledCanonically(t)
  {
    if SpelledCanonically(t) {
      assert t.sourceLedger.spelling.form == 0 && t.source.spelling.form == 0;
      assert t.destLedger.spelling.form == 0 && t.dest.spelling.form == 0;
    }
  }

  // ----------------------------------------------------------------- where they fail

  /** Accounts 1 and 3 in the default ledger, 2 and 4 in ledger 7; 3 and 4 clear. */
  const EXAMPLE := Db(
    map[1 := Account(NIL, "payable", Liability, 0), 2 := Account(7, "cash", Asset, 0),
        3 := Account(NIL, CLEARING_NAME, Asset, 0), 4 := Account(7, CLEARING_NAME, Asset, 0)],
    [], {}, map[], map[])

  /** Ten from the default ledger to ledger 7, the source account in the given form. */
  function Asking(source: Id, form: int, dest: Id, key: string): TransferText
  {
    TransferText(Uuid(Standard(NIL)), Uuid(Spelling(source, form)), Uuid(Standard(7)), Uuid(Standard(dest)), 10, key)
  }

  ghost function Accepted(db: Db, t: TransferText, ids: SourceIds): Db
    requires Parsed(t).Some?
  {
    WriteSource(db, Parsed(t).value, 3, ids, 0)
  }

  /** A key that reads as UUID 99: created once, then refused as a duplicate. */
  lemma UuidKeyExample()
    ensures var t := Asking(1, 0, 2, "00000000-0000-0000-0000-000000000063");
            var db := Accepted(EXAMPLE, t, SourceIds(50, 60, 70));
            && Reply(EXAMPLE, t, None) == Created
            && (forall g :: !Finds(db.sagas, t.key, Some(99), g))
            && Reply(db, t, None) == DuplicateKey
  {
    var t := Asking(1, 0, 2, "00000000-0000-0000-0000-000000000063");
    var db := Accepted(EXAMPLE, t, SourceIds(50, 60, 70));
    assert 50 in db.sagas && db.sagas[50].key == t.key;
    assert KeyUsed(db.sagas, t.key);
  }

  /** A source account not spelled canonically: created once, then a conflict. */
  lemma OtherSpellingConflicts()
    ensures var t := Asking(1, 1, 2, "order-1");
            var db := Accepted(EXAMPLE, t, SourceIds(50, 60, 70));
            && Reply(EXAMPLE, t, None) == Created
            && Finds(db.sagas, t.key, None, 50)
            && Reply(db, t, Some(50)) == Conflict
  {
  }

  /** A second transfer out of the clearing account itself is accepted, and afterwards
      the stored balance is no longer the journal's. */
  lemma ClearingSourceExample()
    ensures var first, second := Asking(1, 0, 2, "order-1"), Asking(3, 0, 2, "order-2");
            var db := Accepted(EXAMPLE, first, SourceIds(50, 60, 70));
            && Reply(EXAMPLE, first, None) == Created && Agrees(db)
            && Reply(db, second, None) == Created && !Agrees(Accepted(db, second, SourceIds(51, 61, 71)))
  {
    var first, second := Asking(1, 0, 2, "order-1"), Asking(3, 0, 2, "order-2");
    var db := Accepted(EXAMPLE, first, SourceIds(50, 60, 70));
    assert Agrees(EXAMPLE);
    SourceAgreesIff(EXAMPLE, Parsed(first).value, 3, SourceIds(50, 60, 70), 0);
    SourceAgreesIff(db, Parsed(second).value, 3, SourceIds(51, 61, 71), 0);
  }

  lemma SelfCreditDiverges(db: Db, it: Item, now: int)
    requires Agrees(db) && Present(db, [it]) && it.dest == it.clearing && it.dest in db.accounts && it.amount > 0
    ensures BulkCredit(db, [it], now) != CreditAll(db, [it], now)
    ensures Agrees(BulkCredit(db, [it], now))
    ensures !Agrees(PostLeg(db, it.ledger, it.dest, it.clearing, it.amount, it.tx, now))
  {
    hide BulkCredit, CreditAll, PostLeg, Agrees;
    BulkAgrees(db, [it], now);
    LegAgreesIff(db, it.ledger, it.dest, it.clearing, it.amount, it.tx, now);
    assert it in [it];
    BulkRefinesOneByOne(db, [it], now);
  }

  /** The state the next example starts from. */
  lemma IntoClearing()
    ensures var t := Asking(1, 0, 4, "order-1");
            var db := Accepted(EXAMPLE, t, SourceIds(50, 60, 70));
            && Reply(EXAMPLE, t, None) == Created && Agrees(db)
            && 50 in db.sagas && 70 in db.commands && 4 in db.accounts
  {
    assert Agrees(EXAMPLE);
    hide Agrees;
    SourceAgreesIff(EXAMPLE, Parsed(Asking(1, 0, 4, "order-1")).value, 3, SourceIds(50, 60, 70), 0);
  }

  /** A transfer into the destination's clearing account is accepted; the bulk
      statement and the single leg then differ, and only the bulk one agrees with the
      journal. */
  lemma ClearingDestinationExample()
    ensures var t := Asking(1, 0, 4, "order-1");
            var db := Accepted(EXAMPLE, t, SourceIds(50, 60, 70));
            var it := Item(70, 50, 7, 4, 10, 4, 80);
            && Reply(EXAMPLE, t, None) == Created && Present(db, [it])
            && BulkCredit(db, [it], 0) != CreditAll(db, [it], 0)
            && Agrees(BulkCredit(db, [it], 0)) && !Agrees(PostLeg(db, 7, 4, 4, 10, 80, 0))
  {
    hide BulkCredit, CreditAll, PostLeg, Agrees, Accepted, Reply;
    IntoClearing();
    var db := Accepted(EXAMPLE, Asking(1, 0, 4, "order-1"), SourceIds(50, 60, 70));
    SelfCreditDiverges(db, Item(70, 50, 7, 4, 10, 4, 80), 0);
  }
}
