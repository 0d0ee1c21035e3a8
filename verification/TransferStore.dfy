/** The database transfer paths as they run: saga lookup, clearing accounts made
    on demand, ordered locking, merged deltas and one bulk write. */
module TransferStore {
  import opened Domain
  import opened LockOrder
  import opened Posting
  import opened RowOrder
  import opened Transfers

  /** `more` is `db` with clearing accounts added and nothing else changed. */
  ghost predicate AddsClearing(db: Db, more: Db)
  {
    && more == db.(accounts := more.accounts)
    && db.accounts.Keys <= more.accounts.Keys
    && (forall a :: a in db.accounts ==> more.accounts[a] == db.accounts[a])
    && (forall a :: a in more.accounts && a !in db.accounts ==>
          more.accounts[a].name == CLEARING_NAME && more.accounts[a].typ == Asset && more.accounts[a].balance == 0)
  }

  method FindClearing(accounts: Accounts, ledger: Id) returns (r: Option<Id>)
    ensures r.Some? ==> IsClearing(accounts, ledger, r.value)
    ensures r.None? ==> forall a :: !IsClearing(accounts, ledger, a)
  {
    var left := accounts.Keys;
    while left != {}
      invariant left <= accounts.Keys
      invariant forall a :: IsClearing(accounts, ledger, a) ==> a in left
      decreases |left|
    {
      HasElement(left);
      var a :| a in left;
      if accounts[a].name == CLEARING_NAME && accounts[a].ledger == ledger {
        return Some(a);
      }
      left := left - {a};
    }
    return None;
  }

  /** Look the account up by ledger and name, inserting it when absent. */
  method EnsureClearing(accounts: Accounts, ledger: Id, newId: Id) returns (r: Accounts, id: Id)
    requires newId !in accounts
    ensures IsClearing(r, ledger, id)
    ensures if exists a :: IsClearing(accounts, ledger, a) then r == accounts
            else id == newId && r == accounts[newId := Account(ledger, CLEARING_NAME, Asset, 0)]
  {
    var found := FindClearing(accounts, ledger);
    if found.Some? {
      return accounts, found.value;
    }
    return accounts[newId := Account(ledger, CLEARING_NAME, Asset, 0)], newId;
  }

  method FindSaga(sagas: map<Id, SagaRow>, key: string, asUuid: Option<Id>) returns (r: Option<Id>)
    ensures r.Some? ==> Finds(sagas, key, asUuid, r.value)
    ensures r.None? ==> forall g :: !Finds(sagas, key, asUuid, g)
  {
    if asUuid.Some? {
      return if asUuid.value in sagas then Some(asUuid.value) else None;
    }
    r := FindByKey(sagas, key);
  }

  method FindByKey(sagas: map<Id, SagaRow>, key: string) returns (r: Option<Id>)
    ensures r.Some? ==> r.value in sagas && sagas[r.value].key == key
    ensures r.None? ==> !KeyUsed(sagas, key)
  {
    var left := sagas.Keys;
    while left != {}
      invariant left <= sagas.Keys
      invariant forall g :: g in sagas && sagas[g].key == key ==> g in left
      decreases |left|
    {
      HasElement(left);
      var g :| g in left;
      if sagas[g].key == key {
        return Some(g);
      }
      left := left - {g};
    }
    return None;
  }

  function At(deltas: map<Id, int>, a: Id): int
  {
    if a in deltas then deltas[a] else 0
  }

  function AddAt(deltas: map<Id, int>, a: Id, amount: int): map<Id, int>
  {
    deltas[a := At(deltas, a) + amount]
  }

  ghost predicate Totals(deltas: map<Id, int>, items: seq<Item>)
  {
    forall a :: At(deltas, a) == Delta(items, a)
  }

  lemma TotalsSnoc(deltas: map<Id, int>, items: seq<Item>, i: nat)
    requires i < |items| && Totals(deltas, items[..i])
    ensures var it := items[i];
            Totals(AddAt(AddAt(deltas, it.dest, it.amount), it.clearing, -it.amount), items[..i + 1])
  {
    var it := items[i];
    var deltas' := AddAt(AddAt(deltas, it.dest, it.amount), it.clearing, -it.amount);
    assert items[..i + 1][..i] == items[..i];
    forall a ensures At(deltas', a) == Delta(items[..i + 1], a) {
      assert At(deltas, a) == Delta(items[..i], a);
    }
  }

  /** The merged balance movement of a batch. */
  method MergeDeltas(items: seq<Item>) returns (deltas: map<Id, int>)
    ensures Totals(deltas, items)
  {
    deltas := map[];
    for i := 0 to |items|
      invariant Totals(deltas, items[..i])
    {
      TotalsSnoc(deltas, items, i);
      deltas := AddAt(deltas, items[i].dest, items[i].amount);
      deltas := AddAt(deltas, items[i].clearing, -items[i].amount);
    }
    assert items[..|items|] == items;
  }

  /** One UPDATE joined with the merged deltas, in any row order. */
  method ShiftBy(accounts: Accounts, deltas: map<Id, int>) returns (r: Accounts)
    ensures r.Keys == accounts.Keys && forall a :: a in accounts ==> r[a] == Plus(accounts[a], At(deltas, a))
  {
    r := accounts;
    var left := deltas.Keys * accounts.Keys;
    while left != {}
      invariant left <= deltas.Keys * accounts.Keys && r.Keys == accounts.Keys
      invariant forall a :: a in accounts ==> r[a] == Plus(accounts[a], if a in left then 0 else At(deltas, a))
      decreases |left|
    {
      HasElement(left);
      var a :| a in left;
      r := r[a := Plus(r[a], deltas[a])];
      left := left - {a};
    }
  }

  method LegsOf(items: seq<Item>, now: int) returns (legs: seq<Transaction>)
    ensures legs == Legs(items, now)
  {
    legs := [];
    for i := 0 to |items|
      invariant legs == Legs(items[..i], now)
    {
      assert items[..i + 1][..i] == items[..i];
      var it := items[i];
      var lines := [Entry(it.dest, 0, it.amount), Entry(it.clearing, it.amount, 0)];
      legs := legs + [Transaction(it.tx, it.ledger, lines, now)];
    }
    assert items[..|items|] == items;
  }

  function RowsOf(items: seq<Item>): set<Id>
  {
    (set it | it in items :: it.dest) + (set it | it in items :: it.clearing)
  }

  function CreatedOf(commands: map<Id, Command>): map<Id, int>
  {
    map e | e in commands :: commands[e].created
  }

  /** The rows the due-event query may return: those another worker has locked are
      skipped. */
  function DueRows(db: Db, locked: set<Id>, now: int): set<Id>
  {
    set e | e in db.commands && e !in locked && Pickable(db, e, now)
  }

  /** A due command with its transfer, the clearing account still to be found. */
  function ItemFor(db: Db, e: Id, tx: Id): Item
    requires e in db.commands && db.commands[e].saga in db.sagas
  {
    var g := db.sagas[db.commands[e].saga];
    Item(e, db.commands[e].saga, g.destLedger, g.dest, g.amount, NIL, tx)
  }

  /** The oldest `limit` of the due rows, in order, each read off its own saga. */
  ghost predicate Picked(db: Db, limit: nat, locked: set<Id>, now: int, picked: seq<Item>)
  {
    var due, created := DueRows(db, locked, now), CreatedOf(db.commands);
    && |picked| == (if limit < |due| then limit else |due|)
    && (forall i :: 0 <= i < |picked| ==>
          picked[i].event in due && picked[i] == ItemFor(db, picked[i].event, picked[i].tx))
    && (forall i, j :: 0 <= i < j < |picked| ==>
          picked[i].event != picked[j].event && Before(created, picked[i].event, picked[j].event))
    && (forall i, e :: 0 <= i < |picked| && e in due && e !in EventIds(picked) ==> Before(created, picked[i].event, e))
  }

  /** A credit command still open and not held by anyone else, whose time has come, of a
      transfer still pending. */
  ghost predicate IsDue(db: Db, locked: set<Id>, now: int, e: Id)
  {
    && e in db.commands && e !in locked
    && db.commands[e].kind == CreditDestination && !db.commands[e].processed && db.commands[e].available <= now
    && db.commands[e].saga in db.sagas && db.sagas[db.commands[e].saga].status == Pending
  }

  /** Created earlier, or at the same time with the smaller id. */
  ghost predicate Older(db: Db, a: Id, b: Id)
  {
    && a in db.commands && b in db.commands
    && (db.commands[a].created < db.commands[b].created || (db.commands[a].created == db.commands[b].created && a < b))
  }

  /** Due commands with their transfers' own data, oldest first; one that is left out
      is younger than all that were picked, and was left out only for the limit. */
  ghost predicate PickedExactly(db: Db, limit: nat, locked: set<Id>, now: int, picked: seq<Item>)
  {
    && |picked| <= limit
    && (forall i :: 0 <= i < |picked| ==>
          && IsDue(db, locked, now, picked[i].event)
          && picked[i].saga == db.commands[picked[i].event].saga
          && var g := db.sagas[picked[i].saga];
             (picked[i].ledger, picked[i].dest, picked[i].amount) == (g.destLedger, g.dest, g.amount))
    && (forall i, j :: 0 <= i < j < |picked| ==>
          Older(db, picked[i].event, picked[j].event))
    && (forall e :: IsDue(db, locked, now, e) && e !in EventIds(picked) ==>
          && |picked| == limit
          && forall i :: 0 <= i < |picked| ==> Older(db, picked[i].event, e))
  }

  lemma PickedMeans(db: Db, limit: nat, locked: set<Id>, now: int, picked: seq<Item>)
    requires Picked(db, limit, locked, now, picked)
    ensures PickedExactly(db, limit, locked, now, picked)
  {
    var due := DueRows(db, locked, now);
    forall e ensures IsDue(db, locked, now, e) <==> e in due {
    }
    forall e | e in due && e !in EventIds(picked) ensures |picked| == limit {
      assert EventIds(picked) <= due - {e};
      PickSize(picked, due - {e});
    }
  }

  lemma {:induction false} PickSize(picked: seq<Item>, rows: set<Id>)
    requires forall i, j :: 0 <= i < j < |picked| ==> picked[i].event != picked[j].event
    requires EventIds(picked) <= rows
    ensures |picked| <= |rows|
    decreases |picked|
  {
    if picked != [] {
      var n := |picked| - 1;
      forall it | it in picked[..n] ensures it.event in rows - {picked[n].event} {
        var i :| 0 <= i < n && picked[i] == it;
        assert it in picked && it.event in EventIds(picked);
      }
      assert picked[n] in picked && picked[n].event in EventIds(picked);
      PickSize(picked[..n], rows - {picked[n].event});
    }
  }

  class TransferStore {
    var accounts: Accounts
    var journal: seq<Transaction>
    var queued: set<Id>
    var sagas: map<Id, SagaRow>
    var commands: map<Id, Command>

    function Abs(): Db
      reads this
    {
      Db(accounts, journal, queued, sagas, commands)
    }

    /** Answer a transfer request. The database changes only when the answer is
        `Created`, and then by the source debit (and a clearing account if the
        ledger had none). */
    method CreateTransfer(t: TransferText, asUuid: Option<Id>, newClearing: Id, ids: SourceIds, now: int)
      returns (answer: Answer, clearing: Id, ghost found: Option<Id>)
      requires newClearing !in accounts && ids.saga !in sagas
      modifies this
      ensures found.Some? ==> Finds(old(sagas), t.key, asUuid, found.value)
      ensures found.None? ==>
                answer in {BadRequest, InvalidId, SameLedger} || forall g :: !Finds(old(sagas), t.key, asUuid, g)
      ensures answer == Reply(old(Abs()), t, found)
      ensures answer != Created ==> Abs() == old(Abs())
      ensures answer == Created ==>
                exists more ::
                  && AddsClearing(old(Abs()), more) && IsClearing(more.accounts, Parsed(t).value.sourceLedger, clearing)
                  && Abs() == WriteSource(more, Parsed(t).value, clearing, ids, now)
      ensures KeysUnique(old(sagas)) ==> KeysUnique(sagas)
      ensures answer in {BadRequest, InvalidId, SameLedger} <==> !Legible(t)
      ensures Legible(t) && found.None? ==> NewRequest(old(Abs()), t, answer)
      ensures answer == Created ==>
                && Legible(t) && t.source.spelling.id in old(accounts) && t.dest.spelling.id in old(accounts)
                && old(accounts)[t.source.spelling.id].ledger == t.sourceLedger.spelling.id
                && old(accounts)[t.dest.spelling.id].ledger == t.destLedger.spelling.id
    {
      Replies(Abs(), t);
      hide NewRequest;
      clearing, found := NIL, None;
      if t.sourceLedger == Blank || t.source == Blank || t.destLedger == Blank || t.dest == Blank
         || t.key == "" || t.amount <= 0 {
        return BadRequest, clearing, found;
      }
      var parsed := Parsed(t);
      if parsed.None? {
        return InvalidId, clearing, found;
      }
      var req := parsed.value;
      if req.sourceLedger == req.destLedger {
        return SameLedger, clearing, found;
      }
      var existing := FindSaga(sagas, t.key, asUuid);
      found := existing;
      if existing.Some? {
        return if SameText(sagas[existing.value], t) then Replayed(existing.value) else Conflict, clearing, found;
      }
      if req.source !in accounts || req.dest !in accounts {
        return MissingAccount, clearing, found;
      }
      if accounts[req.source].ledger != req.sourceLedger || accounts[req.dest].ledger != req.destLedger {
        return WrongLedger, clearing, found;
      }
      if DisplayedBalanceAfter(accounts[req.source].typ, accounts[req.source].balance, 0, req.amount) < 0 {
        return InsufficientFunds, clearing, found;
      }
      var sameKey := FindByKey(sagas, req.key);
      if sameKey.Some? {
        ghost var holder := sameKey.value;
        assert holder in sagas && sagas[holder].key == req.key;
        assert KeyUsed(sagas, req.key);
        return DuplicateKey, clearing, found;
      }
      var more, c := EnsureClearing(accounts, req.sourceLedger, newClearing);
      clearing := c;
      ghost var mid := Abs().(accounts := more);
      assert AddsClearing(Abs(), mid);
      WriteSourceTransfer(req, more, c, ids, now);
      assert Abs() == WriteSource(mid, req, c, ids, now);
      answer := Created;
    }

    /** The source debit statement over the clearing-complete account table. */
    method WriteSourceTransfer(req: Request, more: Accounts, c: Id, ids: SourceIds, now: int)
      modifies this
      ensures Abs() == WriteSource(old(Abs()).(accounts := more), req, c, ids, now)
    {
      accounts := map a | a in more ::
        Plus(more[a], if a == req.source then -req.amount else if a == c then req.amount else 0);
      journal := journal
      + [Transaction(ids.tx, req.sourceLedger, [Entry(req.source, req.amount, 0), Entry(c, 0, req.amount)], now)];
      queued := queued + {ids.tx};
      var g := SagaRow(req.key, req.sourceLedger, req.source, req.destLedger, req.dest, req.amount, Pending);
      sagas := sagas[ids.saga := g];
      commands := commands[ids.command := Command(ids.saga, CreditDestination, false, 0, now, now)];
      assert accounts == CaseMove(more, req.source, c, -req.amount);
    }

    /** The due-event query, its rows then locked. */
    method PickDue(limit: nat, locked: set<Id>, txs: seq<Id>, now: int) returns (picked: seq<Item>)
      requires |txs| >= limit
      ensures Picked(Abs(), limit, locked, now, picked)
      ensures forall i :: 0 <= i < |picked| ==> picked[i].tx == txs[i]
      ensures PickedExactly(Abs(), limit, locked, now, picked)
    {
      hide Before, EventIds, Pickable, Picked, DueRows, CreatedOf;
      var due := DueRows(Abs(), locked, now);
      DueKnown(Abs(), locked, now);
      var rows;
      ghost var rest;
      rows, rest := InOrder(CreatedOf(commands), due, limit);
      picked := [];
      for i := 0 to |rows|
        invariant |picked| == i
        invariant forall j :: 0 <= j < i ==> rows[j] in due && picked[j] == ItemFor(Abs(), rows[j], txs[j])
      {
        var c := commands[rows[i]];
        var g := sagas[c.saga];
        picked := picked + [Item(rows[i], c.saga, g.destLedger, g.dest, g.amount, NIL, txs[i])];
      }
      PickedIs(Abs(), limit, locked, now, rows, rest, picked);
      hide PickedExactly, IsDue;
      PickedMeans(Abs(), limit, locked, now, picked);
    }

    /** Complete many transfers in one database transaction. A missing account row
        abandons the batch. */
    method ProcessDestinationCreditBatch(limit: int, locked: set<Id>, txs: seq<Id>, newIds: seq<Id>, now: int)
      returns (credited: Option<seq<Item>>, order: seq<Id>, ghost picked: seq<Item>, ghost base: Db)
      requires |txs| == |newIds| == Limit(limit)
      requires forall i :: 0 <= i < |newIds| ==> newIds[i] !in accounts
      requires forall i, j :: 0 <= i < j < |newIds| ==> newIds[i] != newIds[j]
      modifies this
      ensures Picked(old(Abs()), |txs|, locked, now, picked) && PickedExactly(old(Abs()), |txs|, locked, now, picked)
      ensures forall i :: 0 <= i < |picked| ==> picked[i].tx == txs[i]
      ensures AddsClearing(old(Abs()), base) && Ascending(order)
      ensures credited.None? ==> Abs() == old(Abs()) && exists it :: it in picked && it.dest !in base.accounts
      ensures credited.Some? ==>
                && |credited.value| == |picked|
                && (forall i :: 0 <= i < |picked| ==>
                      && credited.value[i] == picked[i].(clearing := credited.value[i].clearing)
                      && IsClearing(base.accounts, picked[i].ledger, credited.value[i].clearing)
                      && picked[i].dest in base.accounts)
                && (forall a :: a in order <==> a in RowsOf(credited.value))
                && Abs() == BulkCredit(base, credited.value, now)
    {
      hide BulkCredit, BulkSagas, BulkCommands, Picked, PickedExactly;
      var due := PickDue(|txs|, locked, txs, now);
      picked := due;
      PickedFits(Abs(), |txs|, locked, now, due);
      var more, items := ResolveClearing(accounts, due, newIds[..|due|]);
      base := Abs().(accounts := more);
      BaseAdds(Abs(), base);
      var rows := RowsOf(items);
      order := SortedKeys(rows);
      var present := 0;
      for i := 0 to |order|
        invariant 0 <= present <= i
        invariant present == i <==> forall j :: 0 <= j < i ==> order[j] in more
      {
        if order[i] in more {
          present := present + 1;
        }
      }
      if present != |order| {
        MissingRow(more, due, items, order);
        return None, order, picked, base;
      }
      forall i | 0 <= i < |due| ensures due[i].dest in more {
        assert items[i] in items && items[i].dest in rows && items[i].dest in order;
      }
      WriteDestinationCreditBatch(items, more, now);
      credited := Some(items);
    }

    /** The bulk statement over the clearing-complete account table. */
    method WriteDestinationCreditBatch(items: seq<Item>, more: Accounts, now: int)
      modifies this
      ensures Abs() == BulkCredit(old(Abs()).(accounts := more), items, now)
    {
      hide Delta, Legs, SagaIds, EventIds, TxsOf;
      var deltas := MergeDeltas(items);
      var shifted := ShiftBy(more, deltas);
      var legs := LegsOf(items, now);
      ghost var start := Abs().(accounts := more);
      assert shifted == BulkCredit(start, items, now).accounts;
      accounts := shifted;
      journal := journal + legs;
      queued := queued + TxsOf(items);
      sagas := map g | g in sagas :: if g in SagaIds(items) then sagas[g].(status := Completed) else sagas[g];
      assert sagas == BulkSagas(start.sagas, items);
      commands := map e | e in commands :: if e in EventIds(items) then Done(commands[e]) else commands[e];
      assert commands == BulkCommands(start.commands, items);
    }

    /** Give every event its ledger's clearing account, making the missing ones. */
    static method ResolveClearing(accounts: Accounts, picked: seq<Item>, newIds: seq<Id>)
      returns (more: Accounts, items: seq<Item>)
      requires |newIds| == |picked|
      requires forall i :: 0 <= i < |newIds| ==> newIds[i] !in accounts
      requires forall i, j :: 0 <= i < j < |newIds| ==> newIds[i] != newIds[j]
      ensures Extends(accounts, more)
      ensures |items| == |picked|
      ensures forall i :: 0 <= i < |picked| ==>
                && items[i] == picked[i].(clearing := items[i].clearing)
                && IsClearing(more, picked[i].ledger, items[i].clearing)
    {
      more, items := accounts, [];
      for i := 0 to |picked|
        invariant Extends(accounts, more) && |items| == i
        invariant forall j :: i <= j < |newIds| ==> newIds[j] !in more
        invariant forall j :: 0 <= j < i ==>
                    && items[j] == picked[j].(clearing := items[j].clearing)
                    && IsClearing(more, picked[j].ledger, items[j].clearing)
      {
        var c;
        more, c := EnsureClearing(more, picked[i].ledger, newIds[i]);
        items := items + [picked[i].(clearing := c)];
      }
    }
  }

  lemma Replies(db: Db, t: TransferText)
    ensures forall found: Option<Id> :: (found.Some? ==> found.value in db.sagas) ==>
              && (Reply(db, t, found) in {BadRequest, InvalidId, SameLedger} <==> !Legible(t))
              && (Legible(t) && found.None? ==> NewRequest(db, t, Reply(db, t, found)))
              && (Reply(db, t, found) == Created ==>
                    && Legible(t) && t.source.spelling.id in db.accounts && t.dest.spelling.id in db.accounts
                    && db.accounts[t.source.spelling.id].ledger == t.sourceLedger.spelling.id
                    && db.accounts[t.dest.spelling.id].ledger == t.destLedger.spelling.id)
  {
    forall found: Option<Id> | found.Some? ==> found.value in db.sagas
      ensures Reply(db, t, found) in {BadRequest, InvalidId, SameLedger} <==> !Legible(t)
      ensures Legible(t) && found.None? ==> NewRequest(db, t, Reply(db, t, found))
    {
      ReplyMeans(db, t, found);
    }
  }

  lemma DueKnown(db: Db, locked: set<Id>, now: int)
    ensures DueRows(db, locked, now) <= CreatedOf(db.commands).Keys
    ensures forall e :: e in DueRows(db, locked, now) ==> e in db.commands && db.commands[e].saga in db.sagas
  {
  }

  lemma PickedIs(db: Db, limit: nat, locked: set<Id>, now: int, rows: seq<Id>, rest: set<Id>, picked: seq<Item>)
    requires var due := DueRows(db, locked, now);
             && Elems(rows) + rest == due && due <= CreatedOf(db.commands).Keys
             && |rows| == if limit < |due| then limit else |due|
    requires Sorted(CreatedOf(db.commands), rows, rest)
    requires |picked| == |rows|
    requires forall i :: 0 <= i < |rows| ==>
               && rows[i] in db.commands && db.commands[rows[i]].saga in db.sagas
               && picked[i] == ItemFor(db, rows[i], picked[i].tx)
    ensures Picked(db, limit, locked, now, picked)
  {
    hide Before, Pickable;
    forall e | e in DueRows(db, locked, now) && e !in EventIds(picked) ensures e in rest {
      forall i | 0 <= i < |rows| ensures rows[i] != e {
        assert picked[i] in picked;
      }
    }
  }

  lemma PickedFits(db: Db, limit: nat, locked: set<Id>, now: int, picked: seq<Item>)
    requires Picked(db, limit, locked, now, picked)
    ensures |picked| <= limit
  {
  }

  ghost predicate Extends(accounts: Accounts, more: Accounts)
  {
    && (forall a :: a in accounts ==> a in more && more[a] == accounts[a])
    && (forall a :: a in more && a !in accounts ==>
          more[a].name == CLEARING_NAME && more[a].typ == Asset && more[a].balance == 0)
  }

  lemma BaseAdds(db: Db, base: Db)
    requires base == db.(accounts := base.accounts) && Extends(db.accounts, base.accounts)
    ensures AddsClearing(db, base)
  {
    forall a | a in db.accounts.Keys ensures a in base.accounts.Keys {
      assert a in db.accounts;
    }
  }

  lemma MissingRow(more: Accounts, picked: seq<Item>, items: seq<Item>, order: seq<Id>)
    requires |items| == |picked|
    requires forall i :: 0 <= i < |picked| ==>
               && items[i] == picked[i].(clearing := items[i].clearing)
               && IsClearing(more, picked[i].ledger, items[i].clearing)
    requires forall k :: k in order <==> k in RowsOf(items)
    requires !forall j :: 0 <= j < |order| ==> order[j] in more
    ensures exists it :: it in picked && it.dest !in more
  {
    var j :| 0 <= j < |order| && order[j] !in more;
    var row := order[j];
    assert row in order && row in RowsOf(items);
    var it :| it in items && (it.dest == row || it.clearing == row);
    var i :| 0 <= i < |items| && items[i] == it;
    assert picked[i] in picked;
  }
}
