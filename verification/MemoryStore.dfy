/** The in-memory store itself: maps and slices updated in place. Each method is
    tied to the step function of module Memory, so what is proved there about
    every run is proved about this object. */
module MemoryStore {
  import opened Domain
  import opened Memory
  import opened MemoryInvariant

  datatype Result<+T> = Ok(value: T) | Err(error: Refusal)

  datatype Posting = Posting(transaction: Transaction, existed: bool)

  datatype Transfer = Transfer(id: Id, saga: Saga, existed: bool)

  /** What other callers do while the worker does not hold the mutex, and then what the
      world supplies to its next turn. */
  datatype Round = Round(others: seq<Action>, verdict: Verdict, ids: Fresh, now: int)

  function TurnOf(round: Round): Action
  {
    WorkerTurn(round.verdict, round.ids, round.now)
  }

  function Schedule(rounds: seq<Round>): seq<Action>
  {
    if rounds == [] then [] else
      var last := rounds[|rounds| - 1];
      Schedule(rounds[..|rounds| - 1]) + last.others + [TurnOf(last)]
  }

  /** The lines of one account, in journal order. */
  function LinesOf(es: seq<Entry>, account: Id): seq<Entry>
  {
    if es == [] then [] else
      var last := es[|es| - 1];
      LinesOf(es[..|es| - 1], account) + if last.account == account then [last] else []
  }

  predicate InWindow(t: Transaction, from: Option<int>, to: Option<int>)
  {
    (from.Some? ==> from.value <= t.time) && (to.Some? ==> t.time <= to.value)
  }

  function Window(txs: seq<Transaction>, from: Option<int>, to: Option<int>): seq<Transaction>
  {
    if txs == [] then [] else
      var last := txs[|txs| - 1];
      Window(txs[..|txs| - 1], from, to) + if InWindow(last, from, to) then [last] else []
  }

  lemma {:induction false} WholeWindow(txs: seq<Transaction>)
    ensures Window(txs, None, None) == txs
  {
    if txs != [] {
      WholeWindow(txs[..|txs| - 1]);
    }
  }

  /** How the windowed history grows, one transaction at a time. */
  lemma WindowSteps(txs: seq<Transaction>, from: Option<int>, to: Option<int>, account: Id)
    ensures HistoryOf(Window(txs[..0], from, to), account) == [] && JournalNet(Window(txs[..0], from, to), account) == 0
    ensures forall i :: 0 <= i < |txs| ==>
              var before, after := Window(txs[..i], from, to), Window(txs[..i + 1], from, to);
              if InWindow(txs[i], from, to) then
                && HistoryOf(after, account) == HistoryOf(before, account) + LinesOf(txs[i].entries, account)
                && JournalNet(after, account) == JournalNet(before, account) + Net(txs[i].entries, account)
              else after == before
  {
    forall i | 0 <= i < |txs|
      ensures var before, after := Window(txs[..i], from, to), Window(txs[..i + 1], from, to);
              if InWindow(txs[i], from, to) then
                && HistoryOf(after, account) == HistoryOf(before, account) + LinesOf(txs[i].entries, account)
                && JournalNet(after, account) == JournalNet(before, account) + Net(txs[i].entries, account)
              else after == before
    {
      assert txs[..i + 1][..i] == txs[..i];
      var before := Window(txs[..i], from, to);
      assert (before + [txs[i]])[..|before|] == before;
    }
  }

  function HistoryOf(txs: seq<Transaction>, account: Id): seq<Entry>
  {
    if txs == [] then [] else HistoryOf(txs[..|txs| - 1], account) + LinesOf(txs[|txs| - 1].entries, account)
  }

  /** How often a line occurs in transactions not before `from` and not after `to`. */
  function Occurs(txs: seq<Transaction>, from: Option<int>, to: Option<int>, e: Entry): nat
  {
    if txs == [] then 0 else
      var last := txs[|txs| - 1];
      Occurs(txs[..|txs| - 1], from, to, e)
      + if (from.None? || from.value <= last.time) && (to.None? || last.time <= to.value)
        then multiset(last.entries)[e] else 0
  }

  lemma {:induction false} LinesCount(es: seq<Entry>, account: Id, e: Entry)
    ensures multiset(LinesOf(es, account))[e] == if e.account == account then multiset(es)[e] else 0
    decreases |es|
  {
    if es != [] {
      LinesCount(es[..|es| - 1], account, e);
      assert es == es[..|es| - 1] + [es[|es| - 1]];
    }
  }

  /** History is every line of the account in the window, as often as it was posted, and
      nothing else. */
  lemma {:induction false} HistoryCount(txs: seq<Transaction>, from: Option<int>, to: Option<int>, account: Id,
                                        e: Entry)
    ensures multiset(HistoryOf(Window(txs, from, to), account))[e] ==
            if e.account == account then Occurs(txs, from, to, e) else 0
    decreases |txs|
  {
    if txs != [] {
      var n := |txs| - 1;
      HistoryCount(txs[..n], from, to, account, e);
      LinesCount(txs[n].entries, account, e);
      HistoryGrows(txs, from, to, account);
      hide LinesOf, Window, HistoryOf;
    }
  }

  lemma HistoryGrows(txs: seq<Transaction>, from: Option<int>, to: Option<int>, account: Id)
    requires txs != []
    ensures var n := |txs| - 1;
            HistoryOf(Window(txs, from, to), account) ==
            HistoryOf(Window(txs[..n], from, to), account)
            + if InWindow(txs[n], from, to) then LinesOf(txs[n].entries, account) else []
  {
    var n := |txs| - 1;
    var before := Window(txs[..n], from, to);
    if InWindow(txs[n], from, to) {
      assert Window(txs, from, to) == before + [txs[n]];
      assert (before + [txs[n]])[..|before|] == before;
    } else {
      assert Window(txs, from, to) == before + [] == before;
    }
  }

  /** Lines keep the order they were posted in. */
  lemma {:induction false} LinesInOrder(xs: seq<Entry>, ys: seq<Entry>, account: Id)
    ensures LinesOf(xs + ys, account) == LinesOf(xs, account) + LinesOf(ys, account)
    decreases |ys|
  {
    if ys == [] {
      assert xs + ys == xs;
    } else {
      assert (xs + ys)[..|xs + ys| - 1] == xs + ys[..|ys| - 1];
      LinesInOrder(xs, ys[..|ys| - 1], account);
    }
  }

  /** How the first use of a key is answered, said of the two accounts alone. */
  ghost predicate FirstUse(accounts: Accounts, req: TransferRequest, r: Result<Transfer>)
  {
    if req.sourceAccount !in accounts || accounts[req.sourceAccount].ledger != req.sourceLedger then
      r == Err(WrongSourceLedger)
    else if req.destAccount !in accounts || accounts[req.destAccount].ledger != req.destLedger then
      r == Err(WrongDestinationLedger)
    else if req.sourceLedger == req.destLedger then
      r == Err(SameLedger)
    else
      var a := accounts[req.sourceAccount];
      && (r.Ok? || r == Err(InsufficientFunds))
      && (r == Err(InsufficientFunds) <==>
            || (a.typ in {Asset, Expense} && a.balance < req.amount)
            || (a.typ in {Liability, Equity, Revenue} && a.balance > req.amount))
  }

  class MemoryStore {
    var accounts: Accounts
    var transactions: seq<Transaction>
    var keys: map<string, KeyRow>
    var sagas: map<Id, Saga>
    var transferKeys: map<string, Id>
    var outbox: seq<Event>
    var clearing: map<Id, Id>
    ghost var ordinary: set<Id>

    ghost function Abs(): State
      reads this
    {
      State(accounts, transactions, keys, sagas, transferKeys, outbox, clearing, ordinary)
    }

    ghost predicate Valid()
      reads this
    {
      Inv(Abs())
    }

    constructor ()
      ensures Valid() && Abs() == EMPTY
    {
      accounts, transactions, keys, sagas := map[], [], map[], map[];
      transferKeys, outbox, clearing, ordinary := map[], [], map[], {};
      new;
      EmptyInv();
    }

    method CreateAccountInLedger(id: Id, ledger: Id, name: string, typ: AccountType) returns (r: Result<Account>)
      requires Valid() && id !in accounts
      modifies this`accounts
      ensures Valid() && Abs() == Step(old(Abs()), OpenAccount(id, ledger, name, typ))
      ensures if name == "" then r == Err(BadRequest) && accounts == old(accounts)
              else r == Ok(Account(ledger, name, typ, 0)) && accounts == old(accounts)[id := r.value]
    {
      if name == "" {
        return Err(BadRequest);
      }
      OpenAccountKeeps(Abs(), id, Account(ledger, name, typ, 0));
      var account := Account(ledger, name, typ, 0);
      accounts := accounts[id := account];
      return Ok(account);
    }

    /** Validate, then post line by line. A refusal changes nothing. */
    method PostEntries(es: seq<Entry>, tx: Id, now: int) returns (r: Result<Transaction>)
      modifies this`accounts, this`transactions
      ensures Abs() == Post(old(Abs()), es, tx, now)
      ensures var refusal := PostingRefusal(old(Abs()), es);
              if refusal.Some? then r == Err(refusal.value)
              else r.Ok? && transactions == old(transactions) + [r.value] && r.value.id == tx
      ensures r == Err(Invalid) <==> !Balanced(es)
      ensures r == Err(UnknownAccount) <==> Balanced(es) && exists e :: e in es && e.account !in old(accounts)
      ensures r == Err(CrossLedger) <==>
                && Balanced(es) && (forall e :: e in es ==> e.account in old(accounts))
                && exists e :: e in es && old(accounts)[e.account].ledger != old(accounts)[es[0].account].ledger
      ensures r.Ok? ==>
                && r.value.entries == es && r.value.time == now && accounts.Keys == old(accounts).Keys
                && (forall e :: e in es ==>
                      e.account in old(accounts) && old(accounts)[e.account].ledger == r.value.ledger)
                && forall a :: a in accounts ==>
                     accounts[a] == old(accounts)[a].(balance := old(accounts)[a].balance + Net(es, a))
    {
      hide Net;
      var fault := ValidateTransaction(es);
      if fault.Some? {
        return Err(Invalid);
      }
      for i := 0 to |es|
        invariant forall j :: 0 <= j < i ==> es[j].account in accounts
      {
        if es[i].account !in accounts {
          assert es[i] in es;
          return Err(UnknownAccount);
        }
      }
      assert Known(accounts, es);
      var ledger := accounts[es[0].account].ledger;
      for i := 1 to |es|
        invariant forall j :: 0 <= j < i ==> accounts[es[j].account].ledger == ledger
      {
        if accounts[es[i].account].ledger != ledger {
          assert es[i] in es;
          return Err(CrossLedger);
        }
      }
      assert InLedger(accounts, es, ledger);
      ApplyLines(es);
      var transaction := Transaction(tx, ledger, es, now);
      transactions := transactions + [transaction];
      return Ok(transaction);
    }

    method ApplyLines(es: seq<Entry>)
      requires Known(accounts, es)
      modifies this`accounts
      ensures accounts == ApplyEntries(old(accounts), es)
    {
      for i := 0 to |es|
        invariant Known(old(accounts), es[..i])
        invariant accounts == ApplyEntries(old(accounts), es[..i])
      {
        assert es[i] in es;
        assert es[..i + 1][..i] == es[..i];
        var account := accounts[es[i].account];
        account := account.(balance := account.balance + es[i].debit - es[i].credit);
        accounts := accounts[es[i].account := account];
      }
      assert es[..|es|] == es;
    }

    method FindTransaction(tx: Id) returns (r: Option<Transaction>)
      ensures r.None? <==> tx !in TxIds(transactions)
      ensures r.Some? ==> r.value in transactions && r.value.id == tx
    {
      for i := 0 to |transactions|
        invariant forall j :: 0 <= j < i ==> transactions[j].id != tx
      {
        if transactions[i].id == tx {
          return Some(transactions[i]);
        }
      }
      return None;
    }

    /** A used key replays its own transaction or is refused; it never posts. */
    method CreateTransaction(key: string, es: seq<Entry>, tx: Id, now: int) returns (r: Result<Posting>)
      requires Valid() && tx !in TxIds(transactions)
      modifies this
      ensures Valid() && Abs() == Memory.CreateTransaction(old(Abs()), key, es, tx, now)
      ensures key != "" && key in old(keys) && old(keys)[key].checksum != multiset(es) ==> r == Err(KeyConflict)
      ensures key != "" && key in old(keys) && old(keys)[key].checksum == multiset(es) ==>
                && r.Ok? && r.value.existed && r.value.transaction in old(transactions)
                && r.value.transaction.id == old(keys)[key].tx && multiset(r.value.transaction.entries) == multiset(es)
      ensures (key == "" || key !in old(keys)) && PostingRefusal(old(Abs()), es).Some? ==>
                r == Err(PostingRefusal(old(Abs()), es).value)
      ensures (key == "" || key !in old(keys)) && PostingRefusal(old(Abs()), es).None? ==>
                && r.Ok? && !r.value.existed && transactions == old(transactions) + [r.value.transaction]
                && (key != "" ==> key in keys && keys[key] == KeyRow(tx, multiset(es)))
    {
      hide Inv, PostingRefusal;
      CreateTransactionKeeps(Abs(), key, es, tx, now);
      var checksum := multiset(es);
      if key != "" && key in keys {
        if keys[key].checksum != checksum {
          return Err(KeyConflict);
        }
        var found := FindTransaction(keys[key].tx);
        KeyFinds(Abs(), key, found);
        return if found.Some? then Ok(Posting(found.value, true)) else Err(DanglingKey);
      }
      var posted := PostEntries(es, tx, now);
      if posted.Err? {
        return Err(posted.error);
      }
      ordinary := ordinary + {tx};
      if key != "" {
        keys := keys[key := KeyRow(posted.value.id, checksum)];
      }
      return Ok(Posting(posted.value, false));
    }

    method ClearingAccount(ledger: Id, newId: Id) returns (id: Id)
      modifies this`accounts, this`clearing
      ensures Abs() == EnsureClearing(old(Abs()), ledger, newId)
      ensures ledger in clearing && id == clearing[ledger]
      ensures ledger in old(clearing) ==> accounts == old(accounts) && clearing == old(clearing)
      ensures ledger !in old(clearing) ==>
                && accounts == old(accounts)[newId := Account(ledger, "__transfer_clearing__", Asset, 0)]
                && clearing == old(clearing)[ledger := newId]
    {
      if ledger in clearing {
        return clearing[ledger];
      }
      accounts := accounts[newId := Account(ledger, CLEARING_NAME, Asset, 0)];
      clearing := clearing[ledger := newId];
      return newId;
    }

    /** First use of a key debits the source and queues the credit; a repeat
        answers with the transfer already made. */
    method CreateTransfer(req: TransferRequest, ids: Fresh, now: int) returns (r: Result<Transfer>)
      requires Valid() && Unused(Abs(), ids)
      modifies this
      ensures Valid() && Abs() == Memory.CreateTransfer(old(Abs()), req, ids, now)
      ensures !ValidRequest(req) ==> r == Err(BadRequest)
      ensures ValidRequest(req) && req.key in old(transferKeys) ==>
                && old(transferKeys)[req.key] in old(sagas)
                && var g := old(sagas)[old(transferKeys)[req.key]];
                   r == if SameTransfer(g, req) then Ok(Transfer(old(transferKeys)[req.key], g, true))
                     else Err(KeyConflict)
      ensures ValidRequest(req) && req.key !in old(transferKeys) ==>
                var refusal := TransferRefusal(old(Abs()), req);
                r == if refusal.Some? then Err(refusal.value) else Ok(Transfer(ids.saga, NewSaga(req, ids.tx), false))
      ensures r == Err(BadRequest) <==>
                || req.sourceLedger == NIL || req.sourceAccount == NIL
                || req.destLedger == NIL || req.destAccount == NIL || req.key == "" || req.amount <= 0
      ensures r == Err(KeyConflict) ==>
                && req.key in old(transferKeys) && old(transferKeys)[req.key] in old(sagas)
                && var g := old(sagas)[old(transferKeys)[req.key]];
                   (g.sourceLedger, g.sourceAccount, g.destLedger, g.destAccount, g.amount) !=
                   (req.sourceLedger, req.sourceAccount, req.destLedger, req.destAccount, req.amount)
      ensures r.Ok? ==>
                var g := r.value.saga;
                && (g.sourceLedger, g.sourceAccount, g.destLedger, g.destAccount, g.amount) ==
                   (req.sourceLedger, req.sourceAccount, req.destLedger, req.destAccount, req.amount)
                && (r.value.existed <==> req.key in old(transferKeys))
                && (!r.value.existed ==>
                      g.status == Pending && g.sourceTx == ids.tx && g.destTx.None? && g.compTx.None?)
      ensures r != Err(BadRequest) && req.key !in old(transferKeys) ==> FirstUse(old(accounts), req, r)
    {
      RefusalMeans(Abs(), req);
      hide Inv, PostingRefusal, Post, TransferRefusal;
      CreateTransferKeeps(Abs(), req, ids, now);
      if req.sourceLedger == NIL || req.sourceAccount == NIL || req.destLedger == NIL || req.destAccount == NIL
         || req.key == "" || req.amount <= 0 {
        return Err(BadRequest);
      }
      if req.key in transferKeys {
        KeyNames(Abs(), req.key);
        var g := sagas[transferKeys[req.key]];
        return if SameTransfer(g, req) then Ok(Transfer(transferKeys[req.key], g, true)) else Err(KeyConflict);
      }
      if req.sourceAccount !in accounts || accounts[req.sourceAccount].ledger != req.sourceLedger {
        return Err(WrongSourceLedger);
      }
      if req.destAccount !in accounts || accounts[req.destAccount].ledger != req.destLedger {
        return Err(WrongDestinationLedger);
      }
      if req.sourceLedger == req.destLedger {
        return Err(SameLedger);
      }
      var source := accounts[req.sourceAccount];
      if DisplayedBalanceAfter(source.typ, source.balance, 0, req.amount) < 0 {
        return Err(InsufficientFunds);
      }
      var g := BeginTransfer(req, ids, now);
      return Ok(Transfer(ids.saga, g, false));
    }

    /** The source debit of an accepted request, with its transfer and its event. */
    method BeginTransfer(req: TransferRequest, ids: Fresh, now: int) returns (g: Saga)
      requires Valid() && Unused(Abs(), ids) && ValidRequest(req) && req.key !in transferKeys
      requires TransferRefusal(Abs(), req).None?
      modifies this
      ensures Abs() == Memory.CreateTransfer(old(Abs()), req, ids, now) && g == NewSaga(req, ids.tx)
    {
      hide Inv, PostingRefusal, Post, EnsureClearing, ValidRequest, TransferRefusal, Unused;
      SourceLegAccepted(Abs(), req, ids, now);
      var account := ClearingAccount(req.sourceLedger, ids.clearing);
      var posted := PostEntries([Entry(req.sourceAccount, req.amount, 0), Entry(account, 0, req.amount)], ids.tx, now);
      assert posted.Ok?;
      g := NewSaga(req, posted.value.id);
      sagas := sagas[ids.saga := g];
      transferKeys := transferKeys[req.key := ids.saga];
      outbox := outbox + [Event(ids.saga, DestinationCredit, 0, now, false)];
    }

    /** The handler of one event: post the leg it asks for and set the status. */
    method ProcessEvent(e: Event, verdict: Verdict, ids: Fresh, now: int) returns (error: Option<Verdict>)
      requires e.saga in sagas
      modifies this`accounts, this`transactions, this`clearing, this`sagas
      ensures Handled(Abs(), error) ==
              if e.step == DestinationCredit then HandleDestination(old(Abs()), e.saga, verdict, ids, now)
              else HandleCompensation(old(Abs()), e.saga, ids, now)
    {
      hide PostingRefusal;
      var g := sagas[e.saga];
      match e.step
      case DestinationCredit =>
        if g.destTx.Some? {
          sagas := sagas[e.saga := g.(status := Completed)];
          return None;
        }
        if verdict != Accept {
          return Some(verdict);
        }
        var account := ClearingAccount(g.destLedger, ids.clearing);
        var posted := PostEntries([Entry(g.destAccount, 0, g.amount), Entry(account, g.amount, 0)], ids.tx, now);
        if posted.Err? {
          return Some(PermanentFailure);
        }
        sagas := sagas[e.saga := g.(status := Completed, destTx := Some(posted.value.id))];
        return None;
      case CompensateSource =>
        if g.compTx.Some? {
          sagas := sagas[e.saga := g.(status := Compensated)];
          return None;
        }
        var account := ClearingAccount(g.sourceLedger, ids.clearing);
        var posted := PostEntries([Entry(g.sourceAccount, 0, g.amount), Entry(account, g.amount, 0)], ids.tx, now);
        if posted.Err? {
          return Some(PermanentFailure);
        }
        sagas := sagas[e.saga := g.(status := Compensated, compTx := Some(posted.value.id))];
        return None;
    }

    /** One mutex-held section of the worker loop. */
    method WorkOnce(verdict: Verdict, ids: Fresh, now: int) returns (kind: TurnKind)
      requires Valid() && Unused(Abs(), ids)
      modifies this
      ensures EventsNamed(old(Abs())) && Valid()
      ensures TurnResult(Abs(), kind) == Turn(old(Abs()), verdict, ids, now)
      ensures kind != Stuck
    {
      hide Core, OutboxOk, HandleDestination, HandleCompensation;
      TurnKeeps(Abs(), verdict, ids, now);
      var i := 0;
      while i < |outbox| && (outbox[i].processed || outbox[i].nextAttempt > now)
        invariant 0 <= i <= |outbox|
        invariant forall j :: 0 <= j < i ==> !Due(outbox[j], now)
      {
        i := i + 1;
      }
      assert i == FirstDue(outbox, now);
      if i == |outbox| {
        return Idle;
      }
      var e := outbox[i];
      var error := ProcessEvent(e, verdict, ids, now);
      if error.Some? {
        e := e.(attempts := e.attempts + 1);
        if error.value == TransientFailure && e.attempts < MAX_ATTEMPTS {
          e := e.(nextAttempt := now + Pow2(e.attempts - 1) * 10);
        } else if e.step == DestinationCredit {
          sagas := sagas[e.saga := sagas[e.saga].(status := Failed)];
          e := e.(processed := true);
          outbox := outbox[i := e];
          outbox := outbox + [Event(e.saga, CompensateSource, 0, now, false)];
          return Worked(e.saga);
        } else {
          assert false;
        }
        outbox := outbox[i := e];
        return Worked(e.saga);
      }
      outbox := outbox[i := e.(processed := true)];
      return Worked(e.saga);
    }

    /** Whatever another caller asks of the store. */
    method Perform(a: Action)
      requires Valid() && Enabled(Abs(), a)
      modifies this
      ensures Valid() && Abs() == Step(old(Abs()), a)
    {
      hide Inv, Turn, Memory.CreateTransfer, Memory.CreateTransaction;
      match a
      case OpenAccount(id, ledger, name, typ) => var _ := CreateAccountInLedger(id, ledger, name, typ);
      case PostRequest(key, es, tx, now) => var _ := CreateTransaction(key, es, tx, now);
      case TransferStep(req, ids, now) => var _ := CreateTransfer(req, ids, now);
      case WorkerTurn(verdict, ids, now) => var _ := WorkOnce(verdict, ids, now);
    }

    method PerformAll(actions: seq<Action>, ghost start: State, ghost before: seq<Action>)
      requires Valid() && IsRun(start, before + actions) && IsRun(start, before) && Abs() == After(start, before)
      modifies this
      ensures Valid() && Abs() == After(start, before + actions)
    {
      hide Inv, IsRun, After, Enabled, Step;
      assert before + actions[..0] == before;
      for i := 0 to |actions|
        invariant Valid() && IsRun(start, before + actions[..i]) && Abs() == After(start, before + actions[..i])
      {
        OneMoreStep(start, before, actions, i);
        Perform(actions[i]);
      }
      assert actions[..|actions|] == actions;
    }

    /** The worker loop, with any other calls between its turns: together they are a run
        of the store. It stops at the limit, or at the first turn that finds nothing due,
        and never reports an error. */
    method ProcessOutbox(limit: int, rounds: seq<Round>) returns (processed: nat, ghost turns: nat)
      requires Valid() && |rounds| == Limit(limit) && IsRun(Abs(), Schedule(rounds))
      modifies this
      ensures Valid() && processed <= turns <= if limit <= 0 then 100 else limit
      ensures IsRun(old(Abs()), Schedule(rounds[..turns])) && Abs() == After(old(Abs()), Schedule(rounds[..turns]))
      ensures (processed == turns == if limit <= 0 then 100 else limit) || processed + 1 == turns
      ensures processed < turns ==>
                forall i :: 0 <= i < |outbox| ==> outbox[i].processed || outbox[i].nextAttempt > rounds[processed].now
    {
      hide Inv, Turn, IsRun, After, Schedule;
      ghost var start := Abs();
      processed, turns := 0, 0;
      NoRounds(start, rounds);
      while processed < |rounds|
        invariant processed == turns <= |rounds| && Valid()
        invariant IsRun(start, Schedule(rounds[..turns])) && Abs() == After(start, Schedule(rounds[..turns]))
      {
        var round := rounds[processed];
        ghost var before := Schedule(rounds[..processed]);
        OneMoreRound(start, rounds, processed);
        PerformAll(round.others, start, before);
        TurnEnabled(start, before + round.others, TurnOf(round));
        label turn:
        var kind := WorkOnce(round.verdict, round.ids, round.now);
        turns := turns + 1;
        if kind == Idle {
          IdleMeansNothingDue(old@turn(Abs()), round);
          return;
        }
        processed := processed + 1;
      }
      assert rounds[..|rounds|] == rounds;
    }

    method GetBalance(account: Id) returns (r: Option<int>)
      ensures r.None? <==> account !in accounts
      ensures r.Some? && accounts[account].typ in {Asset, Expense} ==> r.value == accounts[account].balance
      ensures r.Some? && accounts[account].typ in {Liability, Equity, Revenue} ==> r.value == -accounts[account].balance
    {
      if account !in accounts {
        return None;
      }
      var a := accounts[account];
      if a.typ.Liability? || a.typ.Equity? || a.typ.Revenue? {
        return Some(-a.balance);
      }
      return Some(a.balance);
    }

    /** History over any order `sort.Slice` may leave equal timestamps in. The
        running balance is the journal's over the window, and over all time it
        is the stored balance. */
    method GetAccountEntries(account: Id, from: Option<int>, to: Option<int>, sorted: seq<Transaction>)
      returns (entries: seq<Entry>, running: int)
      requires Valid() && multiset(sorted) == multiset(transactions)
      requires forall i, j :: 0 <= i < j < |sorted| ==> sorted[i].time <= sorted[j].time
      ensures entries == HistoryOf(Window(sorted, from, to), account)
      ensures running == JournalNet(Window(sorted, from, to), account)
      ensures from.None? && to.None? && account in accounts ==> running == accounts[account].balance
      ensures forall e :: multiset(entries)[e] == if e.account == account then Occurs(sorted, from, to, e) else 0
    {
      hide Inv, Window, HistoryOf, JournalNet, Occurs;
      WindowSteps(sorted, from, to, account);
      entries, running := [], 0;
      for i := 0 to |sorted|
        invariant entries == HistoryOf(Window(sorted[..i], from, to), account)
        invariant running == JournalNet(Window(sorted[..i], from, to), account)
      {
        var t := sorted[i];
        if (from.Some? && t.time < from.value) || (to.Some? && t.time > to.value) {
          continue;
        }
        var lines, net := AccountLines(t.entries, account);
        entries := entries + lines;
        running := running + net;
      }
      assert sorted[..|sorted|] == sorted;
      forall e ensures multiset(entries)[e] == if e.account == account then Occurs(sorted, from, to, e) else 0 {
        HistoryCount(sorted, from, to, account, e);
      }
      if from.None? && to.None? {
        WholeWindow(sorted);
        JournalNetPermutes(sorted, transactions, account);
        StoredIsJournaled(Abs(), account);
      }
    }

    static method AccountLines(es: seq<Entry>, account: Id) returns (lines: seq<Entry>, net: int)
      ensures lines == LinesOf(es, account) && net == Net(es, account)
    {
      lines, net := [], 0;
      for j := 0 to |es|
        invariant lines == LinesOf(es[..j], account) && net == Net(es[..j], account)
      {
        assert es[..j + 1][..j] == es[..j];
        if es[j].account == account {
          lines := lines + [es[j]];
          net := net + es[j].debit - es[j].credit;
        }
      }
      assert es[..|es|] == es;
    }
  }

  // ------------------------------------------------------------------- helpers

  lemma KeyFinds(s: State, key: string, found: Option<Transaction>)
    requires Inv(s) && key in s.keys
    requires found.None? <==> s.keys[key].tx !in TxIds(s.transactions)
    requires found.Some? ==> found.value in s.transactions && found.value.id == s.keys[key].tx
    ensures found.Some? && multiset(found.value.entries) == s.keys[key].checksum
  {
    hide Books, SagasOk, LegsPartition, TransferKeysOk, OutboxOk;
    assert PostKeysOk(s.keys, s.transactions, s.ordinary);
    JournalUnique(s);
    assert KeyRowOk(s.keys[key], s.transactions, s.ordinary);
    var t :| t in s.transactions && t.id == s.keys[key].tx && multiset(t.entries) == s.keys[key].checksum;
  }

  lemma StoredIsJournaled(s: State, account: Id)
    requires Inv(s)
    ensures account in s.accounts ==> s.accounts[account].balance == JournalNet(s.transactions, account)
  {
  }

  lemma JournalUnique(s: State)
    requires Inv(s)
    ensures UniqueIds(s.transactions)
  {
  }

  lemma KeyNames(s: State, key: string)
    requires Inv(s) && key in s.transferKeys
    ensures s.transferKeys[key] in s.sagas
  {
  }

  lemma SourceLegAccepted(s: State, req: TransferRequest, ids: Fresh, now: int)
    requires Inv(s) && Unused(s, ids) && ValidRequest(req) && TransferRefusal(s, req).None?
    ensures var c := EnsureClearing(s, req.sourceLedger, ids.clearing);
            PostingRefusal(c, SourceLeg(NewSaga(req, ids.tx), c.clearing[req.sourceLedger])).None?
  {
    hide LegsPartition, SagasOk, PostKeysOk, TransferKeysOk, OutboxOk;
    var c := EnsureClearing(s, req.sourceLedger, ids.clearing);
    var leg := SourceLeg(NewSaga(req, ids.tx), c.clearing[req.sourceLedger]);
    LegPosts(s, req.sourceLedger, ids, leg[0], leg[1], now);
  }

  lemma IdleMeansNothingDue(s: State, round: Round)
    requires EventsNamed(s) && Turn(s, round.verdict, round.ids, round.now).kind == Idle
    ensures forall i :: 0 <= i < |s.outbox| ==> !Due(s.outbox[i], round.now)
    ensures Turn(s, round.verdict, round.ids, round.now).state == s
  {
  }

  /** Every beginning of a run is one. */
  lemma {:induction false} RunPrefix(s: State, xs: seq<Action>, ys: seq<Action>)
    requires IsRun(s, xs + ys)
    ensures IsRun(s, xs)
    decreases |ys|
  {
    hide Enabled, Step;
    if ys == [] {
      assert xs + ys == xs;
    } else {
      assert (xs + ys)[..|xs + ys| - 1] == xs + ys[..|ys| - 1];
      RunPrefix(s, xs, ys[..|ys| - 1]);
    }
  }

  lemma TurnEnabled(s: State, xs: seq<Action>, a: Action)
    requires IsRun(s, xs + [a])
    ensures IsRun(s, xs) && Enabled(After(s, xs), a) && After(s, xs + [a]) == Step(After(s, xs), a)
  {
    hide Enabled, Step;
    assert (xs + [a])[..|xs + [a]| - 1] == xs;
  }

  lemma OneMoreStep(s: State, before: seq<Action>, actions: seq<Action>, i: nat)
    requires i < |actions| && IsRun(s, before + actions)
    ensures IsRun(s, before + actions[..i]) && Enabled(After(s, before + actions[..i]), actions[i])
    ensures IsRun(s, before + actions[..i + 1])
    ensures After(s, before + actions[..i + 1]) == Step(After(s, before + actions[..i]), actions[i])
  {
    hide IsRun, After, Enabled, Step;
    assert before + actions == (before + actions[..i + 1]) + actions[i + 1..];
    RunPrefix(s, before + actions[..i + 1], actions[i + 1..]);
    assert before + actions[..i + 1] == (before + actions[..i]) + [actions[i]];
    TurnEnabled(s, before + actions[..i], actions[i]);
  }

  lemma NoRounds(s: State, rounds: seq<Round>)
    ensures IsRun(s, Schedule(rounds[..0])) && After(s, Schedule(rounds[..0])) == s
  {
  }

  /** One more round of the schedule is a longer run. */
  lemma OneMoreRound(s: State, rounds: seq<Round>, n: nat)
    requires n < |rounds| && IsRun(s, Schedule(rounds))
    ensures var before := Schedule(rounds[..n]);
            && Schedule(rounds[..n + 1]) == before + rounds[n].others + [TurnOf(rounds[n])]
            && IsRun(s, before) && IsRun(s, before + rounds[n].others) && IsRun(s, Schedule(rounds[..n + 1]))
  {
    hide IsRun, After, Enabled, Step;
    ScheduleSplits(rounds, n + 1);
    RunPrefix(s, Schedule(rounds[..n + 1]), Schedule(rounds)[|Schedule(rounds[..n + 1])|..]);
    assert rounds[..n + 1][..n] == rounds[..n];
    var before, round := Schedule(rounds[..n]), rounds[n];
    RunPrefix(s, before + round.others, [TurnOf(round)]);
    RunPrefix(s, before, round.others);
  }

  lemma {:induction false} ScheduleSplits(rounds: seq<Round>, n: nat)
    requires n <= |rounds|
    ensures Schedule(rounds[..n]) <= Schedule(rounds)
    ensures Schedule(rounds) == Schedule(rounds[..n]) + Schedule(rounds)[|Schedule(rounds[..n])|..]
    decreases |rounds| - n
  {
    if n == |rounds| {
      assert rounds[..n] == rounds;
    } else {
      ScheduleSplits(rounds, n + 1);
      assert rounds[..n + 1][..n] == rounds[..n];
    }
  }
}
