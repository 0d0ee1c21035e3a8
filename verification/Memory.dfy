/** The in-memory ledger as a state machine: every mutex-held section of the
    store is one step on `State`. */
module Memory {
  import opened Domain

  datatype Status = Pending | Completed | Failed | Compensated

  datatype StepKind = DestinationCredit | CompensateSource

  datatype TransferRequest = TransferRequest(
    sourceLedger: Id, sourceAccount: Id, destLedger: Id, destAccount: Id, amount: int, key: string)

  /** The destination and compensation legs are absent until they are posted. */
  datatype Saga = Saga(
    sourceLedger: Id, sourceAccount: Id, destLedger: Id, destAccount: Id, amount: int,
    status: Status, sourceTx: Id, destTx: Option<Id>, compTx: Option<Id>)

  datatype Event = Event(saga: Id, step: StepKind, attempts: nat, nextAttempt: int, processed: bool)

  /** A stored request digest. The SHA-256 of the canonical request identifies
      the entries up to order (module Canonical), so the bag of entries is used. */
  datatype KeyRow = KeyRow(tx: Id, checksum: multiset<Entry>)

  /** `ordinary` is a history variable: the ids of transactions posted by
      callers, as opposed to transfer legs. No step reads it. */
  datatype State = State(
    accounts: Accounts,
    transactions: seq<Transaction>,
    keys: map<string, KeyRow>,
    sagas: map<Id, Saga>,
    transferKeys: map<string, Id>,
    outbox: seq<Event>,
    clearing: map<Id, Id>,
    ordinary: set<Id>)

  const EMPTY := State(map[], [], map[], map[], map[], [], map[], {})

  datatype Refusal = Invalid | UnknownAccount | CrossLedger | BadRequest | KeyConflict | WrongSourceLedger
                   | WrongDestinationLedger | SameLedger | InsufficientFunds | DanglingKey

  // ---------------------------------------------------------------- postings

  /** What the store answers to one posting request. */
  function PostingRefusal(s: State, es: seq<Entry>): Option<Refusal>
  {
    if !Balanced(es) then Some(Invalid)
    else if !Known(s.accounts, es) then Some(UnknownAccount)
    else if !InLedger(s.accounts, es, s.accounts[es[0].account].ledger) then Some(CrossLedger)
    else None
  }

  /** Append one transaction; a refused posting leaves the state alone. */
  function Post(s: State, es: seq<Entry>, tx: Id, now: int): (r: State)
    ensures r == s.(accounts := r.accounts, transactions := r.transactions)
  {
    if PostingRefusal(s, es).Some? then s else
      s.(accounts := ApplyEntries(s.accounts, es),
         transactions := s.transactions + [Transaction(tx, s.accounts[es[0].account].ledger, es, now)])
  }

  function CreateTransaction(s: State, key: string, es: seq<Entry>, tx: Id, now: int): State
  {
    if (key != "" && key in s.keys) || PostingRefusal(s, es).Some? then s else
      var posted := Post(s, es, tx, now).(ordinary := s.ordinary + {tx});
      if key == "" then posted else posted.(keys := s.keys[key := KeyRow(tx, multiset(es))])
  }

  // --------------------------------------------------------------- transfers

  function EnsureClearing(s: State, ledger: Id, newId: Id): (r: State)
    ensures ledger in r.clearing && r == s.(accounts := r.accounts, clearing := r.clearing)
  {
    if ledger in s.clearing then s else
      s.(accounts := s.accounts[newId := Account(ledger, CLEARING_NAME, Asset, 0)],
         clearing := s.clearing[ledger := newId])
  }

  predicate ValidRequest(req: TransferRequest)
  {
    && req.sourceLedger != NIL && req.sourceAccount != NIL && req.destLedger != NIL && req.destAccount != NIL
    && req.key != ""
    && req.amount > 0
  }

  predicate SameTransfer(g: Saga, req: TransferRequest)
  {
    && g.sourceLedger == req.sourceLedger && g.sourceAccount == req.sourceAccount
    && g.destLedger == req.destLedger && g.destAccount == req.destAccount && g.amount == req.amount
  }

  /** Why a first use of a transfer key is turned away. */
  function TransferRefusal(s: State, req: TransferRequest): Option<Refusal>
  {
    if !(req.sourceAccount in s.accounts && s.accounts[req.sourceAccount].ledger == req.sourceLedger) then
      Some(WrongSourceLedger)
    else if !(req.destAccount in s.accounts && s.accounts[req.destAccount].ledger == req.destLedger) then
      Some(WrongDestinationLedger)
    else if req.sourceLedger == req.destLedger then Some(SameLedger)
    else if DisplayedBalanceAfter(s.accounts[req.sourceAccount].typ, s.accounts[req.sourceAccount].balance,
                                  0, req.amount) < 0 then Some(InsufficientFunds)
    else None
  }

  /** What each refusal says about the two accounts: the source and the destination must
      lie in their own, different ledgers, and the source must have the funds. A
      debit-normal account is short when it holds less than the amount, a credit-normal
      one when its stored balance exceeds it. */
  lemma RefusalMeans(s: State, req: TransferRequest)
    ensures var refusal := TransferRefusal(s, req);
            if req.sourceAccount !in s.accounts || s.accounts[req.sourceAccount].ledger != req.sourceLedger then
              refusal == Some(WrongSourceLedger)
            else if req.destAccount !in s.accounts || s.accounts[req.destAccount].ledger != req.destLedger then
              refusal == Some(WrongDestinationLedger)
            else if req.sourceLedger == req.destLedger then
              refusal == Some(SameLedger)
            else
              var a := s.accounts[req.sourceAccount];
              && (refusal.None? || refusal == Some(InsufficientFunds))
              && (a.typ in {Asset, Expense} ==> (refusal == Some(InsufficientFunds) <==> a.balance < req.amount))
              && (a.typ in {Liability, Equity, Revenue} ==>
                    (refusal == Some(InsufficientFunds) <==> a.balance > req.amount))
  {
  }

  function SourceLeg(g: Saga, clearing: Id): seq<Entry>
  {
    [Entry(g.sourceAccount, g.amount, 0), Entry(clearing, 0, g.amount)]
  }

  function DestinationLeg(g: Saga, clearing: Id): seq<Entry>
  {
    [Entry(g.destAccount, 0, g.amount), Entry(clearing, g.amount, 0)]
  }

  function CompensationLeg(g: Saga, clearing: Id): seq<Entry>
  {
    [Entry(g.sourceAccount, 0, g.amount), Entry(clearing, g.amount, 0)]
  }

  /** The identifiers one step may need; `uuid.New` yields unused ones. */
  datatype Fresh = Fresh(clearing: Id, tx: Id, saga: Id)

  function NewSaga(req: TransferRequest, tx: Id): Saga
  {
    Saga(req.sourceLedger, req.sourceAccount, req.destLedger, req.destAccount, req.amount, Pending, tx, None, None)
  }

  /** Debit the source into clearing and queue the destination credit. */
  function CreateTransfer(s: State, req: TransferRequest, ids: Fresh, now: int): State
  {
    if !ValidRequest(req) || req.key in s.transferKeys || TransferRefusal(s, req).Some? then s else
      var c := EnsureClearing(s, req.sourceLedger, ids.clearing);
      var g := NewSaga(req, ids.tx);
      var leg := SourceLeg(g, c.clearing[req.sourceLedger]);
      if PostingRefusal(c, leg).Some? then c else
        Post(c, leg, ids.tx, now).(
          sagas := s.sagas[ids.saga := g],
          transferKeys := s.transferKeys[req.key := ids.saga],
          outbox := s.outbox + [Event(ids.saga, DestinationCredit, 0, now, false)])
  }

  // ------------------------------------------------------------ outbox worker

  /** What the `DestinationFailure` hook answers: any of these, any time. */
  datatype Verdict = Accept | TransientFailure | PermanentFailure

  predicate Due(e: Event, now: int)
  {
    !e.processed && e.nextAttempt <= now
  }

  /** The first due event, or `|outbox|`. */
  function FirstDue(outbox: seq<Event>, now: int): (i: nat)
    ensures i <= |outbox|
    ensures i < |outbox| ==> Due(outbox[i], now)
    ensures forall j :: 0 <= j < i ==> !Due(outbox[j], now)
  {
    if outbox == [] || Due(outbox[0], now) then 0 else
      var i := FirstDue(outbox[1..], now) + 1;
      assert forall j :: 0 < j < i ==> outbox[j] == outbox[1..][j - 1];
      i
  }

  /** The result of one event: the store as the handler left it, and its error. */
  datatype Handled = Handled(state: State, error: Option<Verdict>)

  function HandleDestination(s: State, id: Id, verdict: Verdict, ids: Fresh, now: int): (h: Handled)
    requires id in s.sagas
    ensures h.state.outbox == s.outbox && h.state.sagas.Keys == s.sagas.Keys
  {
    hide Post, EnsureClearing, PostingRefusal;
    var g := s.sagas[id];
    if g.destTx.Some? then Handled(s.(sagas := s.sagas[id := g.(status := Completed)]), None)
    else if verdict != Accept then Handled(s, Some(verdict))
    else
      var c := EnsureClearing(s, g.destLedger, ids.clearing);
      var leg := DestinationLeg(g, c.clearing[g.destLedger]);
      if PostingRefusal(c, leg).Some? then Handled(c, Some(PermanentFailure)) else
        Handled(Post(c, leg, ids.tx, now).(
                  sagas := s.sagas[id := g.(status := Completed, destTx := Some(ids.tx))]), None)
  }

  function HandleCompensation(s: State, id: Id, ids: Fresh, now: int): (h: Handled)
    requires id in s.sagas
    ensures h.state.outbox == s.outbox && h.state.sagas.Keys == s.sagas.Keys
  {
    hide Post, EnsureClearing, PostingRefusal;
    var g := s.sagas[id];
    if g.compTx.Some? then Handled(s.(sagas := s.sagas[id := g.(status := Compensated)]), None)
    else
      var c := EnsureClearing(s, g.sourceLedger, ids.clearing);
      var leg := CompensationLeg(g, c.clearing[g.sourceLedger]);
      if PostingRefusal(c, leg).Some? then Handled(c, Some(PermanentFailure)) else
        Handled(Post(c, leg, ids.tx, now).(
                  sagas := s.sagas[id := g.(status := Compensated, compTx := Some(ids.tx))]), None)
  }

  const MAX_ATTEMPTS := 5

  function RetryAt(now: int, attempts: nat): int
    requires attempts > 0
  {
    now + Pow2(attempts - 1) * 10
  }

  /** The waits before the second to the fifth attempt, in milliseconds. */
  lemma RetryTimes(now: int)
    ensures RetryAt(now, 1) == now + 10 && RetryAt(now, 2) == now + 20
    ensures RetryAt(now, 3) == now + 40 && RetryAt(now, 4) == now + 80
  {
    assert Pow2(0) == 1 && Pow2(1) == 2 && Pow2(2) == 4 && Pow2(3) == 8;
  }

  datatype TurnKind = Idle | Worked(saga: Id) | Stuck

  datatype TurnResult = TurnResult(state: State, kind: TurnKind)

  /** Book an event's outcome: done, retried later, turned into a refund, or
      left open with the error returned to the caller. */
  function Settle(h: Handled, i: nat, now: int): TurnResult
    requires i < |h.state.outbox| && h.state.outbox[i].saga in h.state.sagas
  {
    var s, e := h.state, h.state.outbox[i];
    if h.error.None? then
      TurnResult(s.(outbox := s.outbox[i := e.(processed := true)]), Worked(e.saga))
    else
      var tried := e.attempts + 1;
      if h.error.value == TransientFailure && tried < MAX_ATTEMPTS then
        TurnResult(s.(outbox := s.outbox[i := e.(attempts := tried, nextAttempt := RetryAt(now, tried))]),
                   Worked(e.saga))
      else if e.step == DestinationCredit then
        TurnResult(s.(sagas := s.sagas[e.saga := s.sagas[e.saga].(status := Failed)],
                      outbox := s.outbox[i := e.(attempts := tried, processed := true)]
                      + [Event(e.saga, CompensateSource, 0, now, false)]),
                   Worked(e.saga))
      else
        TurnResult(s.(outbox := s.outbox[i := e.(attempts := tried)]), Stuck)
  }

  ghost predicate EventsNamed(s: State)
  {
    forall i :: 0 <= i < |s.outbox| ==> s.outbox[i].saga in s.sagas
  }

  /** One turn of the outbox worker: the first due event, if there is one. */
  function Turn(s: State, verdict: Verdict, ids: Fresh, now: int): TurnResult
    requires EventsNamed(s)
  {
    hide HandleDestination, HandleCompensation;
    var i := FirstDue(s.outbox, now);
    if i == |s.outbox| then TurnResult(s, Idle) else
      var e := s.outbox[i];
      Settle(if e.step == DestinationCredit then HandleDestination(s, e.saga, verdict, ids, now)
             else HandleCompensation(s, e.saga, ids, now), i, now)
  }

  /** The credit is due and the destination turns it down. Up to the fourth time it is
      tried again after a wait that doubles from ten milliseconds; a permanent failure, or
      the fifth, fails the transfer and queues its refund at once. No money moves. */
  lemma RefusedTurn(s: State, verdict: Verdict, ids: Fresh, now: int, i: nat)
    requires EventsNamed(s) && i < |s.outbox| && !s.outbox[i].processed && s.outbox[i].nextAttempt <= now
    requires forall j :: 0 <= j < i ==> s.outbox[j].processed || s.outbox[j].nextAttempt > now
    requires s.outbox[i].step == DestinationCredit && s.sagas[s.outbox[i].saga].destTx.None? && verdict != Accept
    ensures var e, r := s.outbox[i], Turn(s, verdict, ids, now);
            r.kind == Worked(e.saga) && r.state ==
            if verdict == TransientFailure && e.attempts < 4 then
              s.(outbox := s.outbox[i := Event(e.saga, DestinationCredit, e.attempts + 1,
                                               now + [10, 20, 40, 80][e.attempts], false)])
            else
              s.(sagas := s.sagas[e.saga := s.sagas[e.saga].(status := Failed)],
                 outbox := s.outbox[i := Event(e.saga, DestinationCredit, e.attempts + 1, e.nextAttempt, true)]
                           + [Event(e.saga, CompensateSource, 0, now, false)])
  {
    RetryTimes(now);
    assert FirstDue(s.outbox, now) == i;
  }

  // -------------------------------------------------------------------- runs

  datatype Action =
    | OpenAccount(id: Id, ledger: Id, name: string, typ: AccountType)
    | PostRequest(key: string, entries: seq<Entry>, tx: Id, now: int)
    | TransferStep(req: TransferRequest, ids: Fresh, now: int)
    | WorkerTurn(verdict: Verdict, ids: Fresh, now: int)

  /** `uuid.New` never repeats an identifier already in use. */
  ghost predicate Unused(s: State, ids: Fresh)
  {
    ids.clearing !in s.accounts && ids.tx !in TxIds(s.transactions) && ids.saga !in s.sagas
  }

  ghost predicate Enabled(s: State, a: Action)
  {
    match a
    case OpenAccount(id, _, _, _) => id !in s.accounts
    case PostRequest(_, _, tx, _) => tx !in TxIds(s.transactions)
    case TransferStep(_, ids, _) => Unused(s, ids)
    case WorkerTurn(_, ids, _) => Unused(s, ids) && EventsNamed(s)
  }

  ghost function Step(s: State, a: Action): State
    requires Enabled(s, a)
  {
    match a
    case OpenAccount(id, ledger, name, typ) =>
      if name == "" then s else s.(accounts := s.accounts[id := Account(ledger, name, typ, 0)])
    case PostRequest(key, es, tx, now) => CreateTransaction(s, key, es, tx, now)
    case TransferStep(req, ids, now) => CreateTransfer(s, req, ids, now)
    case WorkerTurn(verdict, ids, now) => Turn(s, verdict, ids, now).state
  }

  /** Any interleaving of steps from `s`, with any clock and any verdicts. */
  ghost predicate IsRun(s: State, run: seq<Action>)
    decreases |run|, 0
  {
    run == [] || (IsRun(s, run[..|run| - 1]) && Enabled(After(s, run[..|run| - 1]), run[|run| - 1]))
  }

  ghost function After(s: State, run: seq<Action>): State
    requires IsRun(s, run)
    decreases |run|, 1
  {
    if run == [] then s else Step(After(s, run[..|run| - 1]), run[|run| - 1])
  }
}
