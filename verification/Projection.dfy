/** The daily aggregates: what applying one event means, and why batching, order
    and repetition of deliveries cannot change the totals. */
module Projection {
  import opened Domain
  import opened Sums

  datatype Totals = Totals(debit: int, credit: int)

  /** An account or ledger on one UTC day. */
  datatype Key = Key(id: Id, day: int)

  type Table = map<Key, Totals>

  const POSTED := "transaction_posted"

  datatype Event = Event(id: Id, kind: string, tx: Id, ledger: Id, day: int, entries: seq<Entry>)

  /** One consumer's inbox and the two aggregate tables. */
  datatype Proj = Proj(inbox: set<Id>, accounts: Table, ledgers: Table)

  const NOTHING := Proj({}, map[], map[])

  function Get(t: Table, k: Key): Totals
  {
    if k in t then t[k] else Totals(0, 0)
  }

  /** INSERT ... ON CONFLICT DO UPDATE adding to the row. */
  function Add(t: Table, k: Key, debit: int, credit: int): Table
  {
    t[k := Totals(Get(t, k).debit + debit, Get(t, k).credit + credit)]
  }

  function AddEntries(t: Table, day: int, es: seq<Entry>): Table
  {
    if es == [] then t else
      var last := es[|es| - 1];
      Add(AddEntries(t, day, es[..|es| - 1]), Key(last.account, day), last.debit, last.credit)
  }

  /** Apply one event: nothing if its inbox row exists, else once. */
  function ApplyOne(p: Proj, e: Event): Proj
  {
    if e.id in p.inbox then p else
      Proj(p.inbox + {e.id},
           AddEntries(p.accounts, e.day, e.entries),
           Add(p.ledgers, Key(e.ledger, e.day), Debits(e.entries), Credits(e.entries)))
  }

  function ApplyAll(p: Proj, es: seq<Event>): Proj
  {
    if es == [] then p else ApplyOne(ApplyAll(p, es[..|es| - 1]), es[|es| - 1])
  }

  function Ids(es: seq<Event>): set<Id>
  {
    set e | e in es :: e.id
  }

  lemma {:induction false} ApplyAllAppend(p: Proj, xs: seq<Event>, ys: seq<Event>)
    ensures ApplyAll(p, xs + ys) == ApplyAll(ApplyAll(p, xs), ys)
    decreases |ys|
  {
    if ys == [] {
      assert xs + ys == xs;
    } else {
      assert (xs + ys)[..|xs + ys| - 1] == xs + ys[..|ys| - 1];
      ApplyAllAppend(p, xs, ys[..|ys| - 1]);
    }
  }

  lemma {:induction false} InboxIs(p: Proj, es: seq<Event>)
    ensures ApplyAll(p, es).inbox == p.inbox + Ids(es)
    decreases |es|
  {
    if es != [] {
      InboxIs(p, es[..|es| - 1]);
      assert forall e :: e in es <==> e in es[..|es| - 1] || e == es[|es| - 1];
    }
  }

  // ------------------------------------------------------------- what totals mean

  type Payloads = map<Id, Event>

  function DebitsOn(es: seq<Entry>, a: Id): int
  {
    if es == [] then 0 else
      var last := es[|es| - 1];
      DebitsOn(es[..|es| - 1], a) + if last.account == a then last.debit else 0
  }

  function CreditsOn(es: seq<Entry>, a: Id): int
  {
    if es == [] then 0 else
      var last := es[|es| - 1];
      CreditsOn(es[..|es| - 1], a) + if last.account == a then last.credit else 0
  }

  /** What one event contributes to an account's day. */
  function AccountPart(e: Event, k: Key): Totals
  {
    if e.day == k.day then Totals(DebitsOn(e.entries, k.id), CreditsOn(e.entries, k.id)) else Totals(0, 0)
  }

  function LedgerPart(e: Event, k: Key): Totals
  {
    if e.day == k.day && e.ledger == k.id then Totals(Debits(e.entries), Credits(e.entries)) else Totals(0, 0)
  }

  ghost predicate TouchesAccount(e: Event, k: Key)
  {
    e.day == k.day && exists x :: x in e.entries && x.account == k.id
  }

  ghost predicate TouchesLedger(e: Event, k: Key)
  {
    e.day == k.day && e.ledger == k.id
  }

  function PartOf(payloads: Payloads, id: Id, k: Key, byLedger: bool): Totals
  {
    if id !in payloads then Totals(0, 0)
    else if byLedger then LedgerPart(payloads[id], k) else AccountPart(payloads[id], k)
  }

  /** The sum over a set of events. */
  ghost function TotalOf(payloads: Payloads, ids: set<Id>, k: Key, byLedger: bool): Totals
  {
    Totals(Sum(ids, id => PartOf(payloads, id, k, byLedger).debit),
           Sum(ids, id => PartOf(payloads, id, k, byLedger).credit))
  }

  ghost predicate Touched(payloads: Payloads, ids: set<Id>, k: Key, byLedger: bool)
  {
    exists id :: id in ids && id in payloads &&
      if byLedger then TouchesLedger(payloads[id], k) else TouchesAccount(payloads[id], k)
  }

  /** The table holds exactly the sums over `ids`, and no other rows. */
  ghost predicate TableExact(payloads: Payloads, ids: set<Id>, t: Table, byLedger: bool)
  {
    forall k :: Get(t, k) == TotalOf(payloads, ids, k, byLedger) && (k in t <==> Touched(payloads, ids, k, byLedger))
  }

  /** Every aggregate is the sum over exactly the events in the inbox. */
  ghost predicate Exact(payloads: Payloads, p: Proj)
  {
    && p.inbox <= payloads.Keys
    && TableExact(payloads, p.inbox, p.accounts, false)
    && TableExact(payloads, p.inbox, p.ledgers, true)
  }

  /** The inbox decides the tables. */
  lemma ExactUnique(payloads: Payloads, p: Proj, q: Proj)
    requires Exact(payloads, p) && Exact(payloads, q) && p.inbox == q.inbox
    ensures p == q
  {
    TablesEqual(payloads, p.inbox, p.accounts, q.accounts, false);
    TablesEqual(payloads, p.inbox, p.ledgers, q.ledgers, true);
  }

  lemma TablesEqual(payloads: Payloads, ids: set<Id>, t: Table, u: Table, byLedger: bool)
    requires TableExact(payloads, ids, t, byLedger) && TableExact(payloads, ids, u, byLedger)
    ensures t == u
  {
    hide TotalOf, Touched;
    forall k ensures k in t <==> k in u {
      assert Get(t, k) == TotalOf(payloads, ids, k, byLedger);
    }
    forall k | k in t ensures t[k] == u[k] {
      assert Get(t, k) == TotalOf(payloads, ids, k, byLedger);
      assert Get(u, k) == TotalOf(payloads, ids, k, byLedger);
    }
  }

  lemma NothingExact(payloads: Payloads)
    ensures Exact(payloads, NOTHING)
  {
  }

  /** New payloads do not disturb what was already applied. */
  lemma ExactGrows(payloads: Payloads, more: Payloads, p: Proj)
    requires Exact(payloads, p)
    requires forall id :: id in payloads ==> id in more && more[id] == payloads[id]
    ensures Exact(more, p)
  {
    TableGrows(payloads, more, p.inbox, p.accounts, false);
    TableGrows(payloads, more, p.inbox, p.ledgers, true);
  }

  lemma TableGrows(payloads: Payloads, more: Payloads, ids: set<Id>, t: Table, byLedger: bool)
    requires TableExact(payloads, ids, t, byLedger) && ids <= payloads.Keys
    requires forall id :: id in payloads ==> id in more && more[id] == payloads[id]
    ensures TableExact(more, ids, t, byLedger)
  {
    forall k ensures Get(t, k) == TotalOf(more, ids, k, byLedger) && (k in t <==> Touched(more, ids, k, byLedger)) {
      SumCong(ids, id => PartOf(payloads, id, k, byLedger).debit, id => PartOf(more, id, k, byLedger).debit);
      SumCong(ids, id => PartOf(payloads, id, k, byLedger).credit, id => PartOf(more, id, k, byLedger).credit);
      assert Get(t, k) == TotalOf(payloads, ids, k, byLedger);
    }
  }

  /** Posting an event's entries adds its part to every row. */
  lemma {:induction false} AddEntriesGet(t: Table, day: int, es: seq<Entry>, k: Key)
    ensures var r := AddEntries(t, day, es);
            && Get(r, k).debit == Get(t, k).debit + (if k.day == day then DebitsOn(es, k.id) else 0)
            && Get(r, k).credit == Get(t, k).credit + (if k.day == day then CreditsOn(es, k.id) else 0)
            && (k in r <==> k in t || (k.day == day && exists x :: x in es && x.account == k.id))
    decreases |es|
  {
    if es != [] {
      AddEntriesGet(t, day, es[..|es| - 1], k);
      assert forall x :: x in es <==> x in es[..|es| - 1] || x == es[|es| - 1];
    }
  }

  lemma TotalAdds(payloads: Payloads, ids: set<Id>, id: Id, k: Key, byLedger: bool)
    requires id !in ids
    ensures TotalOf(payloads, ids + {id}, k, byLedger).debit ==
            TotalOf(payloads, ids, k, byLedger).debit + PartOf(payloads, id, k, byLedger).debit
    ensures TotalOf(payloads, ids + {id}, k, byLedger).credit ==
            TotalOf(payloads, ids, k, byLedger).credit + PartOf(payloads, id, k, byLedger).credit
  {
    SumAdd(ids, i => PartOf(payloads, i, k, byLedger).debit, id);
    SumAdd(ids, i => PartOf(payloads, i, k, byLedger).credit, id);
  }

  lemma TouchedAdds(payloads: Payloads, ids: set<Id>, id: Id, k: Key, byLedger: bool)
    requires id in payloads
    ensures Touched(payloads, ids + {id}, k, byLedger) <==>
            Touched(payloads, ids, k, byLedger)
            || if byLedger then TouchesLedger(payloads[id], k) else TouchesAccount(payloads[id], k)
  {
  }

  lemma ApplyOneExact(payloads: Payloads, p: Proj, e: Event)
    requires Exact(payloads, p) && e.id in payloads && payloads[e.id] == e
    ensures Exact(payloads, ApplyOne(p, e))
  {
    if e.id !in p.inbox {
      AccountsExact(payloads, p, e);
      LedgersExact(payloads, p, e);
    }
  }

  lemma AccountsExact(payloads: Payloads, p: Proj, e: Event)
    requires TableExact(payloads, p.inbox, p.accounts, false) && e.id !in p.inbox
    requires e.id in payloads && payloads[e.id] == e
    ensures TableExact(payloads, p.inbox + {e.id}, AddEntries(p.accounts, e.day, e.entries), false)
  {
    hide TotalOf, Touched, AddEntries;
    forall k ensures var t := AddEntries(p.accounts, e.day, e.entries);
                     && Get(t, k) == TotalOf(payloads, p.inbox + {e.id}, k, false)
                     && (k in t <==> Touched(payloads, p.inbox + {e.id}, k, false))
    {
      assert Get(p.accounts, k) == TotalOf(payloads, p.inbox, k, false);
      AddEntriesGet(p.accounts, e.day, e.entries, k);
      TotalAdds(payloads, p.inbox, e.id, k, false);
      TouchedAdds(payloads, p.inbox, e.id, k, false);
    }
  }

  lemma LedgersExact(payloads: Payloads, p: Proj, e: Event)
    requires TableExact(payloads, p.inbox, p.ledgers, true) && e.id !in p.inbox
    requires e.id in payloads && payloads[e.id] == e
    ensures TableExact(payloads, p.inbox + {e.id},
                       Add(p.ledgers, Key(e.ledger, e.day), Debits(e.entries), Credits(e.entries)), true)
  {
    hide TotalOf, Touched;
    forall k ensures var t := Add(p.ledgers, Key(e.ledger, e.day), Debits(e.entries), Credits(e.entries));
                     && Get(t, k) == TotalOf(payloads, p.inbox + {e.id}, k, true)
                     && (k in t <==> Touched(payloads, p.inbox + {e.id}, k, true))
    {
      assert Get(p.ledgers, k) == TotalOf(payloads, p.inbox, k, true);
      TotalAdds(payloads, p.inbox, e.id, k, true);
      TouchedAdds(payloads, p.inbox, e.id, k, true);
    }
  }

  /** Every event carries the payload fixed for its id. */
  ghost predicate Faithful(payloads: Payloads, es: seq<Event>)
  {
    forall e :: e in es ==> e.id in payloads && payloads[e.id] == e
  }

  lemma {:induction false} ApplyAllExact(payloads: Payloads, p: Proj, es: seq<Event>)
    requires Exact(payloads, p) && Faithful(payloads, es)
    ensures Exact(payloads, ApplyAll(p, es))
    decreases |es|
  {
    hide Exact;
    if es != [] {
      assert es[|es| - 1] in es;
      ApplyAllExact(payloads, p, es[..|es| - 1]);
      ApplyOneExact(payloads, ApplyAll(p, es[..|es| - 1]), es[|es| - 1]);
    }
  }

  /** Any sequence of batches. */
  function Deliver(p: Proj, batches: seq<seq<Event>>): Proj
  {
    if batches == [] then p else ApplyAll(Deliver(p, batches[..|batches| - 1]), batches[|batches| - 1])
  }

  function Flatten(batches: seq<seq<Event>>): seq<Event>
  {
    if batches == [] then [] else Flatten(batches[..|batches| - 1]) + batches[|batches| - 1]
  }

  lemma {:induction false} DeliverFlat(p: Proj, batches: seq<seq<Event>>)
    ensures Deliver(p, batches) == ApplyAll(p, Flatten(batches))
    decreases |batches|
  {
    if batches != [] {
      DeliverFlat(p, batches[..|batches| - 1]);
      ApplyAllAppend(p, Flatten(batches[..|batches| - 1]), batches[|batches| - 1]);
    }
  }

  /** However deliveries are split into batches, ordered and repeated, the same
      set of events gives the same inbox and the same tables, row for row; and
      they are those of applying each distinct event once. */
  lemma DeliveryInvariance(payloads: Payloads, p: Proj, xs: seq<seq<Event>>, ys: seq<seq<Event>>)
    requires Exact(payloads, p) && Faithful(payloads, Flatten(xs)) && Faithful(payloads, Flatten(ys))
    requires Ids(Flatten(xs)) == Ids(Flatten(ys))
    ensures Deliver(p, xs) == Deliver(p, ys)
  {
    hide Exact;
    DeliverFlat(p, xs);
    DeliverFlat(p, ys);
    InboxIs(p, Flatten(xs));
    InboxIs(p, Flatten(ys));
    ApplyAllExact(payloads, p, Flatten(xs));
    ApplyAllExact(payloads, p, Flatten(ys));
    ExactUnique(payloads, Deliver(p, xs), Deliver(p, ys));
  }
}
