/** The aggregate consumer's database: one inbox shared by all consumer names and
    the two daily tables, written batch by batch. */
module ProjectionStore {
  import opened Domain
  import opened Projection

  datatype BatchError = ConsumerRequired | UnexpectedKind

  /** A row of processed_events. */
  datatype Mark = Mark(consumer: string, event: Id)

  // ------------------------------------------------------------------ processing order

  /** `order` lists every index of a list of that length exactly once. */
  ghost predicate Arranges(order: seq<int>, n: int)
  {
    && |order| == n
    && (forall i :: 0 <= i < n ==> 0 <= order[i] < n)
    && (forall i, j :: 0 <= i < j < n ==> order[i] != order[j])
    && (forall k :: 0 <= k < n ==> k in order)
  }

  function Arranged(events: seq<Event>, order: seq<int>): (r: seq<Event>)
    requires forall i :: 0 <= i < |order| ==> 0 <= order[i] < |events|
    ensures |r| == |order|
    ensures forall i :: 0 <= i < |order| ==> r[i] == events[order[i]]
  {
    seq(|order|, i requires 0 <= i < |order| => events[order[i]])
  }

  ghost predicate ById(es: seq<Event>)
  {
    forall i, j :: 0 <= i < j < |es| ==> es[i].id <= es[j].id
  }

  method InsertIndex(events: seq<Event>, order: seq<int>, n: int) returns (r: seq<int>)
    requires 0 <= n < |events| && Arranges(order, n) && ById(Arranged(events, order))
    ensures Arranges(r, n + 1) && ById(Arranged(events, r))
  {
    var i := 0;
    while i < n && events[order[i]].id <= events[n].id
      invariant 0 <= i <= n
      invariant forall j :: 0 <= j < i ==> events[order[j]].id <= events[n].id
    {
      i := i + 1;
    }
    ghost var was := Arranged(events, order);
    assert i < n ==> forall j :: i <= j < n ==> was[i].id <= was[j].id && was[j] == events[order[j]];
    r := order[..i] + [n] + order[i..];
    InsertArranges(order, i, n);
    InsertById(events, order, i, n);
  }

  lemma InsertArranges(order: seq<int>, i: int, n: int)
    requires Arranges(order, n) && 0 <= i <= n
    ensures Arranges(order[..i] + [n] + order[i..], n + 1)
  {
    var r := order[..i] + [n] + order[i..];
    InsertedAt(order, i, n);
    forall k | 0 <= k < n + 1 ensures k in r {
      InsertCovers(order, i, n, k);
    }
    assert forall j :: 0 <= j < n + 1 ==> 0 <= r[j] < n + 1;
    assert forall j, k :: 0 <= j < k < n + 1 ==> r[j] != r[k];
  }

  lemma InsertedAt(order: seq<int>, i: int, n: int)
    requires |order| == n && 0 <= i <= n
    ensures var r := order[..i] + [n] + order[i..];
            && |r| == n + 1 && r[i] == n
            && (forall j :: 0 <= j < i ==> r[j] == order[j])
            && (forall j :: i < j < n + 1 ==> r[j] == order[j - 1])
  {
  }

  lemma InsertCovers(order: seq<int>, i: int, n: int, k: int)
    requires |order| == n && 0 <= i <= n && (k == n || k in order)
    ensures k in order[..i] + [n] + order[i..]
  {
    var r := order[..i] + [n] + order[i..];
    if k == n {
      assert r[i] == k;
    } else {
      var j :| 0 <= j < n && order[j] == k;
      assert r[if j < i then j else j + 1] == k;
    }
  }

  lemma InsertById(events: seq<Event>, order: seq<int>, i: int, n: int)
    requires 0 <= n < |events| && Arranges(order, n) && ById(Arranged(events, order)) && 0 <= i <= n
    requires forall j :: 0 <= j < i ==> events[order[j]].id <= events[n].id
    requires forall j :: i <= j < n ==> events[n].id <= events[order[j]].id
    requires Arranges(order[..i] + [n] + order[i..], n + 1)
    ensures ById(Arranged(events, order[..i] + [n] + order[i..]))
  {
    var r := order[..i] + [n] + order[i..];
    var was, now := Arranged(events, order), Arranged(events, r);
    assert forall j :: 0 <= j < i ==> now[j] == was[j];
    assert forall j :: i < j <= n ==> now[j] == was[j - 1];
    assert now[i] == events[n];
  }

  /** The batch is worked through in ascending event id. */
  method OrderById(events: seq<Event>) returns (order: seq<int>)
    ensures Arranges(order, |events|) && ById(Arranged(events, order))
  {
    order := [];
    for n := 0 to |events|
      invariant Arranges(order, n) && ById(Arranged(events, order))
    {
      order := InsertIndex(events, order, n);
    }
  }

  // -------------------------------------------------------------------------- deltas

  /** The table after every accumulated delta has been added to it. */
  function Merge(base: Table, deltas: Table): Table
  {
    map k | k in base.Keys + deltas.Keys ::
      Totals(Get(base, k).debit + Get(deltas, k).debit, Get(base, k).credit + Get(deltas, k).credit)
  }

  /** Accumulating first and writing once is the same as writing each time. */
  lemma MergeAdd(base: Table, deltas: Table, k: Key, debit: int, credit: int)
    ensures Merge(base, Add(deltas, k, debit, credit)) == Add(Merge(base, deltas), k, debit, credit)
  {
    var l, r := Merge(base, Add(deltas, k, debit, credit)), Add(Merge(base, deltas), k, debit, credit);
    assert l.Keys == base.Keys + deltas.Keys + {k} == r.Keys;
    forall j | j in l.Keys ensures l[j] == r[j] {
      MergeAt(base, deltas, j);
      MergeAt(base, Add(deltas, k, debit, credit), j);
    }
  }

  lemma MergeAt(base: Table, deltas: Table, k: Key)
    ensures k in Merge(base, deltas) <==> k in base || k in deltas
    ensures Get(Merge(base, deltas), k) ==
            Totals(Get(base, k).debit + Get(deltas, k).debit, Get(base, k).credit + Get(deltas, k).credit)
  {
  }

  lemma {:induction false} MergeAddEntries(base: Table, deltas: Table, day: int, es: seq<Entry>)
    ensures Merge(base, AddEntries(deltas, day, es)) == AddEntries(Merge(base, deltas), day, es)
    decreases |es|
  {
    if es != [] {
      var last := es[|es| - 1];
      MergeAddEntries(base, deltas, day, es[..|es| - 1]);
      MergeAdd(base, AddEntries(deltas, day, es[..|es| - 1]), Key(last.account, day), last.debit, last.credit);
    }
  }

  method AccumulateEntries(deltas: Table, day: int, es: seq<Entry>) returns (r: Table, debit: int, credit: int)
    ensures r == AddEntries(deltas, day, es)
    ensures debit == Debits(es) && credit == Credits(es)
  {
    r, debit, credit := deltas, 0, 0;
    for i := 0 to |es|
      invariant r == AddEntries(deltas, day, es[..i])
      invariant debit == Debits(es[..i]) && credit == Credits(es[..i])
    {
      assert es[..i + 1][..i] == es[..i];
      r := Add(r, Key(es[i].account, day), es[i].debit, es[i].credit);
      debit := debit + es[i].debit;
      credit := credit + es[i].credit;
    }
    assert es[..|es|] == es;
  }

  lemma MergeNothing(t: Table)
    ensures Merge(t, map[]) == t
  {
    assert Merge(t, map[]).Keys == t.Keys;
  }

  /** One upsert per delta key, in any order of the keys. */
  method UpsertDeltas(table: Table, deltas: Table) returns (r: Table)
    ensures r == Merge(table, deltas)
  {
    hide Merge;
    r := table;
    var left := deltas.Keys;
    ghost var done: Table := map[];
    MergeNothing(table);
    while left != {}
      invariant left <= deltas.Keys && done.Keys == deltas.Keys - left
      invariant forall k :: k in done ==> done[k] == deltas[k]
      invariant r == Merge(table, done)
      decreases |left|
    {
      var k :| k in left;
      left := left - {k};
      MergeAdd(table, done, k, deltas[k].debit, deltas[k].credit);
      r := Add(r, k, deltas[k].debit, deltas[k].credit);
      done := Add(done, k, deltas[k].debit, deltas[k].credit);
    }
    assert done == deltas;
  }

  // ------------------------------------------------------------------- first occurrences

  /** The i-th event of the list is the one that gets applied: its id is in no
      inbox row and on no earlier event of the list. */
  ghost predicate Applies(seen: set<Id>, es: seq<Event>, i: int)
    requires 0 <= i < |es|
  {
    es[i].id !in seen && es[i].id !in Ids(es[..i])
  }

  function Count(flags: seq<bool>): nat
  {
    if flags == [] then 0 else Count(flags[..|flags| - 1]) + if flags[|flags| - 1] then 1 else 0
  }

  lemma {:induction false} CountNone(flags: seq<bool>)
    requires forall i :: 0 <= i < |flags| ==> !flags[i]
    ensures Count(flags) == 0
    decreases |flags|
  {
    if flags != [] {
      CountNone(flags[..|flags| - 1]);
    }
  }

  lemma {:induction false} CountSet(flags: seq<bool>, i: int)
    requires 0 <= i < |flags| && !flags[i]
    ensures Count(flags[i := true]) == Count(flags) + 1
    decreases |flags|
  {
    var n := |flags| - 1;
    if i == n {
      assert flags[i := true][..n] == flags[..n];
    } else {
      CountSet(flags[..n], i);
      assert flags[i := true][..n] == flags[..n][i := true];
    }
  }

  lemma IdsSnoc(es: seq<Event>, i: int)
    requires 0 <= i < |es|
    ensures Ids(es[..i + 1]) == Ids(es[..i]) + {es[i].id}
  {
    assert es[..i + 1] == es[..i] + [es[i]];
  }

  /** One more event through the accumulated deltas. */
  lemma AccumulateStep(p: Proj, es: seq<Event>, i: int, accountDeltas: Table, ledgerDeltas: Table)
    requires 0 <= i < |es| && Applies(p.inbox, es, i)
    requires ApplyAll(p, es[..i]) ==
             Proj(p.inbox + Ids(es[..i]), Merge(p.accounts, accountDeltas), Merge(p.ledgers, ledgerDeltas))
    ensures ApplyAll(p, es[..i + 1]) ==
            Proj(p.inbox + Ids(es[..i + 1]),
                 Merge(p.accounts, AddEntries(accountDeltas, es[i].day, es[i].entries)),
                 Merge(p.ledgers, Add(ledgerDeltas, Key(es[i].ledger, es[i].day),
                                      Debits(es[i].entries), Credits(es[i].entries))))
  {
    hide Merge, AddEntries, Add;
    assert es[..i + 1][..i] == es[..i];
    IdsSnoc(es, i);
    MergeAddEntries(p.accounts, accountDeltas, es[i].day, es[i].entries);
    MergeAdd(p.ledgers, ledgerDeltas, Key(es[i].ledger, es[i].day), Debits(es[i].entries), Credits(es[i].entries));
  }

  lemma SkipStep(p: Proj, es: seq<Event>, i: int)
    requires 0 <= i < |es| && !Applies(p.inbox, es, i)
    ensures ApplyAll(p, es[..i + 1]) == ApplyAll(p, es[..i])
    ensures p.inbox + Ids(es[..i + 1]) == p.inbox + Ids(es[..i])
  {
    assert es[..i + 1][..i] == es[..i];
    IdsSnoc(es, i);
    InboxIs(p, es[..i]);
  }

  function MarksOf(inbox: set<Mark>, consumer: string): set<Id>
  {
    set m | m in inbox && m.consumer == consumer :: m.event
  }

  function Others(inbox: set<Mark>, consumer: string): set<Mark>
  {
    set m | m in inbox && m.consumer != consumer
  }

  lemma InsertMark(inbox: set<Mark>, m: Mark)
    ensures MarksOf(inbox + {m}, m.consumer) == MarksOf(inbox, m.consumer) + {m.event}
    ensures Others(inbox + {m}, m.consumer) == Others(inbox, m.consumer)
    ensures m in inbox <==> m.event in MarksOf(inbox, m.consumer)
  {
  }

  /** The multi-row insert: conflicting rows are skipped, the new ids returned. */
  method InsertMarks(inbox: set<Mark>, consumer: string, es: seq<Event>) returns (r: set<Mark>, added: set<Id>)
    ensures MarksOf(r, consumer) == MarksOf(inbox, consumer) + Ids(es)
    ensures Others(r, consumer) == Others(inbox, consumer)
    ensures added == Ids(es) - MarksOf(inbox, consumer)
    ensures |r| == |inbox| + |added|
  {
    hide MarksOf, Others, Ids;
    r, added := inbox, {};
    NoIds(es);
    for i := 0 to |es|
      invariant MarksOf(r, consumer) == MarksOf(inbox, consumer) + Ids(es[..i])
      invariant Others(r, consumer) == Others(inbox, consumer)
      invariant added == Ids(es[..i]) - MarksOf(inbox, consumer)
      invariant |r| == |inbox| + |added|
    {
      IdsSnoc(es, i);
      var m := Mark(consumer, es[i].id);
      InsertMark(r, m);
      if m !in r {
        r := r + {m};
        added := added + {es[i].id};
      }
    }
    assert es[..|es|] == es;
  }

  lemma NoIds(es: seq<Event>)
    ensures Ids(es[..0]) == {}
  {
  }

  /** The aggregation loop over the ordered batch. `added` are the ids the inbox
      insert returned. */
  method Aggregate(ghost p: Proj, events: seq<Event>, order: seq<int>, added: set<Id>)
    returns (applied: seq<bool>, accountDeltas: Table, ledgerDeltas: Table)
    requires Arranges(order, |events|) && added == Ids(Arranged(events, order)) - p.inbox
    ensures ApplyAll(p, Arranged(events, order)) ==
            Proj(p.inbox + Ids(Arranged(events, order)), Merge(p.accounts, accountDeltas),
                 Merge(p.ledgers, ledgerDeltas))
    ensures |applied| == |events| && Count(applied) == |added|
    ensures forall j :: 0 <= j < |order| ==> (applied[order[j]] <==> Applies(p.inbox, Arranged(events, order), j))
  {
    hide Merge, AddEntries, Add, ApplyAll, ById, Count, Ids, Applies;
    ghost var es := Arranged(events, order);
    applied := seq(|events|, i => false);
    accountDeltas, ledgerDeltas := map[], map[];
    var aggregated: set<Id> := {};
    CountNone(applied);
    MergeNothing(p.accounts);
    MergeNothing(p.ledgers);
    StartsEmpty(p, es);
    for i := 0 to |order|
      invariant aggregated == Ids(es[..i]) - p.inbox
      invariant ApplyAll(p, es[..i]) ==
                Proj(p.inbox + Ids(es[..i]), Merge(p.accounts, accountDeltas), Merge(p.ledgers, ledgerDeltas))
      invariant |applied| == |events| && Count(applied) == |aggregated|
      invariant forall j :: 0 <= j < i ==> (applied[order[j]] <==> Applies(p.inbox, es, j))
      invariant forall j :: i <= j < |order| ==> !applied[order[j]]
    {
      var e := events[order[i]];
      IdsSnoc(es, i);
      AppliesIs(p.inbox, es, i);
      if e.id !in added || e.id in aggregated {
        SkipStep(p, es, i);
      } else {
        AccumulateStep(p, es, i, accountDeltas, ledgerDeltas);
        CountSet(applied, order[i]);
        aggregated := aggregated + {e.id};
        applied := applied[order[i] := true];
        var debit, credit;
        accountDeltas, debit, credit := AccumulateEntries(accountDeltas, e.day, e.entries);
        ledgerDeltas := Add(ledgerDeltas, Key(e.ledger, e.day), debit, credit);
      }
    }
    assert es[..|order|] == es;
  }

  lemma AppliesIs(seen: set<Id>, es: seq<Event>, i: int)
    requires 0 <= i < |es|
    ensures Applies(seen, es, i) <==> es[i].id in Ids(es) - seen && es[i].id !in Ids(es[..i]) - seen
  {
    assert es[i] in es;
  }

  lemma StartsEmpty(p: Proj, es: seq<Event>)
    ensures ApplyAll(p, es[..0]) == p && Ids(es[..0]) == {}
  {
  }

  class AggregateStore {
    var inbox: set<Mark>
    var accounts: Table
    var ledgers: Table

    /** What one consumer's deliveries see. */
    function View(consumer: string): Proj
      reads this
    {
      Proj(MarksOf(inbox, consumer), accounts, ledgers)
    }

    constructor ()
      ensures inbox == {} && accounts == map[] && ledgers == map[]
    {
      inbox, accounts, ledgers := {}, map[], map[];
    }

    /** A refused batch changes nothing. An accepted one leaves the consumer's view
        as if its events had been applied one at a time in ascending id order,
        each skipped if already seen; the true flags mark exactly the events that
        were not skipped, and there is one for every inbox row added. */
    method ApplyTransactionPostedBatch(consumer: string, events: seq<Event>)
      returns (error: Option<BatchError>, applied: seq<bool>, ghost order: seq<int>)
      modifies this
      ensures error == Some(ConsumerRequired) <==> consumer == ""
      ensures error == Some(UnexpectedKind) <==> consumer != "" && exists e :: e in events && e.kind != POSTED
      ensures error.Some? ==>
                && applied == [] && order == []
                && inbox == old(inbox) && accounts == old(accounts) && ledgers == old(ledgers)
      ensures error.None? ==>
                && Arranges(order, |events|) && ById(Arranged(events, order))
                && View(consumer) == ApplyAll(old(View(consumer)), Arranged(events, order))
                && Others(inbox, consumer) == Others(old(inbox), consumer)
                && |applied| == |events|
                && |inbox| == |old(inbox)| + Count(applied)
                && forall j :: 0 <= j < |events| ==>
                     (applied[order[j]] <==> Applies(old(View(consumer)).inbox, Arranged(events, order), j))
    {
      hide ApplyAll, Merge, Count, ById, MarksOf, Others, Ids;
      order := [];
      if consumer == "" {
        return Some(ConsumerRequired), [], [];
      }
      for i := 0 to |events|
        invariant forall j :: 0 <= j < i ==> events[j].kind == POSTED
        invariant inbox == old(inbox) && accounts == old(accounts) && ledgers == old(ledgers)
      {
        if events[i].kind != POSTED {
          assert events[i] in events;
          return Some(UnexpectedKind), [], [];
        }
      }
      var sorted := OrderById(events);
      order := sorted;
      ghost var p := View(consumer);
      var added;
      inbox, added := InsertMarks(inbox, consumer, Arranged(events, sorted));
      var accountDeltas, ledgerDeltas;
      applied, accountDeltas, ledgerDeltas := Aggregate(p, events, sorted, added);
      accounts := UpsertDeltas(accounts, accountDeltas);
      ledgers := UpsertDeltas(ledgers, ledgerDeltas);
      error := None;
    }
  }

  /** What the flags say about a batch: every flag is a new event, no id is flagged
      twice, and every new id is flagged somewhere. */
  lemma FlagsAreNewEvents(seen: set<Id>, events: seq<Event>, order: seq<int>, applied: seq<bool>)
    requires Arranges(order, |events|) && |applied| == |events|
    requires forall j :: 0 <= j < |events| ==> (applied[order[j]] <==> Applies(seen, Arranged(events, order), j))
    ensures forall i :: 0 <= i < |events| && applied[i] ==> events[i].id !in seen
    ensures forall i, k :: 0 <= i < k < |events| && applied[i] && applied[k] ==> events[i].id != events[k].id
    ensures forall e :: e in events && e.id !in seen ==>
              exists i :: 0 <= i < |events| && applied[i] && events[i].id == e.id
  {
    var es := Arranged(events, order);
    forall i | 0 <= i < |events| && applied[i] ensures events[i].id !in seen {
      assert i in order;
      var j :| 0 <= j < |order| && order[j] == i;
    }
    forall i, k | 0 <= i < k < |events| && applied[i] && applied[k] ensures events[i].id != events[k].id {
      assert i in order && k in order;
      var a :| 0 <= a < |order| && order[a] == i;
      var b :| 0 <= b < |order| && order[b] == k;
      assert a < b ==> es[a] in es[..b];
      assert b < a ==> es[b] in es[..a];
    }
    forall e | e in events && e.id !in seen
      ensures exists i :: 0 <= i < |events| && applied[i] && events[i].id == e.id
    {
      var i :| 0 <= i < |events| && events[i] == e;
      assert i in order;
      var j :| 0 <= j < |order| && order[j] == i;
      var f := FirstWith(es, e.id, j);
      assert Applies(seen, es, f);
      assert applied[order[f]];
    }
  }

  lemma FirstWith(es: seq<Event>, id: Id, j: int) returns (f: int)
    requires 0 <= j < |es| && es[j].id == id
    ensures 0 <= f <= j && es[f].id == id && id !in Ids(es[..f])
    decreases j
  {
    if i :| 0 <= i < j && es[i].id == id {
      f := FirstWith(es, id, i);
    } else {
      f := j;
    }
  }
}
