/** The publishing routine as it runs: claim a few rows, read them back joined with
    their entries, publish, and record what succeeded and what did not. */
module OutboxStore {
  import opened Domain
  import opened Projection
  import opened Pipeline
  import opened RowOrder

  function Created(outbox: Outbox): map<Id, int>
  {
    map id | id in outbox :: outbox[id].created
  }

  // ------------------------------------------------------------- the hydrating join

  /** One line of the join of outbox row, transaction and entry. */
  datatype Joined = Joined(event: Id, tx: Id, ledger: Id, time: int, entry: Entry)

  /** An outbox row with its transaction. */
  datatype Source = Source(event: Id, tx: Transaction)

  function JoinOne(s: Source, n: nat): (r: seq<Joined>)
    requires n <= |s.tx.entries|
    ensures |r| == n
  {
    seq(n, i requires 0 <= i < |s.tx.entries| => Joined(s.event, s.tx.id, s.tx.ledger, s.tx.time, s.tx.entries[i]))
  }

  function JoinAll(sources: seq<Source>): seq<Joined>
  {
    if sources == [] then [] else
      var last := sources[|sources| - 1];
      JoinAll(sources[..|sources| - 1]) + JoinOne(last, |last.tx.entries|)
  }

  function GroupOne(events: seq<Event>, row: Joined): seq<Event>
  {
    var n := |events|;
    if n == 0 || events[n - 1].id != row.event then
      events + [Event(row.event, POSTED, row.tx, row.ledger, DayOf(row.time), [row.entry])]
    else events[..n - 1] + [events[n - 1].(entries := events[n - 1].entries + [row.entry])]
  }

  function Group(rows: seq<Joined>): seq<Event>
  {
    if rows == [] then [] else GroupOne(Group(rows[..|rows| - 1]), rows[|rows| - 1])
  }

  method GroupRows(rows: seq<Joined>) returns (events: seq<Event>)
    ensures events == Group(rows)
  {
    hide Group, GroupOne;
    events := [];
    var current := NIL;
    GroupNothing();
    for i := 0 to |rows|
      invariant events == Group(rows[..i])
      invariant events != [] ==> current == events[|events| - 1].id
    {
      GroupSnoc(rows[..i], rows[i]);
      assert rows[..i + 1] == rows[..i] + [rows[i]];
      var row := rows[i];
      ghost var was := events;
      if |events| == 0 || row.event != current {
        current := row.event;
        events := events + [Event(row.event, POSTED, row.tx, row.ledger, DayOf(row.time), [])];
      }
      var n := |events| - 1;
      events := events[n := events[n].(entries := events[n].entries + [row.entry])];
      Grouped(was, row, events);
    }
    assert rows[..|rows|] == rows;
  }

  /** Opening a group and adding to it, or adding to the last one, is one step. */
  lemma Grouped(was: seq<Event>, row: Joined, now: seq<Event>)
    requires var fits := was != [] && was[|was| - 1].id == row.event;
             var open := if fits then was
               else was + [Event(row.event, POSTED, row.tx, row.ledger, DayOf(row.time), [])];
             now == open[|open| - 1 := open[|open| - 1].(entries := open[|open| - 1].entries + [row.entry])]
    ensures now == GroupOne(was, row)
  {
    assert [] + [row.entry] == [row.entry];
    var n := |was|;
    if n == 0 || was[n - 1].id != row.event {
      assert now[..n] == was;
    } else {
      assert now[..n - 1] == was[..n - 1];
    }
  }

  lemma {:induction false} GroupSource(rows: seq<Joined>, s: Source, n: nat)
    requires 0 < n <= |s.tx.entries|
    requires Group(rows) == [] || Group(rows)[|Group(rows)| - 1].id != s.event
    ensures Group(rows + JoinOne(s, n)) == Group(rows) + [EventOf(s.tx, s.event).(entries := s.tx.entries[..n])]
    decreases n
  {
    hide Group;
    var row := Joined(s.event, s.tx.id, s.tx.ledger, s.tx.time, s.tx.entries[n - 1]);
    assert JoinOne(s, n) == JoinOne(s, n - 1) + [row];
    assert rows + JoinOne(s, n) == rows + JoinOne(s, n - 1) + [row];
    GroupSnoc(rows + JoinOne(s, n - 1), row);
    assert s.tx.entries[..n] == s.tx.entries[..n - 1] + [row.entry];
    if n == 1 {
      assert rows + JoinOne(s, 0) == rows;
      assert s.tx.entries[..1] == [row.entry];
    } else {
      GroupSource(rows, s, n - 1);
    }
  }

  lemma GroupSnoc(rows: seq<Joined>, row: Joined)
    ensures Group(rows + [row]) == GroupOne(Group(rows), row)
  {
    assert (rows + [row])[..|rows|] == rows;
  }

  function EventsOf(sources: seq<Source>): (r: seq<Event>)
    ensures |r| == |sources|
  {
    seq(|sources|, i requires 0 <= i < |sources| => EventOf(sources[i].tx, sources[i].event))
  }

  /** Grouping undoes the join, when every transaction has entries and neighbouring
      rows belong to different events. */
  lemma {:induction false} GroupUndoesJoin(sources: seq<Source>)
    requires forall i :: 0 <= i < |sources| ==> sources[i].tx.entries != []
    requires forall i :: 0 <= i < |sources| - 1 ==> sources[i].event != sources[i + 1].event
    ensures Group(JoinAll(sources)) == EventsOf(sources)
    decreases |sources|
  {
    hide Group;
    if sources == [] {
      GroupNothing();
    } else {
      var n := |sources| - 1;
      var last := sources[n];
      GroupUndoesJoin(sources[..n]);
      GroupSource(JoinAll(sources[..n]), last, |last.tx.entries|);
      assert last.tx.entries[..|last.tx.entries|] == last.tx.entries;
      assert EventsOf(sources) == EventsOf(sources[..n]) + [EventOf(last.tx, last.event)];
    }
  }

  lemma GroupNothing()
    ensures Group([]) == []
  {
  }

  // ------------------------------------------------------------ publication results

  /** How many events before the i-th could be encoded. */
  function Rank(unencodable: seq<bool>, i: nat): (r: nat)
    requires i <= |unencodable|
    ensures r <= i
  {
    if i == 0 then 0 else Rank(unencodable, i - 1) + if unencodable[i - 1] then 0 else 1
  }

  lemma RankStep(unencodable: seq<bool>, i: nat)
    requires i <= |unencodable|
    ensures Rank(unencodable, 0) == 0
    ensures i < |unencodable| ==> Rank(unencodable, i + 1) == Rank(unencodable, i) + if unencodable[i] then 0 else 1
  {
  }

  /** The positions that could be encoded, in order: the publisher's own numbering. */
  method ValidIndexes(unencodable: seq<bool>) returns (valid: seq<int>)
    ensures |valid| == Rank(unencodable, |unencodable|)
    ensures forall r :: 0 <= r < |valid| ==> 0 <= valid[r] < |unencodable| && Rank(unencodable, valid[r]) == r
    ensures forall j :: 0 <= j < |unencodable| && !unencodable[j] ==>
              Rank(unencodable, j) < |valid| && valid[Rank(unencodable, j)] == j
    ensures forall r :: 0 <= r < |valid| ==> !unencodable[valid[r]]
  {
    hide Rank;
    valid := [];
    RankStep(unencodable, 0);
    for i := 0 to |unencodable|
      invariant |valid| == Rank(unencodable, i)
      invariant forall r :: 0 <= r < |valid| ==> 0 <= valid[r] < i && Rank(unencodable, valid[r]) == r
      invariant forall r :: 0 <= r < |valid| ==> !unencodable[valid[r]]
      invariant forall j :: 0 <= j < i && !unencodable[j] ==>
                  Rank(unencodable, j) < |valid| && valid[Rank(unencodable, j)] == j
    {
      RankStep(unencodable, i);
      if !unencodable[i] {
        valid := valid + [i];
      }
    }
  }

  /** Which events failed to publish: those that could not be encoded, and of the
      others those the batch publisher reports in its own numbering; all of them if
      it reports the wrong number of results. */
  method PublishErrors(unencodable: seq<bool>, results: seq<bool>) returns (errors: seq<bool>)
    ensures |errors| == |unencodable|
    ensures forall i :: 0 <= i < |errors| && unencodable[i] ==> errors[i]
    ensures |results| != Rank(unencodable, |unencodable|) ==> forall i :: 0 <= i < |errors| ==> errors[i]
    ensures |results| == Rank(unencodable, |unencodable|) ==>
              forall i :: 0 <= i < |errors| && !unencodable[i] ==>
                Rank(unencodable, i) < |results| && errors[i] == results[Rank(unencodable, i)]
  {
    hide Rank;
    var valid := ValidIndexes(unencodable);
    var reported := if |results| == |valid| then results else seq(|valid|, i => true);
    errors := unencodable;
    for r := 0 to |valid|
      invariant |errors| == |unencodable|
      invariant forall j :: 0 <= j < |errors| && unencodable[j] ==> errors[j]
      invariant forall q :: 0 <= q < r ==> errors[valid[q]] == reported[q]
    {
      errors := errors[valid[r] := reported[r]];
    }
    forall i | 0 <= i < |errors| && !unencodable[i] ensures errors[i] == reported[Rank(unencodable, i)] {
      assert valid[Rank(unencodable, i)] == i;
    }
  }

  /** How the broker takes messages: each on its own, refusing some, or all at once with
      a list of failures in its own numbering. */
  datatype Broker = OneByOne(refused: set<Id>) | InBatch(failures: seq<bool>)

  function Unencodable(events: seq<Event>, ids: set<Id>): (r: seq<bool>)
    ensures |r| == |events| && forall i :: 0 <= i < |events| ==> (r[i] <==> events[i].id in ids)
  {
    seq(|events|, i requires 0 <= i < |events| => events[i].id in ids)
  }

  /** The i-th event is not known to be published. */
  ghost predicate Fails(events: seq<Event>, unencodable: seq<bool>, broker: Broker, i: int)
    requires |unencodable| == |events| && 0 <= i < |events|
  {
    unencodable[i] ||
    match broker
    case OneByOne(refused) => events[i].id in refused
    case InBatch(failures) =>
      |failures| != Rank(unencodable, |events|) || (Rank(unencodable, i) < |failures| && failures[Rank(unencodable, i)])
  }

  /** Hands every event that could be encoded to the broker. */
  method Publish(events: seq<Event>, unencodable: seq<bool>, broker: Broker) returns (errors: seq<bool>)
    requires |unencodable| == |events|
    ensures |errors| == |events|
    ensures forall i :: 0 <= i < |events| ==> (errors[i] <==> Fails(events, unencodable, broker, i))
  {
    hide Rank;
    match broker
    case InBatch(failures) => errors := PublishErrors(unencodable, failures);
    case OneByOne(refused) =>
      errors := unencodable;
      for i := 0 to |events|
        invariant |errors| == |events|
        invariant forall j :: 0 <= j < i ==> (errors[j] <==> unencodable[j] || events[j].id in refused)
        invariant forall j :: i <= j < |events| ==> errors[j] == unencodable[j]
      {
        if !errors[i] {
          errors := errors[i := events[i].id in refused];
        }
      }
  }

  function IdsWhere(events: seq<Event>, errors: seq<bool>, failed: bool): set<Id>
    requires |errors| == |events|
  {
    set i | 0 <= i < |events| && errors[i] == failed :: events[i].id
  }

  ghost predicate DistinctIds(events: seq<Event>)
  {
    forall i, j :: 0 <= i < j < |events| ==> events[i].id != events[j].id
  }

  lemma IdsWhereSnoc(events: seq<Event>, errors: seq<bool>, i: int, failed: bool)
    requires |errors| == |events| && 0 <= i < |events|
    ensures IdsWhere(events[..i + 1], errors[..i + 1], failed) ==
            IdsWhere(events[..i], errors[..i], failed) + if errors[i] == failed then {events[i].id} else {}
  {
    var xs, bs := events[..i + 1], errors[..i + 1];
    assert forall j :: 0 <= j < i ==> xs[j] == events[..i][j] && bs[j] == errors[..i][j];
    assert xs[i] == events[i] && bs[i] == errors[i];
  }

  /** Every event lands on exactly one of the two lists. */
  method SplitOutcomes(events: seq<Event>, errors: seq<bool>)
    returns (succeeded: seq<Id>, failed: seq<Id>, failure: bool)
    requires |errors| == |events|
    ensures Elems(succeeded) == IdsWhere(events, errors, false)
    ensures Elems(failed) == IdsWhere(events, errors, true)
    ensures |succeeded| + |failed| == |events|
    ensures DistinctIds(events) ==> |succeeded| == |Elems(succeeded)|
    ensures failure <==> failed != []
  {
    hide Elems, IdsWhere, DistinctIds;
    succeeded, failed, failure := [], [], false;
    NoneYet(events, errors);
    hide Splits;
    for i := 0 to |events|
      invariant Splits(events, errors, i, succeeded, failed)
      invariant failure <==> failed != []
    {
      SplitStep(events, errors, i, succeeded, failed);
      if errors[i] {
        failed := failed + [events[i].id];
        failure := true;
      } else {
        succeeded := succeeded + [events[i].id];
      }
    }
    AllSplit(events, errors, succeeded, failed);
  }

  /** The first `i` events have been divided. */
  ghost predicate Splits(events: seq<Event>, errors: seq<bool>, i: nat, succeeded: seq<Id>, failed: seq<Id>)
    requires |errors| == |events| && i <= |events|
  {
    && Elems(succeeded) == IdsWhere(events[..i], errors[..i], false)
    && Elems(failed) == IdsWhere(events[..i], errors[..i], true)
    && |succeeded| + |failed| == i
    && (DistinctIds(events) ==> |succeeded| == |Elems(succeeded)|)
  }

  lemma SplitStep(events: seq<Event>, errors: seq<bool>, i: nat, succeeded: seq<Id>, failed: seq<Id>)
    requires |errors| == |events| && i < |events| && Splits(events, errors, i, succeeded, failed)
    ensures if errors[i] then Splits(events, errors, i + 1, succeeded, failed + [events[i].id])
            else Splits(events, errors, i + 1, succeeded + [events[i].id], failed)
  {
    hide Elems, IdsWhere, DistinctIds;
    var id := events[i].id;
    IdsWhereSnoc(events, errors, i, false);
    IdsWhereSnoc(events, errors, i, true);
    if errors[i] {
      ElemsSnoc(failed, id);
    } else {
      ElemsSnoc(succeeded, id);
      NotYet(events, errors, i);
      OneBigger(Elems(succeeded), id);
    }
  }

  lemma AllSplit(events: seq<Event>, errors: seq<bool>, succeeded: seq<Id>, failed: seq<Id>)
    requires |errors| == |events| && Splits(events, errors, |events|, succeeded, failed)
    ensures Elems(succeeded) == IdsWhere(events, errors, false) && Elems(failed) == IdsWhere(events, errors, true)
    ensures |succeeded| + |failed| == |events|
    ensures DistinctIds(events) ==> |succeeded| == |Elems(succeeded)|
  {
    assert events[..|events|] == events && errors[..|events|] == errors;
  }

  lemma OneBigger(ids: set<Id>, id: Id)
    ensures id !in ids ==> |ids + {id}| == |ids| + 1
  {
  }

  lemma NoneYet(events: seq<Event>, errors: seq<bool>)
    requires |errors| == |events|
    ensures Elems([]) == {} == IdsWhere(events[..0], errors[..0], false) == IdsWhere(events[..0], errors[..0], true)
  {
  }

  lemma NotYet(events: seq<Event>, errors: seq<bool>, i: int)
    requires |errors| == |events| && 0 <= i < |events|
    ensures DistinctIds(events) ==> events[i].id !in IdsWhere(events[..i], errors[..i], false)
  {
  }

  // ----------------------------------------------------------------------- the store

  datatype ProjectionStatus = ConsumerRequired | NotFound | Known(event: Id, projected: bool)

  function Candidates(outbox: Outbox, locked: set<Id>, now: int): set<Id>
  {
    set id | id in outbox && id !in locked && Due(outbox[id], now)
  }

  /** `chosen` are the oldest `limit` of `candidates`; rows of equal age may go
      either way. */
  ghost predicate OldestOf(outbox: Outbox, candidates: set<Id>, limit: nat, chosen: set<Id>)
  {
    && chosen <= candidates <= outbox.Keys
    && |chosen| == (if limit < |candidates| then limit else |candidates|)
    && forall a, b :: a in chosen && b in candidates - chosen ==> outbox[a].created <= outbox[b].created
  }

  function Leased(outbox: Outbox, owner: Id, chosen: set<Id>, now: int): Outbox
  {
    Lease(Expire(outbox, now), owner, chosen, now)
  }

  datatype Tables = Tables(journal: Journal, outbox: Outbox)

  /** What other processes may do to the same tables between two statements of a call. */
  datatype Other =
    | Commits(tx: Transaction, event: Id, time: int)
    | Expires(time: int)
    | Leases(owner: Id, chosen: set<Id>, time: int)
    | Settles(owner: Id, succeeded: set<Id>, failed: set<Id>, time: int)
    | Releases(owner: Id)

  predicate NotBy(owner: Id, o: Other)
  {
    o.Commits? || o.Expires? || o.owner != owner
  }

  /** A commit is only possible with new ids and balanced lines. */
  function Changed(t: Tables, o: Other): Tables
  {
    match o
    case Commits(tx, event, time) =>
      if tx.id in t.journal || event in t.outbox || !Balanced(tx.entries) then t
      else Tables(t.journal[tx.id := tx], t.outbox[event := Row(tx.id, Pending, None, None, time, 0, time)])
    case Expires(time) => t.(outbox := Expire(t.outbox, time))
    case Leases(o, chosen, time) => t.(outbox := Lease(t.outbox, o, chosen * Candidates(t.outbox, {}, time), time))
    case Settles(o, succeeded, failed, time) => t.(outbox := Settle(t.outbox, o, succeeded, failed, time))
    case Releases(o) => t.(outbox := Release(t.outbox, o))
  }

  function ChangedBy(t: Tables, others: seq<Other>): Tables
  {
    if others == [] then t else Changed(ChangedBy(t, others[..|others| - 1]), others[|others| - 1])
  }

  /** Others keep the tables linked and never give a row to this owner. */
  lemma OtherKeeps(t: Tables, o: Other, owner: Id)
    requires LinksOk(t.journal, t.outbox) && NotBy(owner, o)
    ensures var r := Changed(t, o); LinksOk(r.journal, r.outbox) && Owned(r.outbox, owner) <= Owned(t.outbox, owner)
  {
    hide LinksOk, Balanced;
    var r := Changed(t, o);
    if o.Commits? {
      if r != t {
        CommitLinks(t.journal, t.outbox, o.tx, o.event, r.outbox[o.event]);
      }
    } else {
      OtherRows(t, o);
      SameRowsKeep(t.journal, t.outbox, r.outbox);
      forall id | id in t.outbox && r.outbox[id].owner == Some(owner) ensures t.outbox[id].owner == Some(owner) {
        OtherOwns(t, o, owner, id);
      }
      hide Changed;
    }
  }

  lemma OtherRows(t: Tables, o: Other)
    requires !o.Commits?
    ensures SameRows(t.outbox, Changed(t, o).outbox) && Changed(t, o).journal == t.journal
  {
    hide RetryDelay, Due, Lapsed;
    var r := Changed(t, o).outbox;
    assert r.Keys == t.outbox.Keys;
    forall id | id in t.outbox ensures t.outbox[id].tx == r[id].tx {
    }
  }

  lemma OtherOwns(t: Tables, o: Other, owner: Id, id: Id)
    requires !o.Commits? && NotBy(owner, o) && id in t.outbox && id in Changed(t, o).outbox
    requires Changed(t, o).outbox[id].owner == Some(owner)
    ensures t.outbox[id].owner == Some(owner)
  {
    hide RetryDelay, Due;
  }

  lemma {:induction false} OthersKeep(t: Tables, others: seq<Other>, owner: Id)
    requires LinksOk(t.journal, t.outbox) && forall o :: o in others ==> NotBy(owner, o)
    ensures var r := ChangedBy(t, others);
            LinksOk(r.journal, r.outbox) && Owned(r.outbox, owner) <= Owned(t.outbox, owner)
    decreases |others|
  {
    hide LinksOk, Changed, NotBy;
    if others != [] {
      assert others[|others| - 1] in others;
      OthersKeep(t, others[..|others| - 1], owner);
      OtherKeeps(ChangedBy(t, others[..|others| - 1]), others[|others| - 1], owner);
    }
  }

  function RowSource(journal: Journal, outbox: Outbox, id: Id): Source
    requires id in PayloadsOf(journal, outbox)
  {
    Source(id, journal[outbox[id].tx])
  }

  lemma HasEntries(journal: Journal, outbox: Outbox, id: Id)
    requires LinksOk(journal, outbox) && id in PayloadsOf(journal, outbox)
    ensures RowSource(journal, outbox, id).tx.entries != []
  {
    assert Balanced(journal[outbox[id].tx].entries);
  }

  /** The events of exactly these rows, no event twice. */
  ghost predicate EventsFor(payloads: Payloads, ids: set<Id>, events: seq<Event>)
  {
    && (forall e :: e in events ==> e.id in ids && e.id in payloads && e == payloads[e.id])
    && (forall id :: id in ids ==> id in payloads && payloads[id] in events)
    && DistinctIds(events)
  }

  ghost predicate OldestFirst(outbox: Outbox, events: seq<Event>)
  {
    forall i, j :: 0 <= i < j < |events| ==>
      && events[i].id in outbox && events[j].id in outbox
      && var a, b := outbox[events[i].id].created, outbox[events[j].id].created;
         a < b || (a == b && events[i].id < events[j].id)
  }

  lemma Hydrates(payloads: Payloads, outbox: Outbox, owned: set<Id>, ids: seq<Id>, events: seq<Event>)
    requires FaithfulIds(payloads) && owned <= payloads.Keys && owned <= outbox.Keys
    requires Elems(ids) == owned && Sorted(Created(outbox), ids, {})
    requires |events| == |ids| && forall i :: 0 <= i < |ids| ==> ids[i] in owned && events[i] == payloads[ids[i]]
    ensures EventsFor(payloads, owned, events) && OldestFirst(outbox, events)
  {
    forall id | id in owned ensures payloads[id] in events {
      assert id in Elems(ids);
      var i :| 0 <= i < |ids| && ids[i] == id;
      assert events[i] == payloads[id];
    }
    forall i | 0 <= i < |events| ensures events[i].id == ids[i] && ids[i] in outbox {
      assert payloads[ids[i]].id == ids[i];
    }
    forall e | e in events ensures e.id in owned && e == payloads[e.id] {
      var i :| 0 <= i < |events| && events[i] == e;
    }
    hide Elems;
    assert DistinctIds(events);
  }

  /** The event is one of the owner's rows, told with its transaction's own ledger, day
      and lines. */
  ghost predicate ReadsAs(journal: Journal, outbox: Outbox, owner: Id, e: Event)
  {
    && e.id in outbox && outbox[e.id].owner == Some(owner) && outbox[e.id].tx in journal
    && e.kind == "transaction_posted" && e.tx == outbox[e.id].tx && e.ledger == journal[e.tx].ledger
    && e.entries == journal[e.tx].entries && OnDay(journal[e.tx].time, e.day)
  }

  lemma Read(journal: Journal, outbox: Outbox, owner: Id, events: seq<Event>, e: Event)
    requires LinksOk(journal, outbox) && EventsFor(PayloadsOf(journal, outbox), Owned(outbox, owner), events)
    requires e in events
    ensures ReadsAs(journal, outbox, owner, e)
  {
    PayloadKeys(journal, outbox);
    assert e.id in outbox && outbox[e.id].tx in journal;
    DayIs(journal[outbox[e.id].tx].time, e.day);
  }

  lemma Emptied(owned: set<Id>, ids: seq<Id>, rest: set<Id>)
    requires Elems(ids) + rest == owned && Elems(ids) !! rest && |Elems(ids)| == |owned|
    ensures rest == {} && Elems(ids) == owned
  {
    assert |Elems(ids) + rest| == |Elems(ids)| + |rest|;
  }

  lemma SourcePayloads(journal: Journal, outbox: Outbox, ids: seq<Id>, sources: seq<Source>)
    requires LinksOk(journal, outbox) && |sources| == |ids|
    requires forall j :: 0 <= j < |ids| ==>
               ids[j] in PayloadsOf(journal, outbox) && sources[j] == RowSource(journal, outbox, ids[j])
    ensures forall j :: 0 <= j < |ids| ==> EventsOf(sources)[j] == PayloadsOf(journal, outbox)[ids[j]]
  {
    hide LinksOk;
  }

  /** Right after a claim with a new owner, its rows are the chosen ones. */
  lemma LeasedIsChosen(journal: Journal, outbox: Outbox, owner: Id, chosen: set<Id>, now: int)
    requires LinksOk(journal, outbox) && Owned(outbox, owner) == {} && chosen <= outbox.Keys
    ensures var leased := Lease(Expire(outbox, now), owner, chosen, now);
            LinksOk(journal, leased) && Owned(leased, owner) == chosen
  {
    hide LinksOk;
    var leased := Lease(Expire(outbox, now), owner, chosen, now);
    LeasedRows(outbox, owner, chosen, now);
    SameRowsKeep(journal, outbox, leased);
    hide SameRows;
    forall id | id in outbox ensures id in Owned(leased, owner) <==> id in chosen {
      assert id !in Owned(outbox, owner);
      LeasedRow(outbox, owner, chosen, now, id);
    }
    hide Lease, Expire;
    assert leased.Keys == outbox.Keys;
  }

  lemma LeasedRows(outbox: Outbox, owner: Id, chosen: set<Id>, now: int)
    ensures SameRows(outbox, Lease(Expire(outbox, now), owner, chosen, now))
    ensures Lease(Expire(outbox, now), owner, chosen, now).Keys == outbox.Keys
  {
  }

  lemma LeasedRow(outbox: Outbox, owner: Id, chosen: set<Id>, now: int, id: Id)
    requires id in outbox && outbox[id].owner != Some(owner)
    ensures id in Lease(Expire(outbox, now), owner, chosen, now)
    ensures Lease(Expire(outbox, now), owner, chosen, now)[id].owner == Some(owner) <==> id in chosen
  {
  }

  /** The failed events are those of the chosen rows with an error, the succeeded ones
      the rest. */
  lemma Outcomes(payloads: Payloads, chosen: set<Id>, refused: set<Id>, events: seq<Event>, errors: seq<bool>)
    requires EventsFor(payloads, chosen, events) && FaithfulIds(payloads)
    requires |errors| == |events| && refused == IdsWhere(events, errors, true)
    ensures forall i :: 0 <= i < |events| ==> (events[i].id in refused <==> errors[i])
    ensures IdsWhere(events, errors, false) == chosen - refused
    ensures IdsWhere(events, errors, true) == chosen * refused
    ensures DistinctIds(events)
  {
    forall i | 0 <= i < |events| ensures events[i].id in chosen && (events[i].id in refused <==> errors[i]) {
      assert events[i] in events;
      if events[i].id in refused {
        var j :| 0 <= j < |events| && errors[j] && events[j].id == events[i].id;
        assert i == j;
      }
    }
    forall id | id in chosen ensures exists i :: 0 <= i < |events| && events[i].id == id {
      assert payloads[id] in events;
      var i :| 0 <= i < |events| && events[i] == payloads[id];
    }
  }

  predicate Held(outbox: Outbox, owner: Id, id: Id)
  {
    id in outbox && outbox[id].owner == Some(owner)
  }

  lemma SettledRows(was: Outbox, now: Outbox, owner: Id, succeeded: seq<Id>, failed: seq<Id>, time: int)
    requires now.Keys == was.Keys
    requires forall id :: id in now && Held(was, owner, id) && id in succeeded ==> now[id] == Delivered(was[id])
    requires forall id :: id in now && Held(was, owner, id) && id in failed && id !in succeeded ==>
               now[id] == Delayed(was[id], time)
    requires forall id :: id in now && (!Held(was, owner, id) || (id !in succeeded && id !in failed)) ==>
               now[id] == was[id]
    ensures now == Settle(was, owner, Elems(succeeded), Elems(failed), time)
  {
    hide RetryDelay;
    var settled := Settle(was, owner, Elems(succeeded), Elems(failed), time);
    assert settled.Keys == now.Keys;
    forall id | id in now ensures now[id] == settled[id] {
      assert id in was;
    }
  }

  lemma ChosenExist(outbox: Outbox, locked: set<Id>, now: int, limit: nat, chosen: set<Id>)
    requires OldestOf(Expire(outbox, now), Candidates(Expire(outbox, now), locked, now), limit, chosen)
    ensures chosen <= outbox.Keys
  {
  }

  /** A row a claim may take: due, or its lease has run out. */
  predicate Claimable(r: Row, now: int)
  {
    r.available <= now && (r.status.Pending? || (r.status.Processing? && r.expires.Some? && r.expires.value <= now))
  }

  /** What a claim does, row by row: a chosen row is the owner's for ten seconds; any
      other whose lease has run out is free again; the rest stay. Nothing locked is
      chosen, and a claimable row is left only for `limit` older ones. */
  ghost predicate Claims(was: Outbox, now: Outbox, owner: Id, limit: nat, locked: set<Id>, time: int, chosen: set<Id>)
  {
    && now.Keys == was.Keys && chosen <= was.Keys && |chosen| <= limit
    && (forall id :: id in chosen ==>
          && id !in locked && Claimable(was[id], time)
          && now[id] == was[id].(status := Processing, owner := Some(owner), expires := Some(time + 10_000)))
    && (forall id :: id in was && id !in chosen && was[id].status.Processing? && was[id].expires.Some?
                     && was[id].expires.value <= time ==>
          now[id] == was[id].(status := Pending, owner := None, expires := None))
    && (forall id :: id in was && id !in chosen
                     && !(was[id].status.Processing? && was[id].expires.Some? && was[id].expires.value <= time) ==>
          now[id] == was[id])
    && (forall id :: id in was && id !in chosen && id !in locked && Claimable(was[id], time) ==>
          |chosen| == limit && forall c :: c in chosen ==> was[c].created <= was[id].created)
  }

  lemma ClaimMeans(was: Outbox, owner: Id, limit: nat, locked: set<Id>, time: int, chosen: set<Id>)
    requires OldestOf(Expire(was, time), Candidates(Expire(was, time), locked, time), limit, chosen)
    ensures Claims(was, Lease(Expire(was, time), owner, chosen, time), owner, limit, locked, time, chosen)
  {
    var freed := Expire(was, time);
    var candidates := Candidates(freed, locked, time);
    forall id | id in was
      ensures id in freed && freed[id].created == was[id].created
      ensures id in candidates <==> id !in locked && Claimable(was[id], time)
    {
    }
    hide Lease;
    ClaimedRows(was, owner, time, chosen);
    forall id | id in candidates && id !in chosen
      ensures |chosen| == limit && forall c :: c in chosen ==> was[c].created <= was[id].created
    {
      if |chosen| != limit {
        SubsetIsAll(chosen, candidates);
      }
    }
  }

  lemma SubsetIsAll(xs: set<Id>, ys: set<Id>)
    requires xs <= ys && |xs| == |ys|
    ensures xs == ys
  {
    assert |ys - xs| == |ys| - |xs|;
  }

  lemma ClaimedRows(was: Outbox, owner: Id, time: int, chosen: set<Id>)
    ensures var now := Lease(Expire(was, time), owner, chosen, time);
            now.Keys == was.Keys && forall id :: id in was ==>
              now[id] == if id in chosen
                then was[id].(status := Processing, owner := Some(owner), expires := Some(time + 10_000))
                else if was[id].status.Processing? && was[id].expires.Some? && was[id].expires.value <= time
                then was[id].(status := Pending, owner := None, expires := None) else was[id]
  {
  }

  class OutboxStore {
    var journal: Journal
    var outbox: Outbox

    constructor (journal: Journal, outbox: Outbox)
      ensures this.journal == journal && this.outbox == outbox
    {
      this.journal, this.outbox := journal, outbox;
    }

    /** Frees lapsed leases, then leases the oldest due rows no other statement has
        locked. */
    method ClaimTransactionOutboxEvents(owner: Id, limit: nat, locked: set<Id>, now: int)
      returns (count: nat, ghost chosen: set<Id>)
      modifies this`outbox
      ensures OldestOf(Expire(old(outbox), now), Candidates(Expire(old(outbox), now), locked, now), limit, chosen)
      ensures outbox == Lease(Expire(old(outbox), now), owner, chosen, now)
      ensures Claims(old(outbox), outbox, owner, limit, locked, now, chosen)
      ensures count == |chosen|
    {
      hide Expire, Lease, Claims;
      ghost var was := outbox;
      outbox := Expire(outbox, now);
      var rows;
      ghost var rest;
      var candidates := Candidates(outbox, locked, now);
      rows, rest := InOrder(Created(outbox), candidates, limit);
      var ids := Elems(rows);
      chosen := ids;
      assert candidates - ids == rest;
      outbox := Lease(outbox, owner, ids, now);
      count := |rows|;
      ClaimMeans(was, owner, limit, locked, now, chosen);
    }

    /** The owner's rows as events, oldest first, each with all its entries. */
    method HydrateClaimedTransactionEvents(owner: Id) returns (events: seq<Event>)
      requires LinksOk(journal, outbox)
      ensures EventsFor(PayloadsOf(journal, outbox), Owned(outbox, owner), events) && OldestFirst(outbox, events)
      ensures forall e :: e in events ==> ReadsAs(journal, outbox, owner, e)
    {
      hide LinksOk, Elems, Before, JoinOne, PayloadsOf, OldestFirst, EventsFor;
      PayloadKeys(journal, outbox);
      PayloadIds(journal, outbox);
      var owned := Owned(outbox, owner);
      var ids;
      ghost var rest;
      ids, rest := InOrder(Created(outbox), owned, |owned|);
      Emptied(owned, ids, rest);
      var rows: seq<Joined> := [];
      ghost var sources: seq<Source> := [];
      for i := 0 to |ids|
        invariant rows == JoinAll(sources) && |sources| == i
        invariant forall j :: 0 <= j < i ==>
                    sources[j] == RowSource(journal, outbox, ids[j]) && sources[j].tx.entries != []
      {
        var source := RowSource(journal, outbox, ids[i]);
        HasEntries(journal, outbox, ids[i]);
        assert (sources + [source])[..i] == sources;
        rows := rows + JoinOne(source, |source.tx.entries|);
        sources := sources + [source];
      }
      GroupUndoesJoin(sources);
      events := GroupRows(rows);
      SourcePayloads(journal, outbox, ids, sources);
      Hydrates(PayloadsOf(journal, outbox), outbox, owned, ids, events);
      forall e | e in events ensures ReadsAs(journal, outbox, owner, e) {
        Read(journal, outbox, owner, events, e);
      }
    }

    /** The one event of a transaction and whether the consumer's inbox has it. */
    method GetTransactionProjectionStatus(tx: Id, consumer: string, inbox: set<Id>) returns (status: ProjectionStatus)
      ensures status.ConsumerRequired? <==> consumer == ""
      ensures status.NotFound? <==> consumer != "" && forall id :: id in outbox ==> outbox[id].tx != tx
      ensures status.Known? ==>
                && status.event in outbox && outbox[status.event].tx == tx
                && (status.projected <==> status.event in inbox)
    {
      if consumer == "" {
        return ConsumerRequired;
      }
      var left := outbox.Keys;
      while left != {}
        invariant left <= outbox.Keys
        invariant forall id :: id in outbox && outbox[id].tx == tx ==> id in left
        decreases |left|
      {
        HasElement(left);
        var id :| id in left;
        if outbox[id].tx == tx {
          return Known(id, id in inbox);
        }
        left := left - {id};
      }
      return NotFound;
    }

    /** Rows still owned become processed, or wait out their backoff; all others are
        left as they are. */
    method CompleteTransactionOutboxClaim(owner: Id, succeeded: seq<Id>, failed: seq<Id>, now: int)
      modifies this`outbox
      ensures outbox.Keys == old(outbox).Keys
      ensures forall id :: id in outbox && Held(old(outbox), owner, id) && id in succeeded ==>
                outbox[id] == old(outbox)[id].(status := Processed, attempts := old(outbox)[id].attempts + 1,
                                               owner := None, expires := None)
      ensures forall id :: id in outbox && Held(old(outbox), owner, id) && id in failed && id !in succeeded ==>
                outbox[id] == old(outbox)[id].(status := Pending, attempts := old(outbox)[id].attempts + 1,
                                               available := now + RetryDelay(old(outbox)[id].attempts),
                                               owner := None, expires := None)
      ensures forall id :: id in outbox && (!Held(old(outbox), owner, id) || (id !in succeeded && id !in failed)) ==>
                outbox[id] == old(outbox)[id]
    {
      ghost var was := outbox;
      for i := 0 to |succeeded|
        invariant outbox.Keys == was.Keys
        invariant forall id :: id in was ==>
                    outbox[id] == if Held(was, owner, id) && id in succeeded[..i] then Delivered(was[id]) else was[id]
      {
        var id := succeeded[i];
        assert succeeded[..i + 1] == succeeded[..i] + [id];
        if Held(outbox, owner, id) {
          outbox := outbox[id := Delivered(outbox[id])];
        }
      }
      assert succeeded[..|succeeded|] == succeeded;
      ghost var mid := outbox;
      for i := 0 to |failed|
        invariant outbox.Keys == mid.Keys
        invariant forall id :: id in mid ==>
                    outbox[id] == if Held(mid, owner, id) && id in failed[..i] then Delayed(mid[id], now) else mid[id]
      {
        var id := failed[i];
        assert failed[..i + 1] == failed[..i] + [id];
        if Held(outbox, owner, id) {
          outbox := outbox[id := Delayed(outbox[id], now)];
        }
      }
      assert failed[..|failed|] == failed;
    }

    method ReleaseTransactionOutboxClaim(owner: Id)
      modifies this`outbox
      ensures outbox == Release(old(outbox), owner) && outbox.Keys == old(outbox).Keys
      ensures forall id :: id in outbox ==>
                outbox[id] == if old(outbox)[id].owner == Some(owner)
                  then old(outbox)[id].(status := Pending, owner := None, expires := None) else old(outbox)[id]
    {
      outbox := Release(outbox, owner);
    }

    /** Other processes at work on the same tables. */
    method Meanwhile(others: seq<Other>)
      modifies this
      ensures Tables(journal, outbox) == ChangedBy(old(Tables(journal, outbox)), others)
    {
      hide Changed;
      ghost var start := Tables(journal, outbox);
      for i := 0 to |others|
        invariant Tables(journal, outbox) == ChangedBy(start, others[..i])
      {
        assert others[..i + 1][..i] == others[..i];
        var now := Changed(Tables(journal, outbox), others[i]);
        journal, outbox := now.journal, now.outbox;
      }
      assert others[..|others|] == others;
    }

    /** The whole routine, with any work of other processes between its statements. It
        publishes the rows it still owns when it reads them back; `refused` are those
        that failed. Completing touches only rows it still owns then. `hydrated` says
        whether reading back works. */
    method PublishCommittedEvents(owner: Id, limit: int, locked: set<Id>, hydrated: bool, garbled: set<Id>,
                                  broker: Broker, claimed: int, done: int,
                                  afterClaim: seq<Other>, afterRead: seq<Other>)
      returns (count: nat, failure: bool, ghost chosen: set<Id>, ghost events: seq<Event>, ghost refused: set<Id>)
      requires LinksOk(journal, outbox) && Owned(outbox, owner) == {}
      requires forall o :: o in afterClaim + afterRead ==> NotBy(owner, o)
      modifies this
      ensures OldestOf(Expire(old(outbox), claimed), Candidates(Expire(old(outbox), claimed), locked, claimed),
                       Limit(limit), chosen)
      ensures var leased := Tables(old(journal), Leased(old(outbox), owner, chosen, claimed));
              var mid := ChangedBy(leased, afterClaim);
              var late := ChangedBy(mid, afterRead);
              var mine := Owned(mid.outbox, owner);
              if chosen == {} then
                Tables(journal, outbox) == leased && count == 0 && !failure
              else if !hydrated then
                Tables(journal, outbox) == mid.(outbox := Release(mid.outbox, owner)) && count == 0 && failure
              else
                && Tables(journal, outbox) ==
                   late.(outbox := Settle(late.outbox, owner, mine - refused, mine * refused, done))
                && mine <= chosen && count == |mine - refused| && (failure <==> mine * refused != {})
                && Reads(mid, mine, events)
                && forall i :: 0 <= i < |events| ==>
                     (events[i].id in refused <==> Fails(events, Unencodable(events, garbled), broker, i))
    {
      hide Expire, Lease, Settle, Release, LinksOk, OldestOf, Before, PayloadsOf, Elems, IdsWhere, EventsFor, Fails;
      hide OldestFirst, ChangedBy, NotBy, Owned, Claims, ReadsAs, RetryDelay;
      ghost var start := outbox;
      events, refused := [], {};
      count, chosen := ClaimTransactionOutboxEvents(owner, Limit(limit), locked, claimed);
      if count == 0 {
        return 0, false, {}, [], {};
      }
      ChosenExist(start, locked, claimed, Limit(limit), chosen);
      LeasedIsChosen(journal, start, owner, chosen, claimed);
      OthersKeep(Tables(journal, outbox), afterClaim, owner);
      Meanwhile(afterClaim);
      if !hydrated {
        ReleaseTransactionOutboxClaim(owner);
        return 0, true, chosen, [], {};
      }
      var read := HydrateClaimedTransactionEvents(owner);
      ghost var mine := Owned(outbox, owner);
      var errors := Publish(read, Unencodable(read, garbled), broker);
      var succeeded, failed;
      succeeded, failed, failure := SplitOutcomes(read, errors);
      PayloadIds(journal, outbox);
      events, refused := read, IdsWhere(read, errors, true);
      Outcomes(PayloadsOf(journal, outbox), mine, refused, read, errors);
      Meanwhile(afterRead);
      ghost var late := outbox;
      CompleteTransactionOutboxClaim(owner, succeeded, failed, done);
      SettledRows(late, outbox, owner, succeeded, failed, done);
      count := |succeeded|;
      NoElems();
    }
  }

  /** Exactly the events of these rows, oldest first. */
  ghost predicate Reads(t: Tables, ids: set<Id>, events: seq<Event>)
  {
    EventsFor(PayloadsOf(t.journal, t.outbox), ids, events) && OldestFirst(t.outbox, events)
  }
}
