/** What every run of the pipeline guarantees: leases are safe, nothing committed is
    lost, and the daily totals are those of the journal. */
module PipelineTheorems {
  import opened Domain
  import opened Sums
  import opened Projection
  import opened Pipeline

  ghost function Reach(now: int, run: seq<Action>): Sys
    requires IsRun(Start(now), run)
  {
    After(Start(now), run)
  }

  lemma ReachInv(now: int, run: seq<Action>)
    requires IsRun(Start(now), run)
    ensures Inv(Reach(now, run))
  {
    StartInv(now);
    RunKeeps(Start(now), run);
  }

  /** In every run: an event has an owner exactly while it is processing; what the
      consumer has seen was published, and what was published was committed; an
      event is processed only once its publication has been acknowledged, and so is in
      the broker; every transaction has its one event; every aggregate row is the sum
      over exactly the events in the inbox. */
  lemma PipelineSafety(now: int, run: seq<Action>)
    requires IsRun(Start(now), run)
    ensures var s := Reach(now, run);
            && s.proj.inbox <= Published(s.broker) <= s.outbox.Keys
            && (forall id :: id in s.outbox ==> (s.outbox[id].owner.Some? <==> s.outbox[id].status.Processing?))
            && (forall id :: id in s.outbox && s.outbox[id].status.Processed? ==>
                  Acknowledged(s.publishers, id) && id in Published(s.broker))
            && LinksOk(s.journal, s.outbox)
            && (forall t :: t in s.journal ==> exists id :: id in s.outbox && s.outbox[id].tx == t)
            && Exact(PayloadsOf(s.journal, s.outbox), s.proj)
  {
    hide Exact, LinksOk, PublishersOk;
    ReachInv(now, run);
    var s := Reach(now, run);
    PayloadKeys(s.journal, s.outbox);
    EveryTxHasEvent(s.journal, s.outbox);
  }

  // ------------------------------------------------------------------- lease safety

  /** A row a publisher does not own, or one that is processed. */
  lemma StepLeaves(s: Sys, a: Action, id: Id, o: Id)
    requires Inv(s) && Enabled(s, a) && id in s.outbox
    ensures var s' := Step(s, a);
            && id in s'.outbox
            && (s.outbox[id].status.Processed? ==> s'.outbox[id] == s.outbox[id])
            && (o in s.publishers ==> o in s'.publishers)
            && (o in s.publishers && s.outbox[id].owner != Some(o) ==> s'.outbox[id].owner != Some(o))
            && (s.outbox[id].owner != Some(o) && (a == Complete(o) || a == GiveUp(o)) ==> s'.outbox[id] == s.outbox[id])
  {
    hide Exact, PayloadsOf, LinksOk, BrokerOk, PublishersOk, ProcessedOk, Published, Balanced;
  }

  lemma {:induction false} RunLeaves(s: Sys, run: seq<Action>, id: Id, o: Id)
    requires Inv(s) && IsRun(s, run) && id in s.outbox
    ensures var s' := After(s, run);
            && id in s'.outbox
            && (s.outbox[id].status.Processed? ==> s'.outbox[id] == s.outbox[id])
            && (o in s.publishers && s.outbox[id].owner != Some(o) ==>
                  o in s'.publishers && s'.outbox[id].owner != Some(o))
    decreases |run|
  {
    hide Inv, Enabled, Step;
    if run != [] {
      RunLeaves(s, run[..|run| - 1], id, o);
      RunKeeps(s, run[..|run| - 1]);
      StepLeaves(After(s, run[..|run| - 1]), run[|run| - 1], id, o);
    }
  }

  /** Processed is final: the row never changes again. */
  lemma ProcessedIsFinal(now: int, run: seq<Action>, more: seq<Action>, id: Id)
    requires IsRun(Start(now), run) && IsRun(Reach(now, run), more)
    requires id in Reach(now, run).outbox && Reach(now, run).outbox[id].status.Processed?
    ensures id in After(Reach(now, run), more).outbox
    ensures After(Reach(now, run), more).outbox[id] == Reach(now, run).outbox[id]
  {
    ReachInv(now, run);
    RunLeaves(Reach(now, run), more, id, NIL);
  }

  /** A publisher that has lost a row never owns it again, and whatever happens in
      between, neither its completion nor its release can touch that row. */
  lemma StalePublisherIsHarmless(now: int, run: seq<Action>, more: seq<Action>, id: Id, o: Id, a: Action)
    requires IsRun(Start(now), run) && IsRun(Reach(now, run), more)
    requires id in Reach(now, run).outbox && o in Reach(now, run).publishers
    requires Reach(now, run).outbox[id].owner != Some(o)
    requires (a == Complete(o) || a == GiveUp(o)) && Enabled(After(Reach(now, run), more), a)
    ensures var s := After(Reach(now, run), more);
            && id in s.outbox && s.outbox[id].owner != Some(o)
            && id in Step(s, a).outbox && Step(s, a).outbox[id] == s.outbox[id]
  {
    hide Inv, Enabled, Step;
    ReachInv(now, run);
    RunKeeps(Reach(now, run), more);
    RunLeaves(Reach(now, run), more, id, o);
    StepLeaves(After(Reach(now, run), more), a, id, o);
  }

  lemma StepKeepsLive(s: Sys, a: Action, id: Id, o: Id)
    requires Inv(s) && Enabled(s, a) && id in s.outbox && s.outbox[id].owner == Some(o)
    requires a != Complete(o) && a != GiveUp(o)
    ensures s.now <= Step(s, a).now && id in Step(s, a).outbox
    ensures !Lapsed(s.outbox[id], s.now) ==> Step(s, a).outbox[id] == s.outbox[id]
  {
    hide Exact, PayloadsOf, LinksOk, BrokerOk, PublishersOk, ProcessedOk, Published, Balanced;
  }

  /** A lease that has not run out is exclusive: until its expiry is reached, nobody
      but its owner can change the row. */
  lemma {:induction false} LiveLeaseIsExclusive(now: int, run: seq<Action>, more: seq<Action>, id: Id, o: Id)
    requires IsRun(Start(now), run) && IsRun(Reach(now, run), more)
    requires id in Reach(now, run).outbox && Reach(now, run).outbox[id].owner == Some(o)
    requires Complete(o) !in more && GiveUp(o) !in more
    requires !Lapsed(Reach(now, run).outbox[id], After(Reach(now, run), more).now)
    ensures id in After(Reach(now, run), more).outbox
    ensures After(Reach(now, run), more).outbox[id] == Reach(now, run).outbox[id]
    decreases |more|
  {
    ReachInv(now, run);
    hide Inv, Enabled, Step;
    if more != [] {
      var s, n := Reach(now, run), |more| - 1;
      assert more[n] in more;
      RunKeeps(s, more[..n]);
      StepClock(After(s, more[..n]), more[n]);
      LiveLeaseIsExclusive(now, run, more[..n], id, o);
      StepKeepsLive(After(s, more[..n]), more[n], id, o);
    }
  }

  /** A row that was due and is claimed belongs to its claimant alone for the next ten
      seconds, whatever the others do, unless it completes or gives up itself. */
  lemma ClaimLastsTenSeconds(now: int, run: seq<Action>, o: Id, chosen: set<Id>, more: seq<Action>, id: Id)
    requires IsRun(Start(now), run) && Enabled(Reach(now, run), Claim(o, chosen)) && id in chosen
    requires IsRun(Step(Reach(now, run), Claim(o, chosen)), more) && Complete(o) !in more && GiveUp(o) !in more
    requires After(Step(Reach(now, run), Claim(o, chosen)), more).now < Reach(now, run).now + 10_000
    ensures var s, later := Reach(now, run), After(Step(Reach(now, run), Claim(o, chosen)), more);
            && id in s.outbox && s.outbox[id].status.Pending? && s.outbox[id].available <= s.now
            && id in later.outbox && later.outbox[id].status.Processing? && later.outbox[id].owner == Some(o)
            && later.outbox[id].attempts == s.outbox[id].attempts && later.outbox[id].tx == s.outbox[id].tx
  {
    var claimed := run + [Claim(o, chosen)];
    assert claimed[..|run|] == run && claimed[|run|] == Claim(o, chosen);
    assert IsRun(Start(now), claimed) && Reach(now, claimed) == Step(Reach(now, run), Claim(o, chosen));
    hide IsRun, After;
    LiveLeaseIsExclusive(now, claimed, more, id, o);
  }

  /** What is committed can be claimed at once, by anyone who has claimed nothing yet. */
  lemma CommittedIsDue(s: Sys, tx: Transaction, event: Id, o: Id)
    requires Enabled(s, Commit(tx, event)) && o !in s.publishers
    ensures var s' := Step(s, Commit(tx, event));
            && Enabled(s', Claim(o, {event}))
            && tx.id in s'.journal && s'.journal[tx.id] == tx && event in s'.outbox
            && var row := s'.outbox[event];
               row.tx == tx.id && row.status == Pending && row.owner == row.expires == None && row.attempts == 0
               && row.available == row.created == s.now
  {
  }

  lemma StepClock(s: Sys, a: Action)
    requires Enabled(s, a)
    ensures s.now <= Step(s, a).now
  {
  }

  // ---------------------------------------------------------- totals are the journal's

  /** What one posting adds to an account's day, read off the journal. */
  function AccountDay(t: Transaction, k: Key): Totals
  {
    if OnDay(t.time, k.day) then Totals(DebitsOn(t.entries, k.id), CreditsOn(t.entries, k.id)) else Totals(0, 0)
  }

  function LedgerDay(t: Transaction, k: Key): Totals
  {
    if OnDay(t.time, k.day) && t.ledger == k.id then Totals(Debits(t.entries), Credits(t.entries)) else Totals(0, 0)
  }

  function DayPart(journal: Journal, t: Id, k: Key, byLedger: bool): Totals
  {
    if t !in journal then Totals(0, 0)
    else if byLedger then LedgerDay(journal[t], k) else AccountDay(journal[t], k)
  }

  ghost function JournalTotals(journal: Journal, txs: set<Id>, k: Key, byLedger: bool): Totals
  {
    Totals(Sum(txs, t => DayPart(journal, t, k, byLedger).debit),
           Sum(txs, t => DayPart(journal, t, k, byLedger).credit))
  }

  /** The postings whose event the consumer has applied. */
  ghost function ProjectedTxs(s: Sys): set<Id>
  {
    set id | id in s.proj.inbox && id in s.outbox :: s.outbox[id].tx
  }

  function TxOf(outbox: Outbox, id: Id): Id
  {
    if id in outbox then outbox[id].tx else NIL
  }

  lemma SameTotals(s: Sys, k: Key, byLedger: bool)
    requires LinksOk(s.journal, s.outbox) && s.proj.inbox <= s.outbox.Keys
    ensures TotalOf(PayloadsOf(s.journal, s.outbox), s.proj.inbox, k, byLedger) ==
            JournalTotals(s.journal, ProjectedTxs(s), k, byLedger)
  {
    hide Balanced;
    var payloads, txs := PayloadsOf(s.journal, s.outbox), ProjectedTxs(s);
    forall id | id in s.proj.inbox
      ensures TxOf(s.outbox, id) in txs
      ensures PartOf(payloads, id, k, byLedger) == DayPart(s.journal, TxOf(s.outbox, id), k, byLedger)
    {
      assert id in s.outbox && s.outbox[id].tx in s.journal;
      DayIs(s.journal[s.outbox[id].tx].time, k.day);
    }
    forall t | t in txs ensures exists id :: id in s.proj.inbox && TxOf(s.outbox, id) == t {
      var id :| id in s.proj.inbox && id in s.outbox && s.outbox[id].tx == t;
      assert TxOf(s.outbox, id) == t;
    }
    RenameBoth(s, payloads, txs, k, byLedger);
  }

  lemma RenameBoth(s: Sys, payloads: Payloads, txs: set<Id>, k: Key, byLedger: bool)
    requires forall id :: id in s.proj.inbox ==>
               && TxOf(s.outbox, id) in txs
               && PartOf(payloads, id, k, byLedger) == DayPart(s.journal, TxOf(s.outbox, id), k, byLedger)
    requires forall t :: t in txs ==> exists id :: id in s.proj.inbox && TxOf(s.outbox, id) == t
    requires forall a, b :: a in s.proj.inbox && b in s.proj.inbox && TxOf(s.outbox, a) == TxOf(s.outbox, b) ==> a == b
    ensures TotalOf(payloads, s.proj.inbox, k, byLedger) == JournalTotals(s.journal, txs, k, byLedger)
  {
    hide PartOf, DayPart, TxOf;
    var event := id => TxOf(s.outbox, id);
    forall t | t in txs ensures exists id :: id in s.proj.inbox && event(id) == t {
      var id :| id in s.proj.inbox && TxOf(s.outbox, id) == t;
      assert event(id) == t;
    }
    SumRename(s.proj.inbox, txs, event,
              t => DayPart(s.journal, t, k, byLedger).debit, id => PartOf(payloads, id, k, byLedger).debit);
    SumRename(s.proj.inbox, txs, event,
              t => DayPart(s.journal, t, k, byLedger).credit, id => PartOf(payloads, id, k, byLedger).credit);
  }

  /** Every aggregate, at any moment of any run, is the journal's own sum over the
      postings applied so far, each counted once. */
  lemma TotalsAreJournalTotals(now: int, run: seq<Action>, k: Key)
    requires IsRun(Start(now), run)
    ensures var s := Reach(now, run);
            && Get(s.proj.accounts, k) == JournalTotals(s.journal, ProjectedTxs(s), k, false)
            && Get(s.proj.ledgers, k) == JournalTotals(s.journal, ProjectedTxs(s), k, true)
  {
    hide TotalOf, JournalTotals, PayloadsOf, LinksOk, Touched;
    PipelineSafety(now, run);
    var s := Reach(now, run);
    SameTotals(s, k, false);
    SameTotals(s, k, true);
  }

  /** The inbox row is the proof of projection: an event is marked exactly when its
      transaction is among those the totals sum over, and the mark stays. */
  lemma MarkedIffCounted(now: int, run: seq<Action>, more: seq<Action>, id: Id)
    requires IsRun(Start(now), run) && IsRun(Reach(now, run), more) && id in Reach(now, run).outbox
    ensures var s := Reach(now, run); id in s.proj.inbox <==> s.outbox[id].tx in ProjectedTxs(s)
    ensures id in Reach(now, run).proj.inbox ==> id in After(Reach(now, run), more).proj.inbox
  {
    ReachInv(now, run);
    InboxGrows(Reach(now, run), more);
    hide Exact, PayloadsOf, PublishersOk, BrokerOk, ProcessedOk, LeasesOk, Balanced, Published;
    var s := Reach(now, run);
    if s.outbox[id].tx in ProjectedTxs(s) {
      var other :| other in s.proj.inbox && other in s.outbox && s.outbox[other].tx == s.outbox[id].tx;
      assert other == id;
    }
  }

  lemma {:induction false} InboxGrows(s: Sys, run: seq<Action>)
    requires IsRun(s, run)
    ensures s.proj.inbox <= After(s, run).proj.inbox
    decreases |run|
  {
    hide Enabled;
    if run != [] {
      InboxGrows(s, run[..|run| - 1]);
      StepInboxGrows(After(s, run[..|run| - 1]), run[|run| - 1]);
    }
  }

  lemma StepInboxGrows(s: Sys, a: Action)
    requires Enabled(s, a)
    ensures s.proj.inbox <= Step(s, a).proj.inbox
  {
    hide ApplyAll;
    if a.Apply? {
      InboxIs(s.proj, a.batch);
    }
  }

  /** Once the consumer has seen every event, the totals are the raw journal's. */
  lemma DrainedTotalsAreTheJournal(now: int, run: seq<Action>, k: Key)
    requires IsRun(Start(now), run) && Reach(now, run).proj.inbox == Reach(now, run).outbox.Keys
    ensures var s := Reach(now, run);
            && Get(s.proj.accounts, k) == JournalTotals(s.journal, s.journal.Keys, k, false)
            && Get(s.proj.ledgers, k) == JournalTotals(s.journal, s.journal.Keys, k, true)
  {
    TotalsAreJournalTotals(now, run, k);
    PipelineSafety(now, run);
    var s := Reach(now, run);
    EveryTxProjected(s);
  }

  lemma EveryTxProjected(s: Sys)
    requires LinksOk(s.journal, s.outbox) && s.proj.inbox == s.outbox.Keys
    ensures ProjectedTxs(s) == s.journal.Keys
  {
    hide Balanced;
    EveryTxHasEvent(s.journal, s.outbox);
    forall t | t in s.journal ensures t in ProjectedTxs(s) {
      var id :| id in s.outbox && s.outbox[id].tx == t;
    }
  }

  /** Double entry survives aggregation: a ledger's day always balances. */
  lemma LedgerDaysBalance(now: int, run: seq<Action>, k: Key)
    requires IsRun(Start(now), run)
    ensures Get(Reach(now, run).proj.ledgers, k).debit == Get(Reach(now, run).proj.ledgers, k).credit
  {
    TotalsAreJournalTotals(now, run, k);
    ReachInv(now, run);
    var s := Reach(now, run);
    hide Exact, PayloadsOf, PublishersOk, BrokerOk, ProcessedOk, LeasesOk;
    SumCong(ProjectedTxs(s), t => DayPart(s.journal, t, k, true).debit, t => DayPart(s.journal, t, k, true).credit);
  }

  // ----------------------------------------------------------------- nothing is lost

  ghost predicate Drained(s: Sys)
  {
    && s.proj.inbox == s.outbox.Keys
    && forall id :: id in s.outbox ==> s.outbox[id].status.Processed?
  }

  lemma Extend(s: Sys, run: seq<Action>, a: Action)
    requires IsRun(s, run) && Enabled(After(s, run), a)
    ensures IsRun(s, run + [a]) && After(s, run + [a]) == Step(After(s, run), a)
  {
    hide Enabled, Step;
    assert (run + [a])[..|run|] == run;
  }

  lemma {:induction false} Bound(s: set<int>) returns (b: int)
    ensures forall x :: x in s ==> x <= b
    decreases |s|
  {
    b := 0;
    if s != {} {
      HasElement(s);
      var x :| x in s;
      b := Bound(s - {x});
      b := if b < x then x else b;
      assert forall y :: y in s ==> y == x || y in s - {x};
    }
  }

  lemma {:induction false} Listing(s: set<Event>) returns (es: seq<Event>)
    ensures forall e :: e in es <==> e in s
    decreases |s|
  {
    es := [];
    if s != {} {
      var x :| x in s;
      es := Listing(s - {x});
      es := es + [x];
    }
  }

  /** Far enough ahead, every row is due or can be freed. */
  lemma QuietTime(s: Sys) returns (t: int)
    ensures s.now <= t
    ensures forall id :: id in s.outbox ==> s.outbox[id].available <= t
    ensures forall id :: id in s.outbox && s.outbox[id].expires.Some? ==> s.outbox[id].expires.value <= t
  {
    var times := set id | id in s.outbox :: s.outbox[id].available;
    var ends := set id | id in s.outbox && s.outbox[id].expires.Some? :: s.outbox[id].expires.value;
    var a := Bound(times);
    var b := Bound(ends);
    assert forall id :: id in s.outbox ==> s.outbox[id].available in times;
    assert forall id :: id in s.outbox && s.outbox[id].expires.Some? ==> s.outbox[id].expires.value in ends;
    t := s.now;
    if t < a { t := a; }
    if t < b { t := b; }
  }

  ghost function Waiting(s: Sys): set<Id>
  {
    set id | id in s.outbox && !s.outbox[id].status.Processed?
  }

  /** Every row not yet processed is due. */
  ghost predicate AllDue(s: Sys)
  {
    forall id :: id in s.outbox ==> s.outbox[id].status.Processed? || Due(s.outbox[id], s.now)
  }

  lemma Freeing(s: Sys) returns (run: seq<Action>)
    requires Core(s)
    ensures IsRun(s, run) && AllDue(After(s, run)) && After(s, run).journal == s.journal
  {
    hide Exact, PayloadsOf, LinksOk, BrokerOk, PublishersOk, ProcessedOk, Published;
    var t := QuietTime(s);
    run := [];
    Extend(s, run, Tick(t));
    run := run + [Tick(t)];
    var s1 := After(s, run);
    Extend(s, run, ExpireLeases);
    run := run + [ExpireLeases];
  }

  /** One publisher takes everything that is due and publishes it. */
  lemma Publishing(s: Sys, run0: seq<Action>) returns (run: seq<Action>)
    requires Inv(s) && IsRun(s, run0) && AllDue(After(s, run0))
    ensures IsRun(s, run) && After(s, run).journal == After(s, run0).journal
    ensures forall id :: id in After(s, run).outbox ==> After(s, run).outbox[id].status.Processed?
  {
    hide Exact, PayloadsOf, LinksOk, BrokerOk, ProcessedOk, Published, PublishersOk, LeasesOk, Step, Enabled;
    var s0 := After(s, run0);
    RunKeeps(s, run0);
    var b := Bound(s0.publishers.Keys);
    var o := b + 1;
    ClaimsAll(s0, o);
    run := Act(s, run0, Claim(o, Waiting(s0)));
    HydratesAll(After(s, run), o);
    run := Act(s, run, Hydrate(o));
    StoresAll(After(s, run), o);
    run := Act(s, run, Store(o, After(s, run).publishers[o].events.Keys));
    AcknowledgesAll(After(s, run), o);
    run := Act(s, run, Acknowledge(o, After(s, run).publishers[o].events.Keys));
    RunKeeps(s, run);
    CompletesAll(After(s, run), o);
    run := Act(s, run, Complete(o));
  }

  lemma Act(s: Sys, run0: seq<Action>, a: Action) returns (run: seq<Action>)
    requires IsRun(s, run0) && Enabled(After(s, run0), a)
    ensures IsRun(s, run) && After(s, run) == Step(After(s, run0), a)
  {
    Extend(s, run0, a);
    run := run0 + [a];
  }

  /** Rows not processed all belong to `o`. */
  ghost predicate Holds(s: Sys, o: Id)
  {
    && o in s.publishers
    && forall id :: id in s.outbox && !s.outbox[id].status.Processed? ==> s.outbox[id].owner == Some(o)
  }

  lemma ClaimsAll(s: Sys, o: Id)
    requires AllDue(s) && o !in s.publishers
    ensures Enabled(s, Claim(o, Waiting(s)))
    ensures var s' := Step(s, Claim(o, Waiting(s)));
            s'.journal == s.journal && Holds(s', o) && s'.publishers[o].phase.Claimed?
  {
  }

  lemma HydratesAll(s: Sys, o: Id)
    requires Holds(s, o) && s.publishers[o].phase.Claimed?
    ensures Enabled(s, Hydrate(o))
    ensures var s' := Step(s, Hydrate(o));
            s'.journal == s.journal && Holds(s', o) && s'.publishers[o].phase.Hydrated?
  {
    hide PayloadsOf;
  }

  lemma StoresAll(s: Sys, o: Id)
    requires Holds(s, o) && s.publishers[o].phase.Hydrated?
    ensures Enabled(s, Store(o, s.publishers[o].events.Keys))
    ensures var s' := Step(s, Store(o, s.publishers[o].events.Keys));
            && s'.journal == s.journal && Holds(s', o) && s'.publishers[o].phase.Hydrated?
            && s'.publishers[o].events.Keys <= s'.publishers[o].stored
  {
  }

  lemma AcknowledgesAll(s: Sys, o: Id)
    requires Holds(s, o) && s.publishers[o].phase.Hydrated? && s.publishers[o].events.Keys <= s.publishers[o].stored
    ensures Enabled(s, Acknowledge(o, s.publishers[o].events.Keys))
    ensures var s' := Step(s, Acknowledge(o, s.publishers[o].events.Keys));
            && s'.journal == s.journal && Holds(s', o) && s'.publishers[o].phase.Hydrated?
            && s'.publishers[o].events.Keys <= s'.publishers[o].acked
  {
  }

  lemma CompletesAll(s: Sys, o: Id)
    requires Core(s) && Holds(s, o) && s.publishers[o].phase.Hydrated?
    requires s.publishers[o].events.Keys <= s.publishers[o].acked
    ensures Enabled(s, Complete(o))
    ensures var s' := Step(s, Complete(o));
            s'.journal == s.journal && forall id :: id in s'.outbox ==> s'.outbox[id].status.Processed?
  {
    hide Exact, PayloadsOf, LinksOk, BrokerOk, ProcessedOk, Published, PublishersOk;
  }

  lemma AppliesAll(s: Sys, batch: seq<Event>)
    requires Inv(s) && (forall id :: id in s.outbox ==> s.outbox[id].status.Processed?)
    requires forall e :: e in batch <==> e in s.broker
    ensures Enabled(s, Apply(batch)) && Step(s, Apply(batch)).journal == s.journal && Drained(Step(s, Apply(batch)))
  {
    hide Exact, PayloadsOf, PublishersOk, LeasesOk, ApplyAll, Balanced;
    InboxIs(s.proj, batch);
    PayloadKeys(s.journal, s.outbox);
    forall id | id in s.outbox ensures id in Ids(batch) {
      assert id in Published(s.broker);
      var e :| e in s.broker && e.id == id;
      assert e in batch;
    }
    assert forall id :: id in s.proj.inbox + Ids(batch) ==> id in Published(s.broker);
  }

  /** No committed event is ever lost: from every state any run can reach, however
      many publishers have crashed holding leases, there is a continuation without
      new postings that publishes and applies everything outstanding. */
  lemma NothingIsLost(now: int, run: seq<Action>) returns (more: seq<Action>)
    requires IsRun(Start(now), run)
    ensures IsRun(Reach(now, run), more)
    ensures Drained(After(Reach(now, run), more)) && After(Reach(now, run), more).journal == Reach(now, run).journal
  {
    hide Inv, Enabled, Step;
    ReachInv(now, run);
    var s := Reach(now, run);
    more := Freeing(s);
    more := Publishing(s, more);
    RunKeeps(s, more);
    var batch := Listing(After(s, more).broker);
    AppliesAll(After(s, more), batch);
    more := Act(s, more, Apply(batch));
  }
}
