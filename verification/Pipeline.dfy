/** From a committed posting to the daily totals: outbox rows are leased to
    publishers, published at least once to a broker that keeps every message, and
    applied by a consumer whose inbox absorbs repetition. A publisher that crashes
    is one that takes no further step. */
module Pipeline {
  import opened Domain
  import opened Projection

  datatype Status = Pending | Processing | Processed

  datatype Row = Row(tx: Id, status: Status, owner: Option<Id>, expires: Option<int>,
                     available: int, attempts: nat, created: int)

  type Journal = map<Id, Transaction>
  type Outbox = map<Id, Row>

  datatype Phase = Claimed | Hydrated | Finished

  /** One call of the publishing routine: the events it read, those the broker
      has stored for it, and those whose acknowledgement came back. */
  datatype Publisher = Publisher(phase: Phase, events: map<Id, Event>, stored: set<Id>, acked: set<Id>)

  type Publishers = map<Id, Publisher>

  datatype Sys = Sys(journal: Journal, outbox: Outbox, publishers: Publishers, broker: set<Event>, proj: Proj, now: int)

  /** Times are in milliseconds. */
  const LEASE := 10_000
  const RETRY_BASE := 100
  const DAY := 86_400_000

  function DayOf(time: int): int
  {
    time / DAY
  }

  /** The moment lies in the d-th UTC day of 24 hours since the epoch. */
  predicate OnDay(time: int, d: int)
  {
    d * 86_400_000 <= time < (d + 1) * 86_400_000
  }

  /** Every moment lies in exactly one day, and that is the one its totals go to. */
  lemma DayIs(time: int, d: int)
    ensures DayOf(time) == d <==> OnDay(time, d)
  {
  }

  // ------------------------------------------------------------- outbox statements

  function RetryDelay(attempts: nat): nat
  {
    RETRY_BASE * Pow2(if attempts < 8 then attempts else 8)
  }

  /** A tenth of a second, doubled by every earlier attempt up to the eighth. */
  lemma RetryDelays(attempts: nat)
    ensures RetryDelay(0) == 100 && RetryDelay(1) == 200 && RetryDelay(2) == 400 && RetryDelay(3) == 800
    ensures RetryDelay(4) == 1_600 && RetryDelay(5) == 3_200 && RetryDelay(6) == 6_400 && RetryDelay(7) == 12_800
    ensures attempts >= 8 ==> RetryDelay(attempts) == 25_600
  {
    assert Pow2(0) == 1 && Pow2(1) == 2 && Pow2(2) == 4 && Pow2(3) == 8 && Pow2(4) == 16;
    assert Pow2(5) == 32 && Pow2(6) == 64 && Pow2(7) == 128 && Pow2(8) == 256;
  }

  function Freed(r: Row): Row
  {
    r.(status := Pending, owner := None, expires := None)
  }

  function Delivered(r: Row): Row
  {
    r.(status := Processed, attempts := r.attempts + 1, owner := None, expires := None)
  }

  function Delayed(r: Row, now: int): Row
  {
    r.(status := Pending, attempts := r.attempts + 1, available := now + RetryDelay(r.attempts),
       owner := None, expires := None)
  }

  predicate Lapsed(r: Row, now: int)
  {
    r.status.Processing? && r.expires.Some? && r.expires.value <= now
  }

  predicate Due(r: Row, now: int)
  {
    r.status.Pending? && r.available <= now
  }

  function Expire(outbox: Outbox, now: int): Outbox
  {
    map id | id in outbox :: if Lapsed(outbox[id], now) then Freed(outbox[id]) else outbox[id]
  }

  function Lease(outbox: Outbox, owner: Id, chosen: set<Id>, now: int): Outbox
  {
    map id | id in outbox ::
      if id in chosen then outbox[id].(status := Processing, owner := Some(owner), expires := Some(now + LEASE))
      else outbox[id]
  }

  /** Both updates of the completing statement carry the owner condition. */
  function Settle(outbox: Outbox, owner: Id, succeeded: set<Id>, failed: set<Id>, now: int): Outbox
  {
    map id | id in outbox ::
      var r := outbox[id];
      if r.owner == Some(owner) && id in succeeded then Delivered(r)
      else if r.owner == Some(owner) && id in failed then Delayed(r, now)
      else r
  }

  function Release(outbox: Outbox, owner: Id): Outbox
  {
    map id | id in outbox :: if outbox[id].owner == Some(owner) then Freed(outbox[id]) else outbox[id]
  }

  function Owned(outbox: Outbox, owner: Id): set<Id>
  {
    set id | id in outbox && outbox[id].owner == Some(owner)
  }

  /** The message for one outbox row, joined from the journal. */
  function EventOf(t: Transaction, id: Id): Event
  {
    Event(id, POSTED, t.id, t.ledger, DayOf(t.time), t.entries)
  }

  function PayloadsOf(journal: Journal, outbox: Outbox): Payloads
  {
    map id | id in outbox && outbox[id].tx in journal :: EventOf(journal[outbox[id].tx], id)
  }

  function Restrict(payloads: Payloads, ids: set<Id>): map<Id, Event>
  {
    map id | id in payloads && id in ids :: payloads[id]
  }

  function Published(broker: set<Event>): set<Id>
  {
    set e | e in broker :: e.id
  }

  // --------------------------------------------------------------------- the steps

  datatype Action =
    | Commit(tx: Transaction, event: Id)
    | Tick(time: int)
    | ExpireLeases
    | Claim(owner: Id, chosen: set<Id>)
    | Hydrate(owner: Id)
    | Store(owner: Id, ids: set<Id>)
    | Acknowledge(owner: Id, ids: set<Id>)
    | Complete(owner: Id)
    | GiveUp(owner: Id)
    | Apply(batch: seq<Event>)

  ghost predicate Enabled(s: Sys, a: Action)
  {
    match a
    case Commit(tx, event) => tx.id !in s.journal && event !in s.outbox && Balanced(tx.entries)
    case Tick(time) => s.now <= time
    case ExpireLeases => true
    case Claim(owner, chosen) =>
      owner !in s.publishers && forall id :: id in chosen ==> id in s.outbox && Due(s.outbox[id], s.now)
    case Hydrate(owner) => owner in s.publishers && s.publishers[owner].phase.Claimed?
    case Store(owner, ids) =>
      owner in s.publishers && s.publishers[owner].phase.Hydrated? && ids <= s.publishers[owner].events.Keys
    case Acknowledge(owner, ids) =>
      owner in s.publishers && s.publishers[owner].phase.Hydrated? && ids <= s.publishers[owner].stored
    case Complete(owner) => owner in s.publishers && s.publishers[owner].phase.Hydrated?
    case GiveUp(owner) => owner in s.publishers && s.publishers[owner].phase.Claimed?
    case Apply(batch) => forall e :: e in batch ==> e in s.broker
  }

  function Messages(p: Publisher, ids: set<Id>): set<Event>
    requires ids <= p.events.Keys
  {
    set id | id in ids :: p.events[id]
  }

  ghost function Step(s: Sys, a: Action): Sys
    requires Enabled(s, a)
  {
    match a
    case Commit(tx, event) =>
      s.(journal := s.journal[tx.id := tx],
         outbox := s.outbox[event := Row(tx.id, Pending, None, None, s.now, 0, s.now)])
    case Tick(time) => s.(now := time)
    case ExpireLeases => s.(outbox := Expire(s.outbox, s.now))
    case Claim(owner, chosen) =>
      s.(outbox := Lease(s.outbox, owner, chosen, s.now),
         publishers := s.publishers[owner := Publisher(Claimed, map[], {}, {})])
    case Hydrate(owner) =>
      var events := Restrict(PayloadsOf(s.journal, s.outbox), Owned(s.outbox, owner));
      s.(publishers := s.publishers[owner := Publisher(Hydrated, events, {}, {})])
    case Store(owner, ids) =>
      var p := s.publishers[owner];
      s.(broker := s.broker + Messages(p, ids), publishers := s.publishers[owner := p.(stored := p.stored + ids)])
    case Acknowledge(owner, ids) =>
      var p := s.publishers[owner];
      s.(publishers := s.publishers[owner := p.(acked := p.acked + ids)])
    case Complete(owner) =>
      var p := s.publishers[owner];
      s.(outbox := Settle(s.outbox, owner, p.acked, p.events.Keys - p.acked, s.now),
         publishers := s.publishers[owner := p.(phase := Finished)])
    case GiveUp(owner) =>
      s.(outbox := Release(s.outbox, owner),
         publishers := s.publishers[owner := s.publishers[owner].(phase := Finished)])
    case Apply(batch) => s.(proj := ApplyAll(s.proj, batch))
  }

  ghost predicate IsRun(s: Sys, run: seq<Action>)
    decreases |run|, 0
  {
    run == [] || (IsRun(s, run[..|run| - 1]) && Enabled(After(s, run[..|run| - 1]), run[|run| - 1]))
  }

  ghost function After(s: Sys, run: seq<Action>): Sys
    requires IsRun(s, run)
    decreases |run|, 1
  {
    if run == [] then s else Step(After(s, run[..|run| - 1]), run[|run| - 1])
  }

  function Start(now: int): Sys
  {
    Sys(map[], map[], map[], {}, NOTHING, now)
  }

  // --------------------------------------------------------------- what every step keeps

  /** Owner and expiry exist exactly while a row is processing, and the owner is a
      publisher still at work which, once it has read its rows, knows this one. */
  ghost predicate LeasesOk(outbox: Outbox, publishers: Publishers)
  {
    && (forall id :: id in outbox ==>
          && (outbox[id].owner.Some? <==> outbox[id].status.Processing?)
          && (outbox[id].expires.Some? <==> outbox[id].status.Processing?))
    && (forall id :: id in outbox && outbox[id].owner.Some? ==>
          var o := outbox[id].owner.value;
          && o in publishers && !publishers[o].phase.Finished?
          && (publishers[o].phase.Hydrated? ==> id in publishers[o].events))
  }

  /** Outbox rows and journal transactions correspond one to one. */
  ghost predicate LinksOk(journal: Journal, outbox: Outbox)
  {
    && (forall t :: t in journal ==> journal[t].id == t && Balanced(journal[t].entries))
    && (forall id :: id in outbox ==> outbox[id].tx in journal)
    && (forall a, b :: a in outbox && b in outbox && outbox[a].tx == outbox[b].tx ==> a == b)
    && |journal| == |outbox|
  }

  ghost predicate PublisherOk(payloads: Payloads, broker: set<Event>, p: Publisher)
  {
    && (forall id :: id in p.events ==> id in payloads && p.events[id] == payloads[id])
    && p.acked <= p.stored <= p.events.Keys
    && (forall id :: id in p.stored ==> p.events[id] in broker)
  }

  ghost predicate PublishersOk(payloads: Payloads, broker: set<Event>, publishers: Publishers)
  {
    forall o :: o in publishers ==> PublisherOk(payloads, broker, publishers[o])
  }

  ghost predicate BrokerOk(payloads: Payloads, broker: set<Event>)
  {
    forall e :: e in broker ==> e.id in payloads && payloads[e.id] == e
  }

  ghost predicate ProcessedOk(outbox: Outbox, broker: set<Event>)
  {
    forall id :: id in outbox && outbox[id].status.Processed? ==> id in Published(broker)
  }

  ghost predicate Core(s: Sys)
  {
    var payloads := PayloadsOf(s.journal, s.outbox);
    && LeasesOk(s.outbox, s.publishers)
    && LinksOk(s.journal, s.outbox)
    && PublishersOk(payloads, s.broker, s.publishers)
    && BrokerOk(payloads, s.broker)
    && ProcessedOk(s.outbox, s.broker)
  }

  /** Statements on the outbox keep every row and the transaction it points at. */
  ghost predicate SameRows(was: Outbox, now: Outbox)
  {
    was.Keys == now.Keys && forall id :: id in was ==> was[id].tx == now[id].tx
  }

  lemma SameRowsKeep(journal: Journal, was: Outbox, now: Outbox)
    requires SameRows(was, now) && LinksOk(journal, was)
    ensures LinksOk(journal, now) && PayloadsOf(journal, now) == PayloadsOf(journal, was)
  {
    hide Balanced;
    assert PayloadsOf(journal, now).Keys == PayloadsOf(journal, was).Keys;
    assert |now| == |now.Keys| == |was.Keys| == |was|;
  }

  /** As many events as transactions, and no two for one: so each transaction has its
      event. */
  lemma EveryTxHasEvent(journal: Journal, outbox: Outbox)
    requires LinksOk(journal, outbox)
    ensures forall t :: t in journal ==> exists id :: id in outbox && outbox[id].tx == t
  {
    hide Balanced;
    var linked := set id | id in outbox.Keys :: outbox[id].tx;
    ImageSize(outbox, outbox.Keys, linked);
    assert linked <= journal.Keys && |journal.Keys - linked| == |journal.Keys| - |linked|;
    forall t | t in journal ensures exists id :: id in outbox && outbox[id].tx == t {
      assert t in linked;
    }
  }

  lemma {:induction false} ImageSize(outbox: Outbox, ids: set<Id>, linked: set<Id>)
    requires ids <= outbox.Keys && linked == set id | id in ids :: outbox[id].tx
    requires forall a, b :: a in ids && b in ids && outbox[a].tx == outbox[b].tx ==> a == b
    ensures |linked| == |ids|
    decreases |ids|
  {
    if ids != {} {
      HasElement(ids);
      var id :| id in ids;
      ImageSize(outbox, ids - {id}, linked - {outbox[id].tx});
    }
  }

  lemma PayloadKeys(journal: Journal, outbox: Outbox)
    requires LinksOk(journal, outbox)
    ensures PayloadsOf(journal, outbox).Keys == outbox.Keys
  {
    hide Balanced;
    assert forall id :: id in outbox <==> id in PayloadsOf(journal, outbox);
  }

  lemma CommitKeeps(s: Sys, tx: Transaction, event: Id)
    requires Core(s) && Enabled(s, Commit(tx, event))
    ensures Core(Step(s, Commit(tx, event)))
  {
    hide Published, PayloadsOf, LinksOk, BrokerOk, Balanced;
    var s' := Step(s, Commit(tx, event));
    var was, now := PayloadsOf(s.journal, s.outbox), PayloadsOf(s'.journal, s'.outbox);
    CommitLinks(s.journal, s.outbox, tx, event, s'.outbox[event]);
    CommitPayloads(s.journal, s.outbox, tx, event, s'.outbox[event]);
    MorePayloads(was, now, s.broker, s.publishers);
  }

  lemma CommitPayloads(journal: Journal, outbox: Outbox, tx: Transaction, event: Id, row: Row)
    requires LinksOk(journal, outbox) && tx.id !in journal && event !in outbox && row.tx == tx.id
    ensures var was, now := PayloadsOf(journal, outbox), PayloadsOf(journal[tx.id := tx], outbox[event := row]);
            forall id :: id in was ==> id in now && now[id] == was[id]
  {
    hide Balanced;
  }

  lemma MorePayloads(was: Payloads, now: Payloads, broker: set<Event>, publishers: Publishers)
    requires forall id :: id in was ==> id in now && now[id] == was[id]
    requires PublishersOk(was, broker, publishers) && BrokerOk(was, broker)
    ensures PublishersOk(now, broker, publishers) && BrokerOk(now, broker)
  {
    forall o | o in publishers ensures PublisherOk(now, broker, publishers[o]) {
      assert PublisherOk(was, broker, publishers[o]);
    }
  }

  lemma CommitLinks(journal: Journal, outbox: Outbox, tx: Transaction, event: Id, row: Row)
    requires LinksOk(journal, outbox) && tx.id !in journal && event !in outbox && Balanced(tx.entries)
    requires row.tx == tx.id
    ensures LinksOk(journal[tx.id := tx], outbox[event := row])
  {
    hide Balanced;
    assert |journal[tx.id := tx]| == |journal| + 1 && |outbox[event := row]| == |outbox| + 1;
  }

  lemma ExpireKeeps(s: Sys)
    requires LeasesOk(s.outbox, s.publishers)
    ensures LeasesOk(Expire(s.outbox, s.now), s.publishers) && SameRows(s.outbox, Expire(s.outbox, s.now))
  {
  }

  lemma LeaseKeeps(outbox: Outbox, publishers: Publishers, owner: Id, chosen: set<Id>, now: int)
    requires LeasesOk(outbox, publishers) && owner !in publishers
    ensures LeasesOk(Lease(outbox, owner, chosen, now), publishers[owner := Publisher(Claimed, map[], {}, {})])
    ensures SameRows(outbox, Lease(outbox, owner, chosen, now))
  {
  }

  /** A publisher that settles everything it read owns nothing afterwards. */
  lemma SettleKeeps(outbox: Outbox, publishers: Publishers, owner: Id, now: int)
    requires LeasesOk(outbox, publishers) && owner in publishers && publishers[owner].phase.Hydrated?
    ensures var p := publishers[owner];
            var outbox' := Settle(outbox, owner, p.acked, p.events.Keys - p.acked, now);
            && LeasesOk(outbox', publishers[owner := p.(phase := Finished)])
            && SameRows(outbox, outbox')
  {
  }

  lemma ReleaseKeeps(outbox: Outbox, publishers: Publishers, owner: Id)
    requires LeasesOk(outbox, publishers) && owner in publishers
    ensures LeasesOk(Release(outbox, owner), publishers[owner := publishers[owner].(phase := Finished)])
    ensures SameRows(outbox, Release(outbox, owner))
  {
  }

  /** Expiry, leasing, settling and releasing. */
  lemma OutboxKeeps(s: Sys, a: Action)
    requires Core(s) && Enabled(s, a) && (a.ExpireLeases? || a.Claim? || a.Complete? || a.GiveUp?)
    ensures Core(Step(s, a))
  {
    hide Published, PayloadsOf, LinksOk, BrokerOk, LeasesOk, SameRows, PublisherOk, ProcessedOk;
    var s' := Step(s, a);
    var payloads := PayloadsOf(s.journal, s.outbox);
    match a {
      case ExpireLeases => ExpireKeeps(s);
      case Claim(owner, chosen) => LeaseKeeps(s.outbox, s.publishers, owner, chosen, s.now);
      case Complete(owner) => SettleKeeps(s.outbox, s.publishers, owner, s.now);
      case GiveUp(owner) => ReleaseKeeps(s.outbox, s.publishers, owner);
    }
    SameRowsKeep(s.journal, s.outbox, s'.outbox);
    PhasesKeep(payloads, s.broker, s.publishers, s'.publishers);
    ProcessedKeep(s, a);
  }

  lemma PhasesKeep(payloads: Payloads, broker: set<Event>, was: Publishers, now: Publishers)
    requires PublishersOk(payloads, broker, was)
    requires forall o :: o in now ==>
               || now[o] == Publisher(Claimed, map[], {}, {})
               || (o in was && now[o].(phase := Claimed) == was[o].(phase := Claimed))
    ensures PublishersOk(payloads, broker, now)
  {
    forall o | o in now ensures PublisherOk(payloads, broker, now[o]) {
      assert o in was ==> PublisherOk(payloads, broker, was[o]);
    }
  }

  lemma ProcessedKeep(s: Sys, a: Action)
    requires Core(s) && Enabled(s, a) && (a.ExpireLeases? || a.Claim? || a.Complete? || a.GiveUp?)
    ensures ProcessedOk(Step(s, a).outbox, s.broker)
  {
    hide Published, PayloadsOf, LinksOk, BrokerOk, LeasesOk;
    if a.Complete? {
      PayloadIds(s.journal, s.outbox);
      AckedArePublished(PayloadsOf(s.journal, s.outbox), s.broker, s.publishers[a.owner]);
    }
  }

  lemma AckedArePublished(payloads: Payloads, broker: set<Event>, p: Publisher)
    requires PublisherOk(payloads, broker, p) && BrokerOk(payloads, broker) && FaithfulIds(payloads)
    ensures p.acked <= Published(broker)
  {
    forall id | id in p.acked ensures id in Published(broker) {
      assert p.events[id] in broker && p.events[id].id == id;
    }
  }

  ghost predicate FaithfulIds(payloads: Payloads)
  {
    forall id :: id in payloads ==> payloads[id].id == id
  }

  lemma PayloadIds(journal: Journal, outbox: Outbox)
    ensures FaithfulIds(PayloadsOf(journal, outbox))
  {
  }

  lemma HydrateKeeps(s: Sys, owner: Id)
    requires Core(s) && Enabled(s, Hydrate(owner))
    ensures Core(Step(s, Hydrate(owner)))
  {
    hide Published, PayloadsOf, BrokerOk;
    PayloadKeys(s.journal, s.outbox);
    assert PublishersOk(PayloadsOf(s.journal, s.outbox), s.broker, Step(s, Hydrate(owner)).publishers);
  }

  lemma StoreKeeps(s: Sys, owner: Id, ids: set<Id>)
    requires Core(s) && Enabled(s, Store(owner, ids))
    ensures Core(Step(s, Store(owner, ids)))
  {
    hide PayloadsOf, LinksOk;
    PayloadIds(s.journal, s.outbox);
    var s' := Step(s, Store(owner, ids));
    var payloads := PayloadsOf(s.journal, s.outbox);
    assert PublisherOk(payloads, s.broker, s.publishers[owner]);
    assert PublisherOk(payloads, s'.broker, s'.publishers[owner]);
    PublishedGrows(s.broker, s'.broker);
  }

  lemma PublishedGrows(was: set<Event>, now: set<Event>)
    requires was <= now
    ensures Published(was) <= Published(now)
  {
    forall id | id in Published(was) ensures id in Published(now) {
      var e :| e in was && e.id == id;
      assert e in now;
    }
  }

  lemma CoreKeeps(s: Sys, a: Action)
    requires Core(s) && Enabled(s, a)
    ensures Core(Step(s, a))
  {
    hide LeasesOk, LinksOk, PayloadsOf, BrokerOk, ProcessedOk, Published;
    match a
    case Commit(tx, event) => CommitKeeps(s, tx, event);
    case Tick(_) =>
    case ExpireLeases => OutboxKeeps(s, a);
    case Claim(_, _) => OutboxKeeps(s, a);
    case Hydrate(owner) => HydrateKeeps(s, owner);
    case Store(owner, ids) => StoreKeeps(s, owner, ids);
    case Acknowledge(owner, ids) => AcknowledgeKeeps(s, owner, ids);
    case Complete(_) => OutboxKeeps(s, a);
    case GiveUp(_) => OutboxKeeps(s, a);
    case Apply(batch) =>
  }

  lemma AcknowledgeKeeps(s: Sys, owner: Id, ids: set<Id>)
    requires Core(s) && Enabled(s, Acknowledge(owner, ids))
    ensures Core(Step(s, Acknowledge(owner, ids)))
  {
    hide PayloadsOf, LinksOk, BrokerOk, Published;
  }

  // ------------------------------------------------------------- acknowledged before done

  /** Some publisher has had the broker's acknowledgement for this event. */
  ghost predicate Acknowledged(publishers: Publishers, id: Id)
  {
    exists o :: o in publishers && id in publishers[o].acked
  }

  /** Only acknowledged events are processed; nobody has acknowledgements before
      reading its rows. */
  ghost predicate AcksOk(outbox: Outbox, publishers: Publishers)
  {
    && (forall o :: o in publishers && publishers[o].phase.Claimed? ==> publishers[o].acked == {})
    && (forall id :: id in outbox && outbox[id].status.Processed? ==> Acknowledged(publishers, id))
  }

  lemma AcksGrow(was: Publishers, now: Publishers, id: Id)
    requires forall o :: o in was ==> o in now && was[o].acked <= now[o].acked
    ensures Acknowledged(was, id) ==> Acknowledged(now, id)
  {
    if Acknowledged(was, id) {
      var o :| o in was && id in was[o].acked;
      assert o in now && id in now[o].acked;
    }
  }

  lemma AcksKeep(s: Sys, a: Action)
    requires AcksOk(s.outbox, s.publishers) && Enabled(s, a)
    ensures AcksOk(Step(s, a).outbox, Step(s, a).publishers)
  {
    hide Acknowledged, PayloadsOf, ApplyAll, Balanced;
    var s' := Step(s, a);
    assert forall o :: o in s.publishers ==> o in s'.publishers && s.publishers[o].acked <= s'.publishers[o].acked;
    forall id | id in s'.outbox && s'.outbox[id].status.Processed? ensures Acknowledged(s'.publishers, id) {
      AcksGrow(s.publishers, s'.publishers, id);
      if a.Complete? && id in s.publishers[a.owner].acked {
        IsAcknowledged(s.publishers, a.owner, id);
      }
    }
  }

  lemma IsAcknowledged(publishers: Publishers, o: Id, id: Id)
    requires o in publishers && id in publishers[o].acked
    ensures Acknowledged(publishers, id)
  {
  }

  // ------------------------------------------------------------------- the projection

  /** The consumer has seen published events only, and its tables are their sums. */
  ghost predicate ProjOk(payloads: Payloads, broker: set<Event>, proj: Proj)
  {
    Exact(payloads, proj) && proj.inbox <= Published(broker)
  }

  lemma ApplyKeeps(payloads: Payloads, broker: set<Event>, proj: Proj, batch: seq<Event>)
    requires ProjOk(payloads, broker, proj) && BrokerOk(payloads, broker)
    requires forall e :: e in batch ==> e in broker
    ensures ProjOk(payloads, broker, ApplyAll(proj, batch))
  {
    hide Exact, ApplyAll;
    ApplyAllExact(payloads, proj, batch);
    InboxIs(proj, batch);
  }

  lemma ProjKeeps(s: Sys, a: Action)
    requires Core(s) && Enabled(s, a) && ProjOk(PayloadsOf(s.journal, s.outbox), s.broker, s.proj)
    ensures var s' := Step(s, a); ProjOk(PayloadsOf(s'.journal, s'.outbox), s'.broker, s'.proj)
  {
    hide Exact, PayloadsOf, LinksOk, LeasesOk, PublishersOk, ProcessedOk, Published, ApplyAll, Balanced;
    var s' := Step(s, a);
    match a
    case Commit(tx, event) =>
      CommitPayloads(s.journal, s.outbox, tx, event, s'.outbox[event]);
      ExactGrows(PayloadsOf(s.journal, s.outbox), PayloadsOf(s'.journal, s'.outbox), s.proj);
    case Store(_, _) => PublishedGrows(s.broker, s'.broker);
    case Apply(batch) => ApplyKeeps(PayloadsOf(s.journal, s.outbox), s.broker, s.proj, batch);
    case ExpireLeases => SamePayloads(s, a);
    case Claim(_, _) => SamePayloads(s, a);
    case Complete(_) => SamePayloads(s, a);
    case GiveUp(_) => SamePayloads(s, a);
    case _ =>
  }

  lemma SamePayloads(s: Sys, a: Action)
    requires Core(s) && Enabled(s, a) && (a.ExpireLeases? || a.Claim? || a.Complete? || a.GiveUp?)
    ensures PayloadsOf(s.journal, Step(s, a).outbox) == PayloadsOf(s.journal, s.outbox)
  {
    hide PayloadsOf, LinksOk, PublishersOk, ProcessedOk, Published, BrokerOk;
    match a {
      case ExpireLeases => ExpireKeeps(s);
      case Claim(owner, chosen) => LeaseKeeps(s.outbox, s.publishers, owner, chosen, s.now);
      case Complete(owner) => SettleKeeps(s.outbox, s.publishers, owner, s.now);
      case GiveUp(owner) => ReleaseKeeps(s.outbox, s.publishers, owner);
    }
    hide LeasesOk, SameRows;
    SameRowsKeep(s.journal, s.outbox, Step(s, a).outbox);
  }

  ghost predicate Inv(s: Sys)
  {
    Core(s) && AcksOk(s.outbox, s.publishers) && ProjOk(PayloadsOf(s.journal, s.outbox), s.broker, s.proj)
  }

  lemma StepKeeps(s: Sys, a: Action)
    requires Inv(s) && Enabled(s, a)
    ensures Inv(Step(s, a))
  {
    hide Core, AcksOk, ProjOk, PayloadsOf, Step, Enabled;
    CoreKeeps(s, a);
    AcksKeep(s, a);
    ProjKeeps(s, a);
  }

  lemma {:induction false} RunKeeps(s: Sys, run: seq<Action>)
    requires Inv(s) && IsRun(s, run)
    ensures Inv(After(s, run))
    decreases |run|
  {
    hide Inv, Enabled, Step;
    if run != [] {
      RunKeeps(s, run[..|run| - 1]);
      StepKeeps(After(s, run[..|run| - 1]), run[|run| - 1]);
    }
  }

  lemma StartInv(now: int)
    ensures Inv(Start(now))
  {
    NothingExact(map[]);
    assert PayloadsOf(map[], map[]) == map[];
  }
}
