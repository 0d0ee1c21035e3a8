/** Waiting for a completion without polling: read, subscribe, read again, then block
    until the key is notified or time runs out. */
module Waiters {
  import opened Domain

  /** A caller may wait under any spelling that parses; notification uses the
      canonical one. */
  type Key = Spelling

  /** Open channels by key; a channel is named by its subscription number. */
  type Registry = map<Key, set<int>>

  function Under(reg: Registry, key: Key): set<int>
  {
    if key in reg then reg[key] else {}
  }

  function Added(reg: Registry, key: Key, id: int): Registry
  {
    reg[key := Under(reg, key) + {id}]
  }

  function Removed(reg: Registry, key: Key, id: int): Registry
  {
    if key !in reg then reg
    else if reg[key] - {id} == {} then reg - {key}
    else reg[key := reg[key] - {id}]
  }

  /** Numbers are at most `next`, no channel is under two keys, registered channels
      are open, no key is left with an empty set, and no channel was closed twice. */
  ghost predicate RegistryOk(reg: Registry, next: int, closed: multiset<int>)
  {
    && (forall k :: k in reg ==> reg[k] != {})
    && (forall k, c {:trigger c in Under(reg, k)} :: c in Under(reg, k) ==> 0 < c <= next && closed[c] == 0)
    && (forall j, k, c :: c in Under(reg, j) && c in Under(reg, k) ==> j == k)
    && (forall c :: closed[c] <= 1)
    && (forall c :: closed[c] > 0 ==> c <= next)
  }

  lemma AddedUnder(reg: Registry, key: Key, id: int)
    ensures forall k :: Under(Added(reg, key, id), k) == if k == key then Under(reg, k) + {id} else Under(reg, k)
  {
  }

  lemma RemovedUnder(reg: Registry, key: Key, id: int)
    ensures forall k :: Under(Removed(reg, key, id), k) == if k == key then Under(reg, k) - {id} else Under(reg, k)
  {
  }

  lemma NotifiedUnder(reg: Registry, key: Key)
    ensures forall k :: Under(reg - {key}, k) == if k == key then {} else Under(reg, k)
  {
  }

  lemma AddedOk(reg: Registry, next: int, closed: multiset<int>, key: Key)
    requires RegistryOk(reg, next, closed) && 0 <= next
    ensures RegistryOk(Added(reg, key, next + 1), next + 1, closed)
  {
    AddedUnder(reg, key, next + 1);
    var reg' := Added(reg, key, next + 1);
    assert forall k :: k in reg' ==> reg'[k] != {};
    hide Under, Added;
  }

  lemma RemovedOk(reg: Registry, next: int, closed: multiset<int>, key: Key, id: int)
    requires RegistryOk(reg, next, closed)
    ensures RegistryOk(Removed(reg, key, id), next, closed)
  {
    RemovedUnder(reg, key, id);
    var reg' := Removed(reg, key, id);
    assert forall k :: k in reg' ==> reg'[k] != {};
    hide Under, Removed;
  }

  lemma NotifiedOk(reg: Registry, next: int, closed: multiset<int>, key: Key)
    requires RegistryOk(reg, next, closed)
    ensures RegistryOk(reg - {key}, next, closed + multiset(Under(reg, key)))
  {
    NotifiedUnder(reg, key);
    assert forall c :: c in Under(reg, key) ==> 0 < c <= next && closed[c] == 0;
    hide Under;
  }

  lemma OneMore(done: set<int>, c: int)
    requires c !in done
    ensures multiset(done + {c}) == multiset(done) + multiset{c}
  {
  }

  class CompletionWaiters {
    var nextId: int
    var waiters: Registry
    var closed: multiset<int>

    ghost predicate Valid()
      reads this
    {
      nextId >= 0 && RegistryOk(waiters, nextId, closed)
    }

    constructor ()
      ensures Valid() && waiters == map[] && closed == multiset{} && nextId == 0
    {
      nextId, waiters, closed := 0, map[], multiset{};
    }

    /** A new open channel under the key. */
    method Subscribe(key: Key) returns (id: int)
      requires Valid()
      modifies this
      ensures Valid() && id == old(nextId) + 1 == nextId && closed == old(closed)
      ensures waiters == Added(old(waiters), key, id) && closed[id] == 0
      ensures forall k :: id !in Under(old(waiters), k)
    {
      AddedOk(waiters, nextId, closed, key);
      nextId := nextId + 1;
      id := nextId;
      if key !in waiters {
        waiters := waiters[key := {}];
      }
      waiters := waiters[key := waiters[key] + {id}];
      assert waiters == Added(old(waiters), key, id);
    }

    /** Forgets one channel without closing it; harmless once notified. */
    method Unsubscribe(key: Key, id: int)
      requires Valid()
      modifies this
      ensures Valid() && nextId == old(nextId) && closed == old(closed)
      ensures waiters == Removed(old(waiters), key, id)
    {
      RemovedOk(waiters, nextId, closed, key, id);
      if key in waiters {
        waiters := waiters[key := waiters[key] - {id}];
        if waiters[key] == {} {
          waiters := waiters - {key};
        }
      }
      assert waiters == Removed(old(waiters), key, id);
    }

    /** Closing an already closed channel is a fault, so it must be open. */
    method Close(id: int)
      requires closed[id] == 0
      modifies this`closed
      ensures closed == old(closed) + multiset{id}
    {
      closed := closed + multiset{id};
    }

    /** Closes exactly the channels under the key, each once, and forgets them. */
    method Notify(key: Key)
      requires Valid()
      modifies this
      ensures Valid() && nextId == old(nextId)
      ensures waiters == old(waiters) - {key}
      ensures closed == old(closed) + multiset(Under(old(waiters), key))
    {
      NotifiedOk(waiters, nextId, closed, key);
      var subscribers := Under(waiters, key);
      ghost var was, all, done := closed, subscribers, {};
      assert forall c :: c in subscribers ==> was[c] == 0;
      hide RegistryOk, Under;
      waiters := waiters - {key};
      while subscribers != {}
        invariant done + subscribers == all && done !! subscribers
        invariant waiters == old(waiters) - {key} && nextId == old(nextId)
        invariant closed == was + multiset(done)
        decreases |subscribers|
      {
        HasElement(subscribers);
        var c :| c in subscribers;
        Close(c);
        OneMore(done, c);
        subscribers, done := subscribers - {c}, done + {c};
      }
    }
  }

  // ------------------------------------------------------------ interleaved waiting

  datatype Stage =
    | FirstRead | Subscribing | SecondRead | Blocked | LastRead | Leaving(complete: bool) | Returned(complete: bool)

  /** A durable completion. A projection is complete for one consumer at a time; a
      transfer is complete for all, so there only one number is used. */
  datatype Done = Done(id: Id, consumer: int)

  /** One caller of waitForCompletion: it waits under a key but reads the state of one
      consumer. `released` is set if anything other than the
      channel or a completed read let it go: a timeout, no time to wait, or a
      failing read. */
  datatype Waiter = Waiter(key: Key, consumer: int, stage: Stage, channel: int, released: bool)

  /** `complete` is durable; `owed` are committed completions whose first notification
      is still to come. */
  datatype World = World(threads: map<int, Waiter>, reg: Registry, next: int, closed: multiset<int>,
                         complete: set<Done>, owed: set<Done>)

  const IDLE := World(map[], map[], 0, multiset{}, {}, {})

  datatype Action =
    | Call(w: int, key: Key, consumer: int)
    | Read(w: int)
    | FailRead(w: int)
    | NoTime(w: int)
    | Subscribe(w: int)
    | Wake(w: int)
    | TimeOut(w: int)
    | Leave(w: int)
    | Commit(ids: set<Id>, consumer: int)
    | Notify(id: Id)

  /** What the waiter is waiting for. */
  function Goal(t: Waiter): Done
  {
    Done(t.key.id, t.consumer)
  }

  ghost predicate SomeDone(complete: set<Done>, id: Id)
  {
    exists c :: Done(id, c) in complete
  }

  ghost predicate OtherDone(complete: set<Done>, goal: Done)
  {
    exists c :: c != goal.consumer && Done(goal.id, c) in complete
  }

  ghost predicate Enabled(s: World, a: Action)
  {
    match a
    case Call(w, _, _) => w !in s.threads
    case Read(w) => w in s.threads && s.threads[w].stage in {FirstRead, SecondRead, LastRead}
    case FailRead(w) => w in s.threads && s.threads[w].stage in {FirstRead, SecondRead, LastRead}
    case NoTime(w) => w in s.threads && s.threads[w].stage == Subscribing
    case Subscribe(w) => w in s.threads && s.threads[w].stage == Subscribing
    case Wake(w) => w in s.threads && s.threads[w].stage == Blocked && s.closed[s.threads[w].channel] > 0
    case TimeOut(w) => w in s.threads && s.threads[w].stage == Blocked
    case Leave(w) => w in s.threads && s.threads[w].stage.Leaving?
    case Commit(_, _) => true
    case Notify(id) => SomeDone(s.complete, id)
  }

  /** Where a read that sees `done` takes a waiter. */
  function Seen(t: Waiter, done: bool): Waiter
  {
    match t.stage
    case FirstRead => t.(stage := if done then Returned(true) else Subscribing)
    case SecondRead => t.(stage := if done then Leaving(true) else Blocked)
    case LastRead => t.(stage := Leaving(done))
    case _ => t
  }

  function Failed(t: Waiter): Waiter
  {
    t.(stage := if t.stage.FirstRead? then Returned(false) else Leaving(false), released := true)
  }

  ghost function Step(s: World, a: Action): World
    requires Enabled(s, a)
  {
    match a
    case Call(w, key, consumer) => s.(threads := s.threads[w := Waiter(key, consumer, FirstRead, 0, false)])
    case Read(w) => s.(threads := s.threads[w := Seen(s.threads[w], Goal(s.threads[w]) in s.complete)])
    case FailRead(w) => s.(threads := s.threads[w := Failed(s.threads[w])])
    case NoTime(w) => s.(threads := s.threads[w := s.threads[w].(stage := Returned(false), released := true)])
    case Subscribe(w) =>
      s.(reg := Added(s.reg, s.threads[w].key, s.next + 1), next := s.next + 1,
         threads := s.threads[w := s.threads[w].(stage := SecondRead, channel := s.next + 1)])
    case Wake(w) => s.(threads := s.threads[w := s.threads[w].(stage := LastRead)])
    case TimeOut(w) => s.(threads := s.threads[w := s.threads[w].(stage := LastRead, released := true)])
    case Leave(w) =>
      var t := s.threads[w];
      s.(reg := Removed(s.reg, t.key, t.channel), threads := s.threads[w := t.(stage := Returned(t.stage.complete))])
    case Commit(ids, consumer) =>
      var done := set id | id in ids :: Done(id, consumer);
      s.(complete := s.complete + done, owed := s.owed + done)
    case Notify(id) =>
      s.(reg := s.reg - {Standard(id)}, closed := s.closed + multiset(Under(s.reg, Standard(id))),
         owed := set d | d in s.owed && d.id != id)
  }

  ghost predicate IsRun(run: seq<Action>)
    decreases |run|, 0
  {
    run == [] || (IsRun(run[..|run| - 1]) && Enabled(After(run[..|run| - 1]), run[|run| - 1]))
  }

  ghost function After(run: seq<Action>): World
    requires IsRun(run)
    decreases |run|, 1
  {
    if run == [] then IDLE else Step(After(run[..|run| - 1]), run[|run| - 1])
  }

  predicate Subscribed(t: Waiter)
  {
    t.stage.SecondRead? || t.stage.Blocked? || t.stage.LastRead? || t.stage.Leaving?
  }

  /** A subscribed waiter's channel is its own; it is registered under its key, and
      only there, exactly while it is open; it was closed only by a notification of its
      own identifier, which some consumer had completed. */
  ghost predicate ChannelOk(t: Waiter, reg: Registry, next: int, closed: multiset<int>, complete: set<Done>)
  {
    Subscribed(t) ==>
      && 0 < t.channel <= next
      && (closed[t.channel] == 0 ==> t.channel in Under(reg, t.key))
      && (closed[t.channel] > 0 ==> t.key == Standard(t.key.id) && SomeDone(complete, t.key.id))
      && (forall k :: t.channel in Under(reg, k) ==> k == t.key)
  }

  /** A blocked canonical waiter with an open channel is still waiting for its completion
      or for a notification that is owed. One on its way out empty-handed was released,
      or woken for another consumer's completion. */
  ghost predicate ProgressOk(t: Waiter, closed: multiset<int>, complete: set<Done>, owed: set<Done>)
  {
    && (t.stage.Blocked? && t.key == Standard(t.key.id) && closed[t.channel] == 0 ==>
          Goal(t) !in complete || Goal(t) in owed)
    && ((t.stage.Leaving? || t.stage.Returned?) && !t.stage.complete ==> t.released || OtherDone(complete, Goal(t)))
    && ((t.stage.Leaving? || t.stage.Returned?) && t.stage.complete ==> Goal(t) in complete)
    && (t.stage.LastRead? && !t.released ==> SomeDone(complete, t.key.id))
  }

  ghost predicate ThreadsOk(threads: map<int, Waiter>, reg: Registry, next: int, closed: multiset<int>,
                            complete: set<Done>, owed: set<Done>)
  {
    && (forall w :: w in threads ==> ChannelOk(threads[w], reg, next, closed, complete))
    && (forall w :: w in threads ==> ProgressOk(threads[w], closed, complete, owed))
    && (forall v, w :: v in threads && w in threads && v != w && Subscribed(threads[v]) && Subscribed(threads[w]) ==>
          threads[v].channel != threads[w].channel)
  }

  /** Every registered channel still has its waiter: nothing is leaked. */
  ghost predicate NoLeak(threads: map<int, Waiter>, reg: Registry)
  {
    forall k, c :: c in Under(reg, k) ==>
      exists w :: w in threads && Subscribed(threads[w]) && threads[w].key == k && threads[w].channel == c
  }

  ghost predicate Inv(s: World)
  {
    && s.next >= 0
    && RegistryOk(s.reg, s.next, s.closed)
    && s.owed <= s.complete
    && ThreadsOk(s.threads, s.reg, s.next, s.closed, s.complete, s.owed)
    && NoLeak(s.threads, s.reg)
  }

  lemma SubscribeThreads(s: World, w: int)
    requires Inv(s) && Enabled(s, Subscribe(w))
    ensures var s' := Step(s, Subscribe(w)); ThreadsOk(s'.threads, s'.reg, s'.next, s'.closed, s'.complete, s'.owed)
  {
    AddedUnder(s.reg, s.threads[w].key, s.next + 1);
    hide Under, Added, NoLeak;
  }

  lemma SubscribeKeeps(s: World, w: int)
    requires Inv(s) && Enabled(s, Subscribe(w))
    ensures Inv(Step(s, Subscribe(w)))
  {
    hide Under, Added, ThreadsOk, RegistryOk;
    var s' := Step(s, Subscribe(w));
    var key := s.threads[w].key;
    AddedOk(s.reg, s.next, s.closed, key);
    AddedUnder(s.reg, key, s.next + 1);
    SubscribeThreads(s, w);
    forall k, c | c in Under(s'.reg, k)
      ensures exists v ::
                v in s'.threads && Subscribed(s'.threads[v]) && s'.threads[v].key == k && s'.threads[v].channel == c
    {
      if c == s.next + 1 && k == key {
        assert s'.threads[w].channel == c;
      } else {
        var v :| v in s.threads && Subscribed(s.threads[v]) && s.threads[v].key == k && s.threads[v].channel == c;
        assert s'.threads[v] == s.threads[v];
      }
    }
  }

  lemma LeaveKeeps(s: World, w: int)
    requires Inv(s) && Enabled(s, Leave(w))
    ensures Inv(Step(s, Leave(w)))
  {
    var s' := Step(s, Leave(w));
    var t := s.threads[w];
    RemovedOk(s.reg, s.next, s.closed, t.key, t.channel);
    RemovedUnder(s.reg, t.key, t.channel);
    hide Under, Removed;
    assert ThreadsOk(s'.threads, s'.reg, s'.next, s'.closed, s'.complete, s'.owed);
    forall k, c | c in Under(s'.reg, k)
      ensures exists v ::
                v in s'.threads && Subscribed(s'.threads[v]) && s'.threads[v].key == k && s'.threads[v].channel == c
    {
      var v :| v in s.threads && Subscribed(s.threads[v]) && s.threads[v].key == k && s.threads[v].channel == c;
      assert s'.threads[v] == s.threads[v];
    }
  }

  lemma NotifyKeeps(s: World, id: Id)
    requires Inv(s) && Enabled(s, Notify(id))
    ensures Inv(Step(s, Notify(id)))
  {
    var s' := Step(s, Notify(id));
    NotifiedOk(s.reg, s.next, s.closed, Standard(id));
    NotifiedUnder(s.reg, Standard(id));
    hide Under;
    assert NoLeak(s'.threads, s'.reg);
  }

  /** Steps that only move one waiter along. */
  lemma MoveKeeps(s: World, w: int, t: Waiter)
    requires Inv(s) && w in s.threads && t.key == s.threads[w].key && t.channel == s.threads[w].channel
    requires Subscribed(t) <==> Subscribed(s.threads[w])
    requires ProgressOk(t, s.closed, s.complete, s.owed)
    ensures Inv(s.(threads := s.threads[w := t]))
  {
    hide Under, RegistryOk;
    var threads := s.threads[w := t];
    assert ThreadsOk(threads, s.reg, s.next, s.closed, s.complete, s.owed);
    forall k, c | c in Under(s.reg, k)
      ensures exists v :: v in threads && Subscribed(threads[v]) && threads[v].key == k && threads[v].channel == c
    {
      var v :| v in s.threads && Subscribed(s.threads[v]) && s.threads[v].key == k && s.threads[v].channel == c;
      assert threads[v].channel == c;
    }
  }

  lemma CallKeeps(s: World, w: int, key: Key, consumer: int)
    requires Inv(s) && w !in s.threads
    ensures Inv(Step(s, Call(w, key, consumer)))
  {
    hide Under, RegistryOk;
    var s' := Step(s, Call(w, key, consumer));
    forall k, c | c in Under(s.reg, k)
      ensures exists v ::
                v in s'.threads && Subscribed(s'.threads[v]) && s'.threads[v].key == k && s'.threads[v].channel == c
    {
      var v :| v in s.threads && Subscribed(s.threads[v]) && s.threads[v].key == k && s.threads[v].channel == c;
      assert s'.threads[v] == s.threads[v];
    }
  }

  lemma CommitKeeps(s: World, ids: set<Id>, consumer: int)
    requires Inv(s)
    ensures Inv(Step(s, Commit(ids, consumer)))
  {
    hide Under, RegistryOk, NoLeak, SomeDone, OtherDone;
    var s' := Step(s, Commit(ids, consumer));
    forall w | w in s.threads
      ensures ChannelOk(s'.threads[w], s'.reg, s'.next, s'.closed, s'.complete)
      ensures ProgressOk(s'.threads[w], s'.closed, s'.complete, s'.owed)
    {
      assert ChannelOk(s.threads[w], s.reg, s.next, s.closed, s.complete);
      assert ProgressOk(s.threads[w], s.closed, s.complete, s.owed);
      StaysDone(s.complete, s'.complete, Goal(s.threads[w]));
    }
  }

  lemma StaysDone(was: set<Done>, now: set<Done>, goal: Done)
    requires was <= now
    ensures SomeDone(was, goal.id) ==> SomeDone(now, goal.id)
    ensures OtherDone(was, goal) ==> OtherDone(now, goal)
  {
    if SomeDone(was, goal.id) {
      var c :| Done(goal.id, c) in was;
      assert Done(goal.id, c) in now;
    }
    if OtherDone(was, goal) {
      var c :| c != goal.consumer && Done(goal.id, c) in was;
      assert Done(goal.id, c) in now;
    }
  }

  /** Not its own completion, so another's. */
  lemma SomeoneElse(complete: set<Done>, goal: Done)
    requires SomeDone(complete, goal.id) && goal !in complete
    ensures OtherDone(complete, goal)
  {
    var c :| Done(goal.id, c) in complete;
    assert c != goal.consumer;
  }

  lemma ReadKeeps(s: World, w: int)
    requires Inv(s) && Enabled(s, Read(w))
    ensures Inv(Step(s, Read(w)))
  {
    hide RegistryOk, NoLeak, Under, SomeDone, OtherDone;
    var t := s.threads[w];
    assert ProgressOk(t, s.closed, s.complete, s.owed);
    if t.stage.LastRead? && !t.released && Goal(t) !in s.complete {
      SomeoneElse(s.complete, Goal(t));
    }
    MoveKeeps(s, w, Seen(t, Goal(t) in s.complete));
  }

  lemma StepKeeps(s: World, a: Action)
    requires Inv(s) && Enabled(s, a)
    ensures Inv(Step(s, a))
  {
    hide RegistryOk, NoLeak, Under, SomeDone, OtherDone;
    match a
    case Call(w, key, consumer) => CallKeeps(s, w, key, consumer);
    case Read(w) => ReadKeeps(s, w);
    case FailRead(w) => MoveKeeps(s, w, Failed(s.threads[w]));
    case NoTime(w) => MoveKeeps(s, w, s.threads[w].(stage := Returned(false), released := true));
    case Subscribe(w) => SubscribeKeeps(s, w);
    case Wake(w) => MoveKeeps(s, w, s.threads[w].(stage := LastRead));
    case TimeOut(w) => MoveKeeps(s, w, s.threads[w].(stage := LastRead, released := true));
    case Leave(w) => LeaveKeeps(s, w);
    case Commit(ids, consumer) => CommitKeeps(s, ids, consumer);
    case Notify(id) => NotifyKeeps(s, id);
  }

  lemma {:induction false} RunKeeps(run: seq<Action>)
    requires IsRun(run)
    ensures Inv(After(run))
    decreases |run|
  {
    hide Enabled, Step;
    if run != [] {
      hide Inv;
      RunKeeps(run[..|run| - 1]);
      StepKeeps(After(run[..|run| - 1]), run[|run| - 1]);
    }
  }

  /** No lost wakeup, and exactly when: once the completion is durable and notified, a
      blocked waiter's channel is closed if and only if it waits under the canonical
      spelling. Under any other spelling it stays blocked until it times out. */
  lemma WokenIffCanonical(run: seq<Action>, w: int)
    requires IsRun(run) && w in After(run).threads && After(run).threads[w].stage == Blocked
    requires Goal(After(run).threads[w]) in After(run).complete - After(run).owed
    ensures Enabled(After(run), Wake(w)) <==> After(run).threads[w].key == Standard(After(run).threads[w].key.id)
  {
    RunKeeps(run);
    hide SomeDone, OtherDone;
    var s := After(run);
    assert ChannelOk(s.threads[w], s.reg, s.next, s.closed, s.complete);
    assert ProgressOk(s.threads[w], s.closed, s.complete, s.owed);
  }

  /** No channel is closed twice, none is closed before some consumer's completion of its
      identifier is durable, and none outlives its waiter in the registry. */
  lemma ChannelsAreSafe(run: seq<Action>)
    requires IsRun(run)
    ensures forall c :: After(run).closed[c] <= 1
    ensures forall w :: w in After(run).threads && Enabled(After(run), Wake(w)) ==>
              SomeDone(After(run).complete, After(run).threads[w].key.id)
    ensures NoLeak(After(run).threads, After(run).reg)
  {
    RunKeeps(run);
    hide SomeDone, OtherDone;
  }

  /** Whichever of the three reads first sees the completion settles the answer; one that
      does not see it leads on to subscribing, to blocking, and at last to leaving. */
  lemma ReadDecides(s: World, w: int)
    requires Enabled(s, Read(w))
    ensures w in Step(s, Read(w)).threads
    ensures var was, now := s.threads[w], Step(s, Read(w)).threads[w].stage;
            if Done(was.key.id, was.consumer) in s.complete then
              now == if was.stage == FirstRead then Returned(true) else Leaving(true)
            else
              now == if was.stage == FirstRead then Subscribing
                     else if was.stage == SecondRead then Blocked else Leaving(false)
  {
  }

  /** A waiter reports completion only when it is durable for its own consumer. It comes
      back without it only if it timed out, a read failed, or another consumer had
      completed the same identifier; so never unreleased where there is one consumer. */
  lemma AnswersAreHonest(run: seq<Action>, w: int)
    requires IsRun(run) && w in After(run).threads && After(run).threads[w].stage.Returned?
    ensures var s, t := After(run), After(run).threads[w];
            && (t.stage.complete ==> Goal(t) in s.complete)
            && (!t.stage.complete ==> t.released || OtherDone(s.complete, Goal(t)))
            && ((forall d :: d in s.complete ==> d.consumer == t.consumer) ==> t.stage.complete || t.released)
  {
    RunKeeps(run);
    var s := After(run);
    assert ProgressOk(s.threads[w], s.closed, s.complete, s.owed);
  }

  lemma Act(run0: seq<Action>, a: Action) returns (run: seq<Action>)
    requires IsRun(run0) && Enabled(After(run0), a)
    ensures IsRun(run) && After(run) == Step(After(run0), a)
  {
    hide Enabled, Step;
    run := run0 + [a];
    assert run[..|run| - 1] == run0;
  }

  lemma NoSteps()
    ensures IsRun([]) && After([]) == IDLE
  {
  }

  /** Waiter 1 of consumer 2 blocks on identifier 7 under the given key. */
  function Asleep(key: Key): World
  {
    World(map[1 := Waiter(key, 2, Blocked, 1, false)], map[key := {1}], 1, multiset{}, {}, {})
  }

  lemma Blocking(key: Key) returns (run: seq<Action>)
    requires key.id == 7
    ensures IsRun(run) && After(run) == Asleep(key)
  {
    NoSteps();
    hide IsRun, After;
    run := Act([], Call(1, key, 2));
    assert After(run) == World(map[1 := Waiter(key, 2, FirstRead, 0, false)], map[], 0, multiset{}, {}, {});
    run := Act(run, Read(1));
    assert After(run) == World(map[1 := Waiter(key, 2, Subscribing, 0, false)], map[], 0, multiset{}, {}, {});
    run := Act(run, Subscribe(1));
    assert Under(map[], key) + {1} == {1};
    assert After(run) == World(map[1 := Waiter(key, 2, SecondRead, 1, false)], map[key := {1}], 1, multiset{}, {}, {});
    run := Act(run, Read(1));
  }

  /** Some consumer completes identifier 7 and notifies it. */
  lemma Completing(key: Key, consumer: int) returns (run: seq<Action>)
    requires key.id == 7
    ensures IsRun(run)
    ensures After(run) == Asleep(key).(
              reg := map[key := {1}] - {Standard(7)}, closed := multiset(Under(map[key := {1}], Standard(7))),
              complete := {Done(7, consumer)})
  {
    run := Blocking(key);
    hide IsRun, After;
    run := Act(run, Commit({7}, consumer));
    assert After(run) == Asleep(key).(complete := {Done(7, consumer)}, owed := {Done(7, consumer)});
    run := Act(run, Notify(7));
  }

  /** The spelling matters: a waiter under another spelling misses its notification. */
  lemma OtherSpellingSleeps() returns (run: seq<Action>)
    ensures IsRun(run)
    ensures var s := After(run);
            && 1 in s.threads && s.threads[1].stage == Blocked && Goal(s.threads[1]) in s.complete - s.owed
            && !Enabled(s, Wake(1))
  {
    run := Completing(Spelling(7, 1), 2);
    hide IsRun, After;
    WokenIffCanonical(run, 1);
  }

  /** The consumer matters: applying the event as consumer 3 wakes a waiter of consumer 2,
      which returns empty-handed though nothing failed and no time ran out. */
  lemma OtherConsumerWakes() returns (run: seq<Action>)
    ensures IsRun(run)
    ensures var s := After(run);
            1 in s.threads && s.threads[1].stage == Returned(false) && !s.threads[1].released
  {
    run := Completing(Standard(7), 3);
    hide IsRun, After;
    assert After(run).closed == multiset{1};
    run := Act(run, Wake(1));
    assert After(run).threads == map[1 := Waiter(Standard(7), 2, LastRead, 1, false)];
    run := Act(run, Read(1));
    assert After(run).threads == map[1 := Waiter(Standard(7), 2, Leaving(false), 1, false)];
    run := Act(run, Leave(1));
  }
}
