/** The micro-batcher: callers put requests on a bounded channel, workers gather them
    into batches, post each batch with one call and answer every caller from its own
    position in the result. */
module Batcher {
  import opened Domain
  import opened Posting
  import PostingStore

  /** What one position of a posting call came to. */
  datatype Outcome = Posted(tx: Id) | Rejected | CallFailed

  /** Where a request is: refused by validation, at the channel, in it, at position
      `index` of what a worker is gathering, at that position of a call, answered; or
      lost to sending on the closed channel, which is a fault of the caller. */
  datatype Stage =
    | Refused
    | Sending
    | Queued
    | Gathered(worker: int, index: int)
    | Called(worker: int, call: int, index: int)
    | Answered(call: int, index: int, outcome: Outcome)
    | Panicked

  datatype Request = Request(entries: seq<Entry>, stage: Stage)

  datatype Worker = Idle | Gathering(batch: seq<int>) | Sealed(batch: seq<int>) | Replying(call: int, next: int)
    | Stopped

  /** How a call ends: committed; committed but reported as an error; or not at all. */
  datatype Fate = Committed | Unheard | Lost

  /** One call of the batch posting: whose entries were passed, under which transaction
      ids, what came back position by position, and how it ended. */
  datatype Call = Call(ids: seq<int>, sets: seq<seq<Entry>>, txs: seq<Id>, outcomes: seq<Outcome>, fate: Fate)

  datatype Sys = Sys(maxBatch: int, requests: map<int, Request>, queue: seq<int>, closed: bool,
                     workers: map<int, Worker>, calls: seq<Call>, replies: multiset<int>, db: Db)

  datatype Action =
    | Submit(r: int, entries: seq<Entry>)
    | Send(r: int)
    | SendOnClosed(r: int)
    | Take(w: int)
    | TakeMore(w: int)
    | Seal(w: int)
    | Post(w: int, txs: seq<Id>, now: int, fate: Fate)
    | Elsewhere(db: Db)
    | Reply(w: int)
    | Stop(w: int)
    | Close

  ghost predicate Enabled(s: Sys, a: Action)
  {
    match a
    case Submit(r, _) => r !in s.requests
    case Send(r) =>
      r in s.requests && s.requests[r].stage.Sending? && !s.closed && |s.queue| < s.maxBatch * |s.workers|
    case SendOnClosed(r) => r in s.requests && s.requests[r].stage.Sending? && s.closed
    case Take(w) => w in s.workers && s.workers[w].Idle? && s.queue != [] && s.queue[0] in s.requests
    case TakeMore(w) =>
      && w in s.workers && s.workers[w].Gathering? && |s.workers[w].batch| < s.maxBatch
      && s.queue != [] && s.queue[0] in s.requests
    case Seal(w) => w in s.workers && s.workers[w].Gathering?
    case Post(w, txs, _, _) =>
      w in s.workers && s.workers[w].Sealed? && |txs| == |s.workers[w].batch| && NewIds(s.db.journal, s.calls, txs)
    case Elsewhere(db) =>
      s.db.journal <= db.journal && Unused(s.db.journal, db.journal, s.calls)
    case Reply(w) =>
      && w in s.workers && s.workers[w].Replying?
      && 0 <= s.workers[w].call < |s.calls|
      && 0 <= s.workers[w].next < |s.calls[s.workers[w].call].ids|
      && |s.calls[s.workers[w].call].outcomes| == |s.calls[s.workers[w].call].ids|
      && s.calls[s.workers[w].call].ids[s.workers[w].next] in s.requests
    case Stop(w) => w in s.workers && s.workers[w].Idle? && s.queue == [] && s.closed
    case Close => true
  }

  function Entries(requests: map<int, Request>, r: int): seq<Entry>
  {
    if r in requests then requests[r].entries else []
  }

  function EntrySets(requests: map<int, Request>, batch: seq<int>): (sets: seq<seq<Entry>>)
    ensures |sets| == |batch|
  {
    seq(|batch|, i requires 0 <= i < |batch| => Entries(requests, batch[i]))
  }

  function Put(requests: map<int, Request>, r: int, stage: Stage): map<int, Request>
    requires r in requests
  {
    requests[r := requests[r].(stage := stage)]
  }

  /** Everything worker `w` gathered becomes part of call `c`. */
  function CalledBy(requests: map<int, Request>, w: int, c: int): map<int, Request>
  {
    map r | r in requests ::
      if requests[r].stage.Gathered? && requests[r].stage.worker == w
      then requests[r].(stage := Called(w, c, requests[r].stage.index)) else requests[r]
  }

  /** The id was drawn for some position of some call. */
  ghost predicate Used(calls: seq<Call>, x: Id)
  {
    exists c, i :: 0 <= c < |calls| && 0 <= i < |calls[c].txs| && calls[c].txs[i] == x
  }

  /** What was added to the journal has none of the calls' ids. */
  ghost predicate Unused(was: seq<Transaction>, now: seq<Transaction>, calls: seq<Call>)
  {
    forall k :: |was| <= k < |now| ==> !Used(calls, now[k].id)
  }

  ghost predicate NewIds(journal: seq<Transaction>, calls: seq<Call>, txs: seq<Id>)
  {
    && (forall i :: 0 <= i < |txs| ==> txs[i] !in TxIds(journal) && !Used(calls, txs[i]))
    && (forall i, j :: 0 <= i < j < |txs| ==> txs[i] != txs[j])
  }

  /** What the batch posting answers at each position. */
  ghost function OutcomesOf(db: Db, sets: seq<seq<Entry>>, txs: seq<Id>, now: int, fate: Fate): (r: seq<Outcome>)
    requires |txs| == |sets|
    ensures |r| == |sets|
  {
    seq(|sets|, i requires 0 <= i < |sets| =>
      if !fate.Committed? then CallFailed
      else if BatchAccepts(BatchAll(db, sets[..i], txs[..i], now).accounts, sets[i]) then Posted(txs[i])
      else Rejected)
  }

  ghost function Committing(db: Db, sets: seq<seq<Entry>>, txs: seq<Id>, now: int, fate: Fate): Db
    requires |txs| == |sets|
  {
    if fate.Lost? then db else BatchAll(db, sets, txs, now)
  }

  ghost function CallOf(db: Db, ids: seq<int>, sets: seq<seq<Entry>>, txs: seq<Id>, now: int, fate: Fate): Call
    requires |txs| == |sets|
  {
    Call(ids, sets, txs, OutcomesOf(db, sets, txs, now, fate), fate)
  }

  ghost function Step(s: Sys, a: Action): Sys
    requires Enabled(s, a)
  {
    match a
    case Submit(r, entries) =>
      s.(requests := s.requests[r := Request(entries, if Balanced(entries) then Sending else Refused)])
    case Send(r) => s.(requests := Put(s.requests, r, Queued), queue := s.queue + [r])
    case SendOnClosed(r) => s.(requests := Put(s.requests, r, Panicked))
    case Take(w) =>
      s.(requests := Put(s.requests, s.queue[0], Gathered(w, 0)), queue := s.queue[1..],
         workers := s.workers[w := Gathering([s.queue[0]])])
    case TakeMore(w) =>
      var batch := s.workers[w].batch;
      s.(requests := Put(s.requests, s.queue[0], Gathered(w, |batch|)), queue := s.queue[1..],
         workers := s.workers[w := Gathering(batch + [s.queue[0]])])
    case Seal(w) => s.(workers := s.workers[w := Sealed(s.workers[w].batch)])
    case Post(w, txs, now, fate) =>
      var batch, sets := s.workers[w].batch, EntrySets(s.requests, s.workers[w].batch);
      s.(requests := CalledBy(s.requests, w, |s.calls|),
         calls := s.calls + [CallOf(s.db, batch, sets, txs, now, fate)],
         workers := s.workers[w := Replying(|s.calls|, 0)],
         db := Committing(s.db, sets, txs, now, fate))
    case Elsewhere(db) => s.(db := db)
    case Reply(w) =>
      var c, k := s.workers[w].call, s.workers[w].next;
      var r := s.calls[c].ids[k];
      s.(requests := Put(s.requests, r, Answered(c, k, s.calls[c].outcomes[k])),
         replies := s.replies + multiset{r},
         workers := s.workers[w := if k + 1 == |s.calls[c].ids| then Idle else Replying(c, k + 1)])
    case Stop(w) => s.(workers := s.workers[w := Stopped])
    case Close => s.(closed := true)
  }

  // ------------------------------------------------------------------- invariants

  /** The channel holds exactly the queued requests, each once. */
  ghost predicate QueueOk(requests: map<int, Request>, queue: seq<int>)
  {
    && (forall i :: 0 <= i < |queue| ==> queue[i] in requests && requests[queue[i]].stage.Queued?)
    && (forall i, j :: 0 <= i < j < |queue| ==> queue[i] != queue[j])
    && (forall r :: r in requests && requests[r].stage.Queued? ==> r in queue)
  }

  /** A gathering worker's batch is exactly the requests gathered by it, in place. */
  ghost predicate GatherOk(requests: map<int, Request>, workers: map<int, Worker>, maxBatch: int)
  {
    && (forall w :: w in workers && (workers[w].Gathering? || workers[w].Sealed?) ==>
          0 < |workers[w].batch| <= maxBatch)
    && (forall w, i :: w in workers && (workers[w].Gathering? || workers[w].Sealed?) && 0 <= i < |workers[w].batch| ==>
          workers[w].batch[i] in requests && requests[workers[w].batch[i]].stage == Gathered(w, i))
    && (forall r :: r in requests && requests[r].stage.Gathered? ==>
          var w, i := requests[r].stage.worker, requests[r].stage.index;
          && w in workers && (workers[w].Gathering? || workers[w].Sealed?)
          && 0 <= i < |workers[w].batch| && workers[w].batch[i] == r)
  }

  /** Position `i` of call `c` belongs to a request that knows it: called and not
      answered by the worker replying to it, or answered with that outcome. */
  ghost predicate CallOk(requests: map<int, Request>, call: Call, c: int, maxBatch: int)
  {
    && 0 < |call.ids| <= maxBatch && |call.sets| == |call.outcomes| == |call.ids|
    && (forall i :: 0 <= i < |call.ids| ==>
          && call.ids[i] in requests && call.sets[i] == requests[call.ids[i]].entries
          && var stage := requests[call.ids[i]].stage;
             (stage.Called? && stage.call == c && stage.index == i) || stage == Answered(c, i, call.outcomes[i]))
  }

  predicate InCall(stage: Stage)
  {
    stage.Called? || stage.Answered?
  }

  /** The stage's own position is where the request sits. */
  ghost predicate Sits(stage: Stage, calls: seq<Call>, r: int)
    requires InCall(stage)
  {
    0 <= stage.call < |calls| && 0 <= stage.index < |calls[stage.call].ids| && calls[stage.call].ids[stage.index] == r
  }

  ghost predicate CallsOk(requests: map<int, Request>, calls: seq<Call>, maxBatch: int)
  {
    && (forall c :: 0 <= c < |calls| ==> CallOk(requests, calls[c], c, maxBatch))
    && (forall r :: r in requests && InCall(requests[r].stage) ==> Sits(requests[r].stage, calls, r))
  }

  /** A replying worker owes answers exactly from its position on. */
  ghost predicate RepliesOk(requests: map<int, Request>, workers: map<int, Worker>, calls: seq<Call>)
  {
    && (forall w :: w in workers && workers[w].Replying? ==>
          0 <= workers[w].call < |calls| && 0 <= workers[w].next < |calls[workers[w].call].ids|)
    && (forall w, i :: w in workers && workers[w].Replying? && workers[w].next <= i < |calls[workers[w].call].ids| ==>
          var r := calls[workers[w].call].ids[i];
          r in requests && requests[r].stage == Called(w, workers[w].call, i))
    && (forall r :: r in requests && requests[r].stage.Called? ==>
          var w := requests[r].stage.worker;
          && w in workers && workers[w].Replying? && workers[w].call == requests[r].stage.call
          && workers[w].next <= requests[r].stage.index)
  }

  ghost predicate CountsOk(requests: map<int, Request>, replies: multiset<int>)
  {
    && (forall r :: r in requests ==> replies[r] == if requests[r].stage.Answered? then 1 else 0)
    && (forall r :: r !in requests ==> replies[r] == 0)
  }

  ghost predicate StopsOk(queue: seq<int>, closed: bool, workers: map<int, Worker>)
  {
    forall w :: w in workers && workers[w].Stopped? ==> closed && queue == []
  }

  ghost predicate Paired(s: Sys)
  {
    && s.maxBatch > 0
    && QueueOk(s.requests, s.queue)
    && GatherOk(s.requests, s.workers, s.maxBatch)
    && CallsOk(s.requests, s.calls, s.maxBatch)
    && RepliesOk(s.requests, s.workers, s.calls)
    && CountsOk(s.requests, s.replies)
    && StopsOk(s.queue, s.closed, s.workers)
  }

  // ------------------------------------------------- one request or one worker changes

  predicate Busy(w: Worker)
  {
    w.Gathering? || w.Sealed?
  }

  lemma QueuePut(requests: map<int, Request>, queue: seq<int>, r: int, q: Request)
    requires QueueOk(requests, queue) && (r in requests ==> !requests[r].stage.Queued?) && !q.stage.Queued?
    ensures QueueOk(requests[r := q], queue)
  {
  }

  lemma GatherPut(requests: map<int, Request>, workers: map<int, Worker>, maxBatch: int, r: int, q: Request)
    requires GatherOk(requests, workers, maxBatch)
    requires (r in requests ==> !requests[r].stage.Gathered?) && !q.stage.Gathered?
    ensures GatherOk(requests[r := q], workers, maxBatch)
  {
  }

  lemma CallsPut(requests: map<int, Request>, calls: seq<Call>, maxBatch: int, r: int, q: Request)
    requires CallsOk(requests, calls, maxBatch) && (r in requests ==> !InCall(requests[r].stage)) && !InCall(q.stage)
    ensures CallsOk(requests[r := q], calls, maxBatch)
  {
    forall c | 0 <= c < |calls| ensures CallOk(requests[r := q], calls[c], c, maxBatch) {
      assert CallOk(requests, calls[c], c, maxBatch);
    }
  }

  lemma RepliesPut(requests: map<int, Request>, workers: map<int, Worker>, calls: seq<Call>, r: int, q: Request)
    requires RepliesOk(requests, workers, calls) && (r in requests ==> !requests[r].stage.Called?) && !q.stage.Called?
    ensures RepliesOk(requests[r := q], workers, calls)
  {
  }

  lemma CountsPut(requests: map<int, Request>, replies: multiset<int>, r: int, q: Request)
    requires CountsOk(requests, replies) && (r in requests ==> !requests[r].stage.Answered?) && !q.stage.Answered?
    ensures CountsOk(requests[r := q], replies)
  {
  }

  lemma GatherWorker(requests: map<int, Request>, workers: map<int, Worker>, maxBatch: int, w: int, x: Worker)
    requires GatherOk(requests, workers, maxBatch) && w in workers && !Busy(workers[w]) && !Busy(x)
    ensures GatherOk(requests, workers[w := x], maxBatch)
  {
  }

  lemma RepliesWorker(requests: map<int, Request>, workers: map<int, Worker>, calls: seq<Call>, w: int, x: Worker)
    requires RepliesOk(requests, workers, calls) && w in workers && !workers[w].Replying? && !x.Replying?
    ensures RepliesOk(requests, workers[w := x], calls)
  {
  }

  // -------------------------------------------------------------- what each step keeps

  /** A request that is nowhere in the machinery, before and after. */
  lemma OutsideKeeps(s: Sys, r: int, q: Request)
    requires Paired(s) && (r in s.requests ==> s.requests[r].stage.Sending?)
    requires q.stage.Refused? || q.stage.Sending? || q.stage.Panicked?
    ensures Paired(s.(requests := s.requests[r := q]))
  {
    hide QueueOk, GatherOk, CallsOk, RepliesOk, CountsOk, StopsOk;
    QueuePut(s.requests, s.queue, r, q);
    GatherPut(s.requests, s.workers, s.maxBatch, r, q);
    CallsPut(s.requests, s.calls, s.maxBatch, r, q);
    RepliesPut(s.requests, s.workers, s.calls, r, q);
    CountsPut(s.requests, s.replies, r, q);
  }

  lemma QueuePush(requests: map<int, Request>, queue: seq<int>, r: int)
    requires QueueOk(requests, queue) && r in requests && !requests[r].stage.Queued?
    ensures QueueOk(Put(requests, r, Queued), queue + [r])
  {
  }

  lemma QueuePop(requests: map<int, Request>, queue: seq<int>, stage: Stage)
    requires QueueOk(requests, queue) && queue != [] && !stage.Queued?
    ensures queue[0] in requests && QueueOk(Put(requests, queue[0], stage), queue[1..])
  {
    var requests' := Put(requests, queue[0], stage);
    forall r | r in requests' && requests'[r].stage.Queued? ensures r in queue[1..] {
      assert r in queue;
      var i :| 0 <= i < |queue| && queue[i] == r;
      assert queue[1..][i - 1] == r;
    }
  }

  lemma SendKeeps(s: Sys, r: int)
    requires Paired(s) && Enabled(s, Send(r))
    ensures Paired(s.(requests := Put(s.requests, r, Queued), queue := s.queue + [r]))
  {
    hide QueueOk, GatherOk, CallsOk, RepliesOk, CountsOk;
    var q := s.requests[r].(stage := Queued);
    QueuePush(s.requests, s.queue, r);
    GatherPut(s.requests, s.workers, s.maxBatch, r, q);
    CallsPut(s.requests, s.calls, s.maxBatch, r, q);
    RepliesPut(s.requests, s.workers, s.calls, r, q);
    CountsPut(s.requests, s.replies, r, q);
  }

  /** The next request joins the batch of worker `w` at position |batch|. */
  lemma GatherNext(requests: map<int, Request>, workers: map<int, Worker>, maxBatch: int, w: int, batch: seq<int>,
                   r: int)
    requires GatherOk(requests, workers, maxBatch) && w in workers && r in requests && !requests[r].stage.Gathered?
    requires || (workers[w] == Gathering(batch) && |batch| < maxBatch)
             || (!Busy(workers[w]) && batch == [] && maxBatch > 0)
    ensures GatherOk(Put(requests, r, Gathered(w, |batch|)), workers[w := Gathering(batch + [r])], maxBatch)
  {
    var requests', workers' := Put(requests, r, Gathered(w, |batch|)), workers[w := Gathering(batch + [r])];
    forall v, i | v in workers' && Busy(workers'[v]) && 0 <= i < |workers'[v].batch|
      ensures workers'[v].batch[i] in requests' && requests'[workers'[v].batch[i]].stage == Gathered(v, i)
    {
      if v == w && i < |batch| {
        assert workers[w].batch[i] == batch[i];
      } else if v != w {
        assert workers[v].batch[i] in requests;
      }
    }
  }

  lemma TakeKeeps(s: Sys, w: int, batch: seq<int>)
    requires Paired(s) && w in s.workers && s.queue != [] && s.queue[0] in s.requests
    requires (s.workers[w] == Gathering(batch) && |batch| < s.maxBatch) || (s.workers[w].Idle? && batch == [])
    ensures Paired(s.(requests := Put(s.requests, s.queue[0], Gathered(w, |batch|)), queue := s.queue[1..],
                   workers := s.workers[w := Gathering(batch + [s.queue[0]])]))
  {
    var r := s.queue[0];
    var q := s.requests[r].(stage := Gathered(w, |batch|));
    assert s.requests[r].stage.Queued?;
    hide QueueOk, GatherOk, CallsOk, RepliesOk, CountsOk;
    QueuePop(s.requests, s.queue, q.stage);
    GatherNext(s.requests, s.workers, s.maxBatch, w, batch, r);
    CallsPut(s.requests, s.calls, s.maxBatch, r, q);
    RepliesPut(s.requests, s.workers, s.calls, r, q);
    RepliesWorker(s.requests[r := q], s.workers, s.calls, w, Gathering(batch + [r]));
    CountsPut(s.requests, s.replies, r, q);
  }

  lemma SealKeeps(s: Sys, w: int)
    requires Paired(s) && w in s.workers && s.workers[w].Gathering?
    ensures Paired(s.(workers := s.workers[w := Sealed(s.workers[w].batch)]))
  {
    hide QueueOk, CallsOk, RepliesOk, CountsOk;
    RepliesWorker(s.requests, s.workers, s.calls, w, Sealed(s.workers[w].batch));
  }

  lemma StopKeeps(s: Sys, w: int)
    requires Paired(s) && w in s.workers && s.workers[w].Idle? && s.queue == [] && s.closed
    ensures Paired(s.(workers := s.workers[w := Stopped]))
  {
    hide QueueOk, GatherOk, CallsOk, RepliesOk, CountsOk;
    GatherWorker(s.requests, s.workers, s.maxBatch, w, Stopped);
    RepliesWorker(s.requests, s.workers, s.calls, w, Stopped);
  }

  lemma PostGather(requests: map<int, Request>, workers: map<int, Worker>, maxBatch: int, w: int, c: int)
    requires GatherOk(requests, workers, maxBatch) && w in workers && workers[w].Sealed?
    ensures GatherOk(CalledBy(requests, w, c), workers[w := Replying(c, 0)], maxBatch)
  {
  }

  lemma PostCalls(requests: map<int, Request>, workers: map<int, Worker>, calls: seq<Call>, maxBatch: int, w: int,
                  call: Call)
    requires GatherOk(requests, workers, maxBatch) && CallsOk(requests, calls, maxBatch)
    requires w in workers && workers[w].Sealed? && call.ids == workers[w].batch
    requires call.sets == EntrySets(requests, call.ids) && |call.outcomes| == |call.ids|
    ensures CallsOk(CalledBy(requests, w, |calls|), calls + [call], maxBatch)
  {
    var batch, n := workers[w].batch, |calls|;
    var requests', calls' := CalledBy(requests, w, n), calls + [call];
    forall c | 0 <= c < |calls'| ensures CallOk(requests', calls'[c], c, maxBatch) {
      if c < n {
        assert calls'[c] == calls[c] && CallOk(requests, calls[c], c, maxBatch);
      }
    }
    forall r | r in requests' && InCall(requests'[r].stage)
      ensures Sits(requests'[r].stage, calls', r)
    {
      if InCall(requests[r].stage) {
        assert calls'[requests[r].stage.call] == calls[requests[r].stage.call];
      }
    }
  }

  lemma PostReplies(requests: map<int, Request>, workers: map<int, Worker>, calls: seq<Call>, maxBatch: int, w: int,
                    call: Call)
    requires GatherOk(requests, workers, maxBatch) && RepliesOk(requests, workers, calls)
    requires w in workers && workers[w].Sealed? && call.ids == workers[w].batch
    ensures RepliesOk(CalledBy(requests, w, |calls|), workers[w := Replying(|calls|, 0)], calls + [call])
  {
    var requests', calls' := CalledBy(requests, w, |calls|), calls + [call];
    var workers' := workers[w := Replying(|calls|, 0)];
    forall v, i | v in workers' && workers'[v].Replying? && workers'[v].next <= i < |calls'[workers'[v].call].ids|
      ensures var r := calls'[workers'[v].call].ids[i];
              r in requests' && requests'[r].stage == Called(v, workers'[v].call, i)
    {
      if v != w {
        assert calls'[workers[v].call] == calls[workers[v].call];
      }
    }
  }

  lemma PostKeeps(s: Sys, w: int, call: Call)
    requires Paired(s) && w in s.workers && s.workers[w].Sealed? && call.ids == s.workers[w].batch
    requires call.sets == EntrySets(s.requests, call.ids) && |call.outcomes| == |call.ids|
    ensures Paired(s.(requests := CalledBy(s.requests, w, |s.calls|), calls := s.calls + [call],
                      workers := s.workers[w := Replying(|s.calls|, 0)]))
  {
    var requests' := CalledBy(s.requests, w, |s.calls|);
    PostRest(s.requests, s.queue, s.replies, w, |s.calls|);
    hide QueueOk, GatherOk, CallsOk, RepliesOk, CountsOk, CalledBy;
    PostGather(s.requests, s.workers, s.maxBatch, w, |s.calls|);
    PostCalls(s.requests, s.workers, s.calls, s.maxBatch, w, call);
    PostReplies(s.requests, s.workers, s.calls, s.maxBatch, w, call);
  }

  lemma PostRest(requests: map<int, Request>, queue: seq<int>, replies: multiset<int>, w: int, c: int)
    requires QueueOk(requests, queue) && CountsOk(requests, replies)
    ensures QueueOk(CalledBy(requests, w, c), queue) && CountsOk(CalledBy(requests, w, c), replies)
  {
  }

  lemma ReplyCalls(requests: map<int, Request>, calls: seq<Call>, maxBatch: int, r: int, c: int, k: int)
    requires CallsOk(requests, calls, maxBatch) && 0 <= c < |calls| && 0 <= k < |calls[c].ids|
    requires r == calls[c].ids[k] && r in requests && k < |calls[c].outcomes|
    ensures CallsOk(Put(requests, r, Answered(c, k, calls[c].outcomes[k])), calls, maxBatch)
  {
    assert CallOk(requests, calls[c], c, maxBatch);
    var requests' := Put(requests, r, Answered(c, k, calls[c].outcomes[k]));
    forall d | 0 <= d < |calls| ensures CallOk(requests', calls[d], d, maxBatch) {
      assert CallOk(requests, calls[d], d, maxBatch);
    }
  }

  lemma ReplyReplies(requests: map<int, Request>, workers: map<int, Worker>, calls: seq<Call>, w: int, outcome: Outcome)
    requires RepliesOk(requests, workers, calls) && w in workers && workers[w].Replying?
    requires forall r :: r in requests && requests[r].stage.Called? ==> Sits(requests[r].stage, calls, r)
    ensures var c, k := workers[w].call, workers[w].next;
            var r := calls[c].ids[k];
            && r in requests && requests[r].stage == Called(w, c, k)
            && RepliesOk(Put(requests, r, Answered(c, k, outcome)),
                         workers[w := if k + 1 == |calls[c].ids| then Idle else Replying(c, k + 1)], calls)
  {
  }

  lemma ReplyCounts(requests: map<int, Request>, replies: multiset<int>, r: int, stage: Stage)
    requires CountsOk(requests, replies) && r in requests && !requests[r].stage.Answered? && stage.Answered?
    ensures CountsOk(Put(requests, r, stage), replies + multiset{r})
  {
  }

  lemma ReplyKeeps(s: Sys, w: int)
    requires Paired(s) && Enabled(s, Reply(w))
    ensures var c, k := s.workers[w].call, s.workers[w].next;
            var r := s.calls[c].ids[k];
            Paired(s.(requests := Put(s.requests, r, Answered(c, k, s.calls[c].outcomes[k])),
                   replies := s.replies + multiset{r},
                   workers := s.workers[w := if k + 1 == |s.calls[c].ids| then Idle else Replying(c, k + 1)]))
  {
    hide QueueOk, GatherOk, RepliesOk, CountsOk;
    var c, k := s.workers[w].call, s.workers[w].next;
    var r := s.calls[c].ids[k];
    var q := s.requests[r].(stage := Answered(c, k, s.calls[c].outcomes[k]));
    assert forall r :: r in s.requests && s.requests[r].stage.Called? ==> Sits(s.requests[r].stage, s.calls, r);
    hide CallsOk;
    ReplyReplies(s.requests, s.workers, s.calls, w, s.calls[c].outcomes[k]);
    QueuePut(s.requests, s.queue, r, q);
    GatherPut(s.requests, s.workers, s.maxBatch, r, q);
    GatherWorker(s.requests[r := q], s.workers, s.maxBatch, w,
                 if k + 1 == |s.calls[c].ids| then Idle else Replying(c, k + 1));
    ReplyCalls(s.requests, s.calls, s.maxBatch, r, c, k);
    ReplyCounts(s.requests, s.replies, r, q.stage);
  }

  lemma PairedKeeps(s: Sys, a: Action)
    requires Paired(s) && Enabled(s, a)
    ensures Paired(Step(s, a))
  {
    hide QueueOk, GatherOk, CallsOk, RepliesOk, CountsOk, CalledBy, BatchAll, OutcomesOf, NewIds, Committing;
    match a
    case Submit(r, entries) => OutsideKeeps(s, r, Step(s, a).requests[r]);
    case Send(r) => SendKeeps(s, r);
    case SendOnClosed(r) => OutsideKeeps(s, r, Step(s, a).requests[r]);
    case Take(w) =>
      assert [] + [s.queue[0]] == [s.queue[0]];
      TakeKeeps(s, w, []);
    case TakeMore(w) => TakeKeeps(s, w, s.workers[w].batch);
    case Seal(w) => SealKeeps(s, w);
    case Post(w, txs, now, fate) =>
      var batch := s.workers[w].batch;
      PostKeeps(s, w, CallOf(s.db, batch, EntrySets(s.requests, batch), txs, now, fate));
    case Elsewhere(_) =>
    case Reply(w) => ReplyKeeps(s, w);
    case Stop(w) => StopKeeps(s, w);
    case Close =>
  }

  // ------------------------------------------------------------------ answers and journal

  /** The journal has exactly these lines under this id. */
  ghost predicate Holds(journal: seq<Transaction>, tx: Id, es: seq<Entry>)
  {
    exists t :: t in journal && t.id == tx && t.entries == es
  }

  /** A position that was posted is in the journal with its own lines, and no two
      positions share a transaction. */
  ghost predicate JournalOk(journal: seq<Transaction>, calls: seq<Call>)
  {
    && (forall c, i :: 0 <= c < |calls| && 0 <= i < |calls[c].outcomes| && calls[c].outcomes[i].Posted? ==>
          i < |calls[c].sets| && Holds(journal, calls[c].outcomes[i].tx, calls[c].sets[i]))
    && (forall c, i, d, j ::
          (&& 0 <= c < |calls| && 0 <= i < |calls[c].outcomes| && calls[c].outcomes[i].Posted?
           && 0 <= d < |calls| && 0 <= j < |calls[d].outcomes| && calls[c].outcomes[i] == calls[d].outcomes[j]) ==>
            c == d && i == j)
  }

  lemma HoldsLonger(was: seq<Transaction>, now: seq<Transaction>, tx: Id, es: seq<Entry>)
    requires was <= now
    ensures Holds(was, tx, es) ==> Holds(now, tx, es) && tx in TxIds(was)
  {
    if Holds(was, tx, es) {
      var t :| t in was && t.id == tx && t.entries == es;
      assert t in now;
    }
  }

  lemma JournalGrows(was: seq<Transaction>, now: seq<Transaction>, calls: seq<Call>)
    requires JournalOk(was, calls) && was <= now
    ensures JournalOk(now, calls)
  {
    hide Holds;
    forall c, i | 0 <= c < |calls| && 0 <= i < |calls[c].outcomes| && calls[c].outcomes[i].Posted?
      ensures i < |calls[c].sets| && Holds(now, calls[c].outcomes[i].tx, calls[c].sets[i])
    {
      HoldsLonger(was, now, calls[c].outcomes[i].tx, calls[c].sets[i]);
    }
  }

  /** The batch leaves every accepted posting in the journal under its own id. */
  lemma {:induction false} BatchJournals(db: Db, sets: seq<seq<Entry>>, txs: seq<Id>, now: int, i: int)
    requires |txs| == |sets| && 0 <= i < |sets|
    requires BatchAccepts(BatchAll(db, sets[..i], txs[..i], now).accounts, sets[i])
    ensures Holds(BatchAll(db, sets, txs, now).journal, txs[i], sets[i])
    decreases |sets|
  {
    hide BatchAccepts;
    var n := |sets| - 1;
    BatchOneJournals(BatchAll(db, sets[..n], txs[..n], now), sets[n], txs[n], now);
    if i < n {
      assert sets[..n][..i] == sets[..i] && txs[..n][..i] == txs[..i];
      BatchJournals(db, sets[..n], txs[..n], now, i);
      HoldsLonger(BatchAll(db, sets[..n], txs[..n], now).journal, BatchAll(db, sets, txs, now).journal,
                  txs[i], sets[i]);
    }
  }

  lemma BatchOneJournals(db: Db, es: seq<Entry>, tx: Id, now: int)
    ensures db.journal <= BatchOne(db, es, tx, now).journal
    ensures BatchAccepts(db.accounts, es) ==> Holds(BatchOne(db, es, tx, now).journal, tx, es)
  {
    if BatchAccepts(db.accounts, es) {
      var journal := BatchOne(db, es, tx, now).journal;
      var t := journal[|journal| - 1];
      assert t in journal && t.id == tx && t.entries == es;
    }
  }

  lemma {:induction false} BatchKeepsJournal(db: Db, sets: seq<seq<Entry>>, txs: seq<Id>, now: int)
    requires |txs| == |sets|
    ensures db.journal <= BatchAll(db, sets, txs, now).journal
    decreases |sets|
  {
    hide BatchOne;
    if sets != [] {
      var n := |sets| - 1;
      BatchKeepsJournal(db, sets[..n], txs[..n], now);
      BatchOneJournals(BatchAll(db, sets[..n], txs[..n], now), sets[n], txs[n], now);
    }
  }

  lemma PostJournal(db: Db, calls: seq<Call>, ids: seq<int>, sets: seq<seq<Entry>>, txs: seq<Id>, now: int, fate: Fate)
    requires JournalOk(db.journal, calls) && |txs| == |sets| && NewIds(db.journal, calls, txs)
    ensures JournalOk(Committing(db, sets, txs, now, fate).journal, calls + [CallOf(db, ids, sets, txs, now, fate)])
  {
    var db' := Committing(db, sets, txs, now, fate);
    var outcomes := OutcomesOf(db, sets, txs, now, fate);
    BatchKeepsJournal(db, sets, txs, now);
    JournalGrows(db.journal, db'.journal, calls);
    forall i | 0 <= i < |outcomes| && outcomes[i].Posted?
      ensures outcomes[i].tx == txs[i] && Holds(db'.journal, txs[i], sets[i])
    {
      BatchJournals(db, sets, txs, now, i);
    }
    forall c, i | 0 <= c < |calls| && 0 <= i < |calls[c].outcomes| && calls[c].outcomes[i].Posted?
      ensures calls[c].outcomes[i].tx in TxIds(db.journal)
    {
      HoldsLonger(db.journal, db.journal, calls[c].outcomes[i].tx, calls[c].sets[i]);
    }
    CallJoins(db'.journal, calls, CallOf(db, ids, sets, txs, now, fate), TxIds(db.journal));
  }

  lemma CallJoins(journal: seq<Transaction>, calls: seq<Call>, call: Call, earlier: set<Id>)
    requires JournalOk(journal, calls) && |call.outcomes| == |call.sets|
    requires forall c, i :: 0 <= c < |calls| && 0 <= i < |calls[c].outcomes| && calls[c].outcomes[i].Posted? ==>
               calls[c].outcomes[i].tx in earlier
    requires forall i :: 0 <= i < |call.outcomes| && call.outcomes[i].Posted? ==>
               call.outcomes[i].tx !in earlier && Holds(journal, call.outcomes[i].tx, call.sets[i])
    requires forall i, j :: 0 <= i < j < |call.outcomes| && call.outcomes[i].Posted? ==>
               call.outcomes[i] != call.outcomes[j]
    ensures JournalOk(journal, calls + [call])
  {
    hide Holds;
    var all := calls + [call];
    assert forall c :: 0 <= c < |calls| ==> all[c] == calls[c];
  }

  // ------------------------------------------------------------- nothing else is posted

  /** Position `i` is answered by what the journal holds under its id: posted exactly
      when there is something, and then it is the position's own lines. */
  ghost predicate PositionExact(journal: seq<Transaction>, call: Call, i: int)
    requires 0 <= i < |call.outcomes| && i < |call.sets| && i < |call.txs|
  {
    && call.outcomes[i] == (if !call.fate.Committed? then CallFailed
                            else if call.txs[i] in TxIds(journal) then Posted(call.txs[i])
                            else Rejected)
    && (call.fate.Lost? ==> call.txs[i] !in TxIds(journal))
    && (forall t :: t in journal && t.id == call.txs[i] ==> t.entries == call.sets[i])
  }

  ghost predicate CallExact(journal: seq<Transaction>, call: Call)
  {
    && |call.txs| == |call.outcomes| == |call.sets|
    && forall i :: 0 <= i < |call.outcomes| ==> PositionExact(journal, call, i)
  }

  ghost predicate CallsExact(journal: seq<Transaction>, calls: seq<Call>)
  {
    forall c :: 0 <= c < |calls| ==> CallExact(journal, calls[c])
  }

  /** Rows under other ids change nothing for a position. */
  lemma SameUnder(was: seq<Transaction>, now: seq<Transaction>, x: Id)
    requires was <= now && forall k :: |was| <= k < |now| ==> now[k].id != x
    ensures x in TxIds(now) <==> x in TxIds(was)
    ensures forall t :: t in now && t.id == x ==> t in was
  {
    assert forall t :: t in was ==> t in now;
  }

  lemma ExactGrows(was: seq<Transaction>, now: seq<Transaction>, calls: seq<Call>)
    requires CallsExact(was, calls) && was <= now && Unused(was, now, calls)
    ensures CallsExact(now, calls)
  {
    hide TxIds;
    forall c, i | 0 <= c < |calls| && CallExact(was, calls[c]) && 0 <= i < |calls[c].outcomes|
      ensures PositionExact(now, calls[c], i)
    {
      assert Used(calls, calls[c].txs[i]) && PositionExact(was, calls[c], i);
      SameUnder(was, now, calls[c].txs[i]);
    }
  }

  /** The i-th posting of a batch is accepted when its turn comes. */
  ghost predicate AcceptedAt(db: Db, sets: seq<seq<Entry>>, txs: seq<Id>, now: int, i: int)
    requires |txs| == |sets|
  {
    0 <= i < |sets| && BatchAccepts(BatchAll(db, sets[..i], txs[..i], now).accounts, sets[i])
  }

  /** `t` carries the lines of an accepted posting of the batch, under its id. */
  ghost predicate Comes(db: Db, sets: seq<seq<Entry>>, txs: seq<Id>, now: int, t: Transaction)
    requires |txs| == |sets|
  {
    exists i :: AcceptedAt(db, sets, txs, now, i) && t.id == txs[i] && t.entries == sets[i]
  }

  /** Everything a batch adds is one of its accepted postings. */
  lemma {:induction false} BatchTraces(db: Db, sets: seq<seq<Entry>>, txs: seq<Id>, now: int, k: int)
    requires |txs| == |sets| && |db.journal| <= k < |BatchAll(db, sets, txs, now).journal|
    ensures Comes(db, sets, txs, now, BatchAll(db, sets, txs, now).journal[k])
    decreases |sets|
  {
    hide BatchAccepts, Sentinel;
    var n := |sets| - 1;
    var m := BatchAll(db, sets[..n], txs[..n], now);
    if k < |m.journal| {
      BatchTraces(db, sets[..n], txs[..n], now, k);
      var t := m.journal[k];
      var i :| AcceptedAt(db, sets[..n], txs[..n], now, i) && t.id == txs[..n][i] && t.entries == sets[..n][i];
      assert sets[..n][..i] == sets[..i] && txs[..n][..i] == txs[..i];
      assert AcceptedAt(db, sets, txs, now, i);
    } else {
      assert BatchAccepts(m.accounts, sets[n]);
      assert AcceptedAt(db, sets, txs, now, n);
    }
  }

  /** The journal's rows past `db`'s own are accepted postings of the batch. */
  ghost predicate Traced(db: Db, sets: seq<seq<Entry>>, txs: seq<Id>, now: int, journal: seq<Transaction>)
    requires |txs| == |sets|
  {
    db.journal <= journal && forall k :: |db.journal| <= k < |journal| ==> Comes(db, sets, txs, now, journal[k])
  }

  lemma CommitTraces(db: Db, sets: seq<seq<Entry>>, txs: seq<Id>, now: int, fate: Fate)
    requires |txs| == |sets|
    ensures Traced(db, sets, txs, now, Committing(db, sets, txs, now, fate).journal)
  {
    hide BatchAll, Comes;
    BatchKeepsJournal(db, sets, txs, now);
    var journal := Committing(db, sets, txs, now, fate).journal;
    forall k | |db.journal| <= k < |journal| ensures Comes(db, sets, txs, now, journal[k]) {
      BatchTraces(db, sets, txs, now, k);
    }
  }

  /** A row under a new id is the accepted posting with that id. */
  lemma TracedRow(db: Db, sets: seq<seq<Entry>>, txs: seq<Id>, now: int, journal: seq<Transaction>, t: Transaction)
    requires |txs| == |sets| && Traced(db, sets, txs, now, journal) && t in journal && t.id !in TxIds(db.journal)
    ensures Comes(db, sets, txs, now, t)
  {
    hide Comes;
    var k :| 0 <= k < |journal| && t == journal[k];
    assert forall j :: 0 <= j < |db.journal| ==> db.journal[j].id in TxIds(db.journal);
  }

  /** What the new call answers is what it put in the journal. */
  lemma PostExact(db: Db, calls: seq<Call>, ids: seq<int>, sets: seq<seq<Entry>>, txs: seq<Id>, now: int, fate: Fate)
    requires |txs| == |sets| && NewIds(db.journal, calls, txs)
    ensures CallExact(Committing(db, sets, txs, now, fate).journal, CallOf(db, ids, sets, txs, now, fate))
  {
    hide BatchAll, BatchAccepts, Used, Traced;
    var journal, call := Committing(db, sets, txs, now, fate).journal, CallOf(db, ids, sets, txs, now, fate);
    CommitTraces(db, sets, txs, now, fate);
    forall i | 0 <= i < |sets| ensures PositionExact(journal, call, i) {
      forall t | t in journal && t.id == txs[i]
        ensures t.entries == sets[i] && AcceptedAt(db, sets, txs, now, i)
      {
        TracedRow(db, sets, txs, now, journal, t);
      }
      if !fate.Lost? && AcceptedAt(db, sets, txs, now, i) {
        BatchJournals(db, sets, txs, now, i);
        HoldsLonger(journal, journal, txs[i], sets[i]);
      }
    }
  }

  /** Validation turns away exactly the unbalanced requests, and the channel holds no
      more than one full batch per worker. */
  ghost predicate EntryOk(s: Sys)
  {
    && (forall r :: r in s.requests ==> (s.requests[r].stage.Refused? <==> !Balanced(s.requests[r].entries)))
    && |s.queue| <= s.maxBatch * |s.workers|
  }

  lemma EntryKeeps(s: Sys, a: Action)
    requires Paired(s) && EntryOk(s) && Enabled(s, a)
    ensures EntryOk(Step(s, a))
  {
    hide Balanced, Committing, CallOf, NewIds, Used, Unused, GatherOk, CountsOk, StopsOk;
    SameWorkers(s, a);
    if a.Reply? {
      assert s.requests[s.calls[s.workers[a.w].call].ids[s.workers[a.w].next]].stage.Called?;
    }
    if (a.Take? || a.TakeMore?) {
      assert s.requests[s.queue[0]].stage.Queued?;
    }
  }

  lemma SameWorkers(s: Sys, a: Action)
    requires Enabled(s, a)
    ensures Step(s, a).workers.Keys == s.workers.Keys && |Step(s, a).workers| == |s.workers|
    ensures Step(s, a).maxBatch == s.maxBatch
  {
    StepStays(s, a);
    assert |Step(s, a).workers| == |Step(s, a).workers.Keys| && |s.workers| == |s.workers.Keys|;
  }

  ghost predicate Inv(s: Sys)
  {
    Paired(s) && JournalOk(s.db.journal, s.calls) && CallsExact(s.db.journal, s.calls) && EntryOk(s)
  }

  lemma PostKeepsExact(db: Db, calls: seq<Call>, ids: seq<int>, sets: seq<seq<Entry>>, txs: seq<Id>, now: int,
                       fate: Fate)
    requires CallsExact(db.journal, calls) && |txs| == |sets| && NewIds(db.journal, calls, txs)
    ensures CallsExact(Committing(db, sets, txs, now, fate).journal, calls + [CallOf(db, ids, sets, txs, now, fate)])
  {
    hide CallExact, Committing, CallOf, BatchAll, BatchAccepts;
    var journal := Committing(db, sets, txs, now, fate).journal;
    PostExact(db, calls, ids, sets, txs, now, fate);
    CommitTraces(db, sets, txs, now, fate);
    ExactGrows(db.journal, journal, calls);
  }

  lemma StepKeeps(s: Sys, a: Action)
    requires Inv(s) && Enabled(s, a)
    ensures Inv(Step(s, a))
  {
    hide Paired, JournalOk, CallsExact, EntryOk, Committing, CallOf, CalledBy, NewIds, TxIds, Used;
    PairedKeeps(s, a);
    EntryKeeps(s, a);
    match a
    case Post(w, txs, now, fate) =>
      PostJournal(s.db, s.calls, s.workers[w].batch, EntrySets(s.requests, s.workers[w].batch), txs, now, fate);
      PostKeepsExact(s.db, s.calls, s.workers[w].batch, EntrySets(s.requests, s.workers[w].batch), txs, now, fate);
    case Elsewhere(db) =>
      JournalGrows(s.db.journal, db.journal, s.calls);
      ExactGrows(s.db.journal, db.journal, s.calls);
    case _ =>
  }

  // ---------------------------------------------------------------------------- runs

  /** All workers idle and nothing submitted. */
  function Start(maxBatch: int, workers: set<int>, db: Db): Sys
  {
    Sys(maxBatch, map[], [], false, map w | w in workers :: Idle, [], multiset{}, db)
  }

  ghost predicate IsRun(s: Sys, run: seq<Action>)
    decreases |run|, 0
  {
    run == [] || (IsRun(s, run[..|run| - 1]) && Enabled(After(s, run[..|run| - 1]), run[|run| - 1]))
  }

  ghost function After(s: Sys, run: seq<Action>): Sys
    requires IsRun(s, run)
    decreases |run|, 1
  {
    if run == [] then s else Step(After(s, run[..|run| - 1]), run[|run| - 1])
  }

  ghost predicate Reaches(maxBatch: int, workers: set<int>, db: Db, run: seq<Action>, s: Sys)
  {
    && 0 < maxBatch <= PostingStore.MAX_BATCH
    && IsRun(Start(maxBatch, workers, db), run) && After(Start(maxBatch, workers, db), run) == s
  }

  lemma {:induction false} RunKeeps(s: Sys, run: seq<Action>)
    requires Inv(s) && IsRun(s, run)
    ensures Inv(After(s, run)) && After(s, run).workers.Keys == s.workers.Keys && After(s, run).maxBatch == s.maxBatch
    decreases |run|
  {
    hide Inv, Enabled, Step;
    if run != [] {
      RunKeeps(s, run[..|run| - 1]);
      StepKeeps(After(s, run[..|run| - 1]), run[|run| - 1]);
      StepStays(After(s, run[..|run| - 1]), run[|run| - 1]);
    }
  }

  lemma StepStays(s: Sys, a: Action)
    requires Enabled(s, a)
    ensures Step(s, a).workers.Keys == s.workers.Keys && Step(s, a).maxBatch == s.maxBatch
  {
  }

  lemma ReachedInv(maxBatch: int, workers: set<int>, db: Db, run: seq<Action>, s: Sys)
    requires Reaches(maxBatch, workers, db, run, s)
    ensures Inv(s) && s.workers.Keys == workers && s.maxBatch == maxBatch
  {
    StartInv(maxBatch, workers, db);
    hide Inv;
    RunKeeps(Start(maxBatch, workers, db), run);
  }

  lemma StartInv(maxBatch: int, workers: set<int>, db: Db)
    requires maxBatch > 0
    ensures Inv(Start(maxBatch, workers, db)) && Start(maxBatch, workers, db).workers.Keys == workers
  {
    StartPaired(maxBatch, workers, db);
    var s := Start(maxBatch, workers, db);
    hide Paired;
    assert s.workers.Keys == workers;
    RoomFor(maxBatch, |s.workers|);
    assert JournalOk(s.db.journal, s.calls) && CallsExact(s.db.journal, s.calls) && EntryOk(s);
  }

  lemma RoomFor(maxBatch: int, workers: nat)
    requires maxBatch > 0
    ensures maxBatch * workers >= 0
  {
  }

  lemma StartPaired(maxBatch: int, workers: set<int>, db: Db)
    requires maxBatch > 0
    ensures Paired(Start(maxBatch, workers, db))
  {
  }

  /** Whatever the interleaving: every call carries between one and maxBatch requests,
      each with its own entries in its own position; no request is in two positions;
      and an answered request was answered once, with the outcome of its position. */
  lemma EveryAnswerIsItsOwn(maxBatch: int, workers: set<int>, db: Db, run: seq<Action>, s: Sys)
    requires Reaches(maxBatch, workers, db, run, s)
    ensures forall c :: 0 <= c < |s.calls| ==> CallOk(s.requests, s.calls[c], c, maxBatch)
    ensures forall r :: r in s.requests && s.requests[r].stage.Answered? ==>
              Sits(s.requests[r].stage, s.calls, r) && AnsweredBy(s.requests[r].stage, s.calls) && s.replies[r] == 1
    ensures forall r :: s.replies[r] <= 1
  {
    ReachedInv(maxBatch, workers, db, run, s);
    hide GatherOk, RepliesOk, QueueOk;
    forall r | r in s.requests && s.requests[r].stage.Answered?
      ensures Sits(s.requests[r].stage, s.calls, r) && AnsweredBy(s.requests[r].stage, s.calls)
    {
      var c := s.requests[r].stage.call;
      assert CallOk(s.requests, s.calls[c], c, maxBatch);
    }
  }

  /** The outcome is the one the call returned at the stage's position. */
  ghost predicate AnsweredBy(stage: Stage, calls: seq<Call>)
    requires stage.Answered?
  {
    && 0 <= stage.call < |calls| && 0 <= stage.index < |calls[stage.call].outcomes|
    && stage.outcome == calls[stage.call].outcomes[stage.index]
  }

  /** A caller told `Posted(tx)` has its own lines in the journal under `tx`, and no
      other caller was told the same transaction. */
  lemma PostedMeansJournaled(maxBatch: int, workers: set<int>, db: Db, run: seq<Action>, s: Sys, r: int)
    requires Reaches(maxBatch, workers, db, run, s) && r in s.requests
    requires s.requests[r].stage.Answered? && s.requests[r].stage.outcome.Posted?
    ensures Holds(s.db.journal, s.requests[r].stage.outcome.tx, s.requests[r].entries)
    ensures forall q :: q in s.requests && q != r && s.requests[q].stage.Answered? ==>
              s.requests[q].stage.outcome != s.requests[r].stage.outcome
  {
    ReachedInv(maxBatch, workers, db, run, s);
    hide GatherOk, RepliesOk, QueueOk, Holds, CountsOk, StopsOk;
    forall q | q in s.requests && s.requests[q].stage.Answered?
      ensures Sits(s.requests[q].stage, s.calls, q) && AnsweredBy(s.requests[q].stage, s.calls)
      ensures s.calls[s.requests[q].stage.call].sets[s.requests[q].stage.index] == s.requests[q].entries
    {
      assert CallOk(s.requests, s.calls[s.requests[q].stage.call], s.requests[q].stage.call, maxBatch);
    }
  }

  /** The same read the other way: an answer says what the journal holds under its
      position's id. A caller told `Rejected` has nothing there, and what is there
      under a committed call's id was announced to the caller whose lines it carries. */
  lemma AnswersMatchTheJournal(maxBatch: int, workers: set<int>, db: Db, run: seq<Action>, s: Sys, r: int)
    requires Reaches(maxBatch, workers, db, run, s) && r in s.requests && s.requests[r].stage.Answered?
    ensures Sits(s.requests[r].stage, s.calls, r)
    ensures var stage, call := s.requests[r].stage, s.calls[s.requests[r].stage.call];
            && stage.index < |call.txs|
            && (stage.outcome.CallFailed? <==> !call.fate.Committed?)
            && (stage.outcome.Rejected? ==> call.txs[stage.index] !in TxIds(s.db.journal))
            && (forall t :: t in s.db.journal && t.id == call.txs[stage.index] ==>
                  t.entries == s.requests[r].entries && (call.fate.Committed? ==> stage.outcome == Posted(t.id)))
  {
    ReachedInv(maxBatch, workers, db, run, s);
    hide GatherOk, RepliesOk, QueueOk, CountsOk, StopsOk, JournalOk;
    var c := s.requests[r].stage.call;
    assert CallOk(s.requests, s.calls[c], c, maxBatch) && CallExact(s.db.journal, s.calls[c]);
    assert PositionExact(s.db.journal, s.calls[c], s.requests[r].stage.index);
  }

  /** Position `i` of the call has the row's id and lines, and answers `Posted` with it. */
  ghost predicate Announces(call: Call, i: int, t: Transaction)
  {
    && 0 <= i < |call.ids| && |call.txs| == |call.sets| == |call.outcomes| == |call.ids|
    && call.txs[i] == t.id && call.sets[i] == t.entries && call.outcomes[i] == Posted(t.id)
  }

  lemma CommitAnnounces(db: Db, ids: seq<int>, sets: seq<seq<Entry>>, txs: seq<Id>, now: int, k: int)
    requires |txs| == |sets| == |ids| && |db.journal| <= k < |Committing(db, sets, txs, now, Committed).journal|
    ensures exists i :: Announces(CallOf(db, ids, sets, txs, now, Committed), i,
                                  Committing(db, sets, txs, now, Committed).journal[k])
  {
    hide BatchAll, BatchAccepts, Committing;
    CommitTraces(db, sets, txs, now, Committed);
    var t := Committing(db, sets, txs, now, Committed).journal[k];
    assert Comes(db, sets, txs, now, t);
    var i :| AcceptedAt(db, sets, txs, now, i) && t.id == txs[i] && t.entries == sets[i];
    assert Announces(CallOf(db, ids, sets, txs, now, Committed), i, t);
  }

  /** Every row a committed call adds to the journal, in whatever state it is made, is
      announced by that call at the position of the request whose lines it carries. */
  lemma EveryRowIsAnnounced(s: Sys, w: int, txs: seq<Id>, now: int, k: int)
    requires Enabled(s, Post(w, txs, now, Committed))
    requires |s.db.journal| <= k < |Step(s, Post(w, txs, now, Committed)).db.journal|
    ensures var s' := Step(s, Post(w, txs, now, Committed));
            s'.calls[..|s.calls|] == s.calls && |s'.calls| == |s.calls| + 1 &&
            exists i :: Announces(s'.calls[|s.calls|], i, s'.db.journal[k])
  {
    hide CalledBy, Committing, CallOf, Announces, NewIds;
    var batch, s' := s.workers[w].batch, Step(s, Post(w, txs, now, Committed));
    var call := CallOf(s.db, batch, EntrySets(s.requests, batch), txs, now, Committed);
    CommitAnnounces(s.db, batch, EntrySets(s.requests, batch), txs, now, k);
    var i :| Announces(call, i, s'.db.journal[k]);
    assert s'.calls[|s.calls|] == call;
  }

  /** A call reported as an error may or may not have been committed, and the callers
      cannot tell: all of them are told the same, and the database is either the one a
      heard call leaves or untouched. */
  lemma FailureTellsNothing(s: Sys, w: int, txs: seq<Id>, now: int, fate: Fate)
    requires Enabled(s, Post(w, txs, now, fate)) && !fate.Committed?
    ensures var s' := Step(s, Post(w, txs, now, fate));
            && |s'.calls| == |s.calls| + 1
            && (forall i :: 0 <= i < |s'.calls[|s.calls|].outcomes| ==> s'.calls[|s.calls|].outcomes[i] == CallFailed)
            && s'.db == if fate == Lost then s.db else Step(s, Post(w, txs, now, Committed)).db
  {
    hide CalledBy, BatchAll, BatchAccepts, NewIds;
  }

  /** An announced row stays announced: whatever happens later, the request at that
      position has the row's lines, and its answer, once given, is that row. */
  lemma {:induction false} AnnouncedIsAnswered(maxBatch: int, workers: set<int>, db: Db, run: seq<Action>, s: Sys,
                                               more: seq<Action>, c: int, i: int, t: Transaction)
    requires Reaches(maxBatch, workers, db, run, s) && IsRun(s, more)
    requires 0 <= c < |s.calls| && Announces(s.calls[c], i, t)
    ensures var later, r := After(s, more), s.calls[c].ids[i];
            && r in later.requests && later.requests[r].entries == t.entries
            && (later.requests[r].stage.Answered? ==> later.requests[r].stage == Answered(c, i, Posted(t.id)))
  {
    ReachedInv(maxBatch, workers, db, run, s);
    RunKeeps(s, more);
    CallsStay(s, more);
    var later := After(s, more);
    hide GatherOk, RepliesOk, QueueOk, CountsOk, StopsOk, JournalOk, CallsExact, IsRun, After;
    assert later.calls[c] == s.calls[c] && CallOk(later.requests, later.calls[c], c, later.maxBatch);
  }

  lemma {:induction false} CallsStay(s: Sys, more: seq<Action>)
    requires IsRun(s, more)
    ensures s.calls <= After(s, more).calls
    decreases |more|
  {
    hide Enabled, Step;
    if more != [] {
      CallsStay(s, more[..|more| - 1]);
      CallsGrow(After(s, more[..|more| - 1]), more[|more| - 1]);
    }
  }

  lemma CallsGrow(s: Sys, a: Action)
    requires Enabled(s, a)
    ensures s.calls <= Step(s, a).calls
  {
    hide CallOf, CalledBy, Committing, NewIds, Unused;
  }

  /** A request is refused before it is queued if and only if its lines do not balance,
      so no call carries unbalanced lines; and the queue never outgrows its room. */
  lemma OnlyBalancedAreCarried(maxBatch: int, workers: set<int>, db: Db, run: seq<Action>, s: Sys)
    requires Reaches(maxBatch, workers, db, run, s)
    ensures forall r :: r in s.requests ==> (s.requests[r].stage.Refused? <==> !Balanced(s.requests[r].entries))
    ensures forall c, i :: 0 <= c < |s.calls| && 0 <= i < |s.calls[c].sets| ==> Balanced(s.calls[c].sets[i])
    ensures |s.queue| <= maxBatch * |workers|
  {
    ReachedInv(maxBatch, workers, db, run, s);
    hide GatherOk, RepliesOk, QueueOk, CountsOk, StopsOk, JournalOk, CallsExact, Balanced;
    assert |s.workers| == |s.workers.Keys|;
    forall c, i | 0 <= c < |s.calls| && 0 <= i < |s.calls[c].sets| ensures Balanced(s.calls[c].sets[i]) {
      assert CallOk(s.requests, s.calls[c], c, maxBatch);
      var r := s.calls[c].ids[i];
      assert r in s.requests && !s.requests[r].stage.Refused? && s.requests[r].entries == s.calls[c].sets[i];
    }
  }

  /** No request is posted in two positions. */
  lemma OnePositionEach(maxBatch: int, workers: set<int>, db: Db, run: seq<Action>, s: Sys, c: int, i: int, d: int,
                        j: int)
    requires Reaches(maxBatch, workers, db, run, s)
    requires 0 <= c < |s.calls| && 0 <= d < |s.calls| && 0 <= i < |s.calls[c].ids| && 0 <= j < |s.calls[d].ids|
    requires s.calls[c].ids[i] == s.calls[d].ids[j]
    ensures c == d && i == j
  {
    ReachedInv(maxBatch, workers, db, run, s);
    assert CallOk(s.requests, s.calls[c], c, maxBatch) && CallOk(s.requests, s.calls[d], d, maxBatch);
  }

  /** A worker that has taken something always has a next step, and an idle one waits
      only for requests or for the channel to be closed. */
  lemma WorkersNeverStick(maxBatch: int, workers: set<int>, db: Db, run: seq<Action>, s: Sys, w: int)
    requires Reaches(maxBatch, workers, db, run, s) && w in s.workers
    ensures match s.workers[w]
            case Idle => if s.queue != [] then Enabled(s, Take(w)) else Enabled(s, Stop(w)) <==> s.closed
            case Gathering(_) => Enabled(s, Seal(w))
            case Sealed(batch) =>
              forall txs, now, fate ::
                |txs| == |batch| && NewIds(s.db.journal, s.calls, txs) ==> Enabled(s, Post(w, txs, now, fate))
            case Replying(_, _) => Enabled(s, Reply(w))
            case Stopped => s.closed && s.queue == []
  {
    ReachedInv(maxBatch, workers, db, run, s);
    if s.workers[w].Replying? {
      assert CallOk(s.requests, s.calls[s.workers[w].call], s.workers[w].call, maxBatch);
    }
  }

  /** The request went onto the channel. */
  predicate Accepted(stage: Stage)
  {
    stage.Queued? || stage.Gathered? || InCall(stage)
  }

  /** Close returns when every worker has stopped, and there is at least one; by then
      everything ever accepted has been answered. */
  lemma CloseLeavesNothing(maxBatch: int, workers: set<int>, db: Db, run: seq<Action>, s: Sys, one: int)
    requires Reaches(maxBatch, workers, db, run, s) && one in workers
    requires forall w :: w in s.workers ==> s.workers[w].Stopped?
    ensures s.closed && forall r :: r in s.requests && Accepted(s.requests[r].stage) ==>
              s.requests[r].stage.Answered? && s.replies[r] == 1
  {
    ReachedInv(maxBatch, workers, db, run, s);
    hide CallsOk;
    assert one in s.workers.Keys;
    assert s.workers[one].Stopped?;
  }

  // ------------------------------------------------------------------ a worker's turn

  /** Takes requests until there are maxBatch, or the channel is closed and empty, or
      the timer fires, which is after |arrivals| waits. `arrivals[k]` are the requests
      sent during the k-th wait; none at all on an empty channel means it was closed.
      Order is kept and nothing is lost. */
  method Collect(queue: seq<int>, maxBatch: nat, arrivals: seq<seq<int>>)
    returns (batch: seq<int>, rest: seq<int>, ghost waits: nat)
    requires queue != [] && maxBatch > 0
    ensures waits <= |arrivals| && batch + rest == queue + Concat(arrivals[..waits])
    ensures 1 <= |batch| <= maxBatch && |batch| <= 1 + waits
    ensures |batch| == maxBatch || waits == |arrivals| || rest == []
  {
    batch, rest, waits := [queue[0]], queue[1..], 0;
    var k := 0;
    while |batch| < maxBatch && k < |arrivals|
      invariant 0 <= k == waits <= |arrivals| && batch + rest == queue + Concat(arrivals[..k])
      invariant 1 <= |batch| <= maxBatch && |batch| <= 1 + k
      decreases |arrivals| - k
    {
      assert arrivals[..k + 1][..k] == arrivals[..k];
      assert Concat(arrivals[..k + 1]) == Concat(arrivals[..k]) + arrivals[k];
      assert batch + (rest + arrivals[k]) == (batch + rest) + arrivals[k] == queue + Concat(arrivals[..k + 1]);
      rest := rest + arrivals[k];
      k, waits := k + 1, waits + 1;
      if rest == [] {
        return;
      }
      ghost var all := batch + rest;
      batch, rest := batch + [rest[0]], rest[1..];
      assert batch + rest == all;
    }
  }

  function Concat(lists: seq<seq<int>>): seq<int>
  {
    if lists == [] then [] else Concat(lists[..|lists| - 1]) + lists[|lists| - 1]
  }

  /** The answers sent back: position by position, or the same failure for all. */
  method Answers(batch: seq<int>, results: Option<seq<Outcome>>) returns (answers: seq<(int, Outcome)>)
    requires results.Some? ==> |results.value| == |batch|
    ensures |answers| == |batch|
    ensures forall i :: 0 <= i < |batch| ==> answers[i].0 == batch[i]
    ensures forall i :: 0 <= i < |batch| ==> answers[i].1 == if results.Some? then results.value[i] else CallFailed
  {
    answers := [];
    for i := 0 to |batch|
      invariant |answers| == i
      invariant forall j :: 0 <= j < i ==> answers[j].0 == batch[j]
      invariant forall j :: 0 <= j < i ==> answers[j].1 == if results.Some? then results.value[j] else CallFailed
    {
      answers := answers + [(batch[i], if results.Some? then results.value[i] else CallFailed)];
    }
  }
}
