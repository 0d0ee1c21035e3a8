/** Posting under an idempotency key: peek, claim the key row, write, commit, with
    other requests interleaved anywhere. The row is locked from the claim to the end
    of the database transaction. Digests stand for the requests they are taken of. */
module IdempotencyClaim {
  import opened Domain
  import Posting
  import PostingStore

  const MAX_RETRIES := 3

  datatype KeyRow = KeyRow(checksum: int, tx: Option<Id>, completed: bool)

  /** What a committed transaction was posted for; a blank key means none. */
  datatype Purpose = Purpose(key: string, checksum: int)

  datatype Answer = Posted(tx: Id) | Replayed(tx: Id) | Conflict | Exhausted | Failed

  datatype Stage = Peeking | Begun | Holding(row: KeyRow) | Written(row: KeyRow, staged: Id) | Done(answer: Answer)

  datatype Request = Request(key: string, checksum: int, stage: Stage, attempts: nat)

  type Rows = map<string, KeyRow>

  /** Only committed rows and transactions are kept here; what an open database
      transaction has written is in its request's stage and vanishes on abort. */
  datatype Sys = Sys(rows: Rows, journal: map<Id, Purpose>, requests: map<int, Request>)

  const EMPTY := Sys(map[], map[], map[])

  /** The row the claiming statement returns: the existing one, or its own insert. */
  function ClaimedRow(rows: Rows, key: string, checksum: int): KeyRow
  {
    if key in rows then rows[key] else KeyRow(checksum, None, false)
  }

  /** Where a claim leads. */
  function Claimed(row: KeyRow, checksum: int): Stage
  {
    if row.checksum != checksum then Done(Conflict)
    else if row.tx.Some? then Done(Replayed(row.tx.value))
    else Holding(row)
  }

  /** Where the read-only look at the row leads. */
  function Peeked(rows: Rows, key: string, checksum: int): Stage
  {
    if key !in rows then Begun
    else if rows[key].checksum != checksum then Done(Conflict)
    else if rows[key].completed && rows[key].tx.Some? then Done(Replayed(rows[key].tx.value))
    else Begun
  }

  datatype Action =
    | Arrive(r: int, key: string, checksum: int)
    | Peek(r: int)
    | Claim(r: int)
    | Write(r: int, tx: Id)
    | Commit(r: int, heard: bool)
    | Abort(r: int)
    | Serialization(r: int)

  predicate Locks(q: Request, key: string)
  {
    key != "" && q.key == key && (q.stage.Holding? || q.stage.Written?)
  }

  ghost predicate Enabled(s: Sys, a: Action)
  {
    match a
    case Arrive(r, _, _) => r !in s.requests
    case Peek(r) => r in s.requests && s.requests[r].stage.Peeking?
    case Claim(r) =>
      && r in s.requests && s.requests[r].stage.Begun? && s.requests[r].key != ""
      && forall o :: o in s.requests ==> !Locks(s.requests[o], s.requests[r].key)
    case Write(r, tx) =>
      && r in s.requests && tx !in s.journal
      && (s.requests[r].stage.Holding? || (s.requests[r].stage.Begun? && s.requests[r].key == ""))
      && forall o :: o in s.requests && s.requests[o].stage.Written? ==> s.requests[o].stage.staged != tx
    case Commit(r, _) => r in s.requests && s.requests[r].stage.Written?
    case Abort(r) => r in s.requests && !s.requests[r].stage.Done?
    case Serialization(r) =>
      r in s.requests && (s.requests[r].stage.Begun? || s.requests[r].stage.Holding? || s.requests[r].stage.Written?)
  }

  function Retried(q: Request): Request
  {
    if q.attempts == MAX_RETRIES + 1 then q.(stage := Done(Exhausted))
    else q.(stage := Begun, attempts := q.attempts + 1)
  }

  ghost function Step(s: Sys, a: Action): Sys
    requires Enabled(s, a)
  {
    match a
    case Arrive(r, key, checksum) =>
      var q := if key == "" then Request(key, checksum, Begun, 1) else Request(key, checksum, Peeking, 0);
      s.(requests := s.requests[r := q])
    case Peek(r) =>
      var q := s.requests[r];
      s.(requests := s.requests[r := q.(stage := Peeked(s.rows, q.key, q.checksum), attempts := 1)])
    case Claim(r) =>
      var q := s.requests[r];
      s.(requests := s.requests[r := q.(stage := Claimed(ClaimedRow(s.rows, q.key, q.checksum), q.checksum))])
    case Write(r, tx) =>
      var q := s.requests[r];
      var row := if q.stage.Holding? then q.stage.row else KeyRow(q.checksum, None, false);
      s.(requests := s.requests[r := q.(stage := Written(row, tx))])
    case Commit(r, heard) =>
      var q := s.requests[r];
      var tx := q.stage.staged;
      Sys(if q.key == "" then s.rows else s.rows[q.key := KeyRow(q.stage.row.checksum, Some(tx), true)],
          s.journal[tx := Purpose(q.key, q.checksum)],
          s.requests[r := q.(stage := Done(if heard then Posted(tx) else Failed))])
    case Abort(r) => s.(requests := s.requests[r := s.requests[r].(stage := Done(Failed))])
    case Serialization(r) => s.(requests := s.requests[r := Retried(s.requests[r])])
  }

  ghost predicate IsRun(s: Sys, run: seq<Action>)
    decreases |run|, 0
  {
    run == [] || (IsRun(s, run[..|run| - 1]) && Enabled(After(s, run[..|run| - 1]), run[|run| - 1]))
  }

  ghost function After(s: Sys, run: seq<Action>): Sys
    requires IsRun(s, run)
    decreases |run|, 1
  {
    if run == [] then s else Step(After(s, run[..|run| - 1]), run[|run| - 1])
  }

  // ------------------------------------------------------------------- invariants

  /** Key rows and keyed transactions correspond, row for row. */
  ghost predicate RowsOk(rows: Rows, journal: map<Id, Purpose>)
  {
    && (forall k :: k in rows ==>
          && k != "" && rows[k].completed && rows[k].tx.Some? && rows[k].tx.value in journal
          && journal[rows[k].tx.value] == Purpose(k, rows[k].checksum))
    && (forall t :: t in journal && journal[t].key != "" ==>
          journal[t].key in rows && rows[journal[t].key].tx == Some(t))
  }

  /** One holder per key, only while the key has no committed row, and staged
      transactions are new and distinct. */
  ghost predicate LocksOk(rows: Rows, journal: map<Id, Purpose>, requests: map<int, Request>)
  {
    && (forall a, b, k :: a in requests && b in requests && Locks(requests[a], k) && Locks(requests[b], k) ==> a == b)
    && (forall a, k :: a in requests && Locks(requests[a], k) ==> k !in rows)
    && (forall a :: a in requests && requests[a].stage.Written? ==> requests[a].stage.staged !in journal)
    && (forall a, b ::
          (&& a in requests && b in requests && a != b
           && requests[a].stage.Written? && requests[b].stage.Written?) ==>
            requests[a].stage.staged != requests[b].stage.staged)
  }

  ghost predicate AnswerOk(q: Request, rows: Rows, journal: map<Id, Purpose>)
  {
    && q.attempts <= MAX_RETRIES + 1
    && ((q.stage.Holding? || q.stage.Written?) ==> q.stage.row.checksum == q.checksum)
    && (q.stage.Done? ==>
          match q.stage.answer
          case Posted(tx) => tx in journal && journal[tx] == Purpose(q.key, q.checksum)
          case Replayed(tx) =>
            q.key in rows && rows[q.key] == KeyRow(q.checksum, Some(tx), true)
          case Conflict => q.key in rows && rows[q.key].checksum != q.checksum
          case Exhausted => q.attempts == MAX_RETRIES + 1
          case Failed => true)
  }

  ghost predicate AnswersOk(rows: Rows, journal: map<Id, Purpose>, requests: map<int, Request>)
  {
    forall r :: r in requests ==> AnswerOk(requests[r], rows, journal)
  }

  ghost predicate Inv(s: Sys)
  {
    RowsOk(s.rows, s.journal) && LocksOk(s.rows, s.journal, s.requests) && AnswersOk(s.rows, s.journal, s.requests)
  }

  /** Steps that change one request and nothing committed. */
  lemma MoveKeeps(s: Sys, r: int, q: Request)
    requires Inv(s) && AnswerOk(q, s.rows, s.journal)
    requires forall k :: Locks(q, k) ==>
               k !in s.rows && forall o :: o in s.requests && Locks(s.requests[o], k) ==> o == r
    requires q.stage.Written? ==>
               && q.stage.staged !in s.journal
               && forall o :: o in s.requests && o != r && s.requests[o].stage.Written? ==>
                   s.requests[o].stage.staged != q.stage.staged
    ensures Inv(s.(requests := s.requests[r := q]))
  {
    hide RowsOk, AnswerOk;
  }

  lemma CommitKeeps(s: Sys, r: int, heard: bool)
    requires Inv(s) && Enabled(s, Commit(r, heard))
    ensures Inv(Step(s, Commit(r, heard)))
  {
    hide RowsOk, LocksOk, AnswersOk;
    CommitRows(s, r, heard);
    CommitLocks(s, r, heard);
    CommitAnswers(s, r, heard);
  }

  lemma CommitLocks(s: Sys, r: int, heard: bool)
    requires Inv(s) && Enabled(s, Commit(r, heard))
    ensures var s' := Step(s, Commit(r, heard)); LocksOk(s'.rows, s'.journal, s'.requests)
  {
    hide RowsOk, AnswersOk;
    assert s.requests[r].key != "" ==> Locks(s.requests[r], s.requests[r].key);
  }

  lemma CommitAnswers(s: Sys, r: int, heard: bool)
    requires Inv(s) && Enabled(s, Commit(r, heard))
    ensures var s' := Step(s, Commit(r, heard)); AnswersOk(s'.rows, s'.journal, s'.requests)
  {
    hide RowsOk;
    var s', q := Step(s, Commit(r, heard)), s.requests[r];
    assert q.key != "" ==> Locks(q, q.key);
    assert q.stage.staged !in s.journal && (q.key != "" ==> q.key !in s.rows);
    hide LocksOk;
    forall o | o in s'.requests ensures AnswerOk(s'.requests[o], s'.rows, s'.journal) {
      assert AnswerOk(s.requests[o], s.rows, s.journal);
    }
  }

  lemma CommitRows(s: Sys, r: int, heard: bool)
    requires Inv(s) && Enabled(s, Commit(r, heard))
    ensures RowsOk(Step(s, Commit(r, heard)).rows, Step(s, Commit(r, heard)).journal)
  {
    var q := s.requests[r];
    assert AnswerOk(q, s.rows, s.journal);
    assert q.key != "" ==> Locks(q, q.key);
  }

  lemma StepKeeps(s: Sys, a: Action)
    requires Inv(s) && Enabled(s, a)
    ensures Inv(Step(s, a))
  {
    match a
    case Arrive(r, _, _) => MoveKeeps(s, r, Step(s, a).requests[r]);
    case Peek(r) =>
      assert AnswerOk(s.requests[r], s.rows, s.journal);
      MoveKeeps(s, r, Step(s, a).requests[r]);
    case Claim(r) =>
      assert AnswerOk(s.requests[r], s.rows, s.journal);
      MoveKeeps(s, r, Step(s, a).requests[r]);
    case Write(r, tx) =>
      assert AnswerOk(s.requests[r], s.rows, s.journal);
      assert forall k :: Locks(Step(s, a).requests[r], k) ==> Locks(s.requests[r], k);
      MoveKeeps(s, r, Step(s, a).requests[r]);
    case Commit(r, heard) => CommitKeeps(s, r, heard);
    case Abort(r) =>
      assert AnswerOk(s.requests[r], s.rows, s.journal);
      MoveKeeps(s, r, Step(s, a).requests[r]);
    case Serialization(r) =>
      assert AnswerOk(s.requests[r], s.rows, s.journal);
      MoveKeeps(s, r, Step(s, a).requests[r]);
  }

  lemma {:induction false} RunKeeps(s: Sys, run: seq<Action>)
    requires Inv(s) && IsRun(s, run)
    ensures Inv(After(s, run))
    decreases |run|
  {
    hide Inv, Enabled, Step;
    if run != [] {
      RunKeeps(s, run[..|run| - 1]);
      StepKeeps(After(s, run[..|run| - 1]), run[|run| - 1]);
    }
  }

  // ---------------------------------------------------------------------- theorems

  /** At most one transaction is ever committed for a key, whatever the interleaving. */
  lemma OneTransactionPerKey(run: seq<Action>, t: Id, u: Id)
    requires IsRun(EMPTY, run) && t in After(EMPTY, run).journal && u in After(EMPTY, run).journal
    requires After(EMPTY, run).journal[t].key == After(EMPTY, run).journal[u].key != ""
    ensures t == u
  {
    RunKeeps(EMPTY, run);
  }

  /** A key row exists exactly when a transaction was committed for the key; it is
      completed, names that transaction and carries its request's checksum. So an
      aborted attempt leaves no row behind. */
  lemma RowsAreCompleted(run: seq<Action>, key: string)
    requires IsRun(EMPTY, run) && key != ""
    ensures var s := After(EMPTY, run);
            && (key in s.rows <==> exists t :: t in s.journal && s.journal[t].key == key)
            && (key in s.rows ==>
                  && s.rows[key].completed && s.rows[key].tx.Some? && s.rows[key].tx.value in s.journal
                  && s.journal[s.rows[key].tx.value] == Purpose(key, s.rows[key].checksum))
  {
    RunKeeps(EMPTY, run);
    var s := After(EMPTY, run);
    assert RowsOk(s.rows, s.journal);
    hide Inv, LocksOk, AnswersOk;
    if key in s.rows {
      var t := s.rows[key].tx.value;
      assert t in s.journal && s.journal[t].key == key;
    }
  }

  /** A commit that is heard of is answered with the transaction it put in the journal,
      and its key, if it has one, points there from then on; one that is not heard of
      changes the database all the same. */
  lemma CommitsAreAnswered(s: Sys, r: int, heard: bool)
    requires Enabled(s, Commit(r, heard))
    ensures var q, s' := s.requests[r], Step(s, Commit(r, heard));
            && r in s'.requests && s'.requests[r].stage == Done(if heard then Posted(q.stage.staged) else Failed)
            && s'.journal == s.journal[q.stage.staged := Purpose(q.key, q.checksum)]
            && (q.key != "" ==> q.key in s'.rows && s'.rows[q.key].tx == Some(q.stage.staged))
            && (q.key == "" ==> s'.rows == s.rows)
  {
  }

  /** How often request `r` met a serialization failure. */
  function Failures(run: seq<Action>, r: int): nat
  {
    if run == [] then 0 else
      Failures(run[..|run| - 1], r) + if run[|run| - 1] == Serialization(r) then 1 else 0
  }

  /** The attempt number is one more than the failures so far; the fourth gives up. */
  ghost predicate Counted(s: Sys, r: int, failures: nat)
  {
    if r !in s.requests then failures == 0 else
      var q := s.requests[r];
      if q.stage == Done(Exhausted) then failures == 4
      else if q.attempts == 0 then failures == 0 && (q.stage.Peeking? || q.stage.Done?)
      else failures == q.attempts - 1 && failures <= 3 && !q.stage.Peeking?
  }

  /** In any run a request meets at most four serialization failures, and it gives up if
      and only if it has met four. */
  lemma {:induction false} FourAttempts(run: seq<Action>, r: int)
    requires IsRun(EMPTY, run)
    ensures Counted(After(EMPTY, run), r, Failures(run, r))
    ensures Failures(run, r) <= 4
    ensures r in After(EMPTY, run).requests ==>
              (After(EMPTY, run).requests[r].stage == Done(Exhausted) <==> Failures(run, r) == 4)
    decreases |run|
  {
    if run != [] {
      FourAttempts(run[..|run| - 1], r);
      StepCounts(After(EMPTY, run[..|run| - 1]), run[|run| - 1], r, Failures(run[..|run| - 1], r));
      hide Enabled, Step;
    }
  }

  lemma StepCounts(s: Sys, a: Action, r: int, failures: nat)
    requires Enabled(s, a) && Counted(s, r, failures)
    ensures Counted(Step(s, a), r, failures + if a == Serialization(r) then 1 else 0)
  {
  }

  /** Every answer is true of the database: a posted or replayed transaction was
      committed for this very request, a conflict means the key belongs to a different
      request, and giving up takes four attempts. */
  lemma AnswersAreTrue(run: seq<Action>, r: int)
    requires IsRun(EMPTY, run) && r in After(EMPTY, run).requests && After(EMPTY, run).requests[r].stage.Done?
    ensures AnswerOk(After(EMPTY, run).requests[r], After(EMPTY, run).rows, After(EMPTY, run).journal)
    ensures var s, q := After(EMPTY, run), After(EMPTY, run).requests[r];
            && q.attempts <= 4
            && (q.stage.answer.Replayed? ==>
                  q.stage.answer.tx in s.journal && s.journal[q.stage.answer.tx] == Purpose(q.key, q.checksum))
  {
    RunKeeps(EMPTY, run);
    assert AnswerOk(After(EMPTY, run).requests[r], After(EMPTY, run).rows, After(EMPTY, run).journal);
  }

  /** Nobody holds a key that has its row. */
  lemma NotHeld(s: Sys, key: string)
    requires Inv(s) && key in s.rows
    ensures forall o :: o in s.requests && s.requests[o].key == key ==>
              !s.requests[o].stage.Written? && !s.requests[o].stage.Holding?
  {
    forall o | o in s.requests && s.requests[o].key == key
      ensures !s.requests[o].stage.Written? && !s.requests[o].stage.Holding?
    {
      assert !Locks(s.requests[o], key);
    }
  }

  lemma StepSettled(s: Sys, a: Action, key: string, r: int)
    requires Inv(s) && Enabled(s, a) && key in s.rows
    requires r in s.requests && s.requests[r].key == key ==> s.requests[r].stage.Done? ==>
               !s.requests[r].stage.answer.Posted?
    ensures var s' := Step(s, a);
            && key in s'.rows && s'.rows[key] == s.rows[key]
            && (r in s'.requests && s'.requests[r].key == key && s'.requests[r].stage.Done? ==>
                  !s'.requests[r].stage.answer.Posted?)
  {
    hide AnswersOk, AnswerOk;
    NotHeld(s, key);
  }

  lemma {:induction false} RunSettled(s: Sys, run: seq<Action>, key: string, r: int)
    requires Inv(s) && IsRun(s, run) && key in s.rows && r !in s.requests
    ensures var s' := After(s, run);
            && key in s'.rows && s'.rows[key] == s.rows[key]
            && (r in s'.requests && s'.requests[r].key == key && s'.requests[r].stage.Done? ==>
                  !s'.requests[r].stage.answer.Posted?)
    decreases |run|
  {
    hide Inv, Enabled, Step;
    if run != [] {
      RunSettled(s, run[..|run| - 1], key, r);
      RunKeeps(s, run[..|run| - 1]);
      StepSettled(After(s, run[..|run| - 1]), run[|run| - 1], key, r);
    }
  }

  /** Replay of the row's transaction, conflict with it, or no effect. */
  ghost predicate ReplaysOrConflicts(q: Request, row: KeyRow)
  {
    q.stage.Done? ==>
      match q.stage.answer
      case Posted(_) => false
      case Replayed(tx) => row.tx == Some(tx) && q.checksum == row.checksum
      case Conflict => q.checksum != row.checksum
      case Exhausted => true
      case Failed => true
  }

  /** Once a key is committed its row never changes, and every later request under it
      replays that transaction if it is the same request, conflicts if it is not, or
      fails without effect. */
  lemma LaterRequestsReplayOrConflict(run: seq<Action>, more: seq<Action>, key: string, r: int)
    requires IsRun(EMPTY, run) && IsRun(After(EMPTY, run), more)
    requires key in After(EMPTY, run).rows && r !in After(EMPTY, run).requests
    ensures var row, s := After(EMPTY, run).rows[key], After(After(EMPTY, run), more);
            && key in s.rows && s.rows[key] == row
            && (r in s.requests && s.requests[r].key == key ==> ReplaysOrConflicts(s.requests[r], row))
  {
    EmptyInv();
    hide Inv, IsRun, After;
    RunKeeps(EMPTY, run);
    var s0 := After(EMPTY, run);
    RunKeeps(s0, more);
    RunSettled(s0, more, key, r);
    AnswerFits(After(s0, more), r);
  }

  lemma EmptyInv()
    ensures Inv(EMPTY)
  {
  }

  lemma AnswerFits(s: Sys, r: int)
    requires Inv(s)
    ensures r in s.requests ==> AnswerOk(s.requests[r], s.rows, s.journal)
  {
  }

  // ------------------------------------------------------------------ the retry loop

  /** How one attempt can end: with an answer, or with a serialization failure. */
  datatype Attempt = Answered(answer: Answer) | Serialized

  /** The first attempt that is not a serialization failure decides; after four of
      those the request gives up. `attempts` are the outcomes the database would give
      to successive attempts. */
  method CreateTransaction(attempts: seq<Attempt>) returns (answer: Answer, used: nat, retries: nat)
    requires |attempts| >= 4
    ensures 1 <= used <= 4
    ensures forall i :: 0 <= i < used - 1 ==> attempts[i].Serialized?
    ensures attempts[used - 1].Answered? ==> answer == attempts[used - 1].answer && retries == used - 1
    ensures attempts[used - 1].Serialized? ==> used == 4 && answer == Exhausted && retries == 3
  {
    var retry := 0;
    retries := 0;
    while true
      invariant 0 <= retry <= MAX_RETRIES && retries == retry
      invariant forall i :: 0 <= i < retry ==> attempts[i].Serialized?
      decreases MAX_RETRIES - retry
    {
      if attempts[retry].Answered? {
        return attempts[retry].answer, retry + 1, retries;
      }
      if retry == MAX_RETRIES {
        return Exhausted, retry + 1, retries;
      }
      retries := retries + 1;
      retry := retry + 1;
    }
  }

  // ------------------------------------------------------------- one database at rest

  class KeyStore {
    var rows: Rows
    var journal: map<Id, Purpose>
    const store: PostingStore.PostgresStore

    ghost predicate Valid()
      reads this
    {
      RowsOk(rows, journal)
    }

    constructor (store: PostingStore.PostgresStore)
      ensures Valid() && rows == map[] && journal == map[] && this.store == store
    {
      rows, journal := map[], map[];
      this.store := store;
    }

    /** The read-only fast path: reads the key's row and decides. */
    method CompletedIdempotentTransaction(key: string, checksum: int) returns (answer: Option<Answer>)
      ensures Peeked(rows, key, checksum) == if answer.Some? then Done(answer.value) else Begun
      ensures Valid() ==> (answer.None? <==> key !in rows)
    {
      if key !in rows {
        return None;
      }
      if rows[key].checksum != checksum {
        return Some(Conflict);
      }
      if !rows[key].completed || rows[key].tx.None? {
        return None;
      }
      return Some(Replayed(rows[key].tx.value));
    }

    /** One whole attempt with nothing interleaved. It posts exactly when the key has no
        row and the posting's own checks pass, and then the accounts, the journal and
        the key's row change together; a refused posting takes its claim back. */
    method CreateTransactionAttempt(key: string, checksum: int, es: seq<Entry>, tx: Id, now: int)
      returns (answer: Answer)
      requires Valid() && tx !in journal
      modifies this, store
      ensures Valid()
      ensures answer.Posted? <==> key !in old(rows) && Posting.Accepts(old(store.accounts), es)
      ensures store.Abs() == if answer.Posted? then Posting.PostOne(old(store.Abs()), es, tx, now) else old(store.Abs())
      ensures answer.Posted? ==> answer.tx == tx && journal == old(journal)[tx := Purpose(key, checksum)]
      ensures answer.Posted? && key != "" ==> rows == old(rows)[key := KeyRow(checksum, Some(tx), true)]
      ensures answer.Posted? && key == "" ==> rows == old(rows)
      ensures !answer.Posted? ==> rows == old(rows) && journal == old(journal)
      ensures answer.Replayed? <==> key in old(rows) && old(rows)[key].checksum == checksum
      ensures answer.Replayed? ==> old(rows)[key].tx == Some(answer.tx)
      ensures answer.Conflict? <==> key in old(rows) && old(rows)[key].checksum != checksum
    {
      hide Posting.Accepts, Posting.PostOne;
      RowsGrow(rows, journal, key, checksum, tx);
      hide RowsOk;
      var row := KeyRow(checksum, None, false);
      if key != "" {
        row := ClaimedRow(rows, key, checksum);
        if row.checksum != checksum {
          return Conflict;
        }
        if row.tx.Some? {
          return Replayed(row.tx.value);
        }
      }
      var refusal := store.CreateTransaction(es, tx, now);
      if refusal.Some? {
        RefusedIsNothing(old(store.Abs()), es, tx, now);
        return Failed;
      }
      journal := journal[tx := Purpose(key, checksum)];
      if key != "" {
        rows := rows[key := row.(tx := Some(tx), completed := true)];
      }
      return Posted(tx);
    }
  }

  lemma RowsGrow(rows: Rows, journal: map<Id, Purpose>, key: string, checksum: int, tx: Id)
    requires RowsOk(rows, journal) && tx !in journal
    ensures key in rows ==> rows[key].tx.Some?
    ensures key !in rows ==>
              RowsOk(if key == "" then rows else rows[key := KeyRow(checksum, Some(tx), true)],
                     journal[tx := Purpose(key, checksum)])
    ensures "" !in rows
  {
  }

  lemma RefusedIsNothing(db: Posting.Db, es: seq<Entry>, tx: Id, now: int)
    requires !Posting.Accepts(db.accounts, es)
    ensures Posting.PostOne(db, es, tx, now) == db
  {
  }
}
