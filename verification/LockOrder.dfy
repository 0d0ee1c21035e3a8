/** Account rows are always locked in ascending identifier order, so workers can
    wait for one another but never in a circle. */
module LockOrder {
  import opened Domain

  ghost predicate Ascending(keys: seq<Id>)
  {
    forall i, j :: 0 <= i < j < |keys| ==> keys[i] < keys[j]
  }

  /** Every row once, in the order rows are locked in. */
  ghost predicate InLockOrder(order: seq<Id>, rows: set<Id>)
  {
    Ascending(order) && forall k :: k in order <==> k in rows
  }

  method InsertKey(keys: seq<Id>, key: Id) returns (r: seq<Id>)
    requires Ascending(keys) && key !in keys
    ensures Ascending(r) && |r| == |keys| + 1
    ensures forall k :: k in r <==> k in keys || k == key
  {
    var i := 0;
    while i < |keys| && keys[i] < key
      invariant 0 <= i <= |keys|
      invariant forall j :: 0 <= j < i ==> keys[j] < key
    {
      i := i + 1;
    }
    assert forall j :: i <= j < |keys| ==> key < keys[j];
    r := keys[..i] + [key] + keys[i..];
    Inserted(keys, key, i);
  }

  lemma Inserted(keys: seq<Id>, key: Id, i: int)
    requires Ascending(keys) && 0 <= i <= |keys|
    requires forall j :: 0 <= j < i ==> keys[j] < key
    requires forall j :: i <= j < |keys| ==> key < keys[j]
    ensures var r := keys[..i] + [key] + keys[i..];
            Ascending(r) && |r| == |keys| + 1 && forall k :: k in r <==> k in keys || k == key
  {
    var r := keys[..i] + [key] + keys[i..];
    InsertedAt(keys, key, i);
    forall k ensures k in r <==> k in keys || k == key {
      assert keys == keys[..i] + keys[i..];
    }
    assert forall j, k :: 0 <= j < k < |r| ==> r[j] < r[k];
  }

  lemma InsertedAt(keys: seq<Id>, key: Id, i: int)
    requires 0 <= i <= |keys|
    ensures var r := keys[..i] + [key] + keys[i..];
            && |r| == |keys| + 1 && r[i] == key
            && (forall j :: 0 <= j < i ==> r[j] == keys[j])
            && (forall j :: i < j < |r| ==> r[j] == keys[j - 1])
  {
  }

  /** The sorted key list of a set, each element once: the order every posting
      path takes its locks in. */
  method SortedKeys(values: set<Id>) returns (keys: seq<Id>)
    ensures InLockOrder(keys, values) && |keys| == |values|
  {
    keys := [];
    var left := values;
    while left != {}
      invariant Ascending(keys) && |keys| + |left| == |values|
      invariant forall k :: k in keys <==> k in values && k !in left
      invariant left <= values
      decreases |left|
    {
      HasElement(left);
      var k :| k in left;
      left := left - {k};
      keys := InsertKey(keys, k);
    }
  }

  // ----------------------------------------------------------- the lock protocol

  /** A database transaction: the rows it will lock, in order, and how many it
      holds so far. */
  datatype Worker = Worker(plan: seq<Id>, held: nat)

  type Workers = map<int, Worker>

  ghost predicate Holds(w: Worker, row: Id)
  {
    exists i :: 0 <= i < w.held && i < |w.plan| && w.plan[i] == row
  }

  datatype Action = Begin(id: int, plan: seq<Id>) | Lock(id: int) | Finish(id: int)

  ghost predicate Enabled(ws: Workers, a: Action)
  {
    match a
    case Begin(id, plan) => id !in ws && Ascending(plan)
    case Lock(id) =>
      && id in ws && ws[id].held < |ws[id].plan|
      && forall v :: v in ws ==> !Holds(ws[v], ws[id].plan[ws[id].held])
    case Finish(id) => id in ws
  }

  ghost function Step(ws: Workers, a: Action): Workers
    requires Enabled(ws, a)
  {
    match a
    case Begin(id, plan) => ws[id := Worker(plan, 0)]
    case Lock(id) => ws[id := ws[id].(held := ws[id].held + 1)]
    case Finish(id) => ws - {id}
  }

  ghost predicate IsRun(run: seq<Action>)
    decreases |run|, 0
  {
    run == [] || (IsRun(run[..|run| - 1]) && Enabled(After(run[..|run| - 1]), run[|run| - 1]))
  }

  ghost function After(run: seq<Action>): Workers
    requires IsRun(run)
    decreases |run|, 1
  {
    if run == [] then map[] else Step(After(run[..|run| - 1]), run[|run| - 1])
  }

  /** Plans ascend, and no row is held twice. */
  ghost predicate LocksOk(ws: Workers)
  {
    && (forall w :: w in ws ==> Ascending(ws[w].plan) && ws[w].held <= |ws[w].plan|)
    && (forall v, w, row :: v in ws && w in ws && Holds(ws[v], row) && Holds(ws[w], row) ==> v == w)
  }

  lemma {:induction false} RunLocksOk(run: seq<Action>)
    requires IsRun(run)
    ensures LocksOk(After(run))
    decreases |run|
  {
    if run != [] {
      var ws, a := After(run[..|run| - 1]), run[|run| - 1];
      RunLocksOk(run[..|run| - 1]);
      var ws' := Step(ws, a);
      if a.Lock? {
        var next := ws[a.id].plan[ws[a.id].held];
        forall row ensures Holds(ws'[a.id], row) <==> Holds(ws[a.id], row) || row == next {
          if row == next {
            assert ws'[a.id].plan[ws[a.id].held] == row;
          }
        }
      }
    }
  }

  ghost predicate Wants(ws: Workers, v: int)
  {
    v in ws && ws[v].held < |ws[v].plan|
  }

  ghost function Next(ws: Workers, v: int): Id
    requires Wants(ws, v)
  {
    ws[v].plan[ws[v].held]
  }

  /** `v` waits for `w`: the next row of `v` is held by `w`. */
  ghost predicate WaitsFor(ws: Workers, v: int, w: int)
  {
    Wants(ws, v) && w in ws && Holds(ws[w], Next(ws, v))
  }

  /** Along a wait, the row waited for only grows. */
  lemma WaitClimbs(ws: Workers, u: int, v: int)
    requires LocksOk(ws) && WaitsFor(ws, u, v) && Wants(ws, v)
    ensures Next(ws, u) < Next(ws, v)
  {
    var i :| 0 <= i < ws[v].held && i < |ws[v].plan| && ws[v].plan[i] == Next(ws, u);
  }

  ghost predicate WaitChain(ws: Workers, chain: seq<int>)
  {
    forall i :: 0 <= i < |chain| - 1 ==> WaitsFor(ws, chain[i], chain[i + 1])
  }

  lemma {:induction false} ChainClimbs(ws: Workers, chain: seq<int>)
    requires LocksOk(ws) && |chain| >= 2 && WaitChain(ws, chain)
    requires Wants(ws, chain[0]) && Wants(ws, chain[|chain| - 1])
    ensures Next(ws, chain[0]) < Next(ws, chain[|chain| - 1])
    decreases |chain|
  {
    if |chain| > 2 {
      var rest := chain[1..];
      assert WaitChain(ws, rest) by {
        forall i | 0 <= i < |rest| - 1 ensures WaitsFor(ws, rest[i], rest[i + 1]) {
          assert WaitsFor(ws, chain[i + 1], chain[i + 2]);
        }
      }
      assert WaitsFor(ws, chain[0], chain[1]) && WaitsFor(ws, chain[1], chain[2]);
      ChainClimbs(ws, rest);
      WaitClimbs(ws, chain[0], chain[1]);
    } else {
      assert WaitsFor(ws, chain[0], chain[1]);
      WaitClimbs(ws, chain[0], chain[1]);
    }
  }

  /** No interleaving of any number of workers reaches a circle of waits. */
  lemma NoDeadlock(run: seq<Action>, chain: seq<int>)
    requires IsRun(run) && |chain| >= 2 && chain[0] == chain[|chain| - 1]
    ensures !WaitChain(After(run), chain)
  {
    RunLocksOk(run);
    var ws := After(run);
    if WaitChain(ws, chain) {
      assert WaitsFor(ws, chain[0], chain[1]);
      ChainClimbs(ws, chain);
    }
  }

  /** Whenever anyone is active, someone can take its next lock or finish. */
  lemma SomeoneMoves(run: seq<Action>)
    requires IsRun(run) && After(run) != map[]
    ensures exists w :: w in After(run) && forall v :: !WaitsFor(After(run), w, v)
  {
    RunLocksOk(run);
    var ws := After(run);
    assert ws.Keys != {};
    HasElement(ws.Keys);
    var w :| w in ws.Keys;
    var _ := Unblocked(ws, w, ws.Keys);
  }

  /** Following waits upward from `w` must end; `left` are those not yet passed. */
  lemma {:induction false} Unblocked(ws: Workers, w: int, left: set<int>) returns (top: int)
    requires LocksOk(ws) && w in ws && w in left && left <= ws.Keys
    requires forall v :: v in ws && v !in left ==>
               Wants(ws, v) && (Wants(ws, w) ==> Next(ws, v) < Next(ws, w))
    ensures top in ws && forall v :: !WaitsFor(ws, top, v)
    decreases |left|
  {
    if v :| WaitsFor(ws, w, v) {
      if ws[v].held == |ws[v].plan| {
        top := v;
      } else {
        WaitClimbs(ws, w, v);
        top := Unblocked(ws, v, left - {w});
      }
    } else {
      top := w;
    }
  }
}
