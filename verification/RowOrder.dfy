/** Taking rows oldest first: the ORDER BY created_at, id LIMIT n of the outbox
    queries. */
module RowOrder {
  import opened Domain

  function Elems(ids: seq<Id>): set<Id>
  {
    set id | id in ids
  }

  /** ORDER BY created_at, id. */
  predicate Before(created: map<Id, int>, a: Id, b: Id)
    requires a in created && b in created
  {
    created[a] < created[b] || (created[a] == created[b] && a <= b)
  }

  method Oldest(created: map<Id, int>, ids: set<Id>) returns (id: Id)
    requires ids != {} && ids <= created.Keys
    ensures id in ids && forall x :: x in ids ==> Before(created, id, x)
  {
    HasElement(ids);
    id :| id in ids;
    var left := ids - {id};
    while left != {}
      invariant id in ids && left <= ids
      invariant forall y :: y in ids && y !in left ==> Before(created, id, y)
      decreases |left|
    {
      HasElement(left);
      var x :| x in left;
      left := left - {x};
      if !Before(created, id, x) {
        id := x;
      }
    }
  }

  lemma ElemsSnoc(ids: seq<Id>, id: Id)
    ensures Elems(ids + [id]) == Elems(ids) + {id}
    ensures id in ids <==> id in Elems(ids)
  {
  }

  /** Each row comes before the later ones and before all of `rest`. */
  ghost predicate Sorted(created: map<Id, int>, r: seq<Id>, rest: set<Id>)
    requires Elems(r) + rest <= created.Keys
  {
    && (forall i :: 0 <= i < |r| ==> r[i] in Elems(r))
    && (forall i, j :: 0 <= i < j < |r| ==> r[i] != r[j] && Before(created, r[i], r[j]))
    && (forall i, x :: 0 <= i < |r| && x in rest ==> Before(created, r[i], x))
  }

  lemma SortedSnoc(created: map<Id, int>, r: seq<Id>, rest: set<Id>, x: Id)
    requires Elems(r) + rest <= created.Keys && Elems(r) !! rest && Sorted(created, r, rest)
    requires x in rest && forall y :: y in rest ==> Before(created, x, y)
    ensures Elems(r + [x]) + (rest - {x}) <= created.Keys && Sorted(created, r + [x], rest - {x})
  {
    hide Before;
    ElemsSnoc(r, x);
    assert forall i :: 0 <= i < |r| ==> (r + [x])[i] == r[i];
  }

  lemma Moves(taken: set<Id>, left: set<Id>, x: Id)
    requires x in left && taken !! left
    ensures (taken + {x}) + (left - {x}) == taken + left && (taken + {x}) !! (left - {x})
    ensures |taken + {x}| == |taken| + 1 && |left - {x}| == |left| - 1
  {
  }

  /** The first `limit` of a set of rows. */
  method InOrder(created: map<Id, int>, ids: set<Id>, limit: nat) returns (r: seq<Id>, ghost rest: set<Id>)
    requires ids <= created.Keys
    ensures Elems(r) + rest == ids && Elems(r) !! rest
    ensures |r| == |Elems(r)| == if limit < |ids| then limit else |ids|
    ensures Sorted(created, r, rest)
  {
    hide Before, Elems;
    r := [];
    NoElems();
    var left := ids;
    assert Sorted(created, r, left);
    hide Sorted;
    while left != {} && |r| < limit
      invariant |r| <= limit && |r| + |left| == |ids|
      invariant Elems(r) + left == ids && Elems(r) !! left && |Elems(r)| == |r|
      invariant Sorted(created, r, left)
      decreases |left|
    {
      var x := Oldest(created, left);
      SortedSnoc(created, r, left, x);
      ElemsSnoc(r, x);
      Moves(Elems(r), left, x);
      left := left - {x};
      r := r + [x];
    }
    rest := left;
  }

  lemma NoElems()
    ensures forall ids :: Elems(ids) == {} <==> ids == []
  {
    forall ids: seq<Id> | ids != [] ensures Elems(ids) != {} {
      assert ids[0] in Elems(ids);
    }
  }
}
