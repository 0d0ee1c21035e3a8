/** Finite sums over sets, the arithmetic behind every conservation result. */
module Sums {

  /** The sum of `f` over `s`, in whatever order the elements are taken. */
  ghost function Sum<T(!new)>(s: set<T>, f: T -> int): int
  {
    if s == {} then 0 else
      var x :| x in s;
      f(x) + Sum(s - {x}, f)
  }

  /** Any element may be taken out first. */
  lemma {:induction false} SumSplit<T(!new)>(s: set<T>, f: T -> int, x: T)
    requires x in s
    ensures Sum(s, f) == f(x) + Sum(s - {x}, f)
    decreases |s|
  {
    var y :| y in s && Sum(s, f) == f(y) + Sum(s - {y}, f);
    if y != x {
      SumSplit(s - {y}, f, x);
      SumSplit(s - {x}, f, y);
      assert s - {y} - {x} == s - {x} - {y};
    }
  }

  lemma SumAdd<T(!new)>(s: set<T>, f: T -> int, x: T)
    requires x !in s
    ensures Sum(s + {x}, f) == Sum(s, f) + f(x)
  {
    SumSplit(s + {x}, f, x);
    assert s + {x} - {x} == s;
  }

  /** A sum depends only on the values inside the set. */
  lemma {:induction false} SumCong<T(!new)>(s: set<T>, f: T -> int, g: T -> int)
    requires forall x :: x in s ==> f(x) == g(x)
    ensures Sum(s, f) == Sum(s, g)
    decreases |s|
  {
    if s != {} {
      var x :| x in s;
      SumSplit(s, f, x);
      SumSplit(s, g, x);
      SumCong(s - {x}, f, g);
    }
  }

  lemma SumZero<T(!new)>(s: set<T>, f: T -> int)
    requires forall x :: x in s ==> f(x) == 0
    ensures Sum(s, f) == 0
    decreases |s|
  {
    if s != {} {
      var x :| x in s;
      SumSplit(s, f, x);
      SumZero(s - {x}, f);
    }
  }

  /** Changing the value at one element changes the sum by the difference. */
  lemma SumUpdate<T(!new)>(s: set<T>, f: T -> int, g: T -> int, x: T)
    requires x in s
    requires forall y :: y in s && y != x ==> f(y) == g(y)
    ensures Sum(s, g) == Sum(s, f) - f(x) + g(x)
  {
    SumSplit(s, f, x);
    SumSplit(s, g, x);
    SumCong(s - {x}, f, g);
  }

  lemma SumInsert<T(!new)>(s: set<T>, f: T -> int, g: T -> int, x: T)
    requires x !in s
    requires forall y :: y in s ==> f(y) == g(y)
    ensures Sum(s + {x}, g) == Sum(s, f) + g(x)
  {
    SumAdd(s, g, x);
    SumCong(s, f, g);
  }

  lemma {:induction false} SumPlus<T(!new)>(s: set<T>, f: T -> int, g: T -> int, h: T -> int)
    requires forall x :: x in s ==> h(x) == f(x) + g(x)
    ensures Sum(s, h) == Sum(s, f) + Sum(s, g)
    decreases |s|
  {
    if s != {} {
      var x :| x in s;
      SumSplit(s, f, x);
      SumSplit(s, g, x);
      SumSplit(s, h, x);
      SumPlus(s - {x}, f, g, h);
    }
  }

  /** Only one element contributes. */
  lemma SumSingle<T(!new)>(s: set<T>, f: T -> int, x: T)
    requires x in s
    requires forall y :: y in s && y != x ==> f(y) == 0
    ensures Sum(s, f) == f(x)
  {
    SumSplit(s, f, x);
    SumZero(s - {x}, f);
  }

  lemma {:induction false} SumUnion<T(!new)>(s: set<T>, t: set<T>, f: T -> int)
    requires s !! t
    ensures Sum(s + t, f) == Sum(s, f) + Sum(t, f)
    decreases |t|
  {
    if t == {} {
      assert s + t == s;
    } else {
      var x :| x in t;
      SumSplit(s + t, f, x);
      SumSplit(t, f, x);
      assert s + t - {x} == s + (t - {x});
      SumUnion(s, t - {x}, f);
    }
  }

  /** Exchanging the order of a double sum: `row(a)(b)` and `col(b)(a)` are the
      same number. */
  lemma {:induction false} SumExchange<A(!new), B(!new)>(
      s: set<A>, t: set<B>, row: A -> B -> int, col: B -> A -> int, rows: A -> int, cols: B -> int)
    requires forall a, b :: a in s && b in t ==> row(a)(b) == col(b)(a)
    requires forall a :: a in s ==> rows(a) == Sum(t, row(a))
    requires forall b :: b in t ==> cols(b) == Sum(s, col(b))
    ensures Sum(s, rows) == Sum(t, cols)
    decreases |s|
  {
    if s == {} {
      SumZero(t, cols);
    } else {
      var x :| x in s;
      SumSplit(s, rows, x);
      var rest := (b: B) => Sum(s - {x}, col(b));
      SumExchange(s - {x}, t, row, col, rows, rest);
      forall b | b in t
        ensures cols(b) == row(x)(b) + rest(b)
      {
        SumSplit(s, col(b), x);
      }
      SumPlus(t, row(x), rest, cols);
    }
  }

  /** Summing along a one-to-one renaming. */
  lemma {:induction false} SumRename<A(!new), B(!new)>(s: set<A>, t: set<B>, g: A -> B, f: B -> int, h: A -> int)
    requires forall a :: a in s ==> g(a) in t && h(a) == f(g(a))
    requires forall a, b :: a in s && b in s && g(a) == g(b) ==> a == b
    requires forall b :: b in t ==> exists a :: a in s && g(a) == b
    ensures Sum(s, h) == Sum(t, f)
    decreases |s|
  {
    if s == {} {
      assert t == {};
    } else {
      var x :| x in s;
      SumSplit(s, h, x);
      SumSplit(t, f, g(x));
      SumRename(s - {x}, t - {g(x)}, g, f, h);
    }
  }
}
