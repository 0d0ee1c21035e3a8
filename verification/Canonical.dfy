/** The canonical form of a posting request, whose digest guards an idempotency key:
    account ids lower-cased, amounts at two decimals, lines sorted. */
module Canonical {

  /** A line as received; amounts are decimals of any scale. */
  datatype RequestLine = RequestLine(account: string, credit: real, debit: real)

  /** A line as digested. */
  datatype Line = Line(account: string, credit: string, debit: string)

  /** A line up to spelling: lower-cased account and whole cents. */
  datatype Meaning = Meaning(account: string, credit: int, debit: int)

  datatype CanonicalRequest = CanonicalRequest(ledger: string, lines: seq<Line>)

  // -------------------------------------------------------------------- normalising

  function LowerChar(c: char): char
  {
    if 'A' <= c <= 'Z' then (c as int + 32) as char else c
  }

  /** Capital letters become the small letter at their place in the alphabet, and
      nothing else changes. */
  function Lower(s: string): (r: string)
    ensures |r| == |s|
    ensures forall i :: 0 <= i < |s| && 'A' <= s[i] <= 'Z' ==> 'a' <= r[i] <= 'z' && r[i] - 'a' == s[i] - 'A'
    ensures forall i :: 0 <= i < |s| && !('A' <= s[i] <= 'Z') ==> r[i] == s[i]
  {
    seq(|s|, i requires 0 <= i < |s| => LowerChar(s[i]))
  }

  /** Cents, rounding halves away from zero. */
  function Cents(x: real): int
  {
    if x >= 0.0 then (x * 100.0 + 0.5).Floor else -((-x * 100.0 + 0.5).Floor)
  }

  /** The nearest cent; an exact half goes away from zero. */
  lemma CentsRounds(x: real)
    ensures -0.5 <= x * 100.0 - Cents(x) as real <= 0.5
    ensures x >= 0.0 ==> x * 100.0 - Cents(x) as real < 0.5
    ensures Cents(-x) == -Cents(x)
  {
    if x >= 0.0 {
      var f := (x * 100.0 + 0.5).Floor;
      assert f as real <= x * 100.0 + 0.5 < f as real + 1.0;
    } else {
      var f := (-x * 100.0 + 0.5).Floor;
      assert f as real <= -x * 100.0 + 0.5 < f as real + 1.0;
    }
  }

  function Digit(n: nat): char
    requires n < 10
  {
    ('0' as int + n) as char
  }

  function Value(c: char): int
  {
    c as int - '0' as int
  }

  function Digits(n: nat): string
  {
    if n < 10 then [Digit(n)] else Digits(n / 10) + [Digit(n % 10)]
  }

  function ReadDigits(s: string): int
  {
    if s == [] then 0 else 10 * ReadDigits(s[..|s| - 1]) + Value(s[|s| - 1])
  }

  lemma {:induction false} ReadsDigits(n: nat)
    ensures ReadDigits(Digits(n)) == n && Digits(n) != [] && Digits(n)[0] != '-'
    decreases n
  {
    if n < 10 {
      assert Digits(n)[..0] == [];
    } else {
      ReadsDigits(n / 10);
      assert Digits(n)[..|Digits(n)| - 1] == Digits(n / 10);
    }
  }

  /** Fixed notation with two decimals. */
  function Fixed(cents: int): string
  {
    if cents < 0 then ['-'] + Unsigned(-cents) else Unsigned(cents)
  }

  function Unsigned(n: nat): string
  {
    Digits(n / 100) + ['.', Digit(n % 100 / 10), Digit(n % 10)]
  }

  function ReadUnsigned(s: string): int
  {
    var n := |s|;
    if n < 3 then 0 else 100 * ReadDigits(s[..n - 3]) + 10 * Value(s[n - 2]) + Value(s[n - 1])
  }

  function ReadFixed(s: string): int
  {
    if s != [] && s[0] == '-' then -ReadUnsigned(s[1..]) else ReadUnsigned(s)
  }

  lemma ReadsUnsigned(n: nat)
    ensures ReadUnsigned(Unsigned(n)) == n && Unsigned(n) != [] && Unsigned(n)[0] != '-'
  {
    ReadsDigits(n / 100);
    var s := Unsigned(n);
    assert s[..|s| - 3] == Digits(n / 100);
  }

  /** Different cents are written differently. */
  lemma ReadsFixed(cents: int)
    ensures ReadFixed(Fixed(cents)) == cents
  {
    if cents < 0 {
      ReadsUnsigned(-cents);
      assert Fixed(cents)[1..] == Unsigned(-cents);
    } else {
      ReadsUnsigned(cents);
    }
  }

  predicate IsDigit(c: char)
  {
    '0' <= c <= '9'
  }

  lemma {:induction false} DigitsForm(n: nat)
    ensures Digits(n) != [] && (forall i :: 0 <= i < |Digits(n)| ==> IsDigit(Digits(n)[i]))
    ensures |Digits(n)| > 1 ==> Digits(n)[0] != '0'
    decreases n
  {
    if n >= 10 {
      DigitsForm(n / 10);
      if n / 10 < 10 {
        assert Digits(n / 10) == [Digit(n / 10)];
      }
    }
  }

  /** An optional minus, at least one digit, a point and two digits, with no leading
      zeros; so the text is what the amount at two decimals is printed as. */
  lemma FixedForm(cents: int)
    ensures var s, k := Fixed(cents), if cents < 0 then 1 else 0;
            && |s| >= k + 4 && (cents < 0 ==> s[0] == '-') && s[|s| - 3] == '.'
            && (forall i :: k <= i < |s| && i != |s| - 3 ==> IsDigit(s[i]))
            && (|s| > k + 4 ==> s[k] != '0')
  {
    var n := if cents < 0 then -cents else cents;
    DigitsForm(n / 100);
    assert Fixed(cents) == (if cents < 0 then ['-'] else []) + Digits(n / 100) + Unsigned(n)[|Digits(n / 100)|..];
  }

  function Mean(e: RequestLine): Meaning
  {
    Meaning(Lower(e.account), Cents(e.credit), Cents(e.debit))
  }

  /** Two lines mean the same exactly when nothing but the case of the account id and
      fractions of a cent tell them apart. */
  lemma SameMeaning(x: RequestLine, y: RequestLine)
    ensures Mean(x) == Mean(y) <==>
              && Lower(x.account) == Lower(y.account)
              && Cents(x.credit) == Cents(y.credit) && Cents(x.debit) == Cents(y.debit)
  {
  }

  function Spell(m: Meaning): Line
  {
    Line(m.account, Fixed(m.credit), Fixed(m.debit))
  }

  function Unspell(l: Line): Meaning
  {
    Meaning(l.account, ReadFixed(l.credit), ReadFixed(l.debit))
  }

  lemma UnspellSpell(m: Meaning)
    ensures Unspell(Spell(m)) == m
  {
    ReadsFixed(m.credit);
    ReadsFixed(m.debit);
  }

  // --------------------------------------------------------------------- the order

  predicate Below(a: string, b: string)
  {
    if b == [] then false
    else if a == [] then true
    else a[0] < b[0] || (a[0] == b[0] && Below(a[1..], b[1..]))
  }

  /** Byte order: a proper prefix, or the smaller character where they first differ. */
  ghost predicate ByteOrder(a: string, b: string, i: nat)
  {
    i <= |a| && i < |b| && a[..i] == b[..i] && (i == |a| || a[i] < b[i])
  }

  lemma {:induction false} BelowIsByteOrder(a: string, b: string)
    ensures Below(a, b) <==> exists i: nat :: ByteOrder(a, b, i)
    decreases |a|
  {
    if a != [] && b != [] {
      var x, y := a[1..], b[1..];
      BelowIsByteOrder(x, y);
      if Below(a, b) {
        if a[0] < b[0] {
          assert ByteOrder(a, b, 0);
        } else {
          var i: nat :| ByteOrder(x, y, i);
          assert a[..i + 1] == [a[0]] + x[..i] && b[..i + 1] == [b[0]] + y[..i];
          assert ByteOrder(a, b, i + 1);
        }
      }
      if i: nat :| ByteOrder(a, b, i) && i > 0 {
        assert a[..i][0] == b[..i][0] && x[..i - 1] == a[..i][1..] && y[..i - 1] == b[..i][1..];
        assert ByteOrder(x, y, i - 1);
      }
    } else if b != [] {
      assert ByteOrder(a, b, 0);
    }
  }

  lemma {:induction false} BelowTotal(a: string, b: string)
    ensures Below(a, b) || Below(b, a) || a == b
    ensures !(Below(a, b) && Below(b, a)) && !Below(a, a)
    decreases |a|
  {
    if a != [] {
      BelowTotal(a[1..], a[1..]);
      if b != [] {
        BelowTotal(a[1..], b[1..]);
        assert a == [a[0]] + a[1..] && b == [b[0]] + b[1..];
      }
    }
  }

  lemma {:induction false} BelowTransitive(a: string, b: string, c: string)
    requires Below(a, b) && Below(b, c)
    ensures Below(a, c)
    decreases |a|
  {
    if a != [] && a[0] == b[0] == c[0] {
      BelowTransitive(a[1..], b[1..], c[1..]);
    }
  }

  /** The comparator handed to the sort: account, then debit, then credit. */
  predicate Less(l: Line, r: Line)
  {
    if l.account != r.account then Below(l.account, r.account)
    else if l.debit != r.debit then Below(l.debit, r.debit)
    else Below(l.credit, r.credit)
  }

  ghost predicate Precedes(a: string, b: string)
  {
    exists i: nat :: ByteOrder(a, b, i)
  }

  /** The comparator is the byte order of accounts, then of debits, then of credits. */
  lemma LessIsByteOrder(l: Line, r: Line)
    ensures Less(l, r) <==>
              || Precedes(l.account, r.account)
              || (l.account == r.account && Precedes(l.debit, r.debit))
              || (l.account == r.account && l.debit == r.debit && Precedes(l.credit, r.credit))
  {
    BelowIsByteOrder(l.account, r.account);
    BelowIsByteOrder(l.debit, r.debit);
    BelowIsByteOrder(l.credit, r.credit);
    BelowTotal(l.account, r.account);
    BelowTotal(l.debit, r.debit);
  }

  /** Lines the comparator cannot tell apart are the same line. */
  lemma TiesAreEqual(l: Line, r: Line)
    ensures !Less(l, r) && !Less(r, l) <==> l == r
    ensures !(Less(l, r) && Less(r, l))
  {
    BelowTotal(l.account, r.account);
    BelowTotal(l.debit, r.debit);
    BelowTotal(l.credit, r.credit);
  }

  lemma LessTransitive(a: Line, b: Line, c: Line)
    requires !Less(b, a) && !Less(c, b)
    ensures !Less(c, a)
  {
    if a != b && b != c {
      TiesAreEqual(a, b);
      TiesAreEqual(b, c);
      TiesAreEqual(a, c);
      if a.account != b.account && b.account != c.account {
        BelowTransitive(a.account, b.account, c.account);
      } else if a.account == b.account == c.account {
        if a.debit != b.debit && b.debit != c.debit {
          BelowTransitive(a.debit, b.debit, c.debit);
        } else if a.debit == b.debit == c.debit {
          BelowTransitive(a.credit, b.credit, c.credit);
        }
      }
    }
  }

  ghost predicate Sorted(ls: seq<Line>)
  {
    forall i, j :: 0 <= i < j < |ls| ==> !Less(ls[j], ls[i])
  }

  function Without<A>(xs: seq<A>, i: int): seq<A>
    requires 0 <= i < |xs|
  {
    xs[..i] + xs[i + 1..]
  }

  lemma BagWithout<A>(xs: seq<A>, i: int)
    requires 0 <= i < |xs|
    ensures multiset(Without(xs, i)) == multiset(xs) - multiset{xs[i]}
    ensures multiset(xs) == multiset(Without(xs, i)) + multiset{xs[i]}
  {
    var a, b := xs[..i], xs[i + 1..];
    calc {
      multiset(xs);
      { assert xs == a + ([xs[i]] + b); }
      multiset(a + ([xs[i]] + b));
      multiset(a) + multiset([xs[i]] + b);
      multiset(a) + (multiset([xs[i]]) + multiset(b));
      multiset(a + b) + multiset{xs[i]};
    }
  }

  lemma SameSize<A>(xs: seq<A>, ys: seq<A>)
    requires multiset(xs) == multiset(ys)
    ensures |xs| == |ys|
  {
    assert |multiset(xs)| == |xs| && |multiset(ys)| == |ys|;
  }

  lemma Position<A>(xs: seq<A>, ys: seq<A>, x: A) returns (i: int)
    requires multiset(xs) == multiset(ys) && x in xs
    ensures 0 <= i < |ys| && ys[i] == x
  {
    assert x in multiset(ys);
    i :| 0 <= i < |ys| && ys[i] == x;
  }

  lemma HeadsEqual(xs: seq<Line>, ys: seq<Line>)
    requires Sorted(xs) && Sorted(ys) && multiset(xs) == multiset(ys) && xs != [] && ys != []
    ensures xs[0] == ys[0]
  {
    hide Less;
    var i := Position(xs, ys, xs[0]);
    var j := Position(ys, xs, ys[0]);
    TiesAreEqual(xs[0], ys[0]);
  }

  lemma TailSorted(xs: seq<Line>)
    requires Sorted(xs) && xs != []
    ensures Sorted(xs[1..]) && Without(xs, 0) == xs[1..] && xs == [xs[0]] + xs[1..]
  {
    hide Less;
  }

  /** A sorted arrangement is unique, so it does not matter which sort is used or
      whether it is stable. */
  lemma {:induction false} SortedUnique(xs: seq<Line>, ys: seq<Line>)
    requires Sorted(xs) && Sorted(ys) && multiset(xs) == multiset(ys)
    ensures xs == ys
    decreases |xs|
  {
    hide Sorted, Without;
    SameSize(xs, ys);
    if xs != [] {
      HeadsEqual(xs, ys);
      BagWithout(xs, 0);
      BagWithout(ys, 0);
      TailSorted(xs);
      TailSorted(ys);
      SortedUnique(xs[1..], ys[1..]);
    }
  }

  method InsertLine(ls: seq<Line>, l: Line) returns (r: seq<Line>)
    requires Sorted(ls)
    ensures Sorted(r) && multiset(r) == multiset(ls) + multiset{l}
  {
    hide Less;
    var i := |ls|;
    while i > 0 && Less(l, ls[i - 1])
      invariant 0 <= i <= |ls|
      invariant forall j :: i <= j < |ls| ==> !Less(ls[j], l)
    {
      TiesAreEqual(l, ls[i - 1]);
      i := i - 1;
    }
    r := ls[..i] + [l] + ls[i..];
    BagWithout(r, i);
    assert Without(r, i) == ls;
    Inserted(ls, l, i);
  }

  lemma Inserted(ls: seq<Line>, l: Line, i: int)
    requires Sorted(ls) && 0 <= i <= |ls| && (i > 0 ==> !Less(l, ls[i - 1]))
    requires forall j :: i <= j < |ls| ==> !Less(ls[j], l)
    ensures Sorted(ls[..i] + [l] + ls[i..])
  {
    hide Less;
    var r := ls[..i] + [l] + ls[i..];
    forall j | 0 <= j < i ensures !Less(l, ls[j]) {
      if j < i - 1 {
        LessTransitive(ls[j], ls[i - 1], l);
      }
    }
    assert forall j :: 0 <= j < i ==> r[j] == ls[j];
    assert forall j :: i < j < |r| ==> r[j] == ls[j - 1];
  }

  // -------------------------------------------------------------------- the request

  function Map<A, B>(f: A -> B, xs: seq<A>): (r: seq<B>)
    ensures |r| == |xs| && forall i :: 0 <= i < |xs| ==> r[i] == f(xs[i])
  {
    seq(|xs|, i requires 0 <= i < |xs| => f(xs[i]))
  }

  function Meanings(entries: seq<RequestLine>): (r: seq<Meaning>)
    ensures |r| == |entries|
  {
    Map(Mean, entries)
  }

  function Lines(entries: seq<RequestLine>): (r: seq<Line>)
    ensures |r| == |entries|
  {
    Map(Spell, Meanings(entries))
  }

  /** Sorted lines of the request, whatever the sort. */
  ghost predicate IsCanonical(ledger: string, entries: seq<RequestLine>, r: CanonicalRequest)
  {
    r.ledger == ledger && Sorted(r.lines) && multiset(r.lines) == multiset(Lines(entries))
  }

  lemma NothingSorted()
    ensures Sorted([])
  {
  }

  method Canonicalise(ledger: string, entries: seq<RequestLine>) returns (r: CanonicalRequest)
    ensures IsCanonical(ledger, entries, r)
  {
    hide Less, Sorted, Lower, Fixed, Cents;
    NothingSorted();
    var lines: seq<Line> := [];
    for i := 0 to |entries|
      invariant |lines| == i && forall j :: 0 <= j < i ==> lines[j] == Lines(entries)[j]
    {
      var e := entries[i];
      lines := lines + [Line(Lower(e.account), Fixed(Cents(e.credit)), Fixed(Cents(e.debit)))];
    }
    assert lines == Lines(entries);
    var sorted: seq<Line> := [];
    for i := 0 to |lines|
      invariant Sorted(sorted) && multiset(sorted) == multiset(lines[..i])
    {
      assert lines[..i + 1] == lines[..i] + [lines[i]];
      sorted := InsertLine(sorted, lines[i]);
    }
    assert lines[..|lines|] == lines;
    r := CanonicalRequest(ledger, sorted);
  }

  /** Mapping equal bags gives equal bags. */
  lemma {:induction false} MapBags<A, B>(f: A -> B, xs: seq<A>, ys: seq<A>)
    requires multiset(xs) == multiset(ys)
    ensures multiset(Map(f, xs)) == multiset(Map(f, ys))
    decreases |xs|
  {
    SameSize(xs, ys);
    if xs != [] {
      var i := Position(xs, ys, xs[0]);
      BagWithout(xs, 0);
      BagWithout(ys, i);
      MapBags(f, Without(xs, 0), Without(ys, i));
      MapWithout(f, xs, 0);
      MapWithout(f, ys, i);
      BagWithout(Map(f, xs), 0);
      BagWithout(Map(f, ys), i);
    }
  }

  lemma MapWithout<A, B>(f: A -> B, xs: seq<A>, i: int)
    requires 0 <= i < |xs|
    ensures Map(f, Without(xs, i)) == Without(Map(f, xs), i)
  {
  }

  lemma UnspellAll(ms: seq<Meaning>)
    ensures Map(Unspell, Map(Spell, ms)) == ms
  {
    forall i | 0 <= i < |ms| ensures Unspell(Spell(ms[i])) == ms[i] {
      UnspellSpell(ms[i]);
    }
  }

  /** Two requests have the same canonical form exactly when they name the same ledger
      and their lines are the same bag, once account ids are lower-cased and amounts
      rounded to cents. */
  lemma SameFormIffSameBag(l1: string, e1: seq<RequestLine>, r1: CanonicalRequest, l2: string, e2: seq<RequestLine>,
                           r2: CanonicalRequest)
    requires IsCanonical(l1, e1, r1) && IsCanonical(l2, e2, r2)
    ensures r1 == r2 <==> l1 == l2 && multiset(Meanings(e1)) == multiset(Meanings(e2))
  {
    if multiset(Meanings(e1)) == multiset(Meanings(e2)) {
      MapBags(Spell, Meanings(e1), Meanings(e2));
      SortedUnique(r1.lines, r2.lines);
    }
    if r1 == r2 {
      MapBags(Unspell, Lines(e1), Lines(e2));
      UnspellAll(Meanings(e1));
      UnspellAll(Meanings(e2));
    }
  }
}
