/** Accounts, entries and the double-entry rule that every posting path shares. */
module Domain {

  /** An identifier, only ever compared. A UUID is its value read big-endian, so
      byte order is numeric order and the nil UUID, which is the default ledger, is
      0. The in-memory store never parses its identifiers, so there one number stands
      for one text, and 0 for the empty text. */
  type Id = int

  const NIL: Id := 0

  /** One of the texts an identifier can be written as. Form 0 is the canonical one:
      what the program itself writes, and what the database gives back. */
  datatype Spelling = Spelling(id: Id, form: int)

  function Standard(id: Id): Spelling
  {
    Spelling(id, 0)
  }

  datatype Option<+T> = None | Some(value: T)

  /** The limit of a worker's pass; anything not positive means 100. */
  function Limit(limit: int): nat
  {
    if limit <= 0 then 100 else limit
  }

  function Pow2(n: nat): nat
  {
    if n == 0 then 1 else 2 * Pow2(n - 1)
  }

  ghost function Any<T>(s: set<T>): (x: T)
    requires s != {}
    ensures x in s
  {
    var x :| x in s; x
  }

  /** Lets a loop over a set of identifiers take its next element. */
  lemma HasElement(s: set<Id>)
    requires s != {}
    ensures exists x :: x in s
  {
    var x := Any(s);
  }

  datatype AccountType = Asset | Liability | Equity | Revenue | Expense

  /** `balance` is debit minus credit in cents, whatever the type. */
  datatype Account = Account(ledger: Id, name: string, typ: AccountType, balance: int)

  /** One line of a posting, amounts in cents. */
  datatype Entry = Entry(account: Id, credit: int, debit: int)

  datatype Transaction = Transaction(id: Id, ledger: Id, entries: seq<Entry>, time: int)

  function TxIds(txs: seq<Transaction>): set<Id>
  {
    set t | t in txs :: t.id
  }

  ghost predicate UniqueIds(txs: seq<Transaction>)
  {
    forall i, j :: 0 <= i < j < |txs| ==> txs[i].id != txs[j].id
  }

  type Accounts = map<Id, Account>

  const CLEARING_NAME := "__transfer_clearing__"

  datatype EntryFault = TooFewEntries | NegativeAmount | EmptyEntry | TwoSidedEntry | Unbalanced

  function Debits(es: seq<Entry>): int
  {
    if es == [] then 0 else Debits(es[..|es| - 1]) + es[|es| - 1].debit
  }

  function Credits(es: seq<Entry>): int
  {
    if es == [] then 0 else Credits(es[..|es| - 1]) + es[|es| - 1].credit
  }

  predicate OneSided(e: Entry)
  {
    e.debit >= 0 && e.credit >= 0 && (e.debit == 0 <==> e.credit != 0)
  }

  /** The double-entry rule: at least two lines, each a positive debit or a
      positive credit, and the two sides agree. */
  predicate Balanced(es: seq<Entry>)
  {
    && |es| >= 2
    && (forall e :: e in es ==> OneSided(e))
    && Debits(es) == Credits(es)
  }

  lemma NotEmpty(es: seq<Entry>)
    requires Balanced(es)
    ensures es != []
  {
  }

  function EntryFaultOf(e: Entry): Option<EntryFault>
  {
    if e.debit < 0 || e.credit < 0 then Some(NegativeAmount)
    else if e.debit == 0 && e.credit == 0 then Some(EmptyEntry)
    else if e.debit != 0 && e.credit != 0 then Some(TwoSidedEntry)
    else None
  }

  /** Refuses exactly the unbalanced requests; the fault named for a bad line is
      the one of the first bad line. */
  method ValidateTransaction(es: seq<Entry>) returns (fault: Option<EntryFault>)
    ensures fault.None? <==> Balanced(es)
    ensures fault.None? <==>
              && |es| >= 2 && Debits(es) == Credits(es)
              && forall i :: 0 <= i < |es| ==>
                   (es[i].debit > 0 && es[i].credit == 0) || (es[i].credit > 0 && es[i].debit == 0)
    ensures fault == Some(TooFewEntries) <==> |es| < 2
    ensures fault == Some(Unbalanced) <==>
              |es| >= 2 && (forall e :: e in es ==> OneSided(e)) && Debits(es) != Credits(es)
    ensures fault.Some? && fault.value in {NegativeAmount, EmptyEntry, TwoSidedEntry} ==>
              exists k :: 0 <= k < |es| && EntryFaultOf(es[k]) == fault
                          && forall j :: 0 <= j < k ==> OneSided(es[j])
  {
    if |es| < 2 {
      return Some(TooFewEntries);
    }
    var totalDebit, totalCredit := 0, 0;
    for i := 0 to |es|
      invariant forall j :: 0 <= j < i ==> OneSided(es[j])
      invariant totalDebit == Debits(es[..i]) && totalCredit == Credits(es[..i])
    {
      assert es[i] in es;
      assert OneSided(es[i]) <==> EntryFaultOf(es[i]).None?;
      if es[i].debit < 0 || es[i].credit < 0 {
        return Some(NegativeAmount);
      }
      if es[i].debit == 0 && es[i].credit == 0 {
        return Some(EmptyEntry);
      }
      if es[i].debit != 0 && es[i].credit != 0 {
        return Some(TwoSidedEntry);
      }
      assert es[..i + 1][..i] == es[..i];
      totalDebit := totalDebit + es[i].debit;
      totalCredit := totalCredit + es[i].credit;
    }
    assert es[..|es|] == es;
    if totalDebit != totalCredit {
      return Some(Unbalanced);
    }
    return None;
  }

  /** What a list of lines does to one account: its debits minus its credits. */
  function Net(es: seq<Entry>, a: Id): int
  {
    if es == [] then 0 else
      var last := es[|es| - 1];
      Net(es[..|es| - 1], a) + if last.account == a then last.debit - last.credit else 0
  }

  predicate Known(accounts: Accounts, es: seq<Entry>)
  {
    forall e :: e in es ==> e.account in accounts
  }

  predicate InLedger(accounts: Accounts, es: seq<Entry>, ledger: Id)
    requires Known(accounts, es)
  {
    forall e :: e in es ==> accounts[e.account].ledger == ledger
  }

  function Plus(a: Account, amount: int): Account
  {
    a.(balance := a.balance + amount)
  }

  /** Posting lines one at a time moves every account by its net amount. */
  function ApplyEntries(accounts: Accounts, es: seq<Entry>): (r: Accounts)
    requires Known(accounts, es)
    ensures r.Keys == accounts.Keys
    ensures forall a :: a in accounts ==> r[a] == Plus(accounts[a], Net(es, a))
  {
    if es == [] then accounts else
      var last := es[|es| - 1];
      assert last in es;
      var before := ApplyEntries(accounts, es[..|es| - 1]);
      before[last.account := Plus(before[last.account], last.debit - last.credit)]
  }

  lemma {:induction false} NetUntouched(es: seq<Entry>, a: Id)
    requires forall e :: e in es ==> e.account != a
    ensures Net(es, a) == 0
  {
    if es != [] {
      assert es[|es| - 1] in es;
      NetUntouched(es[..|es| - 1], a);
    }
  }

  lemma NetPair(x: Entry, y: Entry, a: Id)
    ensures Net([x, y], a) == (if x.account == a then x.debit - x.credit else 0)
                              + (if y.account == a then y.debit - y.credit else 0)
    ensures Debits([x, y]) == x.debit + y.debit
    ensures Credits([x, y]) == x.credit + y.credit
  {
    assert [x, y][..1] == [x];
    assert [x][..0] == [];
    assert Net([x], a) == if x.account == a then x.debit - x.credit else 0;
    assert Debits([x]) == x.debit && Credits([x]) == x.credit;
  }

  /** The balance a holder sees: positive for a normal balance of its type. */
  function Displayed(typ: AccountType, balance: int): int
  {
    if typ.Asset? || typ.Expense? then balance else -balance
  }

  function DisplayedBalanceAfter(typ: AccountType, stored: int, debit: int, credit: int): (r: int)
    ensures r == Displayed(typ, stored + debit - credit)
  {
    match typ
    case Asset => stored + debit - credit
    case Expense => stored + debit - credit
    case _ => -stored + credit - debit
  }

  /** The journal's own account balance. */
  function JournalNet(txs: seq<Transaction>, a: Id): int
  {
    if txs == [] then 0 else JournalNet(txs[..|txs| - 1], a) + Net(txs[|txs| - 1].entries, a)
  }

  lemma JournalNetSnoc(txs: seq<Transaction>, tx: Transaction, a: Id)
    ensures JournalNet(txs + [tx], a) == JournalNet(txs, a) + Net(tx.entries, a)
  {
    assert (txs + [tx])[..|txs|] == txs;
  }

  lemma {:induction false} JournalNetAppend(xs: seq<Transaction>, ys: seq<Transaction>, a: Id)
    ensures JournalNet(xs + ys, a) == JournalNet(xs, a) + JournalNet(ys, a)
    decreases |ys|
  {
    if ys == [] {
      assert xs + ys == xs;
    } else {
      assert (xs + ys)[..|xs + ys| - 1] == xs + ys[..|ys| - 1];
      JournalNetAppend(xs, ys[..|ys| - 1], a);
    }
  }

  /** Reordering the journal changes no account balance. */
  lemma {:induction false} JournalNetPermutes(xs: seq<Transaction>, ys: seq<Transaction>, a: Id)
    requires multiset(xs) == multiset(ys)
    ensures JournalNet(xs, a) == JournalNet(ys, a)
    decreases |xs|
  {
    if xs == [] {
      assert |multiset(ys)| == 0;
    } else {
      var last := xs[|xs| - 1];
      assert last in multiset(ys);
      var k :| 0 <= k < |ys| && ys[k] == last;
      var rest := ys[..k] + ys[k + 1..];
      assert xs == xs[..|xs| - 1] + [last];
      assert ys == ys[..k] + [last] + ys[k + 1..];
      assert multiset(xs[..|xs| - 1]) == multiset(xs) - multiset{last};
      assert multiset(rest) == multiset(ys) - multiset{last};
      JournalNetPermutes(xs[..|xs| - 1], rest, a);
      JournalNetAppend(ys[..k] + [last], ys[k + 1..], a);
      JournalNetAppend(ys[..k], ys[k + 1..], a);
      JournalNetSnoc(ys[..k], last, a);
    }
  }

  lemma {:induction false} JournalNetUntouched(txs: seq<Transaction>, a: Id)
    requires forall t, e :: t in txs && e in t.entries ==> e.account != a
    ensures JournalNet(txs, a) == 0
  {
    if txs != [] {
      assert txs[|txs| - 1] in txs;
      NetUntouched(txs[|txs| - 1].entries, a);
      JournalNetUntouched(txs[..|txs| - 1], a);
    }
  }
}
