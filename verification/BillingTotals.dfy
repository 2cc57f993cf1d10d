/** The statement list of an account: each cycle's net activity and the running
    total it leaves outstanding. */
module BillingTotals {
  import opened Options
  import opened Calendar
  import opened Ordering
  import opened Sums
  import opened BillingCycles

  datatype Statement = Statement(id: CycleId, start: Date, end: Date, net: int, count: nat, outstanding: int)

  function Signed(t: Txn): int {
    match t.kind
    case Debit => t.amount
    case Credit => -t.amount
    case Neither => 0
  }

  ghost function SignedIn(book: Book): TxnId -> int {
    t => if t in book.txns then Signed(book.txns[t]) else 0
  }

  function Attached(book: Book, c: CycleId): set<TxnId> {
    set t | t in book.txns && book.txns[t].cycle == Some(c)
  }

  /** The rows attached to the account's cycles that start by `start`. */
  function AttachedBy(book: Book, account: AccountId, start: Date): set<TxnId> {
    set t | t in book.txns && InCycleOf(book, book.txns[t], account)
        && !Before(start, book.cycles[book.txns[t].cycle.value].start)
  }

  predicate StartsNoLater(a: Statement, b: Statement) {
    !Before(b.start, a.start)
  }

  predicate OwnStart(book: Book, account: AccountId, c: CycleId) {
    c in book.cycles && book.cycles[c].account == account
  }

  ghost predicate UniqueStarts(book: Book, account: AccountId) {
    forall a, b ::
        OwnStart(book, account, a) && OwnStart(book, account, b) && book.cycles[a].start == book.cycles[b].start ==>
            a == b
  }

  /** The statement of one cycle before the running total reaches it. */
  ghost predicate Describes(book: Book, account: AccountId, s: Statement) {
    && s.id in book.cycles && book.cycles[s.id] == Cycle(account, s.start, s.end)
    && s.net == SumOver(Attached(book, s.id), SignedIn(book)) && s.count == |Attached(book, s.id)|
  }

  function Members(rows: seq<TxnId>): set<TxnId> {
    set t | t in rows
  }

  lemma OneMoreRow(rows: seq<TxnId>, n: nat)
    requires n < |rows| && Distinct(rows)
    ensures Members(rows[..n + 1]) == Members(rows[..n]) + {rows[n]} && rows[n] !in Members(rows[..n])
  {
    assert rows[..n + 1] == rows[..n] + [rows[n]];
  }

  lemma {:induction false} CountRows(rows: seq<TxnId>)
    requires Distinct(rows)
    ensures |Members(rows)| == |rows|
  {
    if rows != [] {
      var n := |rows| - 1;
      CountRows(rows[..n]);
      OneMoreRow(rows, n);
      assert rows[..n + 1] == rows;
    }
  }

  method SumRows(book: Book, rows: seq<TxnId>) returns (net: int)
    requires Distinct(rows) && forall t :: t in rows ==> t in book.txns
    ensures net == SumOver(Members(rows), SignedIn(book))
  {
    net := 0;
    for i := 0 to |rows|
      invariant net == SumOver(Members(rows[..i]), SignedIn(book))
    {
      OneMoreRow(rows, i);
      SumAdd(Members(rows[..i]), SignedIn(book), rows[i]);
      net := net + Signed(book.txns[rows[i]]);
    }
    assert rows[..|rows|] == rows;
  }

  /** LEFT JOIN transactions ... GROUP BY cycle */
  method Summarize(book: Book, c: CycleId) returns (s: Statement)
    requires c in book.cycles
    ensures Describes(book, book.cycles[c].account, s) && s.id == c && s.outstanding == 0
  {
    var rows := Listing(Attached(book, c));
    var net := SumRows(book, rows);
    CountRows(rows);
    assert Members(rows) == Attached(book, c);
    s := Statement(c, book.cycles[c].start, book.cycles[c].end, net, |rows|, 0);
  }

  ghost function Outstanding(book: Book, account: AccountId, start: Date): int {
    SumOver(AttachedBy(book, account, start), SignedIn(book))
  }

  /** A row with its running total filled in. */
  ghost predicate Totalled(book: Book, account: AccountId, row: Statement, s: Statement) {
    s == row.(outstanding := Outstanding(book, account, row.start))
  }

  ghost function AttachedToFirst(book: Book, rows: seq<Statement>, n: nat): set<TxnId>
    requires n <= |rows|
  {
    if n == 0 then {} else AttachedToFirst(book, rows, n - 1) + Attached(book, rows[n - 1].id)
  }

  ghost predicate Lists(book: Book, account: AccountId, rows: seq<Statement>) {
    && Sorted(StartsNoLater, rows)
    && (forall i, j :: 0 <= i < j < |rows| ==> rows[i].id != rows[j].id)
    && (forall c :: c in book.cycles && book.cycles[c].account == account ==>
         exists i :: 0 <= i < |rows| && rows[i].id == c)
    && (forall i :: 0 <= i < |rows| ==> Describes(book, account, rows[i]))
  }

  lemma {:induction false} InFirst(book: Book, rows: seq<Statement>, n: nat, t: TxnId)
    requires n <= |rows|
    ensures t in AttachedToFirst(book, rows, n) <==> exists k :: 0 <= k < n && t in Attached(book, rows[k].id)
  {
    if n > 0 {
      InFirst(book, rows, n - 1, t);
    }
  }

  lemma AttachedIsBy(book: Book, account: AccountId, rows: seq<Statement>, i: nat, k: nat, t: TxnId)
    requires Lists(book, account, rows) && k <= i < |rows| && t in Attached(book, rows[k].id)
    ensures t in AttachedBy(book, account, rows[i].start)
  {
    assert Describes(book, account, rows[k]);
    assert k < i ==> StartsNoLater(rows[k], rows[i]);
  }

  lemma FirstAreBy(book: Book, account: AccountId, rows: seq<Statement>, i: nat)
    requires Lists(book, account, rows) && i < |rows|
    ensures AttachedToFirst(book, rows, i + 1) <= AttachedBy(book, account, rows[i].start)
  {
    forall t | t in AttachedToFirst(book, rows, i + 1)
      ensures t in AttachedBy(book, account, rows[i].start)
    {
      InFirst(book, rows, i + 1, t);
      var k :| 0 <= k < i + 1 && t in Attached(book, rows[k].id);
      AttachedIsBy(book, account, rows, i, k, t);
    }
  }

  lemma NotLater(book: Book, account: AccountId, rows: seq<Statement>, i: nat, k: nat)
    requires UniqueStarts(book, account) && Lists(book, account, rows) && i < |rows| && k < |rows|
    requires !Before(rows[i].start, rows[k].start)
    ensures k <= i
  {
    assert Describes(book, account, rows[k]) && Describes(book, account, rows[i]);
    assert OwnStart(book, account, rows[k].id) && OwnStart(book, account, rows[i].id);
    assert k > i ==> StartsNoLater(rows[i], rows[k]);
  }

  lemma ByIsAttached(book: Book, account: AccountId, rows: seq<Statement>, i: nat, t: TxnId) returns (k: nat)
    requires UniqueStarts(book, account) && Lists(book, account, rows) && i < |rows|
    requires t in AttachedBy(book, account, rows[i].start)
    ensures k <= i && t in Attached(book, rows[k].id)
  {
    var c := book.txns[t].cycle.value;
    k :| 0 <= k < |rows| && rows[k].id == c;
    assert Describes(book, account, rows[k]);
    NotLater(book, account, rows, i, k);
  }

  lemma ByAreFirst(book: Book, account: AccountId, rows: seq<Statement>, i: nat)
    requires UniqueStarts(book, account) && Lists(book, account, rows) && i < |rows|
    ensures AttachedBy(book, account, rows[i].start) <= AttachedToFirst(book, rows, i + 1)
  {
    forall t | t in AttachedBy(book, account, rows[i].start)
      ensures t in AttachedToFirst(book, rows, i + 1)
    {
      var k := ByIsAttached(book, account, rows, i, t);
      InFirst(book, rows, i + 1, t);
    }
  }

  lemma PrefixIsBy(book: Book, account: AccountId, rows: seq<Statement>, i: nat)
    requires UniqueStarts(book, account) && Lists(book, account, rows) && i < |rows|
    ensures AttachedToFirst(book, rows, i + 1) == AttachedBy(book, account, rows[i].start)
  {
    FirstAreBy(book, account, rows, i);
    ByAreFirst(book, account, rows, i);
  }

  lemma OutstandingIs(book: Book, account: AccountId, rows: seq<Statement>, i: nat)
    requires UniqueStarts(book, account) && Lists(book, account, rows) && i < |rows|
    ensures Outstanding(book, account, rows[i].start) == SumOver(AttachedToFirst(book, rows, i + 1), SignedIn(book))
  {
    PrefixIsBy(book, account, rows, i);
  }

  lemma FirstMissNext(book: Book, rows: seq<Statement>, i: nat)
    requires i < |rows| && forall j, k :: 0 <= j < k < |rows| ==> rows[j].id != rows[k].id
    ensures AttachedToFirst(book, rows, i) !! Attached(book, rows[i].id)
  {
    forall t | t in AttachedToFirst(book, rows, i)
      ensures t !in Attached(book, rows[i].id)
    {
      InFirst(book, rows, i, t);
    }
  }

  lemma NextSum(book: Book, account: AccountId, rows: seq<Statement>, i: nat)
    requires Lists(book, account, rows) && i < |rows|
    ensures SumOver(AttachedToFirst(book, rows, i + 1), SignedIn(book))
              == SumOver(AttachedToFirst(book, rows, i), SignedIn(book)) + rows[i].net
  {
    assert Describes(book, account, rows[i]);
    FirstMissNext(book, rows, i);
    SumUnion(AttachedToFirst(book, rows, i), Attached(book, rows[i].id), SignedIn(book));
  }

  lemma NextRow(book: Book, account: AccountId, rows: seq<Statement>, i: nat)
    requires UniqueStarts(book, account) && Lists(book, account, rows) && i < |rows|
    ensures Outstanding(book, account, rows[i].start)
              == (if i == 0 then 0 else Outstanding(book, account, rows[i - 1].start)) + rows[i].net
  {
    OutstandingIs(book, account, rows, i);
    if i > 0 {
      OutstandingIs(book, account, rows, i - 1);
    }
    NextSum(book, account, rows, i);
  }

  method RunTotals(book: Book, account: AccountId, rows: seq<Statement>) returns (statements: seq<Statement>)
    requires UniqueStarts(book, account) && Lists(book, account, rows)
    ensures |statements| == |rows| && forall k :: 0 <= k < |rows| ==> Totalled(book, account, rows[k], statements[k])
  {
    statements := [];
    var running := 0;
    for i := 0 to |rows|
      invariant |statements| == i && (i > 0 ==> running == Outstanding(book, account, rows[i - 1].start))
      invariant (i == 0 ==> running == 0)
      invariant forall k :: 0 <= k < i ==> Totalled(book, account, rows[k], statements[k])
    {
      NextRow(book, account, rows, i);
      running := running + rows[i].net;
      statements := statements + [rows[i].(outstanding := running)];
    }
  }

  lemma TotalsAreListed(book: Book, account: AccountId, rows: seq<Statement>, statements: seq<Statement>)
    requires Lists(book, account, rows) && |statements| == |rows|
    requires forall k :: 0 <= k < |rows| ==> Totalled(book, account, rows[k], statements[k])
    ensures Lists(book, account, statements)
  {
    forall i, j | 0 <= i < j < |statements|
      ensures StartsNoLater(statements[i], statements[j]) && statements[i].id != statements[j].id
    {
      assert StartsNoLater(rows[i], rows[j]) && Totalled(book, account, rows[i], statements[i])
               && Totalled(book, account, rows[j], statements[j]);
    }
    forall i | 0 <= i < |statements|
      ensures Describes(book, account, statements[i])
    {
      assert Describes(book, account, rows[i]) && Totalled(book, account, rows[i], statements[i]);
    }
    forall c | c in book.cycles && book.cycles[c].account == account
      ensures exists i :: 0 <= i < |statements| && statements[i].id == c
    {
      var k :| 0 <= k < |rows| && rows[k].id == c;
      assert Totalled(book, account, rows[k], statements[k]);
    }
  }

  lemma StartsOrder()
    ensures TotalPreorder(StartsNoLater)
  {
  }

  /** The query's rows, ordered by start date. */
  method OrderedRows(book: Book, account: AccountId) returns (rows: seq<Statement>)
    ensures Lists(book, account, rows)
  {
    var ids := Listing(set c | c in book.cycles && book.cycles[c].account == account);
    var found: seq<Statement> := [];
    for i := 0 to |ids|
      invariant |found| == i && forall k :: 0 <= k < i ==> found[k].id == ids[k] && Describes(book, account, found[k])
    {
      assert ids[i] in ids;
      var s := Summarize(book, ids[i]);
      found := found + [s];
    }
    rows := SortBy(StartsNoLater, found);
    StartsOrder();
    SortSorted(StartsNoLater, found);
    SortMembers(StartsNoLater, found);
    SortDistinct(StartsNoLater, found);
    forall i, j | 0 <= i < j < |rows|
      ensures rows[i].id != rows[j].id
    {
      assert rows[i] in found && rows[j] in found;
    }
    forall c | c in book.cycles && book.cycles[c].account == account
      ensures exists i :: 0 <= i < |rows| && rows[i].id == c
    {
      assert c in ids;
      var k :| 0 <= k < |ids| && ids[k] == c;
      assert found[k] in rows;
    }
    forall i | 0 <= i < |rows|
      ensures Describes(book, account, rows[i])
    {
      assert rows[i] in found;
    }
  }

  // ----- the figures in debits and credits

  ghost function AmountIn(book: Book): TxnId -> int {
    t => if t in book.txns then book.txns[t].amount else 0
  }

  /** What the rows of one kind add up to. */
  ghost function Total(book: Book, rows: set<TxnId>, kind: Kind): int {
    SumOver((set t | t in rows && t in book.txns && book.txns[t].kind == kind), AmountIn(book))
  }

  lemma SignedIsDebitsLessCredits(book: Book, rows: set<TxnId>)
    requires rows <= book.txns.Keys
    ensures SumOver(rows, SignedIn(book)) == Total(book, rows, Debit) - Total(book, rows, Credit)
  {
    var debits := set t | t in rows && t in book.txns && book.txns[t].kind == Debit;
    var credits := set t | t in rows && t in book.txns && book.txns[t].kind == Credit;
    forall t | t in rows
      ensures SignedIn(book)(t)
           == if t in debits then AmountIn(book)(t) else if t in credits then -AmountIn(book)(t) else 0
    {
      assert t in book.txns;
    }
    SumSigned(rows, debits, credits, SignedIn(book), AmountIn(book));
  }

  /** A statement's net activity is its debits less its credits, its count all its
      rows, and what it leaves outstanding the debits less the credits of every
      row in a cycle of the account that starts no later. */
  ghost predicate Figures(book: Book, account: AccountId, s: Statement) {
    var own := set t | t in book.txns && book.txns[t].cycle == Some(s.id);
    var upTo := set t |
      t in book.txns && book.txns[t].cycle.Some? && book.txns[t].cycle.value in book.cycles
      && book.cycles[book.txns[t].cycle.value].account == account
      && !Before(s.start, book.cycles[book.txns[t].cycle.value].start);
    && s.net == Total(book, own, Debit) - Total(book, own, Credit)
    && s.count == |own|
    && s.outstanding == Total(book, upTo, Debit) - Total(book, upTo, Credit)
  }

  lemma FiguresHold(book: Book, account: AccountId, s: Statement)
    requires Describes(book, account, s) && s.outstanding == Outstanding(book, account, s.start)
    ensures Figures(book, account, s)
  {
    var own := set t | t in book.txns && book.txns[t].cycle == Some(s.id);
    var upTo := set t |
      t in book.txns && book.txns[t].cycle.Some? && book.txns[t].cycle.value in book.cycles
      && book.cycles[book.txns[t].cycle.value].account == account
      && !Before(s.start, book.cycles[book.txns[t].cycle.value].start);
    assert own == Attached(book, s.id);
    forall t
      ensures t in upTo <==> t in AttachedBy(book, account, s.start)
    {
      assert t in book.txns ==> (t in upTo <==> t in AttachedBy(book, account, s.start));
    }
    assert upTo == AttachedBy(book, account, s.start);
    SignedIsDebitsLessCredits(book, own);
    SignedIsDebitsLessCredits(book, upTo);
  }

  /** The account's statements, oldest first. Every cycle is listed once, and
      what a statement leaves outstanding is the debits less the credits of every
      row attached to a cycle starting no later. */
  method ListBillingCycles(book: Book, account: AccountId) returns (statements: seq<Statement>)
    requires UniqueStarts(book, account)
    ensures Lists(book, account, statements)
    ensures forall i :: 0 <= i < |statements| ==>
              statements[i].outstanding == Outstanding(book, account, statements[i].start)
    ensures forall i :: 0 <= i < |statements| ==> Figures(book, account, statements[i])
  {
    var rows := OrderedRows(book, account);
    statements := RunTotals(book, account, rows);
    TotalsAreListed(book, account, rows, statements);
    forall i | 0 <= i < |statements|
      ensures statements[i].outstanding == Outstanding(book, account, statements[i].start)
      ensures Figures(book, account, statements[i])
    {
      assert Totalled(book, account, rows[i], statements[i]);
      FiguresHold(book, account, statements[i]);
    }
  }

  /** The newest statement's running total counts every row attached to any of
      the account's cycles. */
  lemma LastTotalCountsEveryRow(book: Book, account: AccountId, statements: seq<Statement>)
    requires Lists(book, account, statements) && statements != []
    ensures Outstanding(book, account, statements[|statements| - 1].start)
         == SumOver((set t | t in book.txns && InCycleOf(book, book.txns[t], account)), SignedIn(book))
  {
    var last := statements[|statements| - 1];
    forall t | t in book.txns && InCycleOf(book, book.txns[t], account)
      ensures t in AttachedBy(book, account, last.start)
    {
      var k :| 0 <= k < |statements| && statements[k].id == book.txns[t].cycle.value;
      assert Describes(book, account, statements[k]);
      assert k < |statements| - 1 ==> StartsNoLater(statements[k], last);
    }
    assert AttachedBy(book, account, last.start) == (set t | t in book.txns && InCycleOf(book, book.txns[t], account));
  }
}
