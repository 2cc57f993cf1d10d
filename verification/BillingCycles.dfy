/** Statement periods of an account, generated from its billing day. */
module BillingCycles {
  import opened Options
  import opened Calendar
  import opened Ordering

  type AccountId = int
  type CycleId = int
  type TxnId = int

  const MAX_CYCLE_MONTHS := 600

  datatype Cycle = Cycle(account: AccountId, start: Date, end: Date)

  datatype Kind = Debit | Credit | Neither

  datatype Txn = Txn(account: AccountId, date: Date, kind: Kind, amount: int, cycle: Option<CycleId>, detached: bool)

  /** One user's billing_cycles and transactions; `next` stands for the fresh
      identifier the database hands out. */
  datatype Book = Book(cycles: map<CycleId, Cycle>, txns: map<TxnId, Txn>, next: CycleId)

  // ----- calendar

  function Normal(day: int): (d: int)
    ensures 1 <= d <= 31
  {
    if day <= 0 || day > 31 then 1 else day
  }

  /** The cycle ending in a month: from the day after the previous billing date. */
  function CycleOf(account: AccountId, month: int, day: int): Cycle
    requires 1 <= day <= 31
  {
    Cycle(account, NextDay(DayInMonth(month - 1, day)), DayInMonth(month, day))
  }

  predicate Holds(c: Cycle, date: Date) {
    !Before(date, c.start) && !Before(c.end, date)
  }

  function LastMonth(today: Date, day: int): int
    requires 1 <= day <= 31
  {
    if Before(DayInMonth(today.month, day), today) then today.month + 1 else today.month
  }

  function FirstMonth(earliest: Date, today: Date, day: int): int
    requires 1 <= day <= 31
  {
    var floor := LastMonth(today, day) - (MAX_CYCLE_MONTHS - 1);
    if earliest.month - 1 < floor then floor else earliest.month - 1
  }

  // ----- the statements

  predicate Misaligned(book: Book, account: AccountId, day: int)
    requires 1 <= day <= 31
  {
    exists c :: c in book.cycles && book.cycles[c].account == account
                && book.cycles[c].end != DayInMonth(book.cycles[c].end.month, day)
  }

  predicate InCycleOf(book: Book, t: Txn, account: AccountId) {
    t.cycle.Some? && t.cycle.value in book.cycles && book.cycles[t.cycle.value].account == account
  }

  function DropCycles(book: Book, account: AccountId): Book {
    book.(txns := map t | t in book.txns ::
            if InCycleOf(book, book.txns[t], account) then book.txns[t].(cycle := None, detached := false)
                else book.txns[t],
          cycles := map c | c in book.cycles && book.cycles[c].account != account :: book.cycles[c])
  }

  function DropMisaligned(book: Book, account: AccountId, day: int): Book
    requires 1 <= day <= 31
  {
    if Misaligned(book, account, day) then DropCycles(book, account) else book
  }

  predicate StartTaken(book: Book, account: AccountId, start: Date) {
    exists c :: c in book.cycles && book.cycles[c].account == account && book.cycles[c].start == start
  }

  /** INSERT ... ON CONFLICT (user, account, start) DO NOTHING */
  function InsertCycle(book: Book, c: Cycle): Book {
    if StartTaken(book, c.account, c.start) then book
    else book.(cycles := book.cycles[book.next := c], next := book.next + 1)
  }

  function CoveredMonths(book: Book, account: AccountId): set<int> {
    set c | c in book.cycles && book.cycles[c].account == account :: book.cycles[c].end.month
  }

  /** A cycle for each month of [first, last] not covered. */
  function InsertMonths(book: Book, account: AccountId, day: int, covered: set<int>, first: int, last: int): Book
    requires 1 <= day <= 31
    decreases last - first
  {
    if last < first then book
    else
      var before := InsertMonths(book, account, day, covered, first, last - 1);
      if last in covered then before else InsertCycle(before, CycleOf(account, last, day))
  }

  ghost predicate IsEarliest(book: Book, account: AccountId, today: Date, earliest: Date) {
    if forall t :: t in book.txns ==> book.txns[t].account != account then earliest == today
    else
      && (exists t :: t in book.txns && book.txns[t].account == account && book.txns[t].date == earliest)
      && (forall t :: t in book.txns && book.txns[t].account == account ==> !Before(book.txns[t].date, earliest))
  }

  predicate Unassigned(t: Txn, account: AccountId) {
    t.account == account && t.cycle == None && !t.detached
  }

  predicate CanHold(cycles: map<CycleId, Cycle>, c: CycleId, t: Txn) {
    c in cycles && cycles[c].account == t.account && Holds(cycles[c], t.date)
  }

  /** One row under the back-fill: a matching unassigned row takes some cycle
      holding its date, every other row is untouched. */
  ghost predicate Filled(cycles: map<CycleId, Cycle>, account: AccountId, was: Txn, now: Txn) {
    if Unassigned(was, account) && exists c :: CanHold(cycles, c, was)
    then exists c :: CanHold(cycles, c, was) && now == was.(cycle := Some(c))
    else now == was
  }

  ghost predicate BackFilled(book: Book, account: AccountId, after: Book) {
    && after.cycles == book.cycles && after.next == book.next && after.txns.Keys == book.txns.Keys
    && forall t :: t in book.txns ==> Filled(book.cycles, account, book.txns[t], after.txns[t])
  }

  /** The cycles one run leaves behind, before the back-fill. */
  function Generated(book: Book, account: AccountId, day: int, earliest: Date, today: Date): Book {
    var d := Normal(day);
    var kept := DropMisaligned(book, account, d);
    InsertMonths(kept, account, d, CoveredMonths(kept, account), FirstMonth(earliest, today, d), LastMonth(today, d))
  }

  /** What one run does to the book. */
  ghost predicate Ensured(book: Book, account: AccountId, day: int, earliest: Date, today: Date, after: Book) {
    IsEarliest(book, account, today, earliest)
        && BackFilled(Generated(book, account, day, earliest, today), account, after)
  }

  // ----- the program

  method AllCovered(covered: set<int>, months: seq<int>) returns (all: bool)
    ensures all <==> forall k :: 0 <= k < |months| ==> months[k] in covered
  {
    all := true;
    for i := 0 to |months|
      invariant all <==> forall k :: 0 <= k < i ==> months[k] in covered
    {
      if months[i] !in covered {
        all := false;
      }
    }
  }

  /** The months that should have a cycle, oldest first, the newest 600 at most. */
  method BillingCycleMonths(earliest: Date, today: Date, day: int) returns (months: seq<int>)
    requires 1 <= day <= 31
    ensures var first, last := FirstMonth(earliest, today, day), LastMonth(today, day);
            |months| == (if first <= last then last - first + 1 else 0) && forall i :: 0 <= i < |months| ==>
                months[i] == first + i
    ensures |months| <= MAX_CYCLE_MONTHS
  {
    var first := earliest.month - 1;
    var last := today.month;
    if Before(DayInMonth(last, day), today) {
      last := last + 1;
    }
    var floor := last - (MAX_CYCLE_MONTHS - 1);
    if first < floor {
      first := floor;
    }
    months := [];
    var month := first;
    while month <= last
      invariant |months| == month - first && month <= (if first <= last then last + 1 else first)
      invariant forall i :: 0 <= i < |months| ==> months[i] == first + i
    {
      months := months + [month];
      month := month + 1;
    }
  }

  lemma DropKeepsEarliest(book: Book, account: AccountId, day: int, today: Date, earliest: Date)
    requires 1 <= day <= 31 && IsEarliest(DropMisaligned(book, account, day), account, today, earliest)
    ensures IsEarliest(book, account, today, earliest)
  {
    var kept := DropMisaligned(book, account, day);
    assert forall t :: t in book.txns ==>
             kept.txns[t].date == book.txns[t].date && kept.txns[t].account == book.txns[t].account;
    if exists t :: t in book.txns && book.txns[t].account == account {
      var t :| t in kept.txns && kept.txns[t].account == account && kept.txns[t].date == earliest;
      assert book.txns[t].date == earliest;
    }
  }

  lemma {:induction false} NothingToInsert(book: Book, account: AccountId, day: int, covered: set<int>, first: int,
                                           last: int, months: seq<int>)
    requires 1 <= day <= 31 && |months| == (if first <= last then last - first + 1 else 0)
    requires forall i :: 0 <= i < |months| ==> months[i] == first + i && months[i] in covered
    ensures InsertMonths(book, account, day, covered, first, last) == book
    decreases |months|
  {
    if first <= last {
      assert months[|months| - 1] == last;
      NothingToInsert(book, account, day, covered, first, last - 1, months[..|months| - 1]);
    }
  }

  lemma EmptySpan(book: Book, account: AccountId, day: int, covered: set<int>, first: int, last: int)
    requires 1 <= day <= 31
    ensures last < first ==>
              InsertMonths(book, account, day, covered, first, last)
                  == InsertMonths(book, account, day, covered, first, first - 1)
  {
  }

  lemma {:induction false} InsertKeepsRows(book: Book, account: AccountId, day: int, covered: set<int>, first: int,
                                           last: int)
    requires 1 <= day <= 31
    ensures InsertMonths(book, account, day, covered, first, last).txns == book.txns
    decreases last - first
  {
    if first <= last {
      InsertKeepsRows(book, account, day, covered, first, last - 1);
    }
  }

  class Ledger {
    var cycles: map<CycleId, Cycle>
    var txns: map<TxnId, Txn>
    var next: CycleId

    function Value(): Book
      reads this
    {
      Book(cycles, txns, next)
    }

    predicate BadEnd(c: CycleId, account: AccountId, day: int)
      requires 1 <= day <= 31
      reads this
    {
      c in cycles && cycles[c].account == account && cycles[c].end != DayInMonth(cycles[c].end.month, day)
    }

    method DropMisalignedCycles(account: AccountId, day: int)
      requires 1 <= day <= 31
      modifies this
      ensures Value() == DropMisaligned(old(Value()), account, day)
    {
      var rows := Listing(cycles.Keys);
      var misaligned := false;
      for i := 0 to |rows|
        invariant misaligned <==> exists k :: 0 <= k < i && BadEnd(rows[k], account, day)
        invariant cycles == old(cycles) && txns == old(txns) && next == old(next)
      {
        if BadEnd(rows[i], account, day) {
          misaligned := true;
        }
      }
      assert misaligned <==> Misaligned(Value(), account, day) by {
        if Misaligned(Value(), account, day) {
          var c :| c in cycles && BadEnd(c, account, day);
          assert c in rows;
        }
      }
      if misaligned {
        txns, cycles := DropCycles(Value(), account).txns, DropCycles(Value(), account).cycles;
      }
    }

    method FirstDate(account: AccountId, today: Date) returns (earliest: Date)
      ensures IsEarliest(Value(), account, today, earliest)
    {
      earliest := today;
      var found := false;
      ghost var at: TxnId := 0;
      var rows := Listing(txns.Keys);
      for i := 0 to |rows|
        invariant !found ==> earliest == today && forall k :: 0 <= k < i ==> txns[rows[k]].account != account
        invariant found ==> at in txns && txns[at].account == account && txns[at].date == earliest
        invariant found ==> forall k :: 0 <= k < i && txns[rows[k]].account == account ==>
                    !Before(txns[rows[k]].date, earliest)
      {
        var t := txns[rows[i]];
        if t.account == account && (!found || Before(t.date, earliest)) {
          found, earliest, at := true, t.date, rows[i];
        }
      }
      assert forall t :: t in txns ==> t in rows;
    }

    method InsertRow(c: Cycle)
      modifies this
      ensures Value() == InsertCycle(old(Value()), c)
    {
      if !StartTaken(Value(), c.account, c.start) {
        cycles := cycles[next := c];
        next := next + 1;
      }
    }

    method FillRow(ids: seq<CycleId>, t: Txn, account: AccountId) returns (row: Txn)
      requires forall c :: c in ids <==> c in cycles
      ensures Filled(cycles, account, t, row)
    {
      row := t;
      if t.account == account && t.cycle == None && !t.detached {
        for k := 0 to |ids|
          invariant row == t && forall j :: 0 <= j < k ==> !CanHold(cycles, ids[j], t)
        {
          if CanHold(cycles, ids[k], t) {
            row := t.(cycle := Some(ids[k]));
            return;
          }
        }
      }
    }

    /** The UPDATE ... FROM that attaches each unassigned row to a cycle. */
    method BackFill(account: AccountId)
      modifies this`txns
      ensures BackFilled(old(Value()), account, Value())
    {
      var rows := Listing(txns.Keys);
      var ids := Listing(cycles.Keys);
      ghost var before := Value();
      for i := 0 to |rows|
        invariant txns.Keys == before.txns.Keys
        invariant forall k :: 0 <= k < i ==> Filled(cycles, account, before.txns[rows[k]], txns[rows[k]])
        invariant forall k :: i <= k < |rows| ==> txns[rows[k]] == before.txns[rows[k]]
      {
        var row := FillRow(ids, txns[rows[i]], account);
        txns := txns[rows[i] := row];
      }
      assert forall t :: t in before.txns ==> t in rows;
    }

    method InsertMissing(account: AccountId, day: int, covered: set<int>, months: seq<int>, ghost first: int)
      requires 1 <= day <= 31 && forall i :: 0 <= i < |months| ==> months[i] == first + i
      modifies this
      ensures Value() == InsertMonths(old(Value()), account, day, covered, first, first + |months| - 1)
    {
      for i := 0 to |months|
        invariant Value() == InsertMonths(old(Value()), account, day, covered, first, first + i - 1)
      {
        // Skip months that already have a cycle.
        if months[i] !in covered {
          InsertRow(CycleOf(account, months[i], day));
        }
      }
    }

    /** Generates the missing cycles of an account and back-fills its rows,
        doing neither when every month is covered and no row is unassigned. */
    method EnsureBillingCycles(account: AccountId, billingDay: int, today: Date) returns (earliest: Date)
      modifies this
      ensures Ensured(old(Value()), account, billingDay, earliest, today, Value())
    {
      var day := billingDay;
      if day <= 0 || day > 31 {
        day := 1;
      }
      DropMisalignedCycles(account, day);
      earliest := FirstDate(account, today);
      DropKeepsEarliest(old(Value()), account, day, today, earliest);
      var covered := CoveredMonths(Value(), account);
      var months := BillingCycleMonths(earliest, today, day);
      var allCovered := AllCovered(covered, months);
      var hasUnassigned := exists t :: t in txns && Unassigned(txns[t], account);
      ghost var first, last := FirstMonth(earliest, today, day), LastMonth(today, day);
      if allCovered && !hasUnassigned {
        NothingToInsert(Value(), account, day, covered, first, last, months);
        return;
      }
      InsertKeepsRows(Value(), account, day, covered, first, last);
      EmptySpan(Value(), account, day, covered, first, last);
      InsertMissing(account, day, covered, months, first);
      if hasUnassigned {
        BackFill(account);
      }
    }
  }
}
