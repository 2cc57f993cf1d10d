/** What generating billing cycles promises, run after run, as the billing day
    and the transactions change in between. */
module BillingTheorems {
  import opened Options
  import opened Calendar
  import opened BillingCycles

  // ----- the shape of an account's cycles

  predicate Owns(book: Book, account: AccountId, c: CycleId) {
    c in book.cycles && book.cycles[c].account == account
  }

  /** Every cycle of the account is the one its billing day gives its month. */
  ghost predicate OnDay(book: Book, account: AccountId, day: int)
    requires 1 <= day <= 31
  {
    forall c :: Owns(book, account, c) ==> book.cycles[c] == CycleOf(account, book.cycles[c].end.month, day)
  }

  ghost predicate OnePerMonth(book: Book, account: AccountId) {
    forall a, b :: Owns(book, account, a) && Owns(book, account, b) && a != b ==>
        book.cycles[a].end.month != book.cycles[b].end.month
  }

  ghost predicate Numbered(book: Book) {
    forall c :: c in book.cycles ==> c < book.next
  }

  ghost predicate SomeConsecutive(book: Book, account: AccountId) {
    exists a, b ::
        Owns(book, account, a) && Owns(book, account, b) && book.cycles[b].end.month == book.cycles[a].end.month + 1
  }

  ghost predicate NoCycles(book: Book, account: AccountId) {
    forall c :: !Owns(book, account, c)
  }

  /** What every run leaves behind: no cycles at all, or cycles of one billing
      day, one a month, with two consecutive months among them. */
  ghost predicate Settled(book: Book, account: AccountId) {
    && Numbered(book) && OnePerMonth(book, account)
    && exists day ::
         1 <= day <= 31 && OnDay(book, account, day) && (NoCycles(book, account) || SomeConsecutive(book, account))
  }

  // ----- tiling

  /** Of two consecutive months one has 31 days, so their billing dates tell the
      billing day. */
  lemma TwoMonthsFixTheDay(month: int, d: int, e: int)
    requires 1 <= d <= 31 && 1 <= e <= 31
    requires DayInMonth(month, d) == DayInMonth(month, e) && DayInMonth(month + 1, d) == DayInMonth(month + 1, e)
    ensures d == e
  {
    assert (month + 1) % 12 == (if month % 12 == 11 then 0 else month % 12 + 1);
    assert DaysInMonth(month) == 31 || DaysInMonth(month + 1) == 31;
  }

  lemma BillingDatesIncrease(m: int, n: int, day: int)
    requires 1 <= day <= 31
    ensures m <= n ==> ToDay(DayInMonth(m, day)) <= ToDay(DayInMonth(n, day))
  {
    BeforeIsDayOrder(DayInMonth(n, day), DayInMonth(m, day));
  }

  lemma HoldsInDays(account: AccountId, m: int, day: int, date: Date)
    requires 1 <= day <= 31
    ensures Holds(CycleOf(account, m, day), date)
       <==> ToDay(DayInMonth(m - 1, day)) < ToDay(date) <= ToDay(DayInMonth(m, day))
  {
    NextDayIsNext(DayInMonth(m - 1, day));
    BeforeIsDayOrder(date, NextDay(DayInMonth(m - 1, day)));
    BeforeIsDayOrder(DayInMonth(m, day), date);
  }

  /** Cycles of one day tile the calendar: each is non-empty, the next month's
      begins the day after it ends, and no date is in two of them. */
  lemma CyclesTile(account: AccountId, m: int, n: int, day: int, date: Date)
    requires 1 <= day <= 31
    ensures ToDay(CycleOf(account, m, day).start) <= ToDay(CycleOf(account, m, day).end)
    ensures ToDay(CycleOf(account, m + 1, day).start) == ToDay(CycleOf(account, m, day).end) + 1
    ensures Holds(CycleOf(account, m, day), date) && Holds(CycleOf(account, n, day), date) ==> m == n
  {
    var before, end := DayInMonth(m - 1, day), DayInMonth(m, day);
    BeforeIsDayOrder(before, end);
    NextDayIsNext(before);
    NextDayIsNext(end);
    HoldsInDays(account, m, day, date);
    HoldsInDays(account, n, day, date);
    BillingDatesIncrease(m, n - 1, day);
    BillingDatesIncrease(n, m - 1, day);
  }

  /** Every date falls in the cycle of its own month or of the next. */
  lemma SomeMonthHolds(account: AccountId, day: int, date: Date)
    requires 1 <= day <= 31
    ensures Holds(CycleOf(account, date.month, day), date) || Holds(CycleOf(account, date.month + 1, day), date)
  {
    HoldsInDays(account, date.month, day, date);
    HoldsInDays(account, date.month + 1, day, date);
    BeforeIsDayOrder(DayInMonth(date.month - 1, day), date);
    BeforeIsDayOrder(date, DayInMonth(date.month + 1, day));
  }

  // ----- inserting the missing months

  lemma StartTellsTheMonth(a: AccountId, m: int, n: int, day: int)
    requires 1 <= day <= 31 && CycleOf(a, m, day).start == CycleOf(a, n, day).start
    ensures m == n
  {
    NextDayIsNext(DayInMonth(m - 1, day));
    NextDayIsNext(DayInMonth(n - 1, day));
    BeforeIsDayOrder(DayInMonth(m - 1, day), DayInMonth(n - 1, day));
  }

  lemma OtherMonthOtherStart(a: AccountId, m: int, n: int, day: int)
    requires 1 <= day <= 31 && m != n
    ensures CycleOf(a, m, day).start != CycleOf(a, n, day).start
  {
    if CycleOf(a, m, day).start == CycleOf(a, n, day).start {
      StartTellsTheMonth(a, m, n, day);
    }
  }

  ghost predicate Extends(was: Book, now: Book, account: AccountId) {
    && was.cycles.Keys <= now.cycles.Keys && was.next <= now.next && now.txns == was.txns
    && (forall c :: c in was.cycles ==> now.cycles[c] == was.cycles[c])
    && (forall c :: c in now.cycles && c !in was.cycles ==> now.cycles[c].account == account)
  }

  lemma InsertOne(book: Book, account: AccountId, day: int, month: int)
    requires 1 <= day <= 31 && Numbered(book) && OnDay(book, account, day) && OnePerMonth(book, account)
    requires month !in CoveredMonths(book, account)
    ensures var after := InsertCycle(book, CycleOf(account, month, day));
            && Numbered(after) && OnDay(after, account, day) && OnePerMonth(after, account)
            && Extends(book, after, account)
            && (forall m :: m in CoveredMonths(after, account) <==> m in CoveredMonths(book, account) || m == month)
            && after.next == book.next + 1
  {
    var c := CycleOf(account, month, day);
    forall k | Owns(book, account, k)
      ensures book.cycles[k].start != c.start
    {
      assert book.cycles[k].end.month in CoveredMonths(book, account);
      OtherMonthOtherStart(account, book.cycles[k].end.month, month, day);
    }
    var after := InsertCycle(book, c);
    forall m
      ensures m in CoveredMonths(after, account) <==> m in CoveredMonths(book, account) || m == month
    {
      if m in CoveredMonths(book, account) {
        var k :| Owns(book, account, k) && book.cycles[k].end.month == m;
        assert Owns(after, account, k) && after.cycles[k].end.month == m;
      }
      if m == month {
        assert Owns(after, account, book.next) && after.cycles[book.next].end.month == m;
      }
    }
  }

  lemma {:induction false} InsertedMonths(book: Book, account: AccountId, day: int, first: int, last: int)
    requires 1 <= day <= 31 && Numbered(book) && OnDay(book, account, day) && OnePerMonth(book, account)
    ensures var after := InsertMonths(book, account, day, CoveredMonths(book, account), first, last);
            && Numbered(after) && OnDay(after, account, day) && OnePerMonth(after, account)
            && Extends(book, after, account)
            && (forall m :: m in CoveredMonths(after, account)
                 <==> m in CoveredMonths(book, account) || first <= m <= last)
            && after.next - book.next <= (if first <= last then last - first + 1 else 0)
    decreases last - first
  {
    if first <= last {
      var covered := CoveredMonths(book, account);
      InsertedMonths(book, account, day, first, last - 1);
      var before := InsertMonths(book, account, day, covered, first, last - 1);
      if last !in covered {
        InsertOne(before, account, day, last);
      }
    }
  }

  // ----- one run

  lemma StartDay(m: int, d: int, e: int)
    requires 1 <= d <= 31 && 1 <= e <= 31 && NextDay(DayInMonth(m - 1, d)) == NextDay(DayInMonth(m - 1, e))
    ensures DayInMonth(m - 1, d) == DayInMonth(m - 1, e)
  {
  }

  lemma {:induction false} KeptCycleStays(book: Book, account: AccountId, day: int, first: int, last: int, c: CycleId)
    requires 1 <= day <= 31 && Numbered(book) && c in book.cycles
    ensures var after := InsertMonths(book, account, day, CoveredMonths(book, account), first, last);
            Numbered(after) && c in after.cycles && after.cycles[c] == book.cycles[c] && after.next >= book.next
    decreases last - first
  {
    if first <= last {
      KeptCycleStays(book, account, day, first, last - 1, c);
    }
  }

  /** Cycles of one day are all on the new day afterwards exactly when there were
      none, the day is unchanged, or some end date gave the change away. */
  lemma RealignedExactlyWhen(book: Book, account: AccountId, was: int, day: int, earliest: Date, today: Date)
    requires Numbered(book) && OnePerMonth(book, account) && 1 <= was <= 31 && OnDay(book, account, was)
    ensures var after := Generated(book, account, day, earliest, today);
            OnDay(after, account, Normal(day))
                == (NoCycles(book, account) || was == Normal(day) || Misaligned(book, account, Normal(day)))
  {
    var d := Normal(day);
    var kept := DropMisaligned(book, account, d);
    var first, last := FirstMonth(earliest, today, d), LastMonth(today, d);
    if NoCycles(book, account) || was == d || Misaligned(book, account, d) {
      InsertedMonths(kept, account, d, first, last);
    } else {
      var c :| Owns(book, account, c);
      KeptCycleStays(book, account, d, first, last, c);
      if OnDay(InsertMonths(book, account, d, CoveredMonths(book, account), first, last), account, d) {
        var m := book.cycles[c].end.month;
        assert book.cycles[c] == CycleOf(account, m, was) == CycleOf(account, m, d);
        StartDay(m, was, d);
        TwoMonthsFixTheDay(m - 1, was, d);
      }
    }
  }

  /** In a settled book an aligned day is the day the cycles were made for. */
  lemma SettledDay(book: Book, account: AccountId, was: int, day: int)
    requires 1 <= was <= 31 && 1 <= day <= 31 && OnDay(book, account, was) && SomeConsecutive(book, account)
    requires !Misaligned(book, account, day)
    ensures was == day
  {
    var a, b :| Owns(book, account, a) && Owns(book, account, b)
        && book.cycles[b].end.month == book.cycles[a].end.month + 1;
    assert book.cycles[a].end == DayInMonth(book.cycles[a].end.month, day);
    assert book.cycles[b].end == DayInMonth(book.cycles[b].end.month, day);
    TwoMonthsFixTheDay(book.cycles[a].end.month, was, day);
  }

  lemma RealignsSettled(book: Book, account: AccountId, day: int, earliest: Date, today: Date)
    requires Settled(book, account)
    ensures var kept := DropMisaligned(book, account, Normal(day));
            Numbered(kept) && OnePerMonth(kept, account) && OnDay(kept, account, Normal(day))
            && (NoCycles(kept, account) || SomeConsecutive(kept, account))
  {
    var was :| 1 <= was <= 31 && OnDay(book, account, was)
        && (NoCycles(book, account) || SomeConsecutive(book, account));
    if !Misaligned(book, account, Normal(day)) && !NoCycles(book, account) {
      SettledDay(book, account, was, Normal(day));
    }
  }

  lemma GeneratesSettled(book: Book, account: AccountId, day: int, earliest: Date, today: Date)
    requires Settled(book, account)
    ensures var d, made := Normal(day), Generated(book, account, day, earliest, today);
            && Numbered(made) && OnDay(made, account, d) && OnePerMonth(made, account)
            && made.next - book.next <= MAX_CYCLE_MONTHS
            && (forall m :: FirstMonth(earliest, today, d) <= m <= LastMonth(today, d) ==>
                 m in CoveredMonths(made, account))
  {
    RealignsSettled(book, account, day, earliest, today);
    var d := Normal(day);
    InsertedMonths(DropMisaligned(book, account, d), account, d, FirstMonth(earliest, today, d), LastMonth(today, d));
  }

  lemma CoveredPairIsConsecutive(book: Book, account: AccountId, m: int)
    requires m in CoveredMonths(book, account) && m + 1 in CoveredMonths(book, account)
    ensures SomeConsecutive(book, account)
  {
    var a :| Owns(book, account, a) && book.cycles[a].end.month == m;
    var b :| Owns(book, account, b) && book.cycles[b].end.month == m + 1;
  }

  lemma SameCycles(book: Book, after: Book, account: AccountId, day: int)
    requires 1 <= day <= 31 && after.cycles == book.cycles && after.next == book.next
    ensures OnDay(book, account, day) ==> OnDay(after, account, day)
    ensures OnePerMonth(book, account) ==> OnePerMonth(after, account)
    ensures Numbered(book) ==> Numbered(after)
    ensures SomeConsecutive(book, account) ==> SomeConsecutive(after, account)
    ensures NoCycles(book, account) ==> NoCycles(after, account)
  {
    assert forall c :: Owns(after, account, c) <==> Owns(book, account, c);
    if SomeConsecutive(book, account) {
      var a, b :| Owns(book, account, a) && Owns(book, account, b)
          && book.cycles[b].end.month == book.cycles[a].end.month + 1;
      assert Owns(after, account, a) && Owns(after, account, b);
    }
  }

  /** From a settled book a run leaves exactly the cycles of the current billing
      day, at most 600 of them new, and the book is settled again provided the
      account's earliest transaction is not after today. */
  lemma RunsStaySettled(book: Book, account: AccountId, day: int, earliest: Date, today: Date, after: Book)
    requires Settled(book, account) && Ensured(book, account, day, earliest, today, after)
    ensures OnDay(after, account, Normal(day)) && OnePerMonth(after, account)
    ensures after.next - book.next <= MAX_CYCLE_MONTHS
    ensures !Before(today, earliest) ==> Settled(after, account)
  {
    GeneratesSettled(book, account, day, earliest, today);
    var made := Generated(book, account, day, earliest, today);
    SameCycles(made, after, account, Normal(day));
    if !Before(today, earliest) {
      var last := LastMonth(today, Normal(day));
      assert last - 1 in CoveredMonths(made, account) && last in CoveredMonths(made, account);
      CoveredPairIsConsecutive(made, account, last - 1);
      SameCycles(made, after, account, Normal(day));
    }
  }

  /** The billing date of a month: the billing day, or the month's last day where
      the month is shorter; an account without a day is billed on the first. */
  predicate IsBillingDate(date: Date, month: int, day: int) {
    && date.month == month
    && (if day < 1 || day > 31 then date.day == 1
        else if day > DaysInMonth(month) then date.day == DaysInMonth(month)
        else date.day == day)
  }

  /** A cycle runs from the day after one billing date to the next. */
  ghost predicate RunsBetweenBillingDates(c: Cycle, day: int) {
    && IsBillingDate(c.end, c.end.month, day)
    && exists before: Date :: IsBillingDate(before, c.end.month - 1, day) && ToDay(c.start) == ToDay(before) + 1
  }

  lemma CycleIsBetween(account: AccountId, month: int, day: int)
    ensures RunsBetweenBillingDates(CycleOf(account, month, Normal(day)), day)
  {
    var before := DayInMonth(month - 1, Normal(day));
    NextDayIsNext(before);
    assert IsBillingDate(before, month - 1, day);
  }

  lemma LastMonthHasBegun(account: AccountId, m: int, today: Date, day: int)
    requires 1 <= day <= 31 && m <= LastMonth(today, day)
    ensures ToDay(CycleOf(account, m, day).start) <= ToDay(today)
  {
    var last := LastMonth(today, day);
    NextDayIsNext(DayInMonth(m - 1, day));
    BillingDatesIncrease(m - 1, last - 1, day);
    BeforeIsDayOrder(DayInMonth(last - 1, day), today);
  }

  /** What a run leaves runs between billing dates, and what it adds has begun by
      today, ends no sooner than the month before the earliest transaction's, and
      within 600 months. */
  lemma CyclesLeft(book: Book, account: AccountId, day: int, earliest: Date, today: Date, after: Book, c: CycleId)
    requires Settled(book, account) && Ensured(book, account, day, earliest, today, after) && Owns(after, account, c)
    ensures RunsBetweenBillingDates(after.cycles[c], day)
    ensures c !in book.cycles ==>
              && ToDay(after.cycles[c].start) <= ToDay(today)
              && after.cycles[c].end.month >= earliest.month - 1
              && after.cycles[c].end.month + 599 >= today.month
  {
    var d := Normal(day);
    var kept := DropMisaligned(book, account, d);
    var first, last := FirstMonth(earliest, today, d), LastMonth(today, d);
    RealignsSettled(book, account, day, earliest, today);
    InsertedMonths(kept, account, d, first, last);
    var made := Generated(book, account, day, earliest, today);
    assert Owns(made, account, c);
    var m := made.cycles[c].end.month;
    CycleIsBetween(account, m, day);
    assert m in CoveredMonths(made, account);
    assert forall k :: Owns(kept, account, k) ==> Owns(made, account, k) && made.cycles[k] == kept.cycles[k];
    assert c !in book.cycles ==> m !in CoveredMonths(kept, account);
    if c !in book.cycles {
      LastMonthHasBegun(account, m, today, d);
    }
  }

  // Inserting for one account leaves every other account's cycles alone.
  lemma {:induction false} InsertsOnlyOwn(book: Book, other: AccountId, day: int, covered: set<int>, first: int,
                                          last: int)
    requires 1 <= day <= 31 && Numbered(book)
    ensures var after := InsertMonths(book, other, day, covered, first, last);
            Numbered(after) && Extends(book, after, other)
    decreases last - first
  {
    if first <= last {
      InsertsOnlyOwn(book, other, day, covered, first, last - 1);
    }
  }

  ghost predicate SameCyclesOf(was: Book, now: Book, account: AccountId) {
    && (forall c :: Owns(was, account, c) <==> Owns(now, account, c))
    && (forall c :: Owns(was, account, c) ==> c in now.cycles && now.cycles[c] == was.cycles[c])
  }

  lemma OtherRunKeepsCycles(book: Book, other: AccountId, day: int, earliest: Date, today: Date, after: Book,
                            account: AccountId)
    requires Numbered(book) && Ensured(book, other, day, earliest, today, after) && other != account
    ensures Numbered(after) && SameCyclesOf(book, after, account)
  {
    var d := Normal(day);
    var kept := DropMisaligned(book, other, d);
    InsertsOnlyOwn(kept, other, d, CoveredMonths(kept, other), FirstMonth(earliest, today, d), LastMonth(today, d));
  }

  lemma SettledBySameCycles(was: Book, now: Book, account: AccountId)
    requires Settled(was, account) && Numbered(now) && SameCyclesOf(was, now, account)
    ensures Settled(now, account)
    ensures forall day :: 1 <= day <= 31 && OnDay(was, account, day) ==> OnDay(now, account, day)
  {
    var day :| 1 <= day <= 31 && OnDay(was, account, day) && (NoCycles(was, account) || SomeConsecutive(was, account));
    assert OnDay(now, account, day);
    if SomeConsecutive(was, account) {
      var a, b :| Owns(was, account, a) && Owns(was, account, b)
          && was.cycles[b].end.month == was.cycles[a].end.month + 1;
      assert Owns(now, account, a) && Owns(now, account, b);
    }
  }

  /** What can happen to a book: its transactions are edited, or one of its
      accounts is run on some billing day. */
  datatype Turn = Edit | RunFor(account: AccountId, day: int, earliest: Date, today: Date)

  ghost predicate Moves(was: Book, now: Book, turn: Turn) {
    match turn
    case Edit => now.cycles == was.cycles && now.next == was.next
    case RunFor(account, day, earliest, today) => Ensured(was, account, day, earliest, today, now)
  }

  /** A history in which the account starts without cycles and none of its own
      runs finds its earliest transaction after today. */
  ghost predicate History(books: seq<Book>, account: AccountId, turns: seq<Turn>) {
    && |books| == |turns| + 1 && Numbered(books[0]) && NoCycles(books[0], account)
    && (forall k :: 0 <= k < |turns| ==> Moves(books[k], books[k + 1], turns[k]))
    && (forall k :: 0 <= k < |turns| && turns[k].RunFor? && turns[k].account == account ==>
          !Before(turns[k].today, turns[k].earliest))
  }

  /** The billing day of the account's latest run. */
  function CurrentDay(turns: seq<Turn>, account: AccountId): (day: int)
    ensures 1 <= day <= 31
  {
    if turns == [] then 1
    else
      var turn := turns[|turns| - 1];
      if turn.RunFor? && turn.account == account then Normal(turn.day) else CurrentDay(turns[..|turns| - 1], account)
  }

  /** However billing days and transactions change and whichever accounts are
      run in between, every book along the way has all the account's cycles on
      the day of its latest run, one a month, so that no two overlap and those
      of neighbouring months adjoin. */
  lemma {:induction false} EveryBookIsSettled(books: seq<Book>, account: AccountId, turns: seq<Turn>, k: nat)
    requires History(books, account, turns) && k < |books|
    ensures Settled(books[k], account)
    ensures OnDay(books[k], account, CurrentDay(turns[..k], account))
  {
    if k == 0 {
      assert OnDay(books[0], account, 1);
    } else {
      EveryBookIsSettled(books, account, turns, k - 1);
      var was, now, turn := books[k - 1], books[k], turns[k - 1];
      assert turns[..k][..k - 1] == turns[..k - 1] && turns[..k][k - 1] == turn;
      assert Moves(was, books[k - 1 + 1], turn);
      if turn.RunFor? && turn.account == account {
        RunsStaySettled(was, account, turn.day, turn.earliest, turn.today, now);
      } else {
        if turn.RunFor? {
          OtherRunKeepsCycles(was, turn.account, turn.day, turn.earliest, turn.today, now, account);
        }
        assert SameCyclesOf(was, now, account);
        SettledBySameCycles(was, now, account);
      }
    }
  }

  lemma InsertMonthsAlone(book: Book, account: AccountId, day: int, covered: set<int>, month: int)
    requires 1 <= day <= 31 && month !in covered
    ensures InsertMonths(book, account, day, covered, month, month) == InsertCycle(book, CycleOf(account, month, day))
  {
    assert InsertMonths(book, account, day, covered, month, month - 1) == book;
  }

  /** With only a later transaction one cycle can be made, and when the day then
      moves from the 31st to the 30th its April end date hides the change: the
      cycle keeps its old start. */
  lemma LoneCycleKeepsItsOldStart() returns (book: Book, day31: Book, day30: Book)
    ensures exists earliest: Date, today: Date :: IsEarliest(book, 0, today, earliest) && Before(today, earliest)
              && Ensured(book, 0, 31, earliest, today, day31) && Ensured(day31, 0, 30, earliest, today, day30)
    ensures !OnDay(day30, 0, 30)
  {
    var today: Date, earliest: Date := CivilDate(24291, 10), CivilDate(24292, 5);
    book := Book(map[], map[0 := Txn(0, earliest, Debit, 100, None, false)], 0);
    day31 := Generated(book, 0, 31, earliest, today);
    assert FirstMonth(earliest, today, 31) == 24291 == LastMonth(today, 31);
    assert DropMisaligned(book, 0, 31) == book;
    InsertMonthsAlone(book, 0, 31, CoveredMonths(book, 0), 24291);
    assert day31.cycles == map[0 := CycleOf(0, 24291, 31)];
    assert !Misaligned(day31, 0, 30);
    day30 := Generated(day31, 0, 30, earliest, today);
    NothingToInsert(day31, 0, 30, CoveredMonths(day31, 0), 24291, 24291, [24291]) by {
      assert 24291 == day31.cycles[0].end.month;
    }
    assert day30 == day31;
    assert Owns(day30, 0, 0) && day30.cycles[0].start.month == 24291;
    assert BackFilled(day31, 0, day31) && BackFilled(day30, 0, day30);
    assert IsEarliest(book, 0, today, earliest) && IsEarliest(day31, 0, today, earliest);
  }

  // ----- the transactions

  ghost predicate HasHolder(book: Book, t: Txn) {
    exists c :: CanHold(book.cycles, c, t)
  }

  /** A run leaves an unassigned row either attached to a cycle of its account
      holding its date, or without a cycle because none holds it. */
  lemma AttachesExactlyTheHeld(book: Book, account: AccountId, day: int, earliest: Date, today: Date, after: Book,
                               t: TxnId)
    requires Ensured(book, account, day, earliest, today, after)
    requires t in book.txns && Unassigned(book.txns[t], account)
    ensures t in after.txns && (after.txns[t].cycle.Some? <==> HasHolder(after, book.txns[t]))
    ensures after.txns[t].cycle.Some? ==> CanHold(after.cycles, after.txns[t].cycle.value, book.txns[t])
  {
    var d := Normal(day);
    var kept := DropMisaligned(book, account, d);
    InsertKeepsRows(kept, account, d, CoveredMonths(kept, account), FirstMonth(earliest, today, d),
        LastMonth(today, d));
    var made := Generated(book, account, day, earliest, today);
    assert made.txns[t] == book.txns[t];
    assert Filled(made.cycles, account, made.txns[t], after.txns[t]);
  }

  /** A row the user detached stays without a cycle, and an assignment outlives
      every run that finds the cycles aligned. */
  lemma UserChoicesStay(book: Book, account: AccountId, day: int, earliest: Date, today: Date, after: Book, t: TxnId)
    requires Ensured(book, account, day, earliest, today, after) && t in book.txns
    ensures t in after.txns
    ensures book.txns[t].cycle == None && book.txns[t].detached ==> after.txns[t] == book.txns[t]
    ensures book.txns[t].cycle.Some? && !Misaligned(book, account, Normal(day)) ==> after.txns[t] == book.txns[t]
    ensures after.txns[t].(cycle := book.txns[t].cycle, detached := book.txns[t].detached) == book.txns[t]
  {
    var d := Normal(day);
    var kept := DropMisaligned(book, account, d);
    InsertKeepsRows(kept, account, d, CoveredMonths(kept, account), FirstMonth(earliest, today, d),
        LastMonth(today, d));
    var made := Generated(book, account, day, earliest, today);
    assert Filled(made.cycles, account, made.txns[t], after.txns[t]);
  }

  /** A dropped cycle's rows lose their detached mark, but a row the user had
      already taken out of every cycle keeps it. */
  lemma DropForgetsOnlyAttachedRows(book: Book, account: AccountId, t: TxnId)
    requires t in book.txns && book.txns[t].detached
    ensures DropCycles(book, account).txns[t].detached <==> !InCycleOf(book, book.txns[t], account)
  {
  }

  /** Nothing of another account moves: neither its cycles nor its rows. */
  lemma OtherAccountsStay(book: Book, account: AccountId, day: int, earliest: Date, today: Date, after: Book,
                          other: AccountId)
    requires Numbered(book) && Ensured(book, account, day, earliest, today, after) && other != account
    ensures SameCyclesOf(book, after, other)
    ensures forall t :: t in book.txns && book.txns[t].account == other && !InCycleOf(book, book.txns[t], account) ==>
              t in after.txns && after.txns[t] == book.txns[t]
  {
    OtherRunKeepsCycles(book, account, day, earliest, today, after, other);
    var d := Normal(day);
    var kept := DropMisaligned(book, account, d);
    InsertKeepsRows(kept, account, d, CoveredMonths(kept, account), FirstMonth(earliest, today, d),
        LastMonth(today, d));
    var made := Generated(book, account, day, earliest, today);
    forall t | t in book.txns && book.txns[t].account == other && !InCycleOf(book, book.txns[t], account)
      ensures t in after.txns && after.txns[t] == book.txns[t]
    {
      assert Filled(made.cycles, account, made.txns[t], after.txns[t]);
    }
  }

  lemma HolderIsCovered(account: AccountId, d: int, earliest: Date, today: Date, date: Date)
    requires 1 <= d <= 31 && !Before(date, earliest) && !Before(today, date)
    requires date.month >= FirstMonth(earliest, today, d)
    ensures var m := if Holds(CycleOf(account, date.month, d), date) then date.month else date.month + 1;
            Holds(CycleOf(account, m, d), date) && FirstMonth(earliest, today, d) <= m <= LastMonth(today, d)
  {
    SomeMonthHolds(account, d, date);
    HoldsInDays(account, date.month, d, date);
    BeforeIsDayOrder(DayInMonth(date.month, d), date);
    BeforeIsDayOrder(DayInMonth(date.month - 1, d), date);
  }

  predicate HolderOf(book: Book, account: AccountId, date: Date, c: CycleId) {
    Owns(book, account, c) && Holds(book.cycles[c], date)
  }

  /** After a run every date from the account's earliest transaction to today is
      held by one cycle, as far back as 600 months reach, so an unassigned row dated
      there always ends up attached. */
  lemma EveryPastDateIsHeld(book: Book, account: AccountId, day: int, earliest: Date, today: Date, after: Book,
                            date: Date)
    requires Settled(book, account) && Ensured(book, account, day, earliest, today, after)
    requires !Before(date, earliest) && !Before(today, date)
    requires date.month + 599 >= today.month + (if Before(DayInMonth(today.month, Normal(day)), today) then 1 else 0)
    ensures exists c :: HolderOf(after, account, date, c)
    ensures forall a, b :: HolderOf(after, account, date, a) && HolderOf(after, account, date, b) ==> a == b
  {
    GeneratesSettled(book, account, day, earliest, today);
    var d, made := Normal(day), Generated(book, account, day, earliest, today);
    assert after.cycles == made.cycles;
    HolderIsCovered(account, d, earliest, today, date);
    var m := if Holds(CycleOf(account, date.month, d), date) then date.month else date.month + 1;
    assert m in CoveredMonths(made, account);
    var c :| Owns(made, account, c) && made.cycles[c].end.month == m;
    assert Owns(after, account, c) && made.cycles[c] == CycleOf(account, m, d);
    assert HolderOf(after, account, date, c);
    forall a, b | HolderOf(after, account, date, a) && HolderOf(after, account, date, b)
      ensures a == b
    {
      assert Owns(made, account, a) && Owns(made, account, b);
      CyclesTile(account, made.cycles[a].end.month, made.cycles[b].end.month, d, date);
    }
  }

  // ----- running twice

  lemma {:induction false} AlignedAfter(book: Book, account: AccountId, day: int, covered: set<int>, first: int,
                                        last: int)
    requires 1 <= day <= 31 && !Misaligned(book, account, day)
    ensures !Misaligned(InsertMonths(book, account, day, covered, first, last), account, day)
    decreases last - first
  {
    if first <= last {
      AlignedAfter(book, account, day, covered, first, last - 1);
    }
  }

  predicate Provided(book: Book, account: AccountId, day: int, month: int)
    requires 1 <= day <= 31
  {
    month in CoveredMonths(book, account) || StartTaken(book, account, CycleOf(account, month, day).start)
  }

  ghost predicate KeepsCycles(was: Book, now: Book) {
    was.cycles.Keys <= now.cycles.Keys && forall c :: c in was.cycles ==> now.cycles[c] == was.cycles[c]
  }

  lemma ProvidedStays(book: Book, after: Book, account: AccountId, day: int, m: int)
    requires 1 <= day <= 31 && Provided(book, account, day, m)
    requires KeepsCycles(book, after)
    ensures Provided(after, account, day, m)
  {
    if m in CoveredMonths(book, account) {
      var c :| c in book.cycles && book.cycles[c].account == account && book.cycles[c].end.month == m;
      assert c in after.cycles;
      assert Owns(after, account, c) && after.cycles[c].end.month == m;
    }
  }

  lemma {:induction false} StartsAreTaken(book: Book, account: AccountId, day: int, covered: set<int>, first: int,
                                          last: int)
    requires 1 <= day <= 31 && Numbered(book) && covered == CoveredMonths(book, account)
    ensures var after := InsertMonths(book, account, day, covered, first, last);
            Numbered(after) && after.next >= book.next && KeepsCycles(book, after)
            && forall m :: first <= m <= last ==> Provided(after, account, day, m)
    decreases last - first
  {
    if first <= last {
      StartsAreTaken(book, account, day, covered, first, last - 1);
      var before := InsertMonths(book, account, day, covered, first, last - 1);
      var after := InsertMonths(book, account, day, covered, first, last);
      forall m | first <= m <= last
        ensures Provided(after, account, day, m)
      {
        if m < last {
          ProvidedStays(before, after, account, day, m);
        } else if last in covered {
          ProvidedStays(book, after, account, day, m);
        } else if !StartTaken(before, account, CycleOf(account, last, day).start) {
          assert Owns(after, account, before.next) && after.cycles[before.next] == CycleOf(account, last, day);
        }
      }
    }
  }

  lemma FirstRunProvides(book: Book, account: AccountId, day: int, earliest: Date, today: Date, after: Book)
    requires Numbered(book) && Ensured(book, account, day, earliest, today, after)
    ensures !Misaligned(after, account, Normal(day))
    ensures forall m :: FirstMonth(earliest, today, Normal(day)) <= m <= LastMonth(today, Normal(day)) ==>
              Provided(after, account, Normal(day), m)
  {
    var d := Normal(day);
    var kept := DropMisaligned(book, account, d);
    var first, last := FirstMonth(earliest, today, d), LastMonth(today, d);
    AlignedAfter(kept, account, d, CoveredMonths(kept, account), first, last);
    StartsAreTaken(kept, account, d, CoveredMonths(kept, account), first, last);
    var made := Generated(book, account, day, earliest, today);
    assert after.cycles == made.cycles;
    forall m | first <= m <= last
      ensures Provided(after, account, d, m)
    {
      assert Provided(made, account, d, m);
      ProvidedStays(made, after, account, d, m);
    }
  }

  lemma RowsKeepDates(book: Book, account: AccountId, day: int, earliest: Date, today: Date, after: Book)
    requires Ensured(book, account, day, earliest, today, after)
    ensures after.txns.Keys == book.txns.Keys
    ensures forall t :: t in book.txns ==>
              after.txns[t].date == book.txns[t].date && after.txns[t].account == book.txns[t].account
  {
    var d := Normal(day);
    var kept := DropMisaligned(book, account, d);
    InsertKeepsRows(kept, account, d, CoveredMonths(kept, account), FirstMonth(earliest, today, d),
        LastMonth(today, d));
    var made := Generated(book, account, day, earliest, today);
    forall t | t in book.txns
      ensures after.txns[t].date == book.txns[t].date && after.txns[t].account == book.txns[t].account
    {
      assert Filled(made.cycles, account, made.txns[t], after.txns[t]);
    }
  }

  lemma BackFillsOnce(made: Book, account: AccountId, after: Book, twice: Book)
    requires BackFilled(made, account, after) && BackFilled(after, account, twice)
    ensures twice == after
  {
    forall t | t in after.txns
      ensures twice.txns[t] == after.txns[t]
    {
      assert Filled(made.cycles, account, made.txns[t], after.txns[t]);
      assert Filled(after.cycles, account, after.txns[t], twice.txns[t]);
    }
    assert twice.txns == after.txns;
  }

  lemma SameEarliest(book: Book, after: Book, account: AccountId, today: Date, a: Date, b: Date)
    requires IsEarliest(book, account, today, a) && IsEarliest(after, account, today, b)
    requires after.txns.Keys == book.txns.Keys
    requires forall t :: t in book.txns ==>
               after.txns[t].date == book.txns[t].date && after.txns[t].account == book.txns[t].account
    ensures a == b
  {
    if exists t :: t in book.txns && book.txns[t].account == account {
      var s :| s in book.txns && book.txns[s].account == account && book.txns[s].date == a;
      var t :| t in after.txns && after.txns[t].account == account && after.txns[t].date == b;
      assert !Before(b, a) && !Before(a, b);
    }
  }

  lemma {:induction false} NoInsert(book: Book, account: AccountId, day: int, covered: set<int>, first: int, last: int)
    requires 1 <= day <= 31 && covered == CoveredMonths(book, account)
    requires forall m :: first <= m <= last ==> Provided(book, account, day, m)
    ensures InsertMonths(book, account, day, covered, first, last) == book
    decreases last - first
  {
    if first <= last {
      NoInsert(book, account, day, covered, first, last - 1);
      assert Provided(book, account, day, last);
    }
  }

  /** A second run on the same day changes nothing, whatever the book. */
  lemma SecondRunChangesNothing(book: Book, account: AccountId, day: int, earliest: Date, today: Date, after: Book,
                                again: Date, twice: Book)
    requires Numbered(book) && Ensured(book, account, day, earliest, today, after)
    requires Ensured(after, account, day, again, today, twice)
    ensures twice == after
  {
    FirstRunProvides(book, account, day, earliest, today, after);
    RowsKeepDates(book, account, day, earliest, today, after);
    SameEarliest(book, after, account, today, earliest, again);
    var d := Normal(day);
    NoInsert(after, account, d, CoveredMonths(after, account), FirstMonth(earliest, today, d), LastMonth(today, d));
    BackFillsOnce(Generated(book, account, day, earliest, today), account, after, twice);
  }
}
