/** The interest and the installments of the table in the loan's own numbers. */
module LoanInterest {
  import opened Options
  import opened Calendar
  import opened Rounding
  import opened Amortization
  import opened AmortizationProofs
  import opened LoanDrift

  /** `i` is the fraction rounded to a whole number, halves up. */
  predicate IsRounded(i: int, numerator: int, denominator: int) {
    2 * numerator - denominator < 2 * denominator * i <= 2 * numerator + denominator
  }

  lemma ProductOfInts(a: int, b: int)
    ensures a as real * b as real == (a * b) as real
  {
  }

  lemma StrictProduct(x: real, y: real, z: real)
    requires x < y && z > 0.0
    ensures x * z < y * z
  {
  }

  lemma ScaledBounds(i: int, x: real, numerator: int, denominator: int)
    requires denominator > 0 && x * denominator as real == numerator as real
    requires x - 0.5 < i as real <= x + 0.5
    ensures numerator as real - 0.5 * denominator as real < (i * denominator) as real
    ensures (i * denominator) as real <= numerator as real + 0.5 * denominator as real
  {
    var d, r := denominator as real, i as real;
    StrictProduct(x - 0.5, r, d);
    ProductMonotone(r, x + 0.5, d);
    ProductOfInts(i, denominator);
    assert r * d == (i * denominator) as real;
    assert (x - 0.5) * d == x * d - 0.5 * d;
    assert (x + 0.5) * d == x * d + 0.5 * d;
  }

  // In whole numbers.
  lemma HalfUnit(a: int, b: int, c: int)
    requires b as real - 0.5 * c as real < a as real <= b as real + 0.5 * c as real
    ensures 2 * b - c < 2 * a <= 2 * b + c
  {
    assert (2 * b - c) as real < (2 * a) as real <= (2 * b + c) as real;
  }

  lemma RoundedIs(x: real, numerator: int, denominator: int)
    requires denominator > 0 && x >= 0.0 && x * denominator as real == numerator as real
    ensures IsRounded(Round(x), numerator, denominator)
  {
    var i := Round(x);
    ScaledBounds(i, x, numerator, denominator);
    HalfUnit(i * denominator, numerator, denominator);
    assert 2 * denominator * i == 2 * (i * denominator);
  }

  /** A month's interest is a twelfth of a year's, the rate being in hundredths
      of a percent. */
  lemma MonthInterestIs(balance: int, bps: int)
    requires balance >= 0 && bps >= 0
    ensures IsRounded(MonthInterest(balance, bps), balance * bps, 120000)
  {
    var x := balance as real * MonthlyRate(bps);
    ProductNonNegative(balance as real, MonthlyRate(bps));
    ProductOfInts(balance, bps);
    assert x * 120000.0 == balance as real * bps as real;
    RoundedIs(x, balance * bps, 120000);
  }

  /** A broken period's is that for its days out of thirty. */
  lemma BrokenInterestIs(balance: int, bps: int, days: int)
    requires balance >= 0 && bps >= 0 && days >= 0
    ensures IsRounded(BrokenPeriodInterest(balance, bps, days), balance * bps * days, 3600000)
    ensures days == 30 ==> BrokenPeriodInterest(balance, bps, days) == MonthInterest(balance, bps)
  {
    var x := balance as real * bps as real / 120000.0 * days as real / 30.0;
    ProductOfInts(balance, bps);
    ProductOfInts(balance * bps, days);
    assert x * 3600000.0 == (balance * bps * days) as real;
    ProductNonNegative(balance as real, bps as real);
    ProductNonNegative(balance as real * bps as real / 120000.0, days as real);
    RoundedIs(x, balance * bps * days, 3600000);
    if days == 30 {
      assert x == balance as real * MonthlyRate(bps);
    }
  }

  // ----- the rows of the table

  /** The first period is a broken one: the money was released before the first
      due date and not on the same day a month ahead of it. */
  predicate BrokenStart(t: Terms) {
    t.disbursal.Some?
    && var d, due := t.disbursal.value, t.firstDue;
       && Before(d, due)
       && !(due.month == d.month + 1
            && due.day == (if d.day > DaysInMonth(due.month) then DaysInMonth(due.month) else d.day))
  }

  lemma StubIsBrokenStart(t: Terms)
    ensures Stub(t).Some? <==> BrokenStart(t)
    ensures BrokenStart(t) ==> Stub(t).value == ToDay(t.firstDue) - ToDay(t.disbursal.value) > 0
  {
    if BrokenStart(t) {
      BeforeIsDayOrder(t.disbursal.value, t.firstDue);
    }
  }

  /** The balance a row starts from: what the row before left, or the principal,
      and the transfers that came in between. */
  lemma OpeningIs(t: Terms, adj: seq<Adjustment>, solve: Solver, k: nat, before: Run, now: Run)
    requires TermsOk(t) && AdjustmentsOk(adj) && 1 <= k <= t.tenureMonths
    requires before == RunAt(t, adj, solve, k - 1) && now == RunAt(t, adj, solve, k)
    ensures before.next <= now.next
    ensures Opening(t, adj, solve, k) == before.remaining + AmountSum(adj[before.next..now.next])
    ensures before.remaining == if k == 1 then t.principal else Table(t, adj, solve)[k - 2].balance
  {
    if k > 1 {
      EntryAt(t, adj, solve, k - 1);
    }
  }

  /** Installment `k` falls due a month after the one before it, on the first
      one's day or the last of its month. It starts from the balance the one
      before left and the transfers dated before it that came since, and charges
      a month's interest on that, or that of the broken period's days. */
  lemma RowInterest(t: Terms, adj: seq<Adjustment>, solve: Solver, k: nat)
    requires TermsOk(t) && AdjustmentsOk(adj) && 1 <= k <= t.tenureMonths
    ensures var e := Table(t, adj, solve)[k - 1];
            var start := e.balance + e.principal;
            && e.due.month == t.firstDue.month + k - 1
            && e.due.day == (if t.firstDue.day > DaysInMonth(e.due.month) then DaysInMonth(e.due.month)
                 else t.firstDue.day)
            && start == Opening(t, adj, solve, k)
            && if k == 1 && BrokenStart(t)
               then IsRounded(e.interest, start * t.annualRateBps * (ToDay(t.firstDue) - ToDay(t.disbursal.value)),
                   3600000)
               else IsRounded(e.interest, start * t.annualRateBps, 120000)
  {
    EntryAt(t, adj, solve, k);
    StubIsBrokenStart(t);
    var start := Opening(t, adj, solve, k);
    if k == 1 && BrokenStart(t) {
      BrokenInterestIs(start, t.annualRateBps, Stub(t).value);
    } else {
      MonthInterestIs(start, t.annualRateBps);
    }
  }

  // ----- the installments

  /** Whole rupees, no less than the exact installment but for rounding, and
      less than a rupee more. */
  ghost predicate IsQuoted(emi: int, exact: real) {
    (emi > 0 ==> emi % 100 == 0) && -0.5 <= emi as real - exact <= 99.5
  }

  lemma CeilIsQuoted(exact: real)
    ensures IsQuoted(RupeeCeil(Round(exact)), exact)
  {
    RoundIsNear(exact);
    assert Round(exact) <= RupeeCeil(Round(exact)) <= Round(exact) + 99;
  }

  lemma LevelIsQuoted(t: Terms, balance: int, k: nat)
    requires 1 <= k <= t.tenureMonths && !(k == 1 && BrokenStart(t))
    ensures IsQuoted(SolveEMI(t, balance, k), ExactEMI(balance, MonthlyRate(t.annualRateBps), t.tenureMonths - k + 1))
  {
    StubIsBrokenStart(t);
    CeilIsQuoted(ExactEMI(balance, MonthlyRate(t.annualRateBps), t.tenureMonths - k + 1));
  }

  /** Over a broken first period of a loan of one installment, that installment
      is all of the balance and the period's interest; over one of more, the one
      that clears them. */
  lemma StubIsQuoted(t: Terms, balance: int)
    requires TermsOk(t) && BrokenStart(t)
    ensures var rate, n := MonthlyRate(t.annualRateBps), t.tenureMonths;
            var days := ToDay(t.firstDue) - ToDay(t.disbursal.value);
            var owed := (balance + BrokenPeriodInterest(balance, t.annualRateBps, days)) as real;
            if n == 1 then IsQuoted(SolveEMI(t, balance, 1), owed)
            else 1.0 + AnnuityFactor(rate, n - 1) > 0.0
                 && IsQuoted(SolveEMI(t, balance, 1), owed / (1.0 + AnnuityFactor(rate, n - 1)))
  {
    StubIsBrokenStart(t);
    var owed := balance + BrokenPeriodInterest(balance, t.annualRateBps, Stub(t).value);
    if t.tenureMonths == 1 {
      assert Round(owed as real) == owed;
      CeilIsQuoted(owed as real);
    } else {
      var a := AnnuityFactor(MonthlyRate(t.annualRateBps), t.tenureMonths - 1);
      AnnuityPositive(MonthlyRate(t.annualRateBps), t.tenureMonths - 1);
      CeilIsQuoted(owed as real / (1.0 + a));
    }
  }

  /** What is charged: the last installment clears what is left; any other is the
      installment in force, or all that is left if that is less, and never less
      than its own interest. */
  function Charged(start: int, interest: int, emi: int, last: bool): int {
    if last then start + interest
    else if emi <= interest then interest
    else if emi <= start + interest then emi
    else start + interest
  }

  lemma SettledAmount(t: Terms, solve: Solver, run: Run, k: int, next: nat, start: int)
    requires start >= 0
    ensures var r := Settle(t, solve, run, k, next, start);
            var e := r.entries[|run.entries|];
            && |r.entries| == |run.entries| + 1 && e.balance + e.principal == start
            && e.amount == Charged(start, e.interest, r.emi, k == t.tenureMonths)
            && e.recast == (run.recast || next > run.next)
  {
  }

  /** Every row of the table is charged so. */
  lemma RowAmount(t: Terms, adj: seq<Adjustment>, k: nat)
    requires TermsOk(t) && AdjustmentsOk(adj) && 1 <= k <= t.tenureMonths
    ensures var e, emi := Table(t, adj, Quoted(t))[k - 1], RunAt(t, adj, Quoted(t), k).emi;
            e.amount == Charged(e.balance + e.principal, e.interest, emi, k == t.tenureMonths)
  {
    var solve := Quoted(t);
    EntryAt(t, adj, solve, k);
    RunOk(t, adj, solve, k - 1);
    var before := RunAt(t, adj, solve, k - 1);
    AmountSumNonNegative(adj[before.next..OwedBy(adj, before.next, Due(t, k))]);
    SettledAmount(t, solve, before, k, OwedBy(adj, before.next, Due(t, k)), Opening(t, adj, solve, k));
  }

  lemma StepInForce(t: Terms, adj: seq<Adjustment>, solve: Solver, run: Run, k: int)
    requires run.next <= |adj|
    ensures var r, next := Step(t, adj, solve, run, k), OwedBy(adj, run.next, Due(t, k));
            && r.next == next && |r.entries| == |run.entries| + 1
            && r.emi == (if next == run.next then run.emi
                         else solve(run.remaining + AmountSum(adj[run.next..next]), k))
            && r.recast == (run.recast || next > run.next) && r.entries[|run.entries|].recast == r.recast
  {
  }

  /** The installment in force is solved anew, from the balance the row starts
      from, exactly when a transfer has come since the row before; the first is
      solved from the principal. */
  lemma InstallmentInForce(t: Terms, adj: seq<Adjustment>, solve: Solver, k: nat, before: Run, now: Run)
    requires 1 <= k <= t.tenureMonths
    requires before == RunAt(t, adj, solve, k - 1) && now == RunAt(t, adj, solve, k)
    ensures k == 1 ==> before.emi == solve(t.principal, 1) && before.next == 0
    ensures now.emi == if now.next == before.next then before.emi else solve(Opening(t, adj, solve, k), k)
  {
    StepInForce(t, adj, solve, before, k);
  }

  /** A row is marked recast once a transfer has come. */
  lemma {:induction false} RecastOnceArrived(t: Terms, adj: seq<Adjustment>, solve: Solver, k: nat)
    ensures RunAt(t, adj, solve, k).recast <==> RunAt(t, adj, solve, k).next > 0
    ensures k > 0 ==> (RunAt(t, adj, solve, k).entries[k - 1].recast <==> RunAt(t, adj, solve, k).next > 0)
  {
    if k > 0 {
      RecastOnceArrived(t, adj, solve, k - 1);
      StepInForce(t, adj, solve, RunAt(t, adj, solve, k - 1), k);
    }
  }

  /** The installment the stub form solves is within half a unit of the exact one
      that clears the loan over its broken first period. */
  lemma StubEMIIsNearTheExact(balance: int, rate: real, n: int, firstInterest: int)
    requires rate >= 0.0 && n >= 2
    ensures 1.0 + AnnuityFactor(rate, n - 1) > 0.0
    ensures var exact := (balance + firstInterest) as real / (1.0 + AnnuityFactor(rate, n - 1));
            && -0.5 <= LoanEMIWithStub(balance, rate, n, firstInterest) as real - exact <= 0.5
            && ExactBalance((balance + firstInterest) as real - exact, rate, exact, n - 1) == 0.0
  {
    AnnuityPositive(rate, n - 1);
    RoundIsNear((balance + firstInterest) as real / (1.0 + AnnuityFactor(rate, n - 1)));
    StubEMIClears(balance, firstInterest, rate, n);
  }
}
