/** The solved installment clears the loan exactly in real arithmetic, and the
    whole-unit table strays from it by a bounded amount. */
module LoanDrift {
  import opened Options
  import opened Rounding
  import opened Calendar
  import opened Amortization
  import opened AmortizationProofs

  /** What is owed after `k` level payments, in real arithmetic. */
  function ExactBalance(owed: real, rate: real, emi: real, k: nat): real {
    if k == 0 then owed else ExactBalance(owed, rate, emi, k - 1) * (1.0 + rate) - emi
  }

  lemma {:induction false} BalanceClosedForm(owed: real, rate: real, emi: real, k: nat)
    ensures rate * ExactBalance(owed, rate, emi, k)
         == rate * owed * Pow(1.0 + rate, k) - emi * (Pow(1.0 + rate, k) - 1.0)
  {
    if k > 0 {
      BalanceClosedForm(owed, rate, emi, k - 1);
      var x, g, b := 1.0 + rate, Pow(1.0 + rate, k - 1), ExactBalance(owed, rate, emi, k - 1);
      calc {
        rate * ExactBalance(owed, rate, emi, k);
        rate * (b * x - emi);
        (rate * b) * x - rate * emi;
        (rate * owed * g - emi * (g - 1.0)) * x - rate * emi;
        rate * owed * (x * g) - emi * (x * g - x + rate);
        rate * owed * (x * g) - emi * (x * g - 1.0);
      }
    }
  }

  lemma {:induction false} BalanceInterestFree(owed: real, emi: real, k: nat)
    ensures ExactBalance(owed, 0.0, emi, k) == owed - k as real * emi
  {
    if k > 0 {
      BalanceInterestFree(owed, emi, k - 1);
      assert k as real * emi == (k - 1) as real * emi + emi;
    }
  }

  lemma ZeroFactor(rate: real, b: real)
    requires rate > 0.0 && rate * b == 0.0
    ensures b == 0.0
  {
  }

  /** `n` payments of the unrounded installment leave nothing owed. */
  lemma ExactEMIClears(principal: int, rate: real, n: int)
    requires rate >= 0.0 && n >= 1
    ensures ExactBalance(principal as real, rate, ExactEMI(principal, rate, n), n) == 0.0
  {
    var p, e := principal as real, ExactEMI(principal, rate, n);
    if rate <= 0.0 {
      BalanceInterestFree(p, e, n);
    } else {
      PowGreaterThanOne(1.0 + rate, n);
      BalanceClosedForm(p, rate, e, n);
      var g := Pow(1.0 + rate, n);
      assert e * (g - 1.0) == p * rate * g;
      ZeroFactor(rate, ExactBalance(p, rate, e, n));
    }
  }

  lemma FirstPayment(owed: real, a: real, e: real)
    requires 1.0 + a > 0.0 && e == owed / (1.0 + a)
    ensures owed - e == e * a
  {
    assert e * (1.0 + a) == owed;
  }

  lemma Cleared(start: real, rate: real, e: real, k: nat)
    requires rate > 0.0 && rate * start * Pow(1.0 + rate, k) == e * (Pow(1.0 + rate, k) - 1.0)
    ensures ExactBalance(start, rate, e, k) == 0.0
  {
    BalanceClosedForm(start, rate, e, k);
    ZeroFactor(rate, ExactBalance(start, rate, e, k));
  }

  lemma Regroup(rate: real, e: real, a: real, g: real)
    requires rate * a * g == g - 1.0
    ensures rate * (e * a) * g == e * (g - 1.0)
  {
    assert rate * (e * a) * g == e * (rate * a * g);
  }

  lemma AnnuityPositive(rate: real, n: int)
    requires rate >= 0.0 && n >= 1
    ensures AnnuityFactor(rate, n) >= 0.0
  {
    if rate > 0.0 {
      PowAtLeastOne(1.0 + rate, n);
      var g := Pow(1.0 + rate, n);
      assert 1.0 / g <= 1.0;
    }
  }

  lemma AnnuityTimes(rate: real, n: int)
    requires rate > 0.0 && n >= 1
    ensures rate * AnnuityFactor(rate, n) * Pow(1.0 + rate, n) == Pow(1.0 + rate, n) - 1.0
  {
    PowAtLeastOne(1.0 + rate, n);
    var g := Pow(1.0 + rate, n);
    var a := AnnuityFactor(rate, n);
    assert rate * a == 1.0 - 1.0 / g;
    assert (1.0 / g) * g == 1.0;
    assert (1.0 - 1.0 / g) * g == g - 1.0;
  }

  /** With a broken first period carrying `firstInterest`, the stub form clears
      the loan in the same number of payments. */
  lemma StubEMIClears(balance: int, firstInterest: int, rate: real, n: int)
    requires rate >= 0.0 && n >= 2
    ensures 1.0 + AnnuityFactor(rate, n - 1) > 0.0
    ensures var e := (balance + firstInterest) as real / (1.0 + AnnuityFactor(rate, n - 1));
            ExactBalance((balance + firstInterest) as real - e, rate, e, n - 1) == 0.0
  {
    AnnuityPositive(rate, n - 1);
    var a := AnnuityFactor(rate, n - 1);
    var owed := (balance + firstInterest) as real;
    var e := owed / (1.0 + a);
    FirstPayment(owed, a, e);
    if rate <= 0.0 {
      BalanceInterestFree(owed - e, e, n - 1);
    } else {
      AnnuityTimes(rate, n - 1);
      Regroup(rate, e, a, Pow(1.0 + rate, n - 1));
      Cleared(owed - e, rate, e, n - 1);
    }
  }

  // ----- rounding drift

  /** Sum of the first `k` powers. */
  function PowerSum(x: real, k: nat): real {
    if k == 0 then 0.0 else PowerSum(x, k - 1) + Pow(x, k - 1)
  }

  lemma {:induction false} PowerSumHorner(x: real, k: nat)
    requires k >= 1
    ensures PowerSum(x, k) == x * PowerSum(x, k - 1) + 1.0
  {
    if k > 1 {
      PowerSumHorner(x, k - 1);
      assert x * (PowerSum(x, k - 2) + Pow(x, k - 2)) == x * PowerSum(x, k - 2) + Pow(x, k - 1);
    }
  }

  function Abs(x: real): real { if x < 0.0 then -x else x }

  /** No installment before the last is held down by its interest or by the
      balance: each pays the level installment in full. */
  predicate Unclamped(t: Terms, solve: Solver) {
    forall k :: 0 <= k < t.tenureMonths - 1 ==> Table(t, [], solve)[k].amount == RunAt(t, [], solve, 0).emi
  }

  lemma {:induction false} EmiStays(t: Terms, solve: Solver, k: nat)
    ensures RunAt(t, [], solve, k).emi == RunAt(t, [], solve, 0).emi && RunAt(t, [], solve, k).next == 0
  {
    if k > 0 { EmiStays(t, solve, k - 1); }
  }

  lemma OpeningIsRemaining(t: Terms, solve: Solver, k: int)
    requires k >= 1
    ensures Opening(t, [], solve, k) == RunAt(t, [], solve, k - 1).remaining
  {
    EmiStays(t, solve, k - 1);
    var none: seq<Adjustment> := [];
    assert none[0..0] == [];
  }

  lemma AbsTimes(g: real, x: real)
    requires x >= 0.0
    ensures Abs(g * x) == Abs(g) * x
  {
  }

  lemma AbsOfSum(whole: real, u: real, rounding: real, extra: real, bound: real)
    requires whole == u + rounding - extra && Abs(u) <= bound && Abs(rounding) <= 0.5
    ensures Abs(whole) <= bound + (Abs(extra) + 0.5)
  {
  }

  /** The allowance after `k` periods: what the charged installment is off by
      and half a unit of rounding, each period, compounded. */
  function Allowance(off: real, rate: real, k: nat): real {
    if k == 0 then 0.0 else Allowance(off, rate, k - 1) * (1.0 + rate) + (Abs(off) + 0.5)
  }

  lemma Spread(c: real, x: real, s: real)
    ensures c * (x * s + 1.0) == c * s * x + c
  {
  }

  lemma {:induction false} AllowanceIs(off: real, rate: real, k: nat)
    ensures Allowance(off, rate, k) == (Abs(off) + 0.5) * PowerSum(1.0 + rate, k)
  {
    if k > 0 {
      AllowanceIs(off, rate, k - 1);
      PowerSumHorner(1.0 + rate, k);
      Spread(Abs(off) + 0.5, 1.0 + rate, PowerSum(1.0 + rate, k - 1));
    }
  }

  lemma DriftParts(b: real, bx: real, interest: real, rate: real, emi: real, exact: real)
    ensures (b + interest - emi) - (bx * (1.0 + rate) - exact)
              == (b - bx) * (1.0 + rate) + (interest - b * rate) - (emi - exact)
  {
  }

  // One period: the gap to the exact balance grows by the rate and by what the
  // rounding and the charged installment add.
  lemma DriftStep(b: real, bx: real, interest: real, rate: real, emi: real, exact: real, bound: real,
                  b': real, bx': real, bound': real)
    requires rate >= 0.0 && Abs(interest - b * rate) <= 0.5 && Abs(b - bx) <= bound
    requires b' == b + interest - emi && bx' == bx * (1.0 + rate) - exact
    requires bound' == bound * (1.0 + rate) + (Abs(emi - exact) + 0.5)
    ensures Abs(b' - bx') <= bound'
  {
    var x, gap := 1.0 + rate, b - bx;
    DriftParts(b, bx, interest, rate, emi, exact);
    AbsTimes(gap, x);
    ProductMonotone(Abs(gap), bound, x);
    AbsOfSum(b' - bx', gap * x, interest - b * rate, emi - exact, bound * x);
  }

  // The table's own step, for an installment that is not held down.
  lemma PlainStep(t: Terms, solve: Solver, k: int)
    requires TermsOk(t) && Stub(t).None? && Unclamped(t, solve) && 1 <= k < t.tenureMonths
    ensures var b, emi := RunAt(t, [], solve, k - 1).remaining, RunAt(t, [], solve, 0).emi;
            RunAt(t, [], solve, k).remaining == b + MonthInterest(b, t.annualRateBps) - emi
  {
    EntryAt(t, [], solve, k);
    OpeningIsRemaining(t, solve, k);
    assert Table(t, [], solve)[k - 1].amount == RunAt(t, [], solve, 0).emi;
  }

  lemma InterestIsNear(b: int, bps: int)
    ensures Abs(MonthInterest(b, bps) as real - b as real * MonthlyRate(bps)) <= 0.5
  {
    RoundIsNear(b as real * MonthlyRate(bps));
  }

  /** How far the table's balance is from the exact one. */
  function Gap(balance: int, principal: int, rate: real, exact: real, k: nat): real {
    Abs(balance as real - ExactBalance(principal as real, rate, exact, k))
  }

  lemma GapGrows(principal: int, rate: real, b: int, interest: int, emi: int, exact: real, k: nat)
    requires k >= 1 && rate >= 0.0 && Abs(interest as real - b as real * rate) <= 0.5
    requires Gap(b, principal, rate, exact, k - 1) <= Allowance(emi as real - exact, rate, k - 1)
    ensures Gap(b + interest - emi, principal, rate, exact, k) <= Allowance(emi as real - exact, rate, k)
  {
    DriftStep(b as real, ExactBalance(principal as real, rate, exact, k - 1), interest as real, rate,
      emi as real, exact, Allowance(emi as real - exact, rate, k - 1),
      (b + interest - emi) as real, ExactBalance(principal as real, rate, exact, k),
          Allowance(emi as real - exact, rate, k));
  }

  predicate Within(principal: int, bps: int, emi: int, exact: real, k: nat, balance: int) {
    Gap(balance, principal, MonthlyRate(bps), exact, k) <= Allowance(emi as real - exact, MonthlyRate(bps), k)
  }

  lemma WithinGrows(principal: int, bps: int, emi: int, exact: real, k: nat, b: int, after: int)
    requires k >= 1 && bps >= 0 && Within(principal, bps, emi, exact, k - 1, b)
    requires after == b + MonthInterest(b, bps) - emi
    ensures Within(principal, bps, emi, exact, k, after)
  {
    InterestIsNear(b, bps);
    GapGrows(principal, MonthlyRate(bps), b, MonthInterest(b, bps), emi, exact, k);
  }

  lemma {:induction false} BalanceDrift(t: Terms, solve: Solver, exact: real, k: nat)
    requires TermsOk(t) && Stub(t).None? && Unclamped(t, solve) && k < t.tenureMonths
    ensures Within(t.principal, t.annualRateBps, RunAt(t, [], solve, 0).emi, exact, k, RunAt(t, [], solve, k).remaining)
  {
    if k > 0 {
      BalanceDrift(t, solve, exact, k - 1);
      PlainStep(t, solve, k);
      WithinGrows(t.principal, t.annualRateBps, RunAt(t, [], solve, 0).emi, exact, k,
        RunAt(t, [], solve, k - 1).remaining, RunAt(t, [], solve, k).remaining);
    }
  }

  lemma FinalIsWhatIsLeft(t: Terms, solve: Solver)
    requires TermsOk(t) && Stub(t).None?
    ensures var n := t.tenureMonths;
            var b := RunAt(t, [], solve, n - 1).remaining;
            Table(t, [], solve)[n - 1].amount == b + MonthInterest(b, t.annualRateBps)
  {
    EntryAt(t, [], solve, t.tenureMonths);
    OpeningIsRemaining(t, solve, t.tenureMonths);
  }

  // At the end the exact balance is zero, so the gap is the whole difference.
  lemma GapAtTheEnd(principal: int, bps: int, emi: int, n: int, after: int)
    requires n >= 1 && bps >= 0 && Within(principal, bps, emi, ExactEMI(principal, MonthlyRate(bps), n), n, after)
    ensures Abs(after as real) <= Allowance(emi as real - ExactEMI(principal, MonthlyRate(bps), n), MonthlyRate(bps), n)
  {
    ExactEMIClears(principal, MonthlyRate(bps), n);
  }

  /** In a plain table (whole first month, no transfer, no clamped installment)
      the final installment strays from the charged one by at most the charged
      installment's distance from the exact one, plus half a unit, for every
      period, compounded. */
  lemma FinalInstallmentDrift(t: Terms, solve: Solver)
    requires TermsOk(t) && Stub(t).None? && Unclamped(t, solve)
    ensures var rate, n, emi := MonthlyRate(t.annualRateBps), t.tenureMonths, RunAt(t, [], solve, 0).emi;
            Abs((Table(t, [], solve)[n - 1].amount - emi) as real)
              <= Allowance(emi as real - ExactEMI(t.principal, rate, n), rate, n)
  {
    var n, emi := t.tenureMonths, RunAt(t, [], solve, 0).emi;
    var exact := ExactEMI(t.principal, MonthlyRate(t.annualRateBps), n);
    BalanceDrift(t, solve, exact, n - 1);
    FinalIsWhatIsLeft(t, solve);
    var last := Table(t, [], solve)[n - 1].amount;
    WithinGrows(t.principal, t.annualRateBps, emi, exact, n, RunAt(t, [], solve, n - 1).remaining, last - emi);
    GapAtTheEnd(t.principal, t.annualRateBps, emi, n, last - emi);
  }

  lemma QuoteIsWithinARupee(principal: int, rate: real, n: int)
    requires n >= 1
    ensures -0.5 <= RupeeCeil(LoanEMI(principal, rate, n)) as real - ExactEMI(principal, rate, n) <= 99.5
  {
    var exact := ExactEMI(principal, rate, n);
    RoundIsNear(exact);
    var rounded := Round(exact);
    assert rounded <= RupeeCeil(rounded) <= rounded + 99;
  }

  lemma {:induction false} PowerSumNonNegative(x: real, k: nat)
    requires x >= 1.0
    ensures PowerSum(x, k) >= 0.0
  {
    if k > 0 {
      PowerSumNonNegative(x, k - 1);
      PowAtLeastOne(x, k - 1);
    }
  }

  lemma AllowanceWithinARupee(off: real, rate: real, k: nat)
    requires -0.5 <= off <= 99.5 && rate >= 0.0
    ensures Allowance(off, rate, k) <= 100.0 * PowerSum(1.0 + rate, k)
  {
    AllowanceIs(off, rate, k);
    PowerSumNonNegative(1.0 + rate, k);
    ProductMonotone(Abs(off) + 0.5, 100.0, PowerSum(1.0 + rate, k));
  }

  /** The installment the program quotes is within a rupee of the exact one, so
      the last installment is within a rupee per period, compounded. */
  lemma QuotedDrift(t: Terms)
    requires TermsOk(t) && Stub(t).None? && Unclamped(t, Quoted(t))
    ensures var n, emi := t.tenureMonths, RunAt(t, [], Quoted(t), 0).emi;
            Abs((Table(t, [], Quoted(t))[n - 1].amount - emi) as real)
              <= 100.0 * PowerSum(1.0 + MonthlyRate(t.annualRateBps), n)
  {
    var rate, n, emi := MonthlyRate(t.annualRateBps), t.tenureMonths, RunAt(t, [], Quoted(t), 0).emi;
    FinalInstallmentDrift(t, Quoted(t));
    QuoteIsWithinARupee(t.principal, rate, n);
    assert emi == RupeeCeil(LoanEMI(t.principal, rate, n));
    AllowanceWithinARupee(emi as real - ExactEMI(t.principal, rate, n), rate, n);
  }
}
