/** Balance transfers between loans: what a transfer does to both derived loans,
    and what deleting it undoes. */
module LoanTransfers {
  import opened Options
  import opened Calendar
  import opened Rounding
  import opened Amortization
  import opened AmortizationProofs
  import opened LoanDetail

  // ----- what a derived loan says

  lemma {:induction false} PrincipalSumSplit(entries: seq<Entry>, m: nat)
    requires m <= |entries|
    ensures PrincipalSum(entries) == PrincipalSum(entries[..m]) + PrincipalSum(entries[m..])
  {
    if m == |entries| {
      assert entries[..m] == entries && entries[m..] == [];
    } else {
      var k := |entries| - 1;
      PrincipalSumSplit(entries[..k], m);
      assert entries[..k][..m] == entries[..m];
      assert entries[m..][..k - m] == entries[..k][m..];
    }
  }

  lemma {:induction false} PrincipalSumNonNegative(entries: seq<Entry>)
    requires forall k :: 0 <= k < |entries| ==> entries[k].principal >= 0
    ensures PrincipalSum(entries) >= 0
  {
    if entries != [] { PrincipalSumNonNegative(entries[..|entries| - 1]); }
  }

  /** The parts of a loan row that the tables guarantee. */
  predicate LoanOk(sched: Option<Terms>, adj: seq<Adjustment>) {
    sched.Some? && TermsOk(sched.value) && AdjustmentsOk(adj)
  }

  // After `m` installments.
  lemma LeftIsUnpaid(t: Terms, adj: seq<Adjustment>, m: nat)
    requires TermsOk(t) && AdjustmentsOk(adj) && m <= t.tenureMonths
    ensures var table := Table(t, adj, Quoted(t));
            t.principal + AmountSum(adj) - PrincipalSum(table[..m])
            == PrincipalSum(table[m..]) + AmountSum(adj[OwedBy(adj, 0, Due(t, t.tenureMonths))..]) >= 0
  {
    var table, owed := Table(t, adj, Quoted(t)), OwedBy(adj, 0, Due(t, t.tenureMonths));
    RepaysExactly(t, adj, Quoted(t));
    PrincipalSumSplit(table, m);
    PrincipalSumNonNegative(table[m..]);
    AmountSumSplit(adj, owed, |adj|);
    assert adj[..|adj|] == adj && adj[owed..|adj|] == adj[owed..];
    AmountSumNonNegative(adj[owed..]);
  }

  /** A live loan owes the principal parts of its unpaid installments and the
      transfers no installment has taken up yet; that is never negative, so the
      clamp on the outstanding figure never fires. */
  lemma OutstandingIsUnpaid(loan: LoanId, t: Terms, ts: seq<Transfer>, ps: seq<Payment>)
    requires LoanOk(Some(t), Adjustments(loan, ts)) && SettledOn(loan, ts).None?
    ensures var d, adj := DetailOf(loan, Some(t), ts, ps), Adjustments(loan, ts);
            var table := Table(t, adj, Quoted(t));
            && d.outstanding == PrincipalSum(table[Covered(ps, |table|)..])
                 + AmountSum(adj[OwedBy(adj, 0, Due(t, t.tenureMonths))..])
            && d.outstanding == t.principal + AmountSum(adj) - d.principalPaid
            && d.outstanding >= 0
  {
    LeftIsUnpaid(t, Adjustments(loan, ts), Covered(ps, t.tenureMonths));
  }

  /** Payments cover a prefix of min(debit payments, tenure) installments; a
      settled loan's other installments are void; a loan is complete exactly
      when no installment is left that is neither paid nor void. */
  lemma PaymentsCoverAPrefix(loan: LoanId, t: Terms, ts: seq<Transfer>, ps: seq<Payment>)
    requires LoanOk(Some(t), Adjustments(loan, ts))
    ensures var d, n := DetailOf(loan, Some(t), ts, ps), t.tenureMonths;
            && |d.entries| == n
            && d.paidInstallments == (if Debits(ps) < n then Debits(ps) else n)
            && (forall i :: 0 <= i < n ==> (d.entries[i].paid <==> i < d.paidInstallments))
            && (forall i :: 0 <= i < n ==> (d.entries[i].cancelled <==> d.settledOn.Some? && !d.entries[i].paid))
            && (d.completed <==> forall i :: 0 <= i < n ==> d.entries[i].paid || d.entries[i].cancelled)
            && (d.nextDue.Some? <==> !d.completed)
  {
    var d, n := DetailOf(loan, Some(t), ts, ps), t.tenureMonths;
    var m := d.paidInstallments;
    if d.settledOn.None? && m < n {
      assert !d.entries[m].paid && !d.entries[m].cancelled;
    }
  }

  // ----- the settlement quote

  datatype Payoff = Payoff(from: Date, days: int, outstanding: int, accrued: int, amount: int)

  function PayoffAnchor(d: Detail, asOf: Date): Date {
    if d.lastPaid.Some? then d.lastPaid.value
    else if d.schedule.None? then asOf
    else if d.schedule.value.disbursal.Some? then d.schedule.value.disbursal.value
    else AddMonthsAnchored(d.schedule.value.firstDue, -1)
  }

  function PayoffFor(d: Detail, asOf: Date): Payoff {
    var from := PayoffAnchor(d, asOf);
    if !Before(from, asOf) || d.schedule.None? then Payoff(from, 0, d.outstanding, 0, d.outstanding)
    else
      var days := ToDay(asOf) - ToDay(from);
      var accrued := BrokenPeriodInterest(d.outstanding, d.schedule.value.annualRateBps, days);
      Payoff(from, days, d.outstanding, accrued, d.outstanding + accrued)
  }

  /** A payoff covers at least the principal owed. */
  lemma PayoffCoversPrincipal(loan: LoanId, t: Terms, ts: seq<Transfer>, ps: seq<Payment>, asOf: Date)
    requires LoanOk(Some(t), Adjustments(loan, ts))
    ensures var q := PayoffFor(DetailOf(loan, Some(t), ts, ps), asOf);
            q.accrued >= 0 && q.amount == q.outstanding + q.accrued && 0 <= q.outstanding <= q.amount
  {
    var d := DetailOf(loan, Some(t), ts, ps);
    var from := PayoffAnchor(d, asOf);
    if Before(from, asOf) {
      BeforeIsDayOrder(from, asOf);
      BrokenInterestNonNegative(d.outstanding, t.annualRateBps, ToDay(asOf) - ToDay(from));
    }
  }

  // ----- recasting is local

  lemma {:induction false} OwedSame(adj: seq<Adjustment>, p: nat, a: Adjustment, from: nat, due: Date)
    requires p <= |adj| && from <= p && !Before(a.date, due)
    requires p < |adj| ==> !Before(adj[p].date, due)
    ensures OwedBy(adj, from, due) == OwedBy(adj[..p] + [a] + adj[p..], from, due) <= p
    decreases p - from
  {
    if from < p && Before(adj[from].date, due) {
      OwedSame(adj, p, a, from + 1, due);
    }
  }

  // A step depends on the transfers only through those it takes up.
  lemma StepSame(t: Terms, adj: seq<Adjustment>, adj': seq<Adjustment>, solve: Solver, run: Run, i: int)
    requires run.next <= |adj| && run.next <= |adj'|
    requires OwedBy(adj, run.next, Due(t, i)) == OwedBy(adj', run.next, Due(t, i))
    requires var next := OwedBy(adj, run.next, Due(t, i));
             next <= |adj'| && adj[run.next..next] == adj'[run.next..next]
    ensures Step(t, adj, solve, run, i) == Step(t, adj', solve, run, i)
  {
    var next := OwedBy(adj, run.next, Due(t, i));
    assert AmountSum(adj[run.next..next]) == AmountSum(adj'[run.next..next]);
  }

  lemma EarlierDue(t: Terms, date: Date, k: int)
    requires !Before(date, Due(t, k))
    ensures !Before(date, Due(t, k - 1))
  {
    AnchoredIncreasing(t.firstDue, k - 2, k - 1);
  }

  lemma LocalStep(t: Terms, adj: seq<Adjustment>, p: nat, a: Adjustment, solve: Solver, run: Run, k: int)
    requires p <= |adj| && run.next <= p && !Before(a.date, Due(t, k))
    requires p < |adj| ==> !Before(adj[p].date, Due(t, k))
    ensures Step(t, adj[..p] + [a] + adj[p..], solve, run, k) == Step(t, adj, solve, run, k)
    ensures Step(t, adj, solve, run, k).next <= p
  {
    var adj' := adj[..p] + [a] + adj[p..];
    OwedSame(adj, p, a, run.next, Due(t, k));
    var next := OwedBy(adj, run.next, Due(t, k));
    assert adj'[run.next..next] == adj[run.next..next];
    StepSame(t, adj, adj', solve, run, k);
  }

  lemma NotOwedYet(x: Date, y: Date, due: Date)
    requires Before(x, y) && !Before(x, due)
    ensures !Before(y, due)
  {
  }

  /** A transfer dated `d`, taking its place after the transfers up to `d`,
      leaves the run of every installment due on or before `d` as it was. */
  lemma {:induction false} RecastIsLocal(t: Terms, adj: seq<Adjustment>, p: nat, a: Adjustment, solve: Solver, k: nat)
    requires p <= |adj| && (p < |adj| ==> Before(a.date, adj[p].date))
    requires k >= 1 ==> !Before(a.date, Due(t, k))
    ensures RunAt(t, adj[..p] + [a] + adj[p..], solve, k) == RunAt(t, adj, solve, k)
    ensures RunAt(t, adj, solve, k).next <= p
  {
    if k > 0 {
      EarlierDue(t, a.date, k);
      RecastIsLocal(t, adj, p, a, solve, k - 1);
      if p < |adj| { NotOwedYet(a.date, adj[p].date, Due(t, k)); }
      LocalStep(t, adj, p, a, solve, RunAt(t, adj, solve, k - 1), k);
    }
  }

  /** So installments due on or before the transfer keep every figure. */
  lemma EarlierInstallmentsStay(t: Terms, adj: seq<Adjustment>, p: nat, a: Adjustment, solve: Solver, k: nat)
    requires p <= |adj| && (p < |adj| ==> Before(a.date, adj[p].date))
    requires k <= t.tenureMonths && (k >= 1 ==> !Before(a.date, Due(t, k)))
    ensures Table(t, adj[..p] + [a] + adj[p..], solve)[..k] == Table(t, adj, solve)[..k]
  {
    if t.tenureMonths >= 1 {
      RecastIsLocal(t, adj, p, a, solve, k);
      EntriesStay(t, adj, solve, k, t.tenureMonths);
      EntriesStay(t, adj[..p] + [a] + adj[p..], solve, k, t.tenureMonths);
    }
  }
}
