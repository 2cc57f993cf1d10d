/** The table repays the loan exactly, in parts that are never negative. */
module AmortizationProofs {
  import opened Options
  import opened Calendar
  import opened Rounding
  import opened Amortization

  /** Terms as the schedule endpoint and its table constraints admit them. */
  predicate TermsOk(t: Terms) {
    t.principal >= 0 && t.annualRateBps >= 0 && t.tenureMonths >= 1
  }

  predicate AdjustmentsOk(adj: seq<Adjustment>) {
    forall k :: 0 <= k < |adj| ==> adj[k].amount >= 0
  }

  function PrincipalSum(entries: seq<Entry>): int {
    if entries == [] then 0 else PrincipalSum(entries[..|entries| - 1]) + entries[|entries| - 1].principal
  }

  lemma {:induction false} AmountSumNonNegative(adj: seq<Adjustment>)
    requires AdjustmentsOk(adj)
    ensures AmountSum(adj) >= 0
  {
    if adj != [] { AmountSumNonNegative(adj[..|adj| - 1]); }
  }

  lemma {:induction false} AmountSumSplit(adj: seq<Adjustment>, i: nat, j: nat)
    requires i <= j <= |adj|
    ensures AmountSum(adj[..j]) == AmountSum(adj[..i]) + AmountSum(adj[i..j])
    decreases j
  {
    if i == j {
      assert adj[i..j] == [];
    } else {
      AmountSumSplit(adj, i, j - 1);
      assert adj[..j][..j - 1] == adj[..j - 1];
      assert adj[i..j][..j - 1 - i] == adj[i..j - 1];
    }
  }

  lemma ProductNonNegative(x: real, y: real)
    requires x >= 0.0 && y >= 0.0
    ensures x * y >= 0.0
  {
  }

  lemma ProductMonotone(x: real, y: real, z: real)
    requires x <= y && z >= 0.0
    ensures x * z <= y * z
  {
  }

  lemma BrokenInterestNonNegative(balance: int, bps: int, days: int)
    requires balance >= 0 && bps >= 0 && days >= 0
    ensures BrokenPeriodInterest(balance, bps, days) >= 0
  {
    ProductNonNegative(balance as real, bps as real);
    var monthly := balance as real * bps as real / 120000.0;
    ProductNonNegative(monthly, days as real);
    RoundNonNegative(monthly * days as real / 30.0);
  }

  lemma MonthInterestNonNegative(balance: int, bps: int)
    requires balance >= 0 && bps >= 0
    ensures MonthInterest(balance, bps) >= 0
  {
    ProductNonNegative(balance as real, MonthlyRate(bps));
    RoundNonNegative(balance as real * MonthlyRate(bps));
  }

  lemma MonthInterestMonotone(x: int, y: int, bps: int)
    requires x <= y && bps >= 0
    ensures MonthInterest(x, bps) <= MonthInterest(y, bps)
  {
    ProductMonotone(x as real, y as real, MonthlyRate(bps));
    RoundMonotone(x as real * MonthlyRate(bps), y as real * MonthlyRate(bps));
  }

  lemma InterestNonNegative(t: Terms, balance: int, i: int)
    requires TermsOk(t) && balance >= 0
    ensures InterestAt(t, balance, i) >= 0
  {
    if i == 1 && Stub(t).Some? {
      BeforeIsDayOrder(t.disbursal.value, t.firstDue);
      BrokenInterestNonNegative(balance, t.annualRateBps, Stub(t).value);
    } else {
      MonthInterestNonNegative(balance, t.annualRateBps);
    }
  }

  // ----- one installment

  /** What every installment keeps: it splits into interest and principal, never
      negative, the principal part never runs past the balance, and an
      installment that is not the last never charges more than the installment
      in force or its own interest. */
  ghost predicate EntryOk(t: Terms, e: Entry, balance: int, emi: int, i: int) {
    && e.number == i && e.due == Due(t, i)
    && e.amount == e.principal + e.interest
    && e.interest == InterestAt(t, balance, i)
    && 0 <= e.principal <= balance && 0 <= e.interest
    && e.balance == balance - e.principal
    && (i < t.tenureMonths ==> e.amount <= (if emi > e.interest then emi else e.interest))
    && (i < t.tenureMonths && emi > e.interest ==> e.amount == emi || e.balance == 0)
    && (i == t.tenureMonths ==> e.balance == 0)
  }

  // The balance installment `k` starts from: what was left, plus transfers owed.
  function Opening(t: Terms, adj: seq<Adjustment>, solve: Solver, k: int): int
    requires k >= 1
  {
    var before := RunAt(t, adj, solve, k - 1);
    before.remaining + AmountSum(adj[before.next..OwedBy(adj, before.next, Due(t, k))])
  }

  lemma StepOk(t: Terms, adj: seq<Adjustment>, solve: Solver, k: int)
    requires TermsOk(t) && AdjustmentsOk(adj) && 1 <= k <= t.tenureMonths
    requires RunAt(t, adj, solve, k - 1).remaining >= 0
    ensures var before, r := RunAt(t, adj, solve, k - 1), RunAt(t, adj, solve, k);
            && r.entries == before.entries + [r.entries[|before.entries|]]
            && EntryOk(t, r.entries[|before.entries|], Opening(t, adj, solve, k), r.emi, k)
            && r.remaining == r.entries[|before.entries|].balance
            && before.next <= r.next <= |adj|
            && r.next == OwedBy(adj, before.next, Due(t, k))
            && r.remaining >= 0
  {
    var before := RunAt(t, adj, solve, k - 1);
    var next := OwedBy(adj, before.next, Due(t, k));
    AmountSumNonNegative(adj[before.next..next]);
    InterestNonNegative(t, Opening(t, adj, solve, k), k);
  }

  lemma {:induction false} RunOk(t: Terms, adj: seq<Adjustment>, solve: Solver, k: nat)
    requires TermsOk(t) && AdjustmentsOk(adj) && k <= t.tenureMonths
    ensures var r := RunAt(t, adj, solve, k);
            && r.remaining >= 0
            && PrincipalSum(r.entries) + r.remaining == t.principal + AmountSum(adj[..r.next])
            && (k == t.tenureMonths ==> r.remaining == 0)
  {
    if k == 0 {
      assert adj[..0] == [];
    } else {
      RunOk(t, adj, solve, k - 1);
      StepOk(t, adj, solve, k);
      var before, r := RunAt(t, adj, solve, k - 1), RunAt(t, adj, solve, k);
      AmountSumSplit(adj, before.next, r.next);
      assert r.entries[..k - 1] == before.entries;
    }
  }

  /** Later installments never touch earlier ones. */
  lemma {:induction false} EntriesStay(t: Terms, adj: seq<Adjustment>, solve: Solver, j: nat, k: nat)
    requires j <= k
    ensures RunAt(t, adj, solve, k).entries[..j] == RunAt(t, adj, solve, j).entries
    decreases k
  {
    if j < k {
      EntriesStay(t, adj, solve, j, k - 1);
      assert RunAt(t, adj, solve, k).entries[..k - 1] == RunAt(t, adj, solve, k - 1).entries;
    }
  }

  lemma EntryAt(t: Terms, adj: seq<Adjustment>, solve: Solver, k: int)
    requires TermsOk(t) && AdjustmentsOk(adj) && 1 <= k <= t.tenureMonths
    ensures Table(t, adj, solve)[k - 1] == RunAt(t, adj, solve, k).entries[k - 1]
    ensures EntryOk(t, Table(t, adj, solve)[k - 1], Opening(t, adj, solve, k), RunAt(t, adj, solve, k).emi, k)
    ensures RunAt(t, adj, solve, k).remaining == Table(t, adj, solve)[k - 1].balance
  {
    EntriesStay(t, adj, solve, k, t.tenureMonths);
    RunOk(t, adj, solve, k - 1);
    StepOk(t, adj, solve, k);
  }

  lemma {:induction false} OwedLater(adj: seq<Adjustment>, from: nat, d: Date, later: Date)
    requires from <= |adj| && Before(d, later)
    ensures OwedBy(adj, OwedBy(adj, from, d), later) == OwedBy(adj, from, later)
    decreases |adj| - from
  {
    if from < |adj| && Before(adj[from].date, d) {
      OwedLater(adj, from + 1, d, later);
    }
  }

  // Transfers are taken up in order: those owed by installment `k` are exactly
  // the ones dated before it.
  lemma {:induction false} NextIsOwed(t: Terms, adj: seq<Adjustment>, solve: Solver, k: nat)
    requires k >= 1
    ensures RunAt(t, adj, solve, k).next == OwedBy(adj, 0, Due(t, k))
  {
    if k > 1 {
      NextIsOwed(t, adj, solve, k - 1);
      AnchoredIncreasing(t.firstDue, k - 2, k - 1);
      OwedLater(adj, 0, Due(t, k - 1), Due(t, k));
    }
  }

  /** An installment is its principal and interest parts, none of them
      negative, and leaves no negative balance. */
  predicate PartsOk(e: Entry) {
    e.principal >= 0 && e.interest >= 0 && e.balance >= 0 && e.amount == e.principal + e.interest
  }

  lemma EntryParts(t: Terms, adj: seq<Adjustment>, solve: Solver, k: int)
    requires TermsOk(t) && AdjustmentsOk(adj) && 1 <= k <= t.tenureMonths
    ensures PartsOk(Table(t, adj, solve)[k - 1])
  {
    EntryAt(t, adj, solve, k);
  }

  /** The table repays the loan exactly: it has one row per installment, every
      part and balance is non-negative, the principal parts add up to the
      principal and the transfers owed before the last due date, and the last
      balance is zero. */
  lemma RepaysExactly(t: Terms, adj: seq<Adjustment>, solve: Solver)
    requires TermsOk(t) && AdjustmentsOk(adj)
    ensures var entries, n := Table(t, adj, solve), t.tenureMonths;
            && |entries| == n && entries[n - 1].balance == 0
            && PrincipalSum(entries) == t.principal + AmountSum(adj[..OwedBy(adj, 0, Due(t, n))])
            && forall k :: 0 <= k < n ==> PartsOk(entries[k])
  {
    RunOk(t, adj, solve, t.tenureMonths);
    NextIsOwed(t, adj, solve, t.tenureMonths);
    forall k | 0 <= k < t.tenureMonths
      ensures PartsOk(Table(t, adj, solve)[k])
    {
      EntryParts(t, adj, solve, k + 1);
    }
    EntryAt(t, adj, solve, t.tenureMonths);
  }

  // With no transfer owed in between, an installment starts from the balance
  // the one before it left.
  lemma OpeningFromBalance(t: Terms, adj: seq<Adjustment>, solve: Solver, k: int)
    requires TermsOk(t) && AdjustmentsOk(adj) && 1 <= k < t.tenureMonths
    requires RunAt(t, adj, solve, k + 1).next == RunAt(t, adj, solve, k).next
    ensures Opening(t, adj, solve, k + 1) == RunAt(t, adj, solve, k).remaining
  {
    var r := RunAt(t, adj, solve, k);
    assert OwedBy(adj, r.next, Due(t, k + 1)) == r.next;
    assert adj[r.next..r.next] == [];
  }

  /** Between recasts, and after any broken first period, neither the interest
      nor the balance rises. */
  lemma NothingRisesBetweenRecasts(t: Terms, adj: seq<Adjustment>, solve: Solver, k: int)
    requires TermsOk(t) && AdjustmentsOk(adj) && 1 <= k < t.tenureMonths
    requires k > 1 || Stub(t).None?
    requires RunAt(t, adj, solve, k + 1).next == RunAt(t, adj, solve, k).next
    ensures Table(t, adj, solve)[k].interest <= Table(t, adj, solve)[k - 1].interest
    ensures Table(t, adj, solve)[k].balance <= Table(t, adj, solve)[k - 1].balance
  {
    EntryAt(t, adj, solve, k);
    EntryAt(t, adj, solve, k + 1);
    OpeningFromBalance(t, adj, solve, k);
    MonthInterestMonotone(Opening(t, adj, solve, k + 1), Opening(t, adj, solve, k), t.annualRateBps);
  }
}
