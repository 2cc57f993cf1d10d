/** What the derived loan's figures are in terms of its rows: its transfers, its
    payments and its installments. */
module LoanFigures {
  import opened Options
  import opened Calendar
  import opened Amortization
  import opened AmortizationProofs
  import opened LoanDetail
  import opened LoanTransfers
  import opened LoanInterest

  /** The sum of `v` over the elements that satisfy `p`. */
  function SumWhere<T>(s: seq<T>, p: T -> bool, v: T -> int): int {
    if s == [] then 0
    else SumWhere(s[..|s| - 1], p, v) + if p(s[|s| - 1]) then v(s[|s| - 1]) else 0
  }

  lemma {:induction false} SameSum<S, T>(a: seq<S>, p: S -> bool, v: S -> int, b: seq<T>, q: T -> bool, w: T -> int)
    requires |a| == |b|
    requires forall i :: 0 <= i < |a| ==> p(a[i]) == q(b[i]) && (p(a[i]) ==> v(a[i]) == w(b[i]))
    ensures SumWhere(a, p, v) == SumWhere(b, q, w)
  {
    if a != [] {
      SameSum(a[..|a| - 1], p, v, b[..|b| - 1], q, w);
    }
  }

  // Only the first `m` are selected.
  lemma {:induction false} SumOfPrefix<T>(s: seq<T>, m: nat, p: T -> bool, v: T -> int)
    requires m <= |s| && forall i :: m <= i < |s| ==> !p(s[i])
    ensures SumWhere(s, p, v) == SumWhere(s[..m], p, v)
    decreases |s|
  {
    if m < |s| {
      SumOfPrefix(s[..|s| - 1], m, p, v);
      assert s[..|s| - 1][..m] == s[..m];
    } else {
      assert s[..m] == s;
    }
  }

  // ----- payments

  const IsDebit := (p: Payment) => !p.credit
  const IsCredit := (p: Payment) => p.credit
  const PaymentAmount := (p: Payment) => p.amount

  /** Payments out count, refunds are taken off; an installment is covered by a
      payment out. */
  lemma {:induction false} PaymentsAre(ps: seq<Payment>)
    ensures PaidAmount(ps) == SumWhere(ps, IsDebit, PaymentAmount) - SumWhere(ps, IsCredit, PaymentAmount)
    ensures Debits(ps) == SumWhere(ps, IsDebit, (p: Payment) => 1)
  {
    if ps != [] {
      PaymentsAre(ps[..|ps| - 1]);
    }
  }

  /** The payment that covered the last covered installment. */
  ghost predicate CoveredLast(ps: seq<Payment>, n: nat, k: nat) {
    k < |ps| && !ps[k].credit && SumWhere(ps[..k + 1], IsDebit, (p: Payment) => 1) == Covered(ps, n)
  }

  lemma {:induction false} LastPaidIs(ps: seq<Payment>, n: nat)
    ensures LastPaidOn(ps, n) == None <==> Covered(ps, n) == 0
    ensures LastPaidOn(ps, n).Some? ==> exists k: nat :: CoveredLast(ps, n, k) && LastPaidOn(ps, n) == Some(ps[k].date)
  {
    if ps != [] {
      var last := |ps| - 1;
      PaymentsAre(ps);
      if !ps[last].credit && Debits(ps) <= n {
        assert ps[..last + 1] == ps;
        assert CoveredLast(ps, n, last);
      } else {
        LastPaidIs(ps[..last], n);
        if LastPaidOn(ps[..last], n).Some? {
          var k: nat :| CoveredLast(ps[..last], n, k) && LastPaidOn(ps[..last], n) == Some(ps[..last][k].date);
          assert ps[..last][..k + 1] == ps[..k + 1];
          assert CoveredLast(ps, n, k);
        }
      }
    }
  }

  // ----- transfers

  function Recasting(loan: LoanId): Transfer -> bool {
    (t: Transfer) => t.to == loan && t.mode == Recast
  }

  function TakingOver(loan: LoanId): Transfer -> bool {
    (t: Transfer) => t.to == loan && t.mode == Takeover
  }

  const TransferAmount := (t: Transfer) => t.amount

  predicate FromTransfer(loan: LoanId, a: Adjustment, t: Transfer) {
    Recasting(loan)(t) && a == Adjustment(t.date, t.amount)
  }

  const One := (t: Transfer) => 1

  /** What recasts the loan and what is paid out of it in cash. */
  lemma {:induction false} TransferSums(loan: LoanId, ts: seq<Transfer>)
    ensures AmountSum(Adjustments(loan, ts)) == SumWhere(ts, Recasting(loan), TransferAmount)
    ensures |Adjustments(loan, ts)| == SumWhere(ts, Recasting(loan), One)
    ensures PaidOut(loan, ts) == SumWhere(ts, TakingOver(loan), TransferAmount)
  {
    if ts != [] {
      var t, adj := ts[|ts| - 1], Adjustments(loan, ts[..|ts| - 1]);
      TransferSums(loan, ts[..|ts| - 1]);
      assert (adj + [Adjustment(t.date, t.amount)])[..|adj|] == adj && adj + [] == adj;
    }
  }

  /** Each recast into the loan is an adjustment, and they keep their order. */
  lemma {:induction false} RecastIsAdjustment(loan: LoanId, ts: seq<Transfer>, k: nat)
    requires k < |ts| && Recasting(loan)(ts[k])
    ensures var at := SumWhere(ts[..k], Recasting(loan), One);
            0 <= at < |Adjustments(loan, ts)| && FromTransfer(loan, Adjustments(loan, ts)[at], ts[k])
    decreases |ts|
  {
    var init := ts[..|ts| - 1];
    TransferSums(loan, init);
    if k < |init| {
      RecastIsAdjustment(loan, init, k);
      assert init[..k] == ts[..k];
    }
  }

  /** A loan is settled exactly when one of its transfers goes elsewhere, on the
      date of the last of them. */
  lemma {:induction false} SettledIs(loan: LoanId, ts: seq<Transfer>)
    ensures SettledOn(loan, ts) == None <==> forall k :: 0 <= k < |ts| ==> ts[k].to == loan
    ensures SettledOn(loan, ts).Some? ==>
              exists k :: 0 <= k < |ts| && ts[k].to != loan && SettledOn(loan, ts) == Some(ts[k].date)
                          && forall j :: k < j < |ts| ==> ts[j].to == loan
  {
    if ts != [] && ts[|ts| - 1].to == loan {
      var init := ts[..|ts| - 1];
      SettledIs(loan, init);
      if SettledOn(loan, init).Some? {
        var k :| 0 <= k < |init| && init[k].to != loan && SettledOn(loan, init) == Some(init[k].date)
                 && forall j :: k < j < |init| ==> init[j].to == loan;
        assert ts[k] == init[k] && forall j :: k < j < |ts| ==> ts[j].to == loan;
      }
    }
  }

  // ----- the installments

  const IsPaid := (e: Entry) => e.paid
  const IsOwed := (e: Entry) => !e.cancelled
  const PrincipalPart := (e: Entry) => e.principal
  const InterestPart := (e: Entry) => e.interest
  const EntryAmount := (e: Entry) => e.amount
  const Every := (e: Entry) => true

  lemma {:induction false} SumsAre(entries: seq<Entry>)
    ensures PrincipalSum(entries) == SumWhere(entries, Every, PrincipalPart)
    ensures InterestSum(entries) == SumWhere(entries, Every, InterestPart)
    ensures PayableSum(entries) == SumWhere(entries, Every, EntryAmount)
  {
    if entries != [] {
      SumsAre(entries[..|entries| - 1]);
    }
  }

  lemma MarkedSum(table: seq<Entry>, m: nat, settled: bool, p: Entry -> bool, v: Entry -> int, n: nat)
    requires m <= |table| && n <= |table|
    requires forall i :: 0 <= i < |table| ==> (p(Marked(table, m, settled)[i]) <==> i < n)
    requires forall i :: 0 <= i < |table| ==> v(Marked(table, m, settled)[i]) == v(table[i])
    ensures SumWhere(Marked(table, m, settled), p, v) == SumWhere(table[..n], Every, v)
  {
    var marked := Marked(table, m, settled);
    SumOfPrefix(marked, n, p, v);
    SameSum(marked[..n], p, v, table[..n], Every, v);
  }

  lemma MarkedFigures(table: seq<Entry>, m: nat, settled: bool)
    requires m <= |table|
    ensures var marked, live := Marked(table, m, settled), if settled then table[..m] else table;
            && PrincipalSum(table[..m]) == SumWhere(marked, IsPaid, PrincipalPart)
            && InterestSum(table[..m]) == SumWhere(marked, IsPaid, InterestPart)
            && InterestSum(live) == SumWhere(marked, IsOwed, InterestPart)
            && PayableSum(live) == SumWhere(marked, IsOwed, EntryAmount)
  {
    var n := if settled then m else |table|;
    assert table[..|table|] == table;
    MarkedSum(table, m, settled, IsPaid, PrincipalPart, m);
    MarkedSum(table, m, settled, IsPaid, InterestPart, m);
    MarkedSum(table, m, settled, IsOwed, InterestPart, n);
    MarkedSum(table, m, settled, IsOwed, EntryAmount, n);
    SumsAre(table[..m]);
    SumsAre(table[..n]);
  }

  /** What is paid is the parts of the paid installments; what the loan costs is
      those of the installments that are not void; what comes due next is the
      first that is neither paid nor void. */
  lemma DetailFigures(loan: LoanId, t: Terms, ts: seq<Transfer>, ps: seq<Payment>)
    requires LoanOk(Some(t), Adjustments(loan, ts))
    ensures var d := DetailOf(loan, Some(t), ts, ps);
            && d.principalPaid == SumWhere(d.entries, IsPaid, PrincipalPart)
            && d.interestPaid == SumWhere(d.entries, IsPaid, InterestPart)
            && d.totalInterest == SumWhere(d.entries, IsOwed, InterestPart)
            && d.totalPayable == SumWhere(d.entries, IsOwed, EntryAmount)
            && (d.nextDue.Some? ==>
                  exists k :: 0 <= k < |d.entries| && d.nextDue == Some(d.entries[k].due)
                              && !d.entries[k].paid && !d.entries[k].cancelled
                              && forall j :: 0 <= j < k ==> d.entries[j].paid || d.entries[j].cancelled)
  {
    var d := DetailOf(loan, Some(t), ts, ps);
    var adj := Adjustments(loan, ts);
    var table, settled := Table(t, adj, Quoted(t)), SettledOn(loan, ts).Some?;
    var m := Covered(ps, |table|);
    MarkedFigures(table, m, settled);
    if d.nextDue.Some? {
      assert d.entries[m].due == table[m].due && !d.entries[m].paid;
    }
  }

  // ----- the settlement quote

  /** Where interest starts to run: the payment that covered the last covered
      installment, or else the release of the money, or else a month before the
      first due date. */
  ghost predicate RunsFrom(t: Terms, ps: seq<Payment>, from: Date)
    requires t.tenureMonths >= 0
  {
    if Covered(ps, t.tenureMonths) > 0 then exists k: nat :: CoveredLast(ps, t.tenureMonths, k) && from == ps[k].date
    else if t.disbursal.Some? then from == t.disbursal.value
    else
      var month := t.firstDue.month - 1;
      && from.month == month
      && from.day == if t.firstDue.day > DaysInMonth(month) then DaysInMonth(month) else t.firstDue.day
  }

  /** The quote is what is outstanding and the interest on it for the days since
      interest started to run, out of thirty. */
  lemma PayoffFigures(loan: LoanId, t: Terms, ts: seq<Transfer>, ps: seq<Payment>, asOf: Date)
    requires LoanOk(Some(t), Adjustments(loan, ts))
    ensures var d := DetailOf(loan, Some(t), ts, ps);
            var q := PayoffFor(d, asOf);
            && RunsFrom(t, ps, q.from) && q.outstanding == d.outstanding && q.amount == d.outstanding + q.accrued
            && (if ToDay(asOf) <= ToDay(q.from) then q.accrued == 0
                else IsRounded(q.accrued, d.outstanding * t.annualRateBps * (ToDay(asOf) - ToDay(q.from)), 3600000))
  {
    var d := DetailOf(loan, Some(t), ts, ps);
    var from := PayoffAnchor(d, asOf);
    LastPaidIs(ps, t.tenureMonths);
    BeforeIsDayOrder(from, asOf);
    BeforeIsDayOrder(asOf, from);
    PayoffCoversPrincipal(loan, t, ts, ps, asOf);
    if Before(from, asOf) {
      BrokenInterestIs(d.outstanding, t.annualRateBps, ToDay(asOf) - ToDay(from));
    }
  }
}
