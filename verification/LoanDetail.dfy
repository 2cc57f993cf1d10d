/** A loan as the program derives it from its terms, its transfers and its
    payments: which installments are paid or void, what is owed, and the quote
    that settles it. */
module LoanDetail {
  import opened Options
  import opened Calendar
  import opened Amortization
  import opened AmortizationProofs

  type LoanId = int

  datatype Mode = Recast | Opens | Takeover

  datatype Transfer = Transfer(id: int, from: LoanId, to: LoanId, amount: int, principal: int, date: Date, mode: Mode)

  datatype Payment = Payment(amount: int, date: Date, credit: bool)

  datatype Detail = Detail(
    schedule: Option<Terms>, emi: int, entries: seq<Entry>, settledOn: Option<Date>,
    paidAmount: int, lastPaid: Option<Date>, paidInstallments: int,
    principalPaid: int, interestPaid: int, totalInterest: int, totalPayable: int,
    paidOut: int, outstanding: int, completed: bool, nextDue: Option<Date>)

  const NoDetail := Detail(None, 0, [], None, 0, None, 0, 0, 0, 0, 0, 0, 0, false, None)

  // ----- what the rows say

  /** Transfers that recast the loan, in the order they take effect. */
  function Adjustments(loan: LoanId, ts: seq<Transfer>): seq<Adjustment> {
    if ts == [] then []
    else
      var t := ts[|ts| - 1];
      Adjustments(loan, ts[..|ts| - 1])
      + if t.to == loan && t.mode == Recast then [Adjustment(t.date, t.amount)] else []
  }

  function PaidOut(loan: LoanId, ts: seq<Transfer>): int {
    if ts == [] then 0
    else
      var t := ts[|ts| - 1];
      PaidOut(loan, ts[..|ts| - 1]) + if t.to == loan && t.mode == Takeover then t.amount else 0
  }

  /** The date of the last transfer out of the loan; `ts` are its own transfers. */
  function SettledOn(loan: LoanId, ts: seq<Transfer>): Option<Date> {
    if ts == [] then None
    else if ts[|ts| - 1].to != loan then Some(ts[|ts| - 1].date)
    else SettledOn(loan, ts[..|ts| - 1])
  }

  function Debits(ps: seq<Payment>): nat {
    if ps == [] then 0 else Debits(ps[..|ps| - 1]) + if ps[|ps| - 1].credit then 0 else 1
  }

  function PaidAmount(ps: seq<Payment>): int {
    if ps == [] then 0
    else
      var p := ps[|ps| - 1];
      PaidAmount(ps[..|ps| - 1]) + if p.credit then -p.amount else p.amount
  }

  /** The date of the last payment that covered one of `n` installments. */
  function LastPaidOn(ps: seq<Payment>, n: nat): Option<Date> {
    if ps == [] then None
    else if !ps[|ps| - 1].credit && Debits(ps) <= n then Some(ps[|ps| - 1].date)
    else LastPaidOn(ps[..|ps| - 1], n)
  }

  function Covered(ps: seq<Payment>, n: nat): nat {
    if Debits(ps) < n then Debits(ps) else n
  }

  function InterestSum(entries: seq<Entry>): int {
    if entries == [] then 0 else InterestSum(entries[..|entries| - 1]) + entries[|entries| - 1].interest
  }

  function PayableSum(entries: seq<Entry>): int {
    if entries == [] then 0 else PayableSum(entries[..|entries| - 1]) + entries[|entries| - 1].amount
  }

  /** The first `m` installments are paid; the rest are void once settled. */
  function Marked(table: seq<Entry>, m: nat, settled: bool): seq<Entry> {
    seq(|table|, i requires 0 <= i < |table| => table[i].(paid := i < m, cancelled := settled && i >= m))
  }

  predicate Fresh(table: seq<Entry>) {
    forall i :: 0 <= i < |table| ==> !table[i].paid && !table[i].cancelled
  }

  function DetailFrom(t: Terms, adj: seq<Adjustment>, settled: Option<Date>, paidOut: int, ps: seq<Payment>,
                      emi: int, table: seq<Entry>): Detail {
    var n := |table|;
    var m := Covered(ps, n);
    var live := if settled.Some? then table[..m] else table;
    var left := t.principal + AmountSum(adj) - PrincipalSum(table[..m]);
    Detail(Some(t), emi, Marked(table, m, settled.Some?), settled,
      PaidAmount(ps), LastPaidOn(ps, n), m,
      PrincipalSum(table[..m]), InterestSum(table[..m]), InterestSum(live), PayableSum(live),
      paidOut, if settled.Some? || left < 0 then 0 else left,
      settled.Some? || m == n,
      if settled.Some? || m == n then None else Some(table[m].due))
  }

  /** The derived loan. */
  function DetailOf(loan: LoanId, sched: Option<Terms>, ts: seq<Transfer>, ps: seq<Payment>): Detail {
    if sched.None? then NoDetail
    else
      var adj := Adjustments(loan, ts);
      DetailFrom(sched.value, adj, SettledOn(loan, ts), PaidOut(loan, ts), ps,
        LastEMI(sched.value, adj, Quoted(sched.value)), Table(sched.value, adj, Quoted(sched.value)))
  }

  // ----- the derivation as the program runs it

  method NextUnpaid(entries: seq<Entry>) returns (i: nat)
    ensures i <= |entries|
    ensures forall k :: 0 <= k < i ==> entries[k].cancelled || entries[k].paid
    ensures i < |entries| ==> !entries[i].cancelled && !entries[i].paid
  {
    i := 0;
    while i < |entries| && (entries[i].cancelled || entries[i].paid)
      invariant i <= |entries| && forall k :: 0 <= k < i ==> entries[k].cancelled || entries[k].paid
    {
      i := i + 1;
    }
  }

  lemma FirstUnpaid(table: seq<Entry>, m: nat, settled: bool, i: nat)
    requires m <= |table| && i <= |table| && !settled
    requires forall k :: 0 <= k < i ==> Marked(table, m, settled)[k].cancelled || Marked(table, m, settled)[k].paid
    requires i < |table| ==> !Marked(table, m, settled)[i].cancelled && !Marked(table, m, settled)[i].paid
    ensures i == m
  {
    assert m < |table| ==> !Marked(table, m, settled)[m].paid;
  }

  /** Each debit payment covers the first installment still owed. */
  method MatchPayments(table: seq<Entry>, ps: seq<Payment>)
    returns (entries: seq<Entry>, paidAmount: int, lastPaid: Option<Date>)
    requires Fresh(table)
    ensures entries == Marked(table, Covered(ps, |table|), false)
    ensures paidAmount == PaidAmount(ps) && lastPaid == LastPaidOn(ps, |table|)
  {
    entries, paidAmount, lastPaid := table, 0, None;
    assert table == Marked(table, 0, false);
    for k := 0 to |ps|
      invariant entries == Marked(table, Covered(ps[..k], |table|), false)
      invariant paidAmount == PaidAmount(ps[..k]) && lastPaid == LastPaidOn(ps[..k], |table|)
    {
      var p := ps[k];
      assert ps[..k + 1][..k] == ps[..k];
      if p.credit {
        paidAmount := paidAmount - p.amount;
      } else {
        paidAmount := paidAmount + p.amount;
        var next := NextUnpaid(entries);
        FirstUnpaid(table, Covered(ps[..k], |table|), false, next);
        if next < |entries| {
          entries := entries[next := entries[next].(paid := true)];
          assert entries == Marked(table, next + 1, false);
          lastPaid := Some(p.date);
        }
      }
    }
    assert ps[..|ps|] == ps;
  }

  /** Voids what a settlement left unpaid and totals the rest. */
  method Totals(entries: seq<Entry>, settled: bool, ghost table: seq<Entry>, ghost m: nat)
    returns (out: seq<Entry>, paid: int, principal: int, interest: int, totalInterest: int, payable: int, owed: int)
    requires m <= |table| && entries == Marked(table, m, false)
    ensures out == Marked(table, m, settled)
    ensures paid == m && principal == PrincipalSum(table[..m]) && interest == InterestSum(table[..m])
    ensures totalInterest == InterestSum(if settled then table[..m] else table)
    ensures payable == PayableSum(if settled then table[..m] else table)
    ensures owed == if settled then m else |table|
  {
    out, paid, principal, interest, totalInterest, payable, owed := entries, 0, 0, 0, 0, 0, 0;
    for i := 0 to |entries|
      invariant |out| == |entries|
      invariant forall k :: 0 <= k < i ==> out[k] == Marked(table, m, settled)[k]
      invariant forall k :: i <= k < |out| ==> out[k] == entries[k]
      invariant paid == (if i < m then i else m)
      invariant principal == PrincipalSum(table[..if i < m then i else m])
      invariant interest == InterestSum(table[..if i < m then i else m])
      invariant totalInterest == InterestSum(table[..if settled && m < i then m else i])
      invariant payable == PayableSum(table[..if settled && m < i then m else i])
      invariant owed == if settled && m < i then m else i
    {
      assert table[..i + 1][..i] == table[..i];
      out := out[i := out[i].(cancelled := settled && !out[i].paid)];
      if !out[i].cancelled {
        owed := owed + 1;
        if out[i].paid {
          paid, principal, interest := paid + 1, principal + out[i].principal, interest + out[i].interest;
        }
        totalInterest, payable := totalInterest + out[i].interest, payable + out[i].amount;
      }
    }
    assert table[..|table|] == table;
  }

  lemma {:induction false} RunFresh(t: Terms, adj: seq<Adjustment>, solve: Solver, k: nat)
    ensures Fresh(RunAt(t, adj, solve, k).entries)
  {
    if k > 0 { RunFresh(t, adj, solve, k - 1); }
  }

  lemma TableFresh(t: Terms, adj: seq<Adjustment>)
    ensures Fresh(Table(t, adj, Quoted(t)))
  {
    if t.tenureMonths >= 1 { RunFresh(t, adj, Quoted(t), t.tenureMonths); }
  }

  // Reads the transfers into adjustments, cash paid out and the settlement.
  method ReadTransfers(loan: LoanId, ts: seq<Transfer>)
    returns (adj: seq<Adjustment>, paidOut: int, settled: Option<Date>, added: int)
    ensures adj == Adjustments(loan, ts) && paidOut == PaidOut(loan, ts) && settled == SettledOn(loan, ts)
    ensures added == AmountSum(adj)
  {
    adj, paidOut, settled, added := [], 0, None, 0;
    for i := 0 to |ts|
      invariant adj == Adjustments(loan, ts[..i]) && paidOut == PaidOut(loan, ts[..i])
      invariant settled == SettledOn(loan, ts[..i]) && added == AmountSum(adj)
    {
      assert ts[..i + 1][..i] == ts[..i];
      var t := ts[i];
      if t.to != loan {
        settled := Some(t.date);
      } else if t.mode == Recast {
        assert (adj + [Adjustment(t.date, t.amount)])[..|adj|] == adj;
        adj := adj + [Adjustment(t.date, t.amount)];
        added := added + t.amount;
      } else if t.mode == Takeover {
        paidOut := paidOut + t.amount;
      }
    }
    assert ts[..|ts|] == ts;
  }

  // Matches the payments to the table and totals what they leave.
  method Derive(t: Terms, ghost adj: seq<Adjustment>, settled: Option<Date>, paidOut: int, added: int,
                ps: seq<Payment>, emi: int, table: seq<Entry>) returns (d: Detail)
    requires Fresh(table) && added == AmountSum(adj)
    ensures d == DetailFrom(t, adj, settled, paidOut, ps, emi, table)
  {
    ghost var m := Covered(ps, |table|);
    var entries, paidAmount, lastPaid := MatchPayments(table, ps);
    var paid, principal, interest, totalInterest, payable, owed;
    entries, paid, principal, interest, totalInterest, payable, owed := Totals(entries, settled.Some?, table, m);
    var outstanding := t.principal + added - principal;
    if settled.Some? || outstanding < 0 {
      outstanding := 0;
    }
    var completed := paid >= owed;
    var nextDue := None;
    if !completed {
      var next := NextUnpaid(entries);
      FirstUnpaid(table, m, settled.Some?, next);
      if next < |entries| {
        nextDue := Some(entries[next].due);
      }
    }
    d := Detail(Some(t), emi, entries, settled, paidAmount, lastPaid, paid, principal, interest,
      totalInterest, payable, paidOut, outstanding, completed, nextDue);
  }

  /** The loan as `loadLoanScheduleDetail` derives it. */
  method LoadDetail(loan: LoanId, sched: Option<Terms>, ts: seq<Transfer>, ps: seq<Payment>) returns (d: Detail)
    ensures d == DetailOf(loan, sched, ts, ps)
  {
    if sched.None? {
      return NoDetail;
    }
    var t := sched.value;
    var adj, paidOut, settled, added := ReadTransfers(loan, ts);
    var emi, table := LoanAmortization(t, adj);
    TableFresh(t, adj);
    d := Derive(t, adj, settled, paidOut, added, ps, emi, table);
  }
}
